/** When the brightness register shows the brightness the engine believes. */
module FadeRegister {
  import opened Ramp
  import opened Fade
  import opened FadeSteps

  /** A short circuit that still has to write its new brightness. */
  predicate Owes(s: State) {
    (s.starter.StopTimer? || s.starter.WriteTarget?) && s.starter.changed
  }

  /** The register shows `current`, except while somebody holds exactly that value to write next. */
  predicate RegisterHolds(s: State) {
    && (Owes(s) ==> s.starter.target == s.d.current)
    && (s.callback.Committed? && !Owes(s) ==> s.callback.value == s.d.current)
    && (!s.callback.Committed? && !Owes(s) ==> s.d.register == s.d.current)
  }

  /** The start does not short-circuit to another brightness while a callback stands between its
      commit and its write. */
  predicate Calm(s: State, step: Step) {
    step.BeginFade? && step.duration <= 0 && step.target != s.d.current ==> !s.callback.Committed?
  }

  predicate AllCalm(s: State, run: seq<Step>)
    requires Runs(s, run)
    decreases run
  {
    run == [] || (Calm(s, run[0]) && AllCalm(Next(s, run[0]), run[1..]))
  }

  predicate RegisterSafe(s: State) {
    RegisterHolds(s) && (Owes(s) ==> !s.callback.Committed?)
  }

  lemma RegisterNext(s: State, step: Step)
    requires Inv(s) && RegisterSafe(s) && Allowed(s, step) && Calm(s, step)
    ensures RegisterSafe(Next(s, step))
  {
    if !s.callback.Resting? {
      GenerationTells(s.seen, s.starts);
    }
  }

  /** For any durations the register follows `current` all along a run of calm starts. */
  lemma {:induction false} RegisterReached(s: State, run: seq<Step>)
    requires Inv(s) && RegisterSafe(s) && Runs(s, run) && AllCalm(s, run)
    ensures RegisterSafe(After(s, run))
    decreases run
  {
    if run != [] {
      NextKeeps(s, run[0]);
      RegisterNext(s, run[0]);
      RegisterReached(Next(s, run[0]), run[1..]);
    }
  }

  predicate Positive(run: seq<Step>) {
    forall step <- run :: step.BeginFade? ==> step.duration > 0
  }

  lemma {:induction false} PositiveIsCalm(s: State, run: seq<Step>)
    requires Runs(s, run) && Positive(run)
    ensures AllCalm(s, run)
    ensures !Owes(s) ==> !Owes(After(s, run))
    decreases run
  {
    if run != [] {
      assert run[0] in run;
      PositiveIsCalm(Next(s, run[0]), run[1..]);
    }
  }

  /** With positive durations the register is `current` at every moment, except
      between a callback's commit and its write, when that callback holds `current`. */
  lemma {:induction false} RegisterFollows(brightness: int, now: int, run: seq<Step>)
    requires Percent(brightness) && Runs(InitialState(brightness, now), run) && Positive(run)
    ensures var s := After(InitialState(brightness, now), run);
            if s.callback.Committed? then s.callback.value == s.d.current else s.d.register == s.d.current
  {
    var s := InitialState(brightness, now);
    PositiveIsCalm(s, run);
    RegisterReached(s, run);
  }

  /** A short circuit that is not calm, followed by the late write. */
  lemma LateWrite(s: State, target: int, duration: int, off: bool) returns (run: seq<Step>)
    requires Inv(s) && RegisterHolds(s) && s.starter.Ready? && Allowed(s, BeginFade(target, duration, off))
    requires !Calm(s, BeginFade(target, duration, off))
    ensures var t := Next(s, BeginFade(target, duration, off));
            && Runs(t, run) && NoStart(run) && AtRest(After(t, run))
            && After(t, run).d.register == s.d.current && After(t, run).d.current == target
  {
    var t := Next(s, BeginFade(target, duration, off));
    BeginKeeps(s, target, duration, off);
    GenerationTells(t.seen, t.starts);
    run := Extended(t, [], StarterMoves);
    run := Extended(t, run, StarterMoves);
    run := Extended(t, run, StarterMoves);
    run := Extended(t, run, CallbackMoves);
    if s.callback.off {
      run := Extended(t, run, CallbackMoves);
    }
  }

  /** From any reachable state whose register is in order: every interleaving of one more start
      comes to rest with the register at `current` exactly when the start does not short-circuit to
      another brightness while a callback stands between its commit and its write. */
  lemma {:induction false} RegisterHoldsExactly(brightness: int, now: int, run: seq<Step>,
                                                target: int, duration: int, off: bool)
    requires Percent(brightness) && Runs(InitialState(brightness, now), run)
    requires var s := After(InitialState(brightness, now), run);
             RegisterHolds(s) && s.starter.Ready? && Allowed(s, BeginFade(target, duration, off))
    ensures var s := After(InitialState(brightness, now), run);
            var t := Next(s, BeginFade(target, duration, off));
            Calm(s, BeginFade(target, duration, off)) <==>
            forall more | Runs(t, more) && NoStart(more) && AtRest(After(t, more)) ::
              After(t, more).d.register == After(t, more).d.current
  {
    var s := After(InitialState(brightness, now), run);
    var step := BeginFade(target, duration, off);
    var t := Next(s, step);
    Reached(InitialState(brightness, now), run);
    if Calm(s, step) {
      NextKeeps(s, step);
      RegisterNext(s, step);
      forall more | Runs(t, more) && NoStart(more) && AtRest(After(t, more))
        ensures After(t, more).d.register == After(t, more).d.current
      {
        PositiveIsCalm(t, more);
        RegisterReached(t, more);
      }
    } else {
      var more := LateWrite(s, target, duration, off);
    }
  }
}
