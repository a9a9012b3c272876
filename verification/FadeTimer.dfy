/** When the fade timer runs only for a ramp in flight. */
module FadeTimer {
  import opened Ramp
  import opened Fade
  import opened FadeSteps

  /** The timer runs only for an active fade, or until the short circuit about to stop it does so. */
  predicate TimerHolds(s: State) {
    s.d.ticking ==> s.d.active || s.starter.StopTimer?
  }

  /** The start begins a ramp of at most `us` while none is in flight and a callback is due. */
  predicate Overtaken(s: State, step: Step, us: nat) {
    step.BeginFade? && step.target != s.d.current && 0 < step.duration <= us && !s.d.active && s.due
  }

  /** While a starter is about to run the timer, nothing can end its ramp before `limit`. */
  predicate TimerSafe(s: State, limit: int) {
    && TimerHolds(s)
    && (s.starter.NeedTimer? ==>
          && s.d.active && !s.d.ticking
          && ((!s.due && !Fresh(s)) || limit < s.d.startUs + s.d.duration))
  }

  /** A commit cannot end the ramp of a starter that has yet to run the timer. */
  lemma TimerCommit(s: State, limit: int)
    requires Inv(s) && TimerSafe(s, limit) && s.callback.Computed? && s.clock <= limit
    ensures TimerSafe(Next(s, CallbackMoves), limit)
  {
    GenerationTells(s.seen, s.starts);
  }

  lemma TimerCallback(s: State, limit: int)
    requires Inv(s) && TimerSafe(s, limit) && Allowed(s, CallbackMoves) && !s.callback.Computed?
    ensures TimerSafe(Next(s, CallbackMoves), limit)
  {
  }

  lemma TimerNext(s: State, step: Step, limit: int)
    requires Inv(s) && TimerSafe(s, limit) && Allowed(s, step) && !step.BeginFade? && s.clock <= limit
    ensures TimerSafe(Next(s, step), limit)
  {
    if step.CallbackMoves? {
      if s.callback.Computed? {
        TimerCommit(s, limit);
      } else {
        TimerCallback(s, limit);
      }
    }
  }

  lemma {:induction false} ClockGrows(s: State, run: seq<Step>)
    requires Runs(s, run)
    ensures s.clock <= After(s, run).clock
    decreases run
  {
    if run != [] {
      ClockGrows(Next(s, run[0]), run[1..]);
    }
  }

  lemma {:induction false} TimerReached(s: State, run: seq<Step>, limit: int)
    requires Inv(s) && TimerSafe(s, limit) && Runs(s, run) && NoStart(run) && After(s, run).clock <= limit
    ensures TimerSafe(After(s, run), limit)
    decreases run
  {
    if run != [] {
      assert run[0] in run;
      ClockGrows(s, run);
      NextKeeps(s, run[0]);
      TimerNext(s, run[0], limit);
      TimerReached(Next(s, run[0]), run[1..], limit);
    }
  }

  /** The due callback finishes the ramp before its timer was started. */
  lemma StrayTimer(s: State, target: int, duration: int, off: bool) returns (run: seq<Step>)
    requires Inv(s) && s.starter.Ready? && Allowed(s, BeginFade(target, duration, off))
    requires target != s.d.current && duration > 0 && !s.d.active && s.due
    ensures var t := Next(s, BeginFade(target, duration, off));
            && Runs(t, run) && NoStart(run) && After(t, run).clock == t.clock + duration
            && After(t, run).starter.Ready? && !TimerHolds(After(t, run))
  {
    var t := Next(s, BeginFade(target, duration, off));
    BeginKeeps(s, target, duration, off);
    run := Extended(t, [], CallbackMoves);
    run := Extended(t, run, Pass(duration));
    run := Extended(t, run, CallbackMoves);
    assert After(t, run).callback == Computed(t.d.generation, target, true, t.clock + duration);
    run := Extended(t, run, CallbackMoves);
    run := Extended(t, run, StarterMoves);
  }

  /** From any reachable state whose timer is in order: every interleaving of one more start within
      `us` microseconds leaves the timer running only for a ramp in flight, exactly when the start does
      not begin a ramp of at most `us` while none is in flight and a callback is due. */
  lemma {:induction false} TimerHoldsExactly(brightness: int, now: int, run: seq<Step>,
                                             target: int, duration: int, off: bool, us: nat)
    requires Percent(brightness) && Runs(InitialState(brightness, now), run)
    requires var s := After(InitialState(brightness, now), run);
             TimerHolds(s) && s.starter.Ready? && Allowed(s, BeginFade(target, duration, off))
    ensures var s := After(InitialState(brightness, now), run);
            var t := Next(s, BeginFade(target, duration, off));
            !Overtaken(s, BeginFade(target, duration, off), us) <==>
            forall more | Runs(t, more) && NoStart(more) && After(t, more).starter.Ready?
                          && After(t, more).clock <= t.clock + us ::
              TimerHolds(After(t, more))
  {
    var s := After(InitialState(brightness, now), run);
    var step := BeginFade(target, duration, off);
    var t := Next(s, step);
    Reached(InitialState(brightness, now), run);
    NextKeeps(s, step);
    if Overtaken(s, step, us) {
      var more := StrayTimer(s, target, duration, off);
    } else {
      forall more | Runs(t, more) && NoStart(more) && After(t, more).starter.Ready?
                    && After(t, more).clock <= t.clock + us
        ensures TimerHolds(After(t, more))
      {
        TimerReached(t, more, t.clock + us);
      }
    }
  }
}
