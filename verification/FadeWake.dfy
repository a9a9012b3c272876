/** When a wake keeps the panel lit.

    A wake switches the panel on before it begins its own fade.  A sleep fade that is
    still pending at that moment can switch the panel off again in between. */
module FadeWake {
  import opened Ramp
  import opened Fade
  import opened FadeSteps

  /** The callback holds a power-off that its re-check would still let through. */
  predicate HoldsOff(s: State) {
    || (s.callback.Committed? && s.callback.off && Fresh(s))
    || (s.callback.Written? && Fresh(s))
    || s.callback.Cleared?
  }

  /** No sleep fade is pending and no callback is about to switch the panel off. */
  predicate WakeSafe(s: State) {
    !s.d.pendingOff && !HoldsOff(s)
  }

  /** The run asks for no further power-off. */
  predicate NoSleep(run: seq<Step>) {
    forall step <- run :: step.BeginFade? ==> !step.off
  }

  // ---------------------------------------------------- the safe case

  predicate StarterKeepsOn(starter: Starter) {
    match starter
    case Ready => true
    case NeedTimer => true
    case StopTimer(_, _, off) => !off
    case WriteTarget(_, _, off) => !off
    case SwitchOff(off) => !off
  }

  predicate Lit(s: State) {
    Inv(s) && WakeSafe(s) && StarterKeepsOn(s.starter) && s.d.powered
  }

  lemma LitNext(s: State, step: Step)
    requires Lit(s) && Allowed(s, step) && (step.BeginFade? ==> !step.off)
    ensures Lit(Next(s, step))
  {
    NextKeeps(s, step);
    if !s.callback.Resting? {
      GenerationTells(s.seen, s.starts);
    }
  }

  lemma {:induction false} LitAfter(s: State, run: seq<Step>)
    requires Lit(s) && Runs(s, run) && NoSleep(run)
    ensures Lit(After(s, run))
    decreases run
  {
    if run != [] {
      assert run[0] in run;
      LitNext(s, run[0]);
      LitAfter(Next(s, run[0]), run[1..]);
    }
  }

  // -------------------------------------------------- the unsafe case

  /** Only time passes and the timer task moves. */
  predicate CallbackOnly(run: seq<Step>) {
    forall step <- run :: step.Pass? || step.Expire? || step.CallbackMoves?
  }

  lemma Prepended(s: State, step: Step, rest: seq<Step>) returns (run: seq<Step>)
    requires Allowed(s, step) && Runs(Next(s, step), rest) && CallbackOnly(rest)
    requires step.Pass? || step.Expire? || step.CallbackMoves?
    ensures Runs(s, run) && CallbackOnly(run) && After(s, run) == After(Next(s, step), rest)
  {
    run := [step] + rest;
    assert run[1..] == rest;
  }

  /** The callback in flight is bound to switch the panel off. */
  predicate Doomed(s: State) {
    || HoldsOff(s)
    || (s.d.pendingOff && Fresh(s) && s.callback.Snapped? && s.clock - s.callback.startUs >= s.callback.duration)
    || (s.d.pendingOff && Fresh(s) && s.callback.Computed? && s.callback.finished)
  }

  lemma {:induction false} DoomedGoesDark(s: State) returns (run: seq<Step>)
    requires Inv(s) && Doomed(s)
    ensures Runs(s, run) && CallbackOnly(run) && !After(s, run).d.powered
    decreases StagesLeft(s.callback)
  {
    GenerationTells(s.seen, s.starts);
    var t := Next(s, CallbackMoves);
    NextKeeps(s, CallbackMoves);
    var rest := [];
    if !s.callback.Cleared? {
      rest := DoomedGoesDark(t);
    }
    run := Prepended(s, CallbackMoves, rest);
  }

  /** From a due callback that sees the pending sleep fade. */
  lemma DueGoesDark(s: State) returns (run: seq<Step>)
    requires Inv(s) && s.d.pendingOff && s.callback.Resting? && s.due
    ensures Runs(s, run) && CallbackOnly(run) && !After(s, run).d.powered
  {
    var snapped := Next(s, CallbackMoves);
    NextKeeps(s, CallbackMoves);
    var later := Next(snapped, Pass(s.d.duration));
    NextKeeps(snapped, Pass(s.d.duration));
    var rest := DoomedGoesDark(later);
    var waited := Prepended(snapped, Pass(s.d.duration), rest);
    run := Prepended(s, CallbackMoves, waited);
  }

  /** The running timer's next alarm makes a callback due. */
  lemma TickingGoesDark(s: State) returns (run: seq<Step>)
    requires Inv(s) && s.d.pendingOff && s.callback.Resting? && !s.due && s.d.ticking
    ensures Runs(s, run) && CallbackOnly(run) && !After(s, run).d.powered
  {
    var wait: nat := if s.alarm > s.clock then s.alarm - s.clock else 0;
    var rung := Next(s, Pass(wait));
    NextKeeps(s, Pass(wait));
    var due := Next(rung, Expire);
    NextKeeps(rung, Expire);
    var rest := DueGoesDark(due);
    var expired := Prepended(rung, Expire, rest);
    run := Prepended(s, Pass(wait), expired);
  }

  /** A pending sleep fade can always be run to its end by the timer task alone. */
  lemma {:induction false} PendingGoesDark(s: State) returns (run: seq<Step>)
    requires Inv(s) && s.d.pendingOff && s.starter.Ready?
    ensures Runs(s, run) && CallbackOnly(run) && !After(s, run).d.powered
    decreases StagesLeft(s.callback)
  {
    if Doomed(s) {
      run := DoomedGoesDark(s);
    } else if s.callback.Resting? {
      if s.due {
        run := DueGoesDark(s);
      } else {
        run := TickingGoesDark(s);
      }
    } else {
      GenerationTells(s.seen, s.starts);
      NextKeeps(s, CallbackMoves);
      var rest := PendingGoesDark(Next(s, CallbackMoves));
      run := Prepended(s, CallbackMoves, rest);
    }
  }

  // ----------------------------------------------------------- theorem

  /** After a wake switches the panel on, it stays on through every interleaving until the next
      sleep, exactly when at the wake no sleep fade was pending and no callback had one in hand. */
  lemma {:induction false} WakeStaysLit(brightness: int, now: int, run: seq<Step>)
    requires Percent(brightness) && Runs(InitialState(brightness, now), run)
    requires After(InitialState(brightness, now), run).starter.Ready?
    ensures var s := After(InitialState(brightness, now), run);
            var lit := Next(s, DisplayOn);
            WakeSafe(s) <==> forall more | Runs(lit, more) && NoSleep(more) :: After(lit, more).d.powered
  {
    Reached(InitialState(brightness, now), run);
    var s := After(InitialState(brightness, now), run);
    var lit := Next(s, DisplayOn);
    NextKeeps(s, DisplayOn);
    if WakeSafe(s) {
      forall more | Runs(lit, more) && NoSleep(more) ensures After(lit, more).d.powered {
        LitAfter(lit, more);
      }
    } else {
      var dark: seq<Step>;
      if s.d.pendingOff {
        dark := PendingGoesDark(lit);
      } else {
        dark := DoomedGoesDark(lit);
      }
      assert NoSleep(dark);
    }
  }
}
