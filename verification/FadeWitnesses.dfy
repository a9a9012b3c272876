/** Two runs of the configured brightnesses, one for each promise that the fades can break. */
module FadeWitnesses {
  import opened Fade
  import opened FadeSteps

  /** The late write does happen. From the active 70 a 5 ms fade to 20 is in flight; while its only callback
      holds 20, a wake with no fade sets 70. Both tasks are at rest afterwards, the engine believes 70 and
      the panel stays at 20. */
  lemma LateWriteStays()
    ensures exists run :: Runs(InitialState(70, 0), run)
                          && (var s := After(InitialState(70, 0), run);
                              AtRest(s) && !s.d.active && s.d.current == 70 && s.d.register == 20)
  {
    var s := InitialState(70, 0);
    var run := HeldCommit();
    run := Extended(s, run, BeginFade(70, 0, false));
    run := Extended(s, run, StarterMoves);
    run := Extended(s, run, StarterMoves);
    run := Extended(s, run, StarterMoves);
    run := Extended(s, run, CallbackMoves);
  }

  lemma HeldCommit() returns (run: seq<Step>)
    ensures Runs(InitialState(70, 0), run)
    ensures After(InitialState(70, 0), run)
         == State(Device(70, 20, 20, 0, 5000, 1, false, false, 70, true, false), Committed(1, 20, false), Ready,
                  FADE_STEP_PERIOD_US, 2 * FADE_STEP_PERIOD_US, false, 1, 1, FADE_STEP_PERIOD_US)
  {
    var s := InitialState(70, 0);
    run := Extended(s, [], BeginFade(20, 5000, false));
    run := Extended(s, run, StarterMoves);
    run := Extended(s, run, Pass(FADE_STEP_PERIOD_US));
    run := Extended(s, run, Expire);
    run := Extended(s, run, CallbackMoves);
    run := Extended(s, run, CallbackMoves);
    run := Extended(s, run, CallbackMoves);
  }

  /** A whole 5 ms fade from the active 70 to the dimmed 20 and, a minute later, the beginning of one
      to 0, whose first alarm has been taken. */
  lemma DimmedAndDue() returns (run: seq<Step>)
    ensures Runs(InitialState(70, 0), run)
    ensures After(InitialState(70, 0), run)
         == State(Device(20, 0, 20, 60033000, 5000, 2, true, true, 20, true, true), Resting, Ready,
                  60066000, 60099000, true, 2, 1, 60033000)
  {
    var s := InitialState(70, 0);
    run := HeldCommit();
    run := Extended(s, run, CallbackMoves);
    run := Extended(s, run, Pass(60000000));
    run := Extended(s, run, BeginFade(0, 5000, true));
    run := Extended(s, run, StarterMoves);
    run := Extended(s, run, Pass(33000));
    run := Extended(s, run, Expire);
  }

  /** The stray timer does occur. A push wakes the display to 20, which it still shows, so that the fade to 0
      is cut short and its timer stopped while a callback is due; a touch then begins a 1 ms fade to 70, and the
      due callback finishes it before its timer is started. Both tasks are at rest afterwards, no ramp is in
      flight, and the timer runs on. */
  lemma TimerOutlivesFade()
    ensures exists run :: Runs(InitialState(70, 0), run)
                          && (var s := After(InitialState(70, 0), run);
                              AtRest(s) && !s.d.active && s.d.ticking)
  {
    var s := InitialState(70, 0);
    var run := DimmedAndDue();
    run := Extended(s, run, DisplayOn);
    run := Extended(s, run, BeginFade(20, 1000, false));
    run := Extended(s, run, StarterMoves);
    run := Extended(s, run, StarterMoves);
    run := Extended(s, run, StarterMoves);
    var cut := After(s, run);
    assert cut == State(Device(20, 0, 20, 60033000, 5000, 3, false, false, 20, true, false), Resting, Ready,
                        60066000, 60099000, true, 3, 1, 60066000);
    run := Overtakes(run);
  }

  lemma Overtakes(before: seq<Step>) returns (run: seq<Step>)
    requires Runs(InitialState(70, 0), before)
    requires After(InitialState(70, 0), before)
          == State(Device(20, 0, 20, 60033000, 5000, 3, false, false, 20, true, false), Resting, Ready,
                   60066000, 60099000, true, 3, 1, 60066000)
    ensures Runs(InitialState(70, 0), run)
    ensures var s := After(InitialState(70, 0), run); AtRest(s) && !s.d.active && s.d.ticking
  {
    var s := InitialState(70, 0);
    run := Extended(s, before, BeginFade(70, 1000, false));
    run := Extended(s, run, CallbackMoves);
    run := Extended(s, run, Pass(1000));
    run := Extended(s, run, CallbackMoves);
    run := Extended(s, run, CallbackMoves);
    run := Extended(s, run, CallbackMoves);
    run := Extended(s, run, StarterMoves);
  }
}
