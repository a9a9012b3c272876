/** The display adapter: the state machine's outputs applied to the panel, with events and
    timer ticks taken one at a time. */
module Panel {
  import opened Ramp
  import opened Fade
  import opened BurnIdle

  /** The configured lengths of a wake and of a sleep fade, in microseconds. */
  datatype Fades = Fades(wake: int, sleep: int)

  datatype State = State(m: Machine, d: Device, prevOn: bool)

  datatype Happening = Happens(ev: Event, now: int, at: int) | Ticks(now: int)

  /** The device after an output is applied; the fade it starts is stamped with `at`. */
  function Applied(d: Device, prevOn: bool, out: Output, fades: Fades, at: int): Device {
    if out.panelOn && !prevOn then
      StartFade(d.(powered := true), out.brightness, fades.wake, false, at)
    else if !out.panelOn && prevOn then StartFade(d, 0, fades.sleep, true, at)
    else
      StartFade(d, out.brightness, if out.brightness > d.current then fades.wake else fades.sleep, false, at)
  }

  function Next(cfg: Config, fades: Fades, s: State, h: Happening): State
    requires s.d.active ==> s.d.duration > 0
  {
    match h
    case Happens(ev, now, at) =>
      var m := Step(cfg, s.m, ev, now);
      if m.prev.changed then State(m, Applied(s.d, s.prevOn, m.prev, fades, at), m.prev.panelOn)
      else s.(m := m)
    case Ticks(now) => s.(d := Tick(s.d, now))
  }

  function Start(cfg: Config): State {
    State(Init(cfg), Device(0, 0, cfg.activePct, 0, 0, 0, false, false, cfg.activePct, true, false), true)
  }

  // ------------------------------------------------------ the program

  class Adapter {
    const cfg: Config
    const fades: Fades
    const sm: BurnIdleMachine
    const engine: FadeEngine
    var prevPanelOn: bool

    function View(): State
      reads this, sm, engine
    {
      State(sm.View(), engine.View(), prevPanelOn)
    }

    constructor (cfg: Config, fades: Fades)
      requires ConfigValid(cfg)
      ensures View() == Start(cfg) && sm.cfg == cfg
      ensures this.cfg == cfg && this.fades == fades && fresh(sm) && fresh(engine)
    {
      this.cfg := cfg;
      this.fades := fades;
      sm := new BurnIdleMachine(cfg);
      engine := new FadeEngine(cfg.activePct);
      prevPanelOn := true;
    }

    method ApplyOutput(out: Output, at: int)
      modifies this, engine
      ensures engine.View() == Applied(old(engine.View()), old(prevPanelOn), out, fades, at)
      ensures prevPanelOn == out.panelOn
    {
      var waking := out.panelOn && !prevPanelOn;
      var sleeping := !out.panelOn && prevPanelOn;
      if waking {
        engine.SetDisplayOn(true);
        engine.BeginFade(out.brightness, fades.wake, false, at);
      } else if sleeping {
        engine.BeginFade(0, fades.sleep, true, at);
      } else {
        var current := engine.current;
        var goingUp := out.brightness > current;
        var length := if goingUp then fades.wake else fades.sleep;
        engine.BeginFade(out.brightness, length, false, at);
      }
      prevPanelOn := out.panelOn;
    }

    /** One turn of the drain task. */
    method Drain(ev: Event, now: int, at: int)
      requires sm.cfg == cfg && (engine.active ==> engine.duration > 0)
      modifies this, sm, engine
      ensures View() == Next(cfg, fades, old(View()), Happens(ev, now, at))
    {
      var out := sm.HandleEvent(ev, now);
      if out.changed {
        ApplyOutput(out, at);
      }
    }

    /** One tick of the fade timer. */
    method FadeTick(now: int)
      requires engine.active ==> engine.duration > 0
      modifies engine
      ensures View() == Next(cfg, fades, old(View()), Ticks(now))
    {
      engine.FadeStep(now);
    }
  }

  // ------------------------------------------------------------- runs

  function StampOf(h: Happening): int {
    match h
    case Happens(_, _, at) => at
    case Ticks(now) => now
  }

  /** The clock does not run backwards, within one turn or between two. */
  predicate Ordered(run: seq<Happening>, from: int)
    decreases run
  {
    run == [] ||
    (&& from <= StampOf(run[0])
     && (run[0].Happens? ==> from <= run[0].now <= run[0].at)
     && Ordered(run[1..], StampOf(run[0])))
  }

  /** What the machine asks the panel to show. */
  function Wanted(cfg: Config, s: State): Output {
    Shows(cfg, s.m.phase)
  }

  /** The panel follows the machine: while a ramp is active it leads to the wanted output from a
      lit panel; with no ramp active, brightness and power are the wanted output. */
  predicate Follows(cfg: Config, fades: Fades, s: State, now: int) {
    var out := Wanted(cfg, s);
    && SameOutput(s.m.prev, out)
    && s.prevOn == out.panelOn
    && s.d.register == s.d.current && Percent(s.d.current)
    && s.d.ticking == s.d.active
    && (s.d.active ==>
          && s.d.target == out.brightness && s.d.pendingOff == !out.panelOn && s.d.powered
          && Percent(s.d.start) && s.d.startUs <= now
          && s.d.duration > 0 && (s.d.duration == fades.wake || s.d.duration == fades.sleep))
    && (!s.d.active ==> s.d.register == out.brightness && s.d.powered == out.panelOn)
  }

  lemma AppliedFollows(cfg: Config, fades: Fades, s: State, ev: Event, now: int, at: int, from: int)
    requires ConfigValid(cfg) && Follows(cfg, fades, s, from) && from <= now <= at
    ensures Follows(cfg, fades, Next(cfg, fades, s, Happens(ev, now, at)), at)
  {
    var m := Step(cfg, s.m, ev, now);
    var out := m.prev;
    if out.changed {
      if out.panelOn && !s.prevOn {
        StartOutcome(s.d.(powered := true), out.brightness, fades.wake, false, at);
      } else if !out.panelOn && s.prevOn {
        StartOutcome(s.d, 0, fades.sleep, true, at);
      } else {
        var length := if out.brightness > s.d.current then fades.wake else fades.sleep;
        StartOutcome(s.d, out.brightness, length, false, at);
      }
    }
  }

  lemma TickFollows(cfg: Config, fades: Fades, s: State, now: int, from: int)
    requires ConfigValid(cfg) && Follows(cfg, fades, s, from) && from <= now
    ensures Follows(cfg, fades, Next(cfg, fades, s, Ticks(now)), now)
    ensures s.d.active ==>
              (Next(cfg, fades, s, Ticks(now)).d.active <==> now < s.d.startUs + s.d.duration)
  {
    TickOutcome(s.d, now);
    if s.d.active {
      RampAdvances(s.d.start, s.d.target, now - s.d.startUs, now - s.d.startUs, s.d.duration);
    }
  }

  /** The states of a run; ticks are only asked of a device whose ramp has a duration. */
  predicate Runs(cfg: Config, fades: Fades, s: State, run: seq<Happening>)
    decreases run
  {
    run == [] ||
    ((s.d.active ==> s.d.duration > 0) && Runs(cfg, fades, Next(cfg, fades, s, run[0]), run[1..]))
  }

  function After(cfg: Config, fades: Fades, s: State, run: seq<Happening>): State
    requires Runs(cfg, fades, s, run)
    decreases run
  {
    if run == [] then s else After(cfg, fades, Next(cfg, fades, s, run[0]), run[1..])
  }

  function EndOf(run: seq<Happening>, from: int): int {
    if run == [] then from else StampOf(run[|run| - 1])
  }

  lemma {:induction false} RunFollows(cfg: Config, fades: Fades, s: State, run: seq<Happening>, from: int)
    requires ConfigValid(cfg) && Follows(cfg, fades, s, from) && Ordered(run, from)
    ensures Runs(cfg, fades, s, run)
    ensures Follows(cfg, fades, After(cfg, fades, s, run), EndOf(run, from))
    decreases run
  {
    if run != [] {
      match run[0] {
        case Happens(ev, now, at) => AppliedFollows(cfg, fades, s, ev, now, at, from);
        case Ticks(now) => TickFollows(cfg, fades, s, now, from);
      }
      RunFollows(cfg, fades, Next(cfg, fades, s, run[0]), run[1..], StampOf(run[0]));
    }
  }

  // ---------------------------------------------------------- theorems

  /** Over every run, for any fade lengths: an active ramp leads to the wanted brightness and
      power from a lit panel with its timer running; without one the panel shows exactly the
      wanted output. A wanted lit panel is lit. */
  lemma {:induction false} PanelRefinesMachine(cfg: Config, fades: Fades, run: seq<Happening>, from: int)
    requires ConfigValid(cfg) && Ordered(run, from)
    ensures Runs(cfg, fades, Start(cfg), run)
    ensures var s := After(cfg, fades, Start(cfg), run);
            var out := Wanted(cfg, s);
            && (if s.d.active then
                  s.d.target == out.brightness && s.d.pendingOff == !out.panelOn && s.d.powered && s.d.ticking
                else
                  s.d.register == out.brightness && s.d.powered == out.panelOn && !s.d.ticking)
            && (out.panelOn ==> s.d.powered)
  {
    RunFollows(cfg, fades, Start(cfg), run, from);
  }

  predicate OnlyTicks(run: seq<Happening>) {
    forall h <- run :: h.Ticks?
  }

  lemma {:induction false} TicksSettle(cfg: Config, fades: Fades, s: State, run: seq<Happening>, from: int)
    requires ConfigValid(cfg) && Follows(cfg, fades, s, from) && Ordered(run, from) && OnlyTicks(run)
    requires run != [] && s.d.active ==> EndOf(run, from) >= s.d.startUs + s.d.duration
    ensures Runs(cfg, fades, s, run)
    ensures After(cfg, fades, s, run).m == s.m
    ensures run != [] ==> !After(cfg, fades, s, run).d.active
    ensures Follows(cfg, fades, After(cfg, fades, s, run), EndOf(run, from))
    decreases run
  {
    if run != [] {
      var h := run[0];
      assert h in run;
      TickFollows(cfg, fades, s, h.now, from);
      TickOutcome(s.d, h.now);
      var next := Next(cfg, fades, s, h);
      TicksSettle(cfg, fades, next, run[1..], h.now);
    }
  }

  lemma {:induction false} RunsConcat(cfg: Config, fades: Fades, s: State, a: seq<Happening>, b: seq<Happening>)
    requires Runs(cfg, fades, s, a) && Runs(cfg, fades, After(cfg, fades, s, a), b)
    ensures Runs(cfg, fades, s, a + b)
    ensures After(cfg, fades, s, a + b) == After(cfg, fades, After(cfg, fades, s, a), b)
    decreases a
  {
    if a == [] {
      assert a + b == b;
    } else {
      assert (a + b)[1..] == a[1..] + b;
      RunsConcat(cfg, fades, Next(cfg, fades, s, a[0]), a[1..], b);
    }
  }

  lemma OneStep(cfg: Config, fades: Fades, s: State, h: Happening)
    requires s.d.active ==> s.d.duration > 0
    ensures Runs(cfg, fades, s, [h]) && After(cfg, fades, s, [h]) == Next(cfg, fades, s, h)
  {
    assert [h][1..] == [];
    assert After(cfg, fades, Next(cfg, fades, s, h), []) == Next(cfg, fades, s, h);
  }

  /** The fade that begins when an event of any run changes what is shown. Waking lights the panel first; a wake and a
      change to a brighter picture take the wake length, a sleep and a change to a darker one the sleep length. */
  lemma {:induction false} FadeDirections(cfg: Config, fades: Fades, run: seq<Happening>, from: int,
                                          ev: Event, now: int, at: int)
    requires ConfigValid(cfg) && Ordered(run, from) && EndOf(run, from) <= now <= at
    requires fades.wake > 0 && fades.sleep > 0
    ensures Runs(cfg, fades, Start(cfg), run + [Happens(ev, now, at)])
    ensures Runs(cfg, fades, Start(cfg), run)
    ensures var s := After(cfg, fades, Start(cfg), run);
            var t := After(cfg, fades, Start(cfg), run + [Happens(ev, now, at)]);
            var goal := match t.m.phase case Active => cfg.activePct case Dimmed => cfg.dimmedPct case Off => 0;
            && (t.m.phase == s.m.phase ==> t.d == s.d)
            && (t.m.phase != s.m.phase ==>
              && (s.m.phase.Off? ==> t.d.powered)
              && (goal == s.d.current ==> !t.d.active && t.d.register == goal && t.d.powered == !t.m.phase.Off?)
              && (goal != s.d.current ==>
                    && t.d.active && t.d.start == s.d.current && t.d.target == goal && t.d.startUs == at
                    && t.d.pendingOff == t.m.phase.Off?
                    && t.d.duration == if s.m.phase.Off? || goal > s.d.current then fades.wake else fades.sleep))
  {
    var h := Happens(ev, now, at);
    RunFollows(cfg, fades, Start(cfg), run, from);
    var s := After(cfg, fades, Start(cfg), run);
    OneStep(cfg, fades, s, h);
    RunsConcat(cfg, fades, Start(cfg), run, [h]);
    var out := Step(cfg, s.m, ev, now).prev;
    if out.panelOn && !s.prevOn {
      StartOutcome(s.d.(powered := true), out.brightness, fades.wake, false, at);
    } else if !out.panelOn && s.prevOn {
      StartOutcome(s.d, 0, fades.sleep, true, at);
    } else {
      var length := if out.brightness > s.d.current then fades.wake else fades.sleep;
      StartOutcome(s.d, out.brightness, length, false, at);
    }
  }

  /** After any run, timer ticks that outlast the longer of the two fades bring the panel
      to exactly what the machine wants: brightness, power, and a stopped timer. */
  lemma {:induction false} PanelConverges(cfg: Config, fades: Fades, run: seq<Happening>, ticks: seq<Happening>,
                                          from: int)
    requires ConfigValid(cfg) && Ordered(run, from)
    requires OnlyTicks(ticks) && ticks != [] && Ordered(ticks, EndOf(run, from))
    requires EndOf(ticks, 0) >= EndOf(run, from) + fades.wake && EndOf(ticks, 0) >= EndOf(run, from) + fades.sleep
    ensures Runs(cfg, fades, Start(cfg), run) && Runs(cfg, fades, Start(cfg), run + ticks)
    ensures var s := After(cfg, fades, Start(cfg), run + ticks);
            var out := Shows(cfg, After(cfg, fades, Start(cfg), run).m.phase);
            s.d.register == out.brightness && s.d.powered == out.panelOn && !s.d.active && !s.d.ticking
  {
    RunFollows(cfg, fades, Start(cfg), run, from);
    var s := After(cfg, fades, Start(cfg), run);
    TicksSettle(cfg, fades, s, ticks, EndOf(run, from));
    RunsConcat(cfg, fades, Start(cfg), run, ticks);
  }

  /** The events the machine saw during a run. */
  function EventsOf(run: seq<Happening>): seq<Stamped> {
    if run == [] then []
    else
      var h := run[|run| - 1];
      EventsOf(run[..|run| - 1]) + if h.Happens? then [Stamped(h.ev, h.now)] else []
  }

  lemma {:induction false} OrderedSnoc(run: seq<Happening>, from: int)
    requires run != []
    ensures Ordered(run, from) ==>
              var before, h := run[..|run| - 1], run[|run| - 1];
              && Ordered(before, from)
              && EndOf(before, from) <= StampOf(h)
              && (h.Happens? ==> EndOf(before, from) <= h.now <= h.at)
    decreases run
  {
    if |run| > 1 {
      assert run[..|run| - 1][1..] == run[1..][..|run| - 2];
      OrderedSnoc(run[1..], StampOf(run[0]));
    }
  }

  lemma {:induction false} EventsOrdered(run: seq<Happening>)
    requires Ordered(run, 0)
    ensures BurnIdle.Ordered(EventsOf(run), 0) && Latest(EventsOf(run)) <= EndOf(run, 0) && 0 <= EndOf(run, 0)
  {
    if run != [] {
      OrderedSnoc(run, 0);
      var before := EventsOf(run[..|run| - 1]);
      EventsOrdered(run[..|run| - 1]);
      assert forall i :: 0 <= i < |before| ==> before[i].at <= Latest(before);
    }
  }

  lemma {:induction false} AfterSnoc(cfg: Config, fades: Fades, s: State, run: seq<Happening>)
    requires run != [] && Runs(cfg, fades, s, run)
    ensures Runs(cfg, fades, s, run[..|run| - 1])
    ensures var t := After(cfg, fades, s, run[..|run| - 1]);
            && (t.d.active ==> t.d.duration > 0)
            && After(cfg, fades, s, run) == Next(cfg, fades, t, run[|run| - 1])
    decreases run
  {
    if |run| > 1 {
      assert run[..|run| - 1][1..] == run[1..][..|run| - 2];
      AfterSnoc(cfg, fades, Next(cfg, fades, s, run[0]), run[1..]);
    }
  }

  lemma EventsSnoc(run: seq<Happening>)
    requires run != []
    ensures var before, h := run[..|run| - 1], run[|run| - 1];
            && (h.Happens? ==>
                  && EventsOf(run) != []
                  && EventsOf(run)[..|EventsOf(run)| - 1] == EventsOf(before)
                  && EventsOf(run)[|EventsOf(run)| - 1] == Stamped(h.ev, h.now))
            && (h.Ticks? ==> EventsOf(run) == EventsOf(before))
  {
  }

  lemma {:induction false} MachineOfRun(cfg: Config, fades: Fades, run: seq<Happening>)
    requires Runs(cfg, fades, Start(cfg), run)
    ensures After(cfg, fades, Start(cfg), run).m == Run(cfg, EventsOf(run))
  {
    if run != [] {
      AfterSnoc(cfg, fades, Start(cfg), run);
      MachineOfRun(cfg, fades, run[..|run| - 1]);
      EventsSnoc(run);
    }
  }

  /** The glass in closed form: after any run, one evaluation of the time and enough timer ticks, the panel is
      dark once offAfter has passed since the machine's origin, dimmed once dimAfter has, and bright before. */
  lemma {:induction false} GlassAfterSilence(cfg: Config, fades: Fades, run: seq<Happening>, now: int, at: int,
                                             ticks: seq<Happening>)
    requires ConfigValid(cfg) && Ordered(run, 0) && EndOf(run, 0) <= now <= at
    requires OnlyTicks(ticks) && ticks != [] && Ordered(ticks, at)
    requires EndOf(ticks, 0) >= at + fades.wake && EndOf(ticks, 0) >= at + fades.sleep
    ensures var all := run + [Happens(Time, now, at)] + ticks;
            && Runs(cfg, fades, Start(cfg), all)
            && var s := After(cfg, fades, Start(cfg), all);
            var idle := now - Origin(cfg, EventsOf(run));
            && s.d.register == (if cfg.offAfter <= idle then 0
                                else if cfg.dimAfter <= idle then cfg.dimmedPct else cfg.activePct)
            && s.d.powered == (idle < cfg.offAfter)
  {
    var h := Happens(Time, now, at);
    var checked := run + [h];
    assert checked[..|run|] == run;
    OrderedAppend(run, h, 0);
    EventsOrdered(run);
    PanelConverges(cfg, fades, checked, ticks, 0);
    MachineOfRun(cfg, fades, checked);
    PhaseAfterTick(cfg, EventsOf(run), now);
  }

  lemma {:induction false} OrderedAppend(run: seq<Happening>, h: Happening, from: int)
    requires Ordered(run, from) && h.Happens? && EndOf(run, from) <= h.now <= h.at
    ensures Ordered(run + [h], from)
    decreases run
  {
    if run != [] {
      assert (run + [h])[1..] == run[1..] + [h];
      OrderedAppend(run[1..], h, StampOf(run[0]));
    }
  }
}
