/** The idle state machine: lit, dimmed and off, driven by activity and time. */
module BurnIdle {

  datatype Phase = Active | Dimmed | Off

  datatype Event = Motion | Touch | Button | Push | Time

  datatype Config = Config(dimAfter: int, offAfter: int, activePct: nat, dimmedPct: nat, motionThreshold: int)

  datatype Output = Output(phase: Phase, brightness: nat, panelOn: bool, changed: bool)

  datatype Machine = Machine(phase: Phase, lastActivity: int, prev: Output)

  predicate ConfigValid(cfg: Config) {
    && 0 < cfg.dimAfter <= cfg.offAfter
    && cfg.dimmedPct <= cfg.activePct <= 100
    && 0 <= cfg.motionThreshold
  }

  /** A direct interaction of the user; a push is not one. */
  predicate Interaction(ev: Event) {
    ev.Motion? || ev.Touch? || ev.Button?
  }

  function PhaseFor(cfg: Config, idle: int): Phase {
    if idle >= cfg.offAfter then Off else if idle >= cfg.dimAfter then Dimmed else Active
  }

  function Shows(cfg: Config, phase: Phase): Output {
    match phase
    case Active => Output(Active, cfg.activePct, true, false)
    case Dimmed => Output(Dimmed, cfg.dimmedPct, true, false)
    case Off => Output(Off, 0, false, false)
  }

  /** Equality of everything but the `changed` flag. */
  predicate SameOutput(a: Output, b: Output) {
    a.(changed := b.changed) == b
  }

  function Init(cfg: Config): Machine {
    Machine(Active, 0, Shows(cfg, Active))
  }

  /** The phase and the time of last activity after an event. */
  function Moved(cfg: Config, m: Machine, ev: Event, now: int): (Phase, int) {
    if ev.Push? then
      if m.phase.Active? then (Active, now) else (Dimmed, now - cfg.dimAfter)
    else if Interaction(ev) then (Active, now)
    else
      var idle := now - m.lastActivity;
      (PhaseFor(cfg, if idle < 0 then 0 else idle), m.lastActivity)
  }

  function Step(cfg: Config, m: Machine, ev: Event, now: int): Machine {
    var (phase, last) := Moved(cfg, m, ev, now);
    var out := Shows(cfg, phase);
    Machine(phase, last, out.(changed := !SameOutput(out, m.prev)))
  }

  // ------------------------------------------------------ the program

  class BurnIdleMachine {
    const cfg: Config
    var phase: Phase
    var lastActivity: int
    var prev: Output

    function View(): Machine
      reads this
    {
      Machine(phase, lastActivity, prev)
    }

    constructor (cfg: Config)
      requires ConfigValid(cfg)
      ensures this.cfg == cfg && View() == Init(cfg)
    {
      this.cfg := cfg;
      phase := Active;
      lastActivity := 0;
      prev := Shows(cfg, Active);
    }

    method HandleEvent(ev: Event, now: int) returns (out: Output)
      modifies this
      ensures View() == Step(cfg, old(View()), ev, now) && out == prev
    {
      if ev.Push? {
        if phase.Off? || phase.Dimmed? {
          lastActivity := now - cfg.dimAfter;
          phase := Dimmed;
        } else {
          lastActivity := now;
        }
      } else if Interaction(ev) {
        lastActivity := now;
        phase := Active;
      } else {
        var idle := now - lastActivity;
        if idle < 0 {
          idle := 0;
        }
        phase := PhaseFor(cfg, idle);
      }
      out := Shows(cfg, phase);
      out := out.(changed := !SameOutput(out, prev));
      prev := out;
    }
  }

  // ------------------------------------------------------------- runs

  datatype Stamped = Stamped(ev: Event, at: int)

  /** Events in time order, none before `from`. */
  predicate Ordered(run: seq<Stamped>, from: int) {
    && (forall i :: 0 <= i < |run| ==> from <= run[i].at)
    && (forall i, j :: 0 <= i < j < |run| ==> run[i].at <= run[j].at)
  }

  /** The machine after a run; the last event comes last. */
  function Run(cfg: Config, run: seq<Stamped>): Machine {
    if run == [] then Init(cfg)
    else var last := run[|run| - 1]; Step(cfg, Run(cfg, run[..|run| - 1]), last.ev, last.at)
  }

  function Latest(run: seq<Stamped>): int {
    if run == [] then 0 else run[|run| - 1].at
  }

  lemma OrderedPrefix(run: seq<Stamped>, n: nat)
    requires Ordered(run, 0) && n <= |run|
    ensures Ordered(run[..n], 0) && Latest(run[..n]) <= Latest(run)
    ensures n < |run| ==> Latest(run[..n]) <= run[n].at
  {
  }

  predicate MachineHolds(cfg: Config, m: Machine, now: int) {
    && SameOutput(m.prev, Shows(cfg, m.phase))
    && m.lastActivity <= now
    && (m.phase.Dimmed? ==> now - m.lastActivity >= cfg.dimAfter)
    && (m.phase.Off? ==> now - m.lastActivity >= cfg.offAfter)
  }

  lemma {:induction false} RunHolds(cfg: Config, run: seq<Stamped>)
    requires ConfigValid(cfg) && Ordered(run, 0)
    ensures MachineHolds(cfg, Run(cfg, run), Latest(run))
  {
    if run != [] {
      OrderedPrefix(run, |run| - 1);
      RunHolds(cfg, run[..|run| - 1]);
    }
  }

  /** One more event: the time of last activity does not go back, and only a
      direct interaction leads from a darker phase to ACTIVE. */
  lemma StepAdvances(cfg: Config, m: Machine, from: int, ev: Event, now: int)
    requires ConfigValid(cfg) && MachineHolds(cfg, m, from) && from <= now
    ensures Step(cfg, m, ev, now).lastActivity >= m.lastActivity
    ensures Step(cfg, m, ev, now).phase.Active? && !m.phase.Active? ==> Interaction(ev)
  {
  }

  /** Over a whole run the time of last activity never decreases, and between a moment that is
      not ACTIVE and a later one that is there was a motion, a touch or a button press. */
  lemma {:induction false} ActiveOnlyByInteraction(cfg: Config, run: seq<Stamped>, i: nat, j: nat)
    requires ConfigValid(cfg) && Ordered(run, 0) && i <= j <= |run|
    ensures Run(cfg, run[..i]).lastActivity <= Run(cfg, run[..j]).lastActivity
    ensures !Run(cfg, run[..i]).phase.Active? && Run(cfg, run[..j]).phase.Active? ==>
              exists k :: i <= k < j && Interaction(run[k].ev)
    decreases j
  {
    if i < j {
      ActiveOnlyByInteraction(cfg, run, i, j - 1);
      OrderedPrefix(run, j - 1);
      RunHolds(cfg, run[..j - 1]);
      assert run[..j][..j - 1] == run[..j - 1];
      StepAdvances(cfg, Run(cfg, run[..j - 1]), Latest(run[..j - 1]), run[j - 1].ev, run[j - 1].at);
    }
  }

  // ------------------------------------------------------ closed form

  /** The time of the last event that is not a tick; start-up counts as time 0. */
  function LastRefresh(run: seq<Stamped>): int {
    if run == [] then 0
    else if run[|run| - 1].ev.Time? then LastRefresh(run[..|run| - 1])
    else run[|run| - 1].at
  }

  /** Since start-up, or since some interaction, no tick came dimAfter or more after the last refresh. */
  ghost predicate KeptLit(cfg: Config, run: seq<Stamped>) {
    exists d :: LitSince(cfg, run, d)
  }

  ghost predicate LitSince(cfg: Config, run: seq<Stamped>, d: nat) {
    && d <= |run|
    && (d == 0 || Interaction(run[d - 1].ev))
    && forall j :: d <= j < |run| && run[j].ev.Time? ==> run[j].at - LastRefresh(run[..j]) < cfg.dimAfter
  }

  /** The moment the idle time is counted from: the last refresh, dimAfter earlier if that was a
      push outside ACTIVE. */
  ghost function Origin(cfg: Config, run: seq<Stamped>): int {
    if run == [] then 0
    else
      var last, before := run[|run| - 1], run[..|run| - 1];
      if last.ev.Time? then Origin(cfg, before)
      else if last.ev.Push? && !KeptLit(cfg, before) then last.at - cfg.dimAfter
      else last.at
  }

  lemma LitSincePrefix(cfg: Config, run: seq<Stamped>, d: nat)
    requires run != [] && d < |run|
    ensures var before, last := run[..|run| - 1], run[|run| - 1];
            LitSince(cfg, run, d) <==>
            LitSince(cfg, before, d) && (last.ev.Time? ==> last.at - LastRefresh(before) < cfg.dimAfter)
  {
    var before := run[..|run| - 1];
    forall j | 0 <= j < |before| ensures before[..j] == run[..j] {}
  }

  lemma KeptLitNext(cfg: Config, run: seq<Stamped>)
    requires run != []
    ensures var before, last := run[..|run| - 1], run[|run| - 1];
            KeptLit(cfg, run) <==>
            || Interaction(last.ev)
            || (KeptLit(cfg, before) && (last.ev.Time? ==> last.at - LastRefresh(before) < cfg.dimAfter))
  {
    var before, last := run[..|run| - 1], run[|run| - 1];
    if Interaction(last.ev) {
      assert LitSince(cfg, run, |run|);
    } else {
      if d :| LitSince(cfg, run, d) {
        LitSincePrefix(cfg, run, d);
      }
      if d :| LitSince(cfg, before, d) {
        LitSincePrefix(cfg, run, d);
      }
    }
  }

  /** ACTIVE and the time of last activity, read off the history alone. */
  lemma {:induction false} ActiveExactly(cfg: Config, run: seq<Stamped>)
    requires ConfigValid(cfg) && Ordered(run, 0)
    ensures Run(cfg, run).phase.Active? <==> KeptLit(cfg, run)
    ensures Run(cfg, run).lastActivity == Origin(cfg, run)
    ensures Run(cfg, run).phase.Active? ==> Run(cfg, run).lastActivity == LastRefresh(run)
  {
    if run == [] {
      assert LitSince(cfg, run, 0);
    } else {
      var before := run[..|run| - 1];
      OrderedPrefix(run, |before|);
      ActiveExactly(cfg, before);
      RunHolds(cfg, before);
      KeptLitNext(cfg, run);
    }
  }

  /** The phase after a tick depends only on the time since the origin: OFF once offAfter has
      passed since the last refresh, or offAfter - dimAfter if that was a push outside ACTIVE. */
  lemma {:induction false} PhaseAfterTick(cfg: Config, run: seq<Stamped>, now: int)
    requires ConfigValid(cfg) && Ordered(run, 0) && Latest(run) <= now
    ensures var m, idle := Run(cfg, run + [Stamped(Time, now)]), now - Origin(cfg, run);
            && (m.phase.Off? <==> cfg.offAfter <= idle)
            && (m.phase.Dimmed? <==> cfg.dimAfter <= idle < cfg.offAfter)
            && (m.phase.Active? <==> idle < cfg.dimAfter)
  {
    ActiveExactly(cfg, run);
    RunHolds(cfg, run);
    assert (run + [Stamped(Time, now)])[..|run|] == run;
  }

  /** The output after any event that follows any run, from the history alone: an interaction lights the
      display, a push keeps it lit or dims it up, and a tick judges the time since the origin. */
  lemma {:induction false} OutputAfter(cfg: Config, run: seq<Stamped>, ev: Event, now: int)
    requires ConfigValid(cfg) && Ordered(run, 0) && Latest(run) <= now
    ensures var m, idle := Run(cfg, run + [Stamped(ev, now)]), now - Origin(cfg, run);
            var dark := ev.Time? && cfg.offAfter <= idle;
            var lit := match ev
                       case Push => KeptLit(cfg, run)
                       case Time => idle < cfg.dimAfter
                       case _ => true;
            && m.phase == m.prev.phase == (if dark then Off else if lit then Active else Dimmed)
            && m.prev.brightness == (if dark then 0 else if lit then cfg.activePct else cfg.dimmedPct)
            && m.prev.panelOn == !dark
  {
    ActiveExactly(cfg, run);
    RunHolds(cfg, run);
    assert (run + [Stamped(ev, now)])[..|run|] == run;
  }

  // --------------------------------------------- a push never darkens

  function Rank(phase: Phase): nat {
    match phase
    case Active => 2
    case Dimmed => 1
    case Off => 0
  }

  /** b is at least as awake as a. */
  predicate AtLeast(a: Machine, b: Machine) {
    Rank(a.phase) <= Rank(b.phase) && a.lastActivity <= b.lastActivity
  }

  lemma StepMonotone(cfg: Config, a: Machine, b: Machine, ev: Event, now: int)
    requires ConfigValid(cfg) && AtLeast(a, b)
    ensures AtLeast(Step(cfg, a, ev, now), Step(cfg, b, ev, now))
  {
  }

  function Continue(cfg: Config, m: Machine, more: seq<Stamped>): Machine
    decreases more
  {
    if more == [] then m else Continue(cfg, Step(cfg, m, more[0].ev, more[0].at), more[1..])
  }

  lemma {:induction false} RunContinues(cfg: Config, run: seq<Stamped>, more: seq<Stamped>)
    ensures Run(cfg, run + more) == Continue(cfg, Run(cfg, run), more)
    decreases more
  {
    if more == [] {
      assert run + more == run;
    } else {
      assert (run + [more[0]])[..|run|] == run;
      assert run + [more[0]] + more[1..] == run + more;
      RunContinues(cfg, run + [more[0]], more[1..]);
    }
  }

  lemma {:induction false} ContinueMonotone(cfg: Config, a: Machine, b: Machine, more: seq<Stamped>)
    requires ConfigValid(cfg) && AtLeast(a, b)
    ensures AtLeast(Continue(cfg, a, more), Continue(cfg, b, more))
    decreases more
  {
    if more != [] {
      StepMonotone(cfg, a, b, more[0].ev, more[0].at);
      ContinueMonotone(cfg, Step(cfg, a, more[0].ev, more[0].at), Step(cfg, b, more[0].ev, more[0].at), more[1..]);
    }
  }

  /** A push inserted anywhere into a run never leaves the display darker at any later moment. */
  lemma {:induction false} PushNeverDarkens(cfg: Config, run: seq<Stamped>, at: int, more: seq<Stamped>)
    requires ConfigValid(cfg) && Ordered(run, 0) && Latest(run) <= at
    ensures var without, with := Run(cfg, run + more), Run(cfg, run + [Stamped(Push, at)] + more);
            Rank(without.phase) <= Rank(with.phase) && without.lastActivity <= with.lastActivity
  {
    RunHolds(cfg, run);
    RunContinues(cfg, run, [Stamped(Push, at)]);
    RunContinues(cfg, run, more);
    RunContinues(cfg, run + [Stamped(Push, at)], more);
    ContinueMonotone(cfg, Run(cfg, run), Run(cfg, run + [Stamped(Push, at)]), more);
  }

  // --------------------------------------------- replaying the changes

  /** What a listener shows that starts from `shown` and applies only outputs flagged `changed`. */
  function Replay(cfg: Config, run: seq<Stamped>): Output {
    if run == [] then Shows(cfg, Active)
    else
      var out := Run(cfg, run).prev;
      if out.changed then out else Replay(cfg, run[..|run| - 1])
  }

  /** Applying only the changed outputs loses nothing, and no change is flagged without need. */
  lemma {:induction false} ReplayIsCurrent(cfg: Config, run: seq<Stamped>)
    ensures SameOutput(Replay(cfg, run), Shows(cfg, Run(cfg, run).phase))
    ensures SameOutput(Run(cfg, run).prev, Shows(cfg, Run(cfg, run).phase))
    ensures run != [] ==>
              (Run(cfg, run).prev.changed <==> Run(cfg, run).phase != Run(cfg, run[..|run| - 1]).phase)
  {
    if run != [] {
      ReplayIsCurrent(cfg, run[..|run| - 1]);
    }
  }
}
