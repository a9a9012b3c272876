/** The brightness ramp shared by the drain task and the timer callback.

    Every critical section, every register write and every timer call is one stage.
    The class runs the stages of a call one after the other; the step system in
    module FadeSteps interleaves them. */
module Fade {
  import opened Decimals
  import opened Ramp

  /** `uint32_t generation` wraps here. */
  const GENERATIONS := 0x1_0000_0000

  /** The shared record, the brightness register, the panel's power and whether the fade timer runs. */
  datatype Device = Device(
    start: int, target: int, current: int, startUs: int, duration: int,
    generation: int, pendingOff: bool, active: bool,
    register: int, powered: bool, ticking: bool)

  /** Where one run of the timer callback stands. */
  datatype Callback =
    | Resting
    | Snapped(gen: int, start: int, target: int, startUs: int, duration: int)
    | Computed(gen: int, value: int, finished: bool, at: int)
    | Committed(gen: int, value: int, off: bool)
    | Written(gen: int)
    | Cleared

  /** Where one call that starts a fade stands. */
  datatype Starter =
    | Ready
    | NeedTimer
    | StopTimer(changed: bool, target: int, off: bool)
    | WriteTarget(changed: bool, target: int, off: bool)
    | SwitchOff(off: bool)

  function NextGeneration(g: int): int {
    (g + 1) % GENERATIONS
  }

  /** Starting a timer that runs, or stopping one that does not, fails and changes nothing. */
  function WithTimer(d: Device, ticking: bool): Device {
    d.(ticking := ticking)
  }

  // ---------------------------------------------- stages of the callback

  function Snap(d: Device): Callback {
    if d.active then Snapped(d.generation, d.start, d.target, d.startUs, d.duration) else Resting
  }

  function Compute(c: Callback, now: int): Callback
    requires c.Snapped? && c.duration > 0
  {
    var (value, finished) := RampAt(c.start, c.target, now - c.startUs, c.duration);
    Computed(c.gen, value, finished, now)
  }

  function Commit(d: Device, c: Callback): (Device, Callback)
    requires c.Computed?
  {
    if d.generation != c.gen then (d, Resting)
    else if c.finished then
      (WithTimer(d.(current := c.value, active := false, pendingOff := false), false),
       Committed(c.gen, c.value, d.pendingOff))
    else (d.(current := c.value), Committed(c.gen, c.value, false))
  }

  /** One stage of the callback. */
  function CallbackStage(d: Device, c: Callback, now: int): (Device, Callback)
    requires c.Snapped? ==> c.duration > 0
  {
    match c
    case Resting => (d, Snap(d))
    case Snapped(_, _, _, _, _) => (d, Compute(c, now))
    case Computed(_, _, _, _) => Commit(d, c)
    case Committed(gen, value, off) => (d.(register := value), if off then Written(gen) else Resting)
    case Written(gen) => (d, if d.generation == gen then Cleared else Resting)
    case Cleared => (d.(powered := false), Resting)
  }

  function StagesLeft(c: Callback): nat {
    match c
    case Resting => 0
    case Snapped(_, _, _, _, _) => 5
    case Computed(_, _, _, _) => 4
    case Committed(_, _, _) => 3
    case Written(_) => 2
    case Cleared => 1
  }

  /** The remaining stages of a callback without interruption. */
  function FinishCallback(d: Device, c: Callback, now: int): Device
    requires c.Snapped? ==> c.duration > 0
    decreases StagesLeft(c)
  {
    if c.Resting? then d
    else var (e, next) := CallbackStage(d, c, now); FinishCallback(e, next, now)
  }

  /** A whole tick of the fade timer without interruption. */
  function Tick(d: Device, now: int): Device
    requires d.active ==> d.duration > 0
  {
    FinishCallback(d, Snap(d), now)
  }

  /** What an uninterrupted tick does to the panel. */
  lemma TickOutcome(d: Device, now: int)
    requires d.active ==> d.duration > 0
    ensures !d.active ==> Tick(d, now) == d
    ensures d.active ==>
              (var (value, finished) := RampAt(d.start, d.target, now - d.startUs, d.duration);
               Tick(d, now) ==
               if finished then
                 d.(current := value, register := value, active := false, pendingOff := false,
                    ticking := false, powered := d.powered && !d.pendingOff)
               else d.(current := value, register := value))
  {
    if d.active {
      var c := Snap(d);
      var computed := Compute(c, now);
      var (e, committed) := Commit(d, computed);
      var (f, written) := CallbackStage(e, committed, now);
      assert Tick(d, now) == FinishCallback(d, computed, now) == FinishCallback(e, committed, now)
          == FinishCallback(f, written, now);
      if written.Written? {
        var (g, cleared) := CallbackStage(f, written, now);
        assert FinishCallback(f, written, now) == FinishCallback(g, cleared, now) == CallbackStage(g, cleared, now).0;
      }
    }
  }

  // ----------------------------------------------- stages of a new fade

  /** The critical section that records a fade. */
  function Begin(d: Device, target: int, duration: int, off: bool, now: int): (Device, Starter) {
    if duration <= 0 || d.current == target then
      (d.(current := target, active := false, pendingOff := false, generation := NextGeneration(d.generation)),
       StopTimer(d.current != target, target, off))
    else
      (d.(start := d.current, target := target, startUs := now, duration := duration,
          pendingOff := off, generation := NextGeneration(d.generation), active := true),
       if d.active then Ready else NeedTimer)
  }

  /** One stage of a starting fade after its critical section. */
  function StarterStage(d: Device, s: Starter): (Device, Starter) {
    match s
    case Ready => (d, Ready)
    case NeedTimer => (WithTimer(d, true), Ready)
    case StopTimer(changed, target, off) => (WithTimer(d, false), WriteTarget(changed, target, off))
    case WriteTarget(changed, target, off) => (if changed then d.(register := target) else d, SwitchOff(off))
    case SwitchOff(off) => (if off then d.(powered := false) else d, Ready)
  }

  function StartStagesLeft(s: Starter): nat {
    match s
    case Ready => 0
    case NeedTimer => 1
    case StopTimer(_, _, _) => 3
    case WriteTarget(_, _, _) => 2
    case SwitchOff(_) => 1
  }

  function FinishStart(d: Device, s: Starter): Device
    decreases StartStagesLeft(s)
  {
    if s.Ready? then d else var (e, next) := StarterStage(d, s); FinishStart(e, next)
  }

  /** A whole start without interruption. */
  function StartFade(d: Device, target: int, duration: int, off: bool, now: int): Device {
    var (e, s) := Begin(d, target, duration, off, now);
    FinishStart(e, s)
  }

  /** What an uninterrupted start does to the panel. */
  lemma StartOutcome(d: Device, target: int, duration: int, off: bool, now: int)
    ensures var r := StartFade(d, target, duration, off, now);
            if duration <= 0 || d.current == target then
              r == d.(current := target, active := false, pendingOff := false, ticking := false,
                      generation := NextGeneration(d.generation),
                      register := if d.current == target then d.register else target,
                      powered := d.powered && !off)
            else
              r == d.(start := d.current, target := target, startUs := now, duration := duration,
                      pendingOff := off, active := true, ticking := d.ticking || !d.active,
                      generation := NextGeneration(d.generation))
  {
    var (e, s) := Begin(d, target, duration, off, now);
    if s.StopTimer? {
      var (f, t) := StarterStage(e, s);
      var (g, u) := StarterStage(f, t);
      assert FinishStart(e, s) == FinishStart(f, t) == FinishStart(g, u) == StarterStage(g, u).0;
    }
  }

  // ------------------------------------------------------ the program

  class FadeEngine {
    var start: int
    var target: int
    var current: int
    var startUs: int
    var duration: int
    var generation: int
    var pendingOff: bool
    var active: bool
    var register: int
    var powered: bool
    var ticking: bool

    function View(): Device
      reads this
    {
      Device(start, target, current, startUs, duration, generation, pendingOff, active, register, powered, ticking)
    }

    /** Start-up: the panel is lit at the active brightness and the anchor is seeded with it. */
    constructor (brightness: int)
      ensures View() == Device(0, 0, brightness, 0, 0, 0, false, false, brightness, true, false)
    {
      start, target, startUs, duration, generation := 0, 0, 0, 0, 0;
      pendingOff, active, ticking := false, false, false;
      current, register, powered := brightness, brightness, true;
    }

    method SetBrightness(pct: int)
      modifies this
      ensures View() == old(View()).(register := pct)
    {
      register := pct;
    }

    method SetDisplayOn(on: bool)
      modifies this
      ensures View() == old(View()).(powered := on)
    {
      powered := on;
    }

    method StartTimer() returns (ok: bool)
      modifies this
      ensures View() == WithTimer(old(View()), true) && ok == !old(ticking)
    {
      ok := !ticking;
      ticking := true;
    }

    method StopTimerNow() returns (ok: bool)
      modifies this
      ensures View() == WithTimer(old(View()), false) && ok == old(ticking)
    {
      ok := ticking;
      ticking := false;
    }

    /** Pass 1 of the callback. */
    method PassOne() returns (c: Callback)
      ensures c == Snap(View())
    {
      if !active {
        return Resting;
      }
      c := Snapped(generation, start, target, startUs, duration);
    }

    /** Pass 2 of the callback. */
    method PassTwo(mine: int, value: int, finished: bool, at: int) returns (stale: bool, doOff: bool)
      modifies this
      ensures (View(), if stale then Resting else Committed(mine, value, doOff))
           == Commit(old(View()), Computed(mine, value, finished, at))
    {
      stale, doOff := false, false;
      if generation != mine {
        stale := true;
        return;
      }
      current := value;
      if finished {
        active := false;
        doOff := pendingOff;
        pendingOff := false;
        var _ := StopTimerNow();
      }
    }

    /** The timer callback. */
    method FadeStep(now: int)
      requires active ==> duration > 0
      modifies this
      ensures View() == Tick(old(View()), now)
    {
      TickOutcome(View(), now);
      var c := PassOne();
      if c.Resting? {
        return;
      }
      var elapsed := now - c.startUs;
      var value, finished;
      if elapsed >= c.duration {
        value, finished := c.target, true;
      } else {
        value, finished := Clamped(c.start + TruncDiv((c.target - c.start) * elapsed, c.duration)), false;
      }
      assert Computed(c.gen, value, finished, now) == Compute(c, now);
      var stale, doOff := PassTwo(c.gen, value, finished, now);
      if stale {
        return;
      }
      SetBrightness(value);
      if doOff {
        if generation == c.gen {
          SetDisplayOn(false);
        }
      }
    }

    /** The critical section of a starting fade. */
    method EnterFade(goal: int, length: int, off: bool, now: int)
      returns (short: bool, needStart: bool, changed: bool)
      modifies this
      ensures (View(), if short then StopTimer(changed, goal, off) else if needStart then NeedTimer else Ready)
           == Begin(old(View()), goal, length, off, now)
    {
      needStart, changed := false, false;
      var oldCurrent := current;
      short := length <= 0 || oldCurrent == goal;
      if short {
        changed := oldCurrent != goal;
        current := goal;
        active := false;
        pendingOff := false;
        generation := NextGeneration(generation);
      } else {
        start := oldCurrent;
        target := goal;
        startUs := now;
        duration := length;
        pendingOff := off;
        generation := NextGeneration(generation);
        needStart := !active;
        active := true;
      }
    }

    method BeginFade(goal: int, length: int, off: bool, now: int)
      modifies this
      ensures View() == StartFade(old(View()), goal, length, off, now)
    {
      StartOutcome(View(), goal, length, off, now);
      var short, needStart, changed := EnterFade(goal, length, off, now);
      if short {
        var _ := StopTimerNow();
        if changed {
          SetBrightness(goal);
        }
        if off {
          SetDisplayOn(false);
        }
        return;
      }
      if needStart {
        var _ := StartTimer();
      }
    }
  }
}
