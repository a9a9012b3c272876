/** Every interleaving of the drain task and the fade timer's callback.

    The drain task starts fades one at a time; the timer task runs one callback at a time.
    Once the timer task has taken an alarm of the running timer, its callback is due and comes at
    any later moment, also after the timer was stopped; it is never overtaken by a full turn of the
    32-bit generation counter. */
module FadeSteps {
  import opened Decimals
  import opened Ramp
  import opened Fade

  const FADE_STEP_PERIOD_US := 33000

  /** `clock` is the time, `alarm` the next alarm of the fade timer while it runs, and `due` says that
      the timer task has taken an alarm whose callback has not begun yet. `starts` counts the fades
      begun, `seen` is that count when the callback in flight took its snapshot, and `markUs` is the time
      of the tick that produced `current`, or of the start of the ramp: these three are only observed. */
  datatype State = State(d: Device, callback: Callback, starter: Starter,
                         clock: int, alarm: int, due: bool, starts: nat, seen: nat, markUs: int)

  datatype Step =
    | Pass(us: nat)
    | DisplayOn
    | BeginFade(target: int, duration: int, off: bool)
    | StarterMoves
    | Expire
    | CallbackMoves

  /** What the callers promise: a power-off is asked only of a fade to 0, one fade starts at
      a time, and a callback in flight is not delayed past a full turn of the counter. */
  predicate Allowed(s: State, step: Step) {
    match step
    case Pass(_) => true
    case DisplayOn => s.starter.Ready?
    case BeginFade(target, _, off) =>
      && s.starter.Ready?
      && Percent(target)
      && (off ==> target == 0)
      && (!s.callback.Resting? ==> s.starts + 1 < s.seen + GENERATIONS)
    case StarterMoves => !s.starter.Ready?
    case Expire => s.d.ticking && s.callback.Resting? && !s.due && s.clock >= s.alarm
    case CallbackMoves => (s.callback.Resting? ==> s.due) && (s.callback.Snapped? ==> s.callback.duration > 0)
  }

  function Next(s: State, step: Step): State
    requires Allowed(s, step)
  {
    match step
    case Pass(us) => s.(clock := s.clock + us)
    case DisplayOn => s.(d := s.d.(powered := true))
    case BeginFade(target, duration, off) =>
      var (d, starter) := Begin(s.d, target, duration, off, s.clock);
      s.(d := d, starter := starter, starts := s.starts + 1, markUs := s.clock)
    case StarterMoves =>
      var (d, starter) := StarterStage(s.d, s.starter);
      s.(d := d, starter := starter,
         alarm := if s.starter.NeedTimer? && !s.d.ticking then s.clock + FADE_STEP_PERIOD_US else s.alarm)
    case Expire => s.(due := true, alarm := s.alarm + FADE_STEP_PERIOD_US)
    case CallbackMoves =>
      var (d, callback) := CallbackStage(s.d, s.callback, s.clock);
      s.(d := d, callback := callback, due := s.due && !s.callback.Resting?,
         seen := if s.callback.Resting? then s.starts else s.seen,
         markUs := if callback.Committed? then s.callback.at else s.markUs)
  }

  function InitialState(brightness: int, now: int): State {
    State(Device(0, 0, brightness, 0, 0, 0, false, false, brightness, true, false), Resting, Ready,
          now, 0, false, 0, 0, now)
  }

  /** The states a run passes through, the first one included; the run is a list of allowed steps. */
  predicate Runs(s: State, run: seq<Step>)
    decreases run
  {
    run == [] || (Allowed(s, run[0]) && Runs(Next(s, run[0]), run[1..]))
  }

  function After(s: State, run: seq<Step>): State
    requires Runs(s, run)
    decreases run
  {
    if run == [] then s else After(Next(s, run[0]), run[1..])
  }

  /** No call and no callback is under way. */
  predicate AtRest(s: State) {
    s.starter.Ready? && s.callback.Resting?
  }

  lemma {:induction false} Extended(s: State, run: seq<Step>, step: Step) returns (longer: seq<Step>)
    requires Runs(s, run) && Allowed(After(s, run), step)
    ensures longer == run + [step]
    ensures Runs(s, longer) && After(s, longer) == Next(After(s, run), step)
    decreases run
  {
    longer := run + [step];
    if run != [] {
      var rest := Extended(Next(s, run[0]), run[1..], step);
      assert longer[1..] == rest;
    }
  }

  predicate NoStart(run: seq<Step>) {
    forall step <- run :: !step.BeginFade?
  }

  // ------------------------------------------------------- invariant

  /** No fade has begun since the callback took its snapshot. */
  predicate Fresh(s: State) {
    !s.callback.Resting? && s.seen == s.starts
  }

  predicate RampHolds(s: State) {
    s.d.active ==>
      && s.d.duration > 0
      && Percent(s.d.start) && Percent(s.d.target)
      && s.d.startUs <= s.markUs <= s.clock
      && s.d.current == RampAt(s.d.start, s.d.target, s.markUs - s.d.startUs, s.d.duration).0
  }

  predicate FlagsHold(s: State) {
    && (s.d.pendingOff ==> s.d.active && s.d.target == 0)
    && (s.d.active ==> s.d.ticking || s.starter.NeedTimer?)
    && (s.d.active ==> s.starter.Ready? || s.starter.NeedTimer?)
    && (s.due ==> s.callback.Resting?)
  }

  predicate CountsHold(s: State) {
    && s.d.generation == s.starts % GENERATIONS
    && (!s.callback.Resting? ==> s.seen <= s.starts < s.seen + GENERATIONS)
    && (match s.callback
        case Snapped(gen, _, _, _, _) => gen == s.seen % GENERATIONS
        case Computed(gen, _, _, _) => gen == s.seen % GENERATIONS
        case Committed(gen, _, _) => gen == s.seen % GENERATIONS
        case Written(gen) => gen == s.seen % GENERATIONS
        case _ => true)
  }

  /** What the callback in flight may rely on as long as no fade has begun since its snapshot. */
  predicate CallbackHolds(s: State) {
    match s.callback
    case Resting => true
    case Snapped(gen, start, target, startUs, duration) =>
      && duration > 0 && Percent(start) && Percent(target)
      && (Fresh(s) ==> s.d.active && s.callback == Snap(s.d))
    case Computed(gen, value, finished, at) =>
      && Percent(value)
      && (Fresh(s) ==>
            && s.d.active && s.d.duration > 0 && s.markUs <= at <= s.clock
            && (value, finished) == RampAt(s.d.start, s.d.target, at - s.d.startUs, s.d.duration))
    case Committed(gen, value, off) => Percent(value) && (Fresh(s) && off ==> AtRestDark(s))
    case Written(gen) => Fresh(s) ==> AtRestDark(s)
    case Cleared => Fresh(s) ==> AtRestDark(s)
  }

  /** Brightness is 0 and no fade is active or about to switch the panel off. */
  predicate AtRestDark(s: State) {
    s.d.current == 0 && !s.d.active && !s.d.pendingOff
  }

  predicate Inv(s: State) {
    && Percent(s.d.current)
    && RampHolds(s)
    && FlagsHold(s)
    && CountsHold(s)
    && CallbackHolds(s)
  }

  /** The wrapped counter tells a stale callback from a fresh one. */
  lemma GenerationTells(seen: nat, starts: nat)
    requires seen <= starts < seen + GENERATIONS
    ensures seen % GENERATIONS == starts % GENERATIONS <==> seen == starts
  {
  }

  lemma NextCount(starts: nat)
    ensures NextGeneration(starts % GENERATIONS) == (starts + 1) % GENERATIONS
  {
  }

  lemma BeginKeeps(s: State, target: int, duration: int, off: bool)
    requires Inv(s) && Allowed(s, BeginFade(target, duration, off))
    ensures Inv(Next(s, BeginFade(target, duration, off)))
  {
    NextCount(s.starts);
    if duration > 0 {
      assert RampAt(s.d.current, target, 0, duration) == (Clamped(s.d.current), false);
    }
  }

  lemma SnapKeeps(s: State)
    requires Inv(s) && s.callback.Resting? && s.due
    ensures Inv(Next(s, CallbackMoves))
  {
  }

  lemma ComputeKeeps(s: State)
    requires Inv(s) && s.callback.Snapped?
    ensures Inv(Next(s, CallbackMoves))
  {
    var c := s.callback;
    var elapsed := s.clock - c.startUs;
    if Fresh(s) {
      RampAdvances(c.start, c.target, s.markUs - c.startUs, elapsed, c.duration);
    }
  }

  lemma CommitKeeps(s: State)
    requires Inv(s) && s.callback.Computed?
    ensures Inv(Next(s, CallbackMoves))
  {
    GenerationTells(s.seen, s.starts);
  }

  lemma TailKeeps(s: State)
    requires Inv(s) && (s.callback.Committed? || s.callback.Written? || s.callback.Cleared?)
    ensures Inv(Next(s, CallbackMoves))
  {
  }

  lemma StarterKeeps(s: State)
    requires Inv(s) && Allowed(s, StarterMoves)
    ensures Inv(Next(s, StarterMoves))
  {
  }

  lemma NextKeeps(s: State, step: Step)
    requires Inv(s) && Allowed(s, step)
    ensures Inv(Next(s, step))
  {
    match step
    case BeginFade(target, duration, off) => BeginKeeps(s, target, duration, off);
    case CallbackMoves =>
      match s.callback {
        case Resting => SnapKeeps(s);
        case Snapped(_, _, _, _, _) => ComputeKeeps(s);
        case Computed(_, _, _, _) => CommitKeeps(s);
        case _ => TailKeeps(s);
      }
    case StarterMoves => StarterKeeps(s);
    case _ =>
  }

  lemma {:induction false} Reached(s: State, run: seq<Step>)
    requires Inv(s) && Runs(s, run)
    ensures Inv(After(s, run))
    decreases run
  {
    if run != [] {
      NextKeeps(s, run[0]);
      Reached(Next(s, run[0]), run[1..]);
    }
  }

  // ------------------------------------------------------- theorems

  /** In every interleaving: the generation counts the starts modulo 2^32; a callback is never stuck; one from
      an older generation commits nothing, and only such a one is dropped; a pending power-off belongs to an
      active fade to 0; an active fade has a running timer or a starter about to run it; and
      whenever the re-check before the power-off passes, brightness is 0 and no fade is active. */
  lemma {:induction false} EveryInterleaving(brightness: int, now: int, run: seq<Step>)
    requires Percent(brightness) && Runs(InitialState(brightness, now), run)
    ensures var s := After(InitialState(brightness, now), run);
            && s.d.generation == s.starts % 0x1_0000_0000
            && (!s.callback.Resting? ==> Allowed(s, CallbackMoves))
            && (s.d.pendingOff ==> s.d.active && s.d.target == 0)
            && (s.d.active ==> s.d.ticking || s.starter.NeedTimer?)
            && (s.callback.Computed? ==>
                  var t := Next(s, CallbackMoves);
                  && (s.seen < s.starts ==> t.d == s.d && t.callback.Resting?)
                  && (s.seen == s.starts ==> t.callback.Committed? && t.d.current == s.callback.value))
            && (s.callback.Written? && Next(s, CallbackMoves).callback.Cleared? ==>
                  s.d.current == 0 && !s.d.active && !s.d.pendingOff)
  {
    Reached(InitialState(brightness, now), run);
    var s := After(InitialState(brightness, now), run);
    if !s.callback.Resting? {
      GenerationTells(s.seen, s.starts);
    }
  }

  /** Within one generation the brightness never turns back, stays between the ramp's two
      ends, needs no clamp, and reaches the target with the first tick at or after the duration,
      which ends the ramp and stops its timer; no earlier tick does. */
  lemma {:induction false} CommitsAdvance(brightness: int, now: int, run: seq<Step>)
    requires Percent(brightness) && Runs(InitialState(brightness, now), run)
    requires var s := After(InitialState(brightness, now), run); s.callback.Computed? && s.seen == s.starts
    ensures var s := After(InitialState(brightness, now), run);
            var t := Next(s, CallbackMoves);
            var elapsed := s.callback.at - s.d.startUs;
            && s.d.duration > 0
            && Between(s.d.start, s.d.current, s.d.target)
            && Between(s.d.current, t.d.current, s.d.target)
            && (elapsed < s.d.duration ==>
                  && t.d.active
                  && OnTheWay(s.d.start, s.d.target, elapsed, s.d.duration, t.d.current))
            && (elapsed >= s.d.duration ==> !t.d.active && !t.d.ticking && t.d.current == s.d.target)
  {
    Reached(InitialState(brightness, now), run);
    var s := After(InitialState(brightness, now), run);
    GenerationTells(s.seen, s.starts);
    RampAdvances(s.d.start, s.d.target, s.markUs - s.d.startUs, s.callback.at - s.d.startUs, s.d.duration);
  }
}
