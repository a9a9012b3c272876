/** Trust on first use: the first client id pushed for an agent takes the agent's pairing slot.

    Flash never fails here. Each flash access is one step, so an erase, which takes no lock,
    may come between any two accesses of a bind in progress. */
module Tofu {
  import opened Decimals

  const CLIENT_ID_MAX := 255

  /** The pairing namespace; a slot is empty when its key is absent. */
  type Slots = map<string, string>

  datatype BindResult = OkNew | OkExisting | Mismatch | BindError

  predicate Accepts(r: BindResult) {
    r.OkNew? || r.OkExisting?
  }

  predicate ArgumentsValid(agent: string, id: string) {
    agent != "" && id != "" && |id| < CLIENT_ID_MAX
  }

  /** Absent and explicitly empty values both count as no binding. */
  function Lookup(slots: Slots, agent: string): Option<string> {
    if agent in slots && slots[agent] != "" then Some(slots[agent]) else None
  }

  /** The sequential slot: what one undisturbed bind answers and leaves behind. */
  function Answer(slots: Slots, agent: string, id: string): BindResult {
    if !ArgumentsValid(agent, id) then BindError
    else match Lookup(slots, agent)
      case None => OkNew
      case Some(stored) => if stored == id then OkExisting else Mismatch
  }

  function Bound(slots: Slots, agent: string, id: string): Slots {
    if Answer(slots, agent, id).OkNew? then slots[agent := id] else slots
  }

  /** An undisturbed bind, case by case: a free slot takes any id of 1 to 254 bytes, a taken one is never changed. */
  lemma BindMeaning(slots: Slots, agent: string, id: string)
    ensures var valid, free := agent != "" && 1 <= |id| <= 254, agent !in slots || slots[agent] == "";
            && Answer(slots, agent, id) == (if !valid then BindError else if free then OkNew
                                            else if slots[agent] == id then OkExisting else Mismatch)
            && Bound(slots, agent, id) == if valid && free then slots[agent := id] else slots
  {
  }

  // ------------------------------------------------------ the program

  class ClientIds {
    var slots: Slots

    constructor ()
      ensures slots == map[]
    {
      slots := map[];
    }

    method Load(agent: string) returns (stored: Option<string>)
      requires agent != ""
      ensures stored == Lookup(slots, agent)
    {
      if agent !in slots {
        return None;
      }
      if slots[agent] == "" {
        return None;
      }
      stored := Some(slots[agent]);
    }

    /** Keeps the slot as it is when it already holds the id. */
    method Save(agent: string, id: string) returns (ok: bool)
      modifies this
      ensures ok == ArgumentsValid(agent, id)
      ensures slots == if ok then old(slots)[agent := id] else old(slots)
    {
      if agent == "" || id == "" {
        return false;
      }
      if |id| >= CLIENT_ID_MAX {
        return false;
      }
      ok := true;
      var current := Load(agent);
      if current == Some(id) {
        assert slots == slots[agent := id];
        return;
      }
      slots := slots[agent := id];
    }

    method Erase()
      modifies this
      ensures slots == map[]
    {
      slots := map[];
    }

    method BindOrCheck(agent: string, id: string) returns (result: BindResult)
      modifies this
      ensures result == Answer(old(slots), agent, id)
      ensures slots == Bound(old(slots), agent, id)
    {
      if agent == "" || id == "" {
        return BindError;
      }
      if |id| >= CLIENT_ID_MAX {
        return BindError;
      }
      var stored := Load(agent);
      if stored.None? {
        var saved := Save(agent, id);
        result := if saved then OkNew else BindError;
      } else if stored.value == id {
        result := OkExisting;
      } else {
        result := Mismatch;
      }
    }
  }

  // ----------------------------------------------------- interleavings

  /** Where one call of the bind stands. A call that has decided carries the place of its
      entry in the log. */
  datatype Progress =
    | Waiting
    | Holding
    | FoundEmpty
    | Saving
    | Decided(result: BindResult, entry: nat)
    | Returned(result: BindResult, entry: nat, until: nat)
    | Refused

  /** A call of the bind; `since` is the length of the log when it was made. */
  datatype Call = Call(agent: string, id: string, since: nat, progress: Progress)

  /** What happened to the slots, in the order it took effect. */
  datatype Entry = Binds(call: nat, agent: string, id: string, result: BindResult) | Erased

  datatype State = State(slots: Slots, calls: seq<Call>, holder: Option<nat>, log: seq<Entry>)

  datatype Step = Invoke(agent: string, id: string) | Move(call: nat) | EraseAll

  predicate Allowed(s: State, step: Step) {
    match step
    case Invoke(_, _) => true
    case EraseAll => true
    case Move(c) =>
      && c < |s.calls|
      && !s.calls[c].progress.Returned? && !s.calls[c].progress.Refused?
      && (s.calls[c].progress.Waiting? ==> s.holder.None?)
  }

  function WithCall(s: State, c: nat, progress: Progress): State
    requires c < |s.calls|
  {
    s.(calls := s.calls[c := s.calls[c].(progress := progress)])
  }

  /** The call takes effect with this result. */
  function Decide(s: State, c: nat, result: BindResult): State
    requires c < |s.calls|
  {
    WithCall(s, c, Decided(result, |s.log|)).(log := s.log + [Binds(c, s.calls[c].agent, s.calls[c].id, result)])
  }

  /** One step: a call is made, a call makes its next access, or the slots are erased. The save looks
      at the slot once more before it writes. */
  function Next(s: State, step: Step): State
    requires Allowed(s, step)
  {
    match step
    case Invoke(agent, id) =>
      s.(calls := s.calls + [Call(agent, id, |s.log|, if ArgumentsValid(agent, id) then Waiting else Refused)])
    case EraseAll => s.(slots := map[], log := s.log + [Erased])
    case Move(c) =>
      var call := s.calls[c];
      match call.progress
      case Waiting => WithCall(s, c, Holding).(holder := Some(c))
      case Holding =>
        (match Lookup(s.slots, call.agent)
         case None => WithCall(s, c, FoundEmpty)
         case Some(stored) => Decide(s, c, if stored == call.id then OkExisting else Mismatch))
      case FoundEmpty =>
        if Lookup(s.slots, call.agent) == Some(call.id) then Decide(s, c, OkNew) else WithCall(s, c, Saving)
      case Saving => Decide(s, c, OkNew).(slots := s.slots[call.agent := call.id])
      case Decided(result, entry) => WithCall(s, c, Returned(result, entry, |s.log|)).(holder := None)
      case Returned(_, _, _) => s
      case Refused => s
  }

  const START := State(map[], [], None, [])

  predicate Runs(s: State, run: seq<Step>)
    decreases run
  {
    run == [] || (Allowed(s, run[0]) && Runs(Next(s, run[0]), run[1..]))
  }

  function After(s: State, run: seq<Step>): State
    requires Runs(s, run)
    decreases run
  {
    if run == [] then s else After(Next(s, run[0]), run[1..])
  }

  // ------------------------------------------------- the sequential log

  function Effect(slots: Slots, e: Entry): Slots {
    match e
    case Erased => map[]
    case Binds(_, agent, id, _) => Bound(slots, agent, id)
  }

  /** The slots after the log's operations, carried out one after the other. */
  function Replay(log: seq<Entry>): Slots {
    if log == [] then map[]
    else Effect(Replay(log[..|log| - 1]), log[|log| - 1])
  }

  /** Every result in the log is what the sequential slot answers at that point. */
  predicate Sequential(log: seq<Entry>) {
    forall k :: 0 <= k < |log| && log[k].Binds? ==>
      && ArgumentsValid(log[k].agent, log[k].id)
      && log[k].result == Answer(Replay(log[..k]), log[k].agent, log[k].id)
  }

  lemma LogGrows(log: seq<Entry>, e: Entry)
    requires Sequential(log)
    requires e.Binds? ==>
               ArgumentsValid(e.agent, e.id) && e.result == Answer(Replay(log), e.agent, e.id)
    ensures Sequential(log + [e])
    ensures Replay(log + [e]) == Effect(Replay(log), e)
  {
    var longer := log + [e];
    assert longer[..|log|] == log;
    forall k | 0 <= k < |log| ensures longer[..k] == log[..k] {}
  }

  // -------------------------------------------------------- invariant

  predicate Inside(p: Progress) {
    p.Holding? || p.FoundEmpty? || p.Saving? || p.Decided?
  }

  /** A decided call has its entry in the log, made after the call was and before it returned. */
  predicate EntryHolds(s: State, c: nat, result: BindResult, entry: nat)
    requires c < |s.calls|
  {
    && s.calls[c].since <= entry < |s.log|
    && s.log[entry] == Binds(c, s.calls[c].agent, s.calls[c].id, result)
  }

  predicate CallHolds(s: State, c: nat)
    requires c < |s.calls|
  {
    var call := s.calls[c];
    && call.since <= |s.log|
    && (call.progress.Refused? <==> !ArgumentsValid(call.agent, call.id))
    && (Inside(call.progress) <==> s.holder == Some(c))
    && match call.progress
       case FoundEmpty => Lookup(s.slots, call.agent).None?
       case Saving => Lookup(s.slots, call.agent).None?
       case Decided(result, entry) => EntryHolds(s, c, result, entry)
       case Returned(result, entry, until) => EntryHolds(s, c, result, entry) && entry < until <= |s.log|
       case _ => true
  }

  /** The entry belongs to a call that has decided and points back at it. */
  predicate OwnerHolds(s: State, k: nat)
    requires k < |s.log|
  {
    s.log[k].Binds? ==>
      && s.log[k].call < |s.calls|
      && match s.calls[s.log[k].call].progress
         case Decided(_, entry) => entry == k
         case Returned(_, entry, _) => entry == k
         case _ => false
  }

  predicate Inv(s: State) {
    && s.slots == Replay(s.log)
    && Sequential(s.log)
    && (s.holder.Some? ==> s.holder.value < |s.calls|)
    && (forall c :: 0 <= c < |s.calls| ==> CallHolds(s, c))
    && (forall k :: 0 <= k < |s.log| ==> OwnerHolds(s, k))
  }

  lemma ProgressKeeps(s: State, c: nat, progress: Progress, holder: Option<nat>)
    requires Inv(s) && c < |s.calls|
    requires !s.calls[c].progress.Decided? || (progress.Returned? && progress.entry == s.calls[c].progress.entry)
    requires !s.calls[c].progress.Returned?
    requires !progress.Decided? && (progress.Returned? ==> s.calls[c].progress.Decided?)
    requires s.holder == Some(c) || s.holder.None?
    requires holder == if Inside(progress) then Some(c) else None
    requires CallHolds(WithCall(s, c, progress).(holder := holder), c)
    ensures Inv(WithCall(s, c, progress).(holder := holder))
  {
    var t := WithCall(s, c, progress).(holder := holder);
    forall d | 0 <= d < |t.calls| ensures CallHolds(t, d) {
      assert CallHolds(s, d);
    }
    forall k | 0 <= k < |t.log| ensures OwnerHolds(t, k) {
      assert OwnerHolds(s, k);
    }
  }

  /** A call outside the mutex is untouched when the holder decides. */
  lemma OutsiderKept(s: State, c: nat, result: BindResult, slots: Slots, d: nat)
    requires c < |s.calls| && d < |s.calls| && d != c && s.holder == Some(c) && CallHolds(s, d)
    ensures CallHolds(Decide(s, c, result).(slots := slots), d)
  {
  }

  /** The holder's own call points at the entry it just made. */
  lemma HolderKept(s: State, c: nat, result: BindResult, slots: Slots)
    requires c < |s.calls| && s.holder == Some(c) && CallHolds(s, c)
    ensures CallHolds(Decide(s, c, result).(slots := slots), c)
  {
  }

  lemma OwnersKept(s: State, c: nat, result: BindResult, slots: Slots, k: nat)
    requires c < |s.calls| && k <= |s.log| && !s.calls[c].progress.Decided? && !s.calls[c].progress.Returned?
    requires k < |s.log| ==> OwnerHolds(s, k)
    ensures OwnerHolds(Decide(s, c, result).(slots := slots), k)
  {
  }

  lemma DecideKeeps(s: State, c: nat, result: BindResult)
    requires Inv(s) && c < |s.calls| && s.holder == Some(c) && !s.calls[c].progress.Decided?
    requires result == Answer(s.slots, s.calls[c].agent, s.calls[c].id)
    ensures Inv(Decide(s, c, result).(slots := Bound(s.slots, s.calls[c].agent, s.calls[c].id)))
  {
    var call := s.calls[c];
    var slots := Bound(s.slots, call.agent, call.id);
    assert CallHolds(s, c);
    LogGrows(s.log, Binds(c, call.agent, call.id, result));
    var t := Decide(s, c, result).(slots := slots);
    forall d | 0 <= d < |t.calls| ensures CallHolds(t, d) {
      assert CallHolds(s, d);
      if d == c {
        HolderKept(s, c, result, slots);
      } else {
        OutsiderKept(s, c, result, slots, d);
      }
    }
    forall k | 0 <= k < |t.log| ensures OwnerHolds(t, k) {
      OwnersKept(s, c, result, slots, k);
    }
  }

  /** A longer log and fewer bindings leave a call as good as it was. */
  lemma CallKept(s: State, slots: Slots, e: Entry, c: nat)
    requires c < |s.calls| && CallHolds(s, c)
    requires forall agent :: Lookup(s.slots, agent).None? ==> Lookup(slots, agent).None?
    ensures CallHolds(s.(slots := slots, log := s.log + [e]), c)
  {
  }

  lemma EraseKeeps(s: State)
    requires Inv(s)
    ensures Inv(Next(s, EraseAll))
  {
    LogGrows(s.log, Erased);
    var t := s.(slots := map[], log := s.log + [Erased]);
    forall d | 0 <= d < |t.calls| ensures CallHolds(t, d) {
      CallKept(s, map[], Erased, d);
    }
    forall k | 0 <= k < |t.log| ensures OwnerHolds(t, k) {
      assert k < |s.log| ==> OwnerHolds(s, k);
    }
  }

  lemma InvokeKeeps(s: State, agent: string, id: string)
    requires Inv(s)
    ensures Inv(Next(s, Invoke(agent, id)))
  {
    var t := Next(s, Invoke(agent, id));
    forall d | 0 <= d < |t.calls| ensures CallHolds(t, d) {
      assert d < |s.calls| ==> CallHolds(s, d);
    }
    forall k | 0 <= k < |t.log| ensures OwnerHolds(t, k) {
      assert OwnerHolds(s, k);
    }
  }

  lemma MoveKeeps(s: State, c: nat)
    requires Inv(s) && Allowed(s, Move(c))
    ensures Inv(Next(s, Move(c)))
  {
    var call := s.calls[c];
    assert CallHolds(s, c);
    match call.progress {
      case Waiting => ProgressKeeps(s, c, Holding, Some(c));
      case Holding =>
        if Lookup(s.slots, call.agent).None? {
          ProgressKeeps(s, c, FoundEmpty, Some(c));
        } else {
          DecideKeeps(s, c, Answer(s.slots, call.agent, call.id));
        }
      case FoundEmpty => ProgressKeeps(s, c, Saving, Some(c));
      case Saving => DecideKeeps(s, c, OkNew);
      case Decided(result, entry) => ProgressKeeps(s, c, Returned(result, entry, |s.log|), None);
      case _ =>
    }
  }

  lemma {:induction false} Reached(s: State, run: seq<Step>)
    requires Inv(s) && Runs(s, run)
    ensures Inv(After(s, run))
    decreases run
  {
    if run != [] {
      match run[0] {
        case Invoke(agent, id) => InvokeKeeps(s, agent, id);
        case Move(c) => MoveKeeps(s, c);
        case EraseAll => EraseKeeps(s);
      }
      Reached(Next(s, run[0]), run[1..]);
    }
  }

  // ---------------------------------------------------------- theorems

  /** Linearizability: in every interleaving of binds and unlocked erases the slots are those of the
      log carried out in sequence, every logged result is the sequential answer, every call that
      returned a decision has exactly one entry, with its result, and a call that returned before
      another was made precedes it in the log. Refused at once are exactly the calls without an agent or
      with an id that is empty or longer than 254 bytes. */
  lemma {:induction false} Linearizable(run: seq<Step>)
    requires Runs(START, run)
    ensures var s := After(START, run);
            && s.slots == Replay(s.log)
            && Sequential(s.log)
            && (forall c :: 0 <= c < |s.calls| && s.calls[c].progress.Returned? ==>
                  EntryHolds(s, c, s.calls[c].progress.result, s.calls[c].progress.entry))
            && (forall j, k :: 0 <= j < k < |s.log| && s.log[j].Binds? && s.log[k].Binds? ==>
                  s.log[j].call != s.log[k].call)
            && (forall a, b :: 0 <= a < |s.calls| && 0 <= b < |s.calls|
                               && s.calls[a].progress.Returned? && s.calls[b].progress.Returned?
                               && s.calls[a].progress.until <= s.calls[b].since ==>
                  s.calls[a].progress.entry < s.calls[b].progress.entry)
            && (forall c :: 0 <= c < |s.calls| ==>
                  (s.calls[c].progress.Refused? <==>
                   !(s.calls[c].agent != "" && 1 <= |s.calls[c].id| <= 254)))
  {
    Reached(START, run);
    var s := After(START, run);
    forall c | 0 <= c < |s.calls|
      ensures s.calls[c].since <= |s.log|
      ensures s.calls[c].progress.Refused? <==> !ArgumentsValid(s.calls[c].agent, s.calls[c].id)
      ensures s.calls[c].progress.Returned? ==>
                && EntryHolds(s, c, s.calls[c].progress.result, s.calls[c].progress.entry)
                && s.calls[c].progress.entry < s.calls[c].progress.until
    {
      assert CallHolds(s, c);
    }
    forall j, k | 0 <= j < k < |s.log| && s.log[j].Binds? && s.log[k].Binds?
      ensures s.log[j].call != s.log[k].call
    {
      assert OwnerHolds(s, j) && OwnerHolds(s, k);
    }
  }

  predicate NoEraseBetween(log: seq<Entry>, i: nat, j: nat) {
    forall k :: i <= k < j && k < |log| ==> !log[k].Erased?
  }

  lemma ReplayNext(log: seq<Entry>, i: nat)
    requires i < |log|
    ensures Replay(log[..i + 1]) == Effect(Replay(log[..i]), log[i])
  {
    assert log[..i + 1][..i] == log[..i];
  }

  lemma EffectKeepsSlot(slots: Slots, e: Entry, agent: string, id: string)
    requires Lookup(slots, agent) == Some(id) && !e.Erased?
    ensures Lookup(Effect(slots, e), agent) == Some(id)
  {
  }

  /** Once bound, the slot keeps its id until the next erase. */
  lemma {:induction false} SlotKept(log: seq<Entry>, i: nat, j: nat, agent: string, id: string)
    requires i <= j <= |log| && NoEraseBetween(log, i, j)
    requires Lookup(Replay(log[..i]), agent) == Some(id)
    ensures Lookup(Replay(log[..j]), agent) == Some(id)
    decreases j
  {
    if i < j {
      SlotKept(log, i, j - 1, agent, id);
      ReplayNext(log, j - 1);
      EffectKeepsSlot(Replay(log[..j - 1]), log[j - 1], agent, id);
    }
  }

  lemma AcceptedIsStored(log: seq<Entry>, i: nat)
    requires Sequential(log) && i < |log| && log[i].Binds? && Accepts(log[i].result)
    ensures Lookup(Replay(log[..i + 1]), log[i].agent) == Some(log[i].id)
  {
    ReplayNext(log, i);
  }

  /** In every interleaving: after an accepted bind, and until the next erase, the agent's
      slot belongs to that id. The same id is then an existing binding, any other is a mismatch;
      so at most one bind between two erases is new, and all accepted ones share one id. */
  lemma {:induction false} FirstUseWins(run: seq<Step>, i: nat, j: nat)
    requires Runs(START, run)
    requires var log := After(START, run).log;
             && i < j < |log| && log[i].Binds? && log[j].Binds?
             && log[i].agent == log[j].agent && Accepts(log[i].result)
             && NoEraseBetween(log, i, j)
    ensures var log := After(START, run).log;
            log[j].result == if log[j].id == log[i].id then OkExisting else Mismatch
  {
    Linearizable(run);
    var log := After(START, run).log;
    AcceptedIsStored(log, i);
    SlotKept(log, i + 1, j, log[i].agent, log[i].id);
  }

  /** An accepted bind of the agent before the j-th entry that no erase has undone. */
  predicate Taken(log: seq<Entry>, j: nat, agent: string) {
    exists i :: 0 <= i < j && i < |log| && log[i].Binds? && log[i].agent == agent && Accepts(log[i].result)
                && NoEraseBetween(log, i, j)
  }

  lemma TakenNext(log: seq<Entry>, j: nat, agent: string)
    requires j < |log|
    ensures Taken(log, j + 1, agent) <==>
            || (log[j].Binds? && log[j].agent == agent && Accepts(log[j].result))
            || (!log[j].Erased? && Taken(log, j, agent))
  {
    if i :| 0 <= i < j && log[i].Binds? && log[i].agent == agent && Accepts(log[i].result)
            && NoEraseBetween(log, i, j) {
      if !log[j].Erased? {
        assert NoEraseBetween(log, i, j + 1);
      }
    }
    if i :| 0 <= i < j + 1 && log[i].Binds? && log[i].agent == agent && Accepts(log[i].result)
            && NoEraseBetween(log, i, j + 1) {
      assert i < j ==> NoEraseBetween(log, i, j);
    }
    assert log[j].Binds? ==> NoEraseBetween(log, j, j + 1);
  }

  lemma {:induction false} TakenIsBound(log: seq<Entry>, j: nat, agent: string)
    requires Sequential(log) && j <= |log|
    ensures Lookup(Replay(log[..j]), agent).Some? <==> Taken(log, j, agent)
    decreases j
  {
    if j > 0 {
      TakenIsBound(log, j - 1, agent);
      TakenNext(log, j - 1, agent);
      ReplayNext(log, j - 1);
      var e := log[j - 1];
      if e.Binds? {
        BindMeaning(Replay(log[..j - 1]), e.agent, e.id);
      }
    }
  }

  /** In every interleaving a bind is new exactly when its agent's slot is free: nothing was accepted for the
      agent before, or the slots were erased since. */
  lemma {:induction false} NewExactly(run: seq<Step>, j: nat)
    requires Runs(START, run)
    requires j < |After(START, run).log| && After(START, run).log[j].Binds?
    ensures var log := After(START, run).log;
            log[j].result == OkNew <==>
            forall i :: 0 <= i < j && log[i].Binds? && log[i].agent == log[j].agent && Accepts(log[i].result) ==>
              exists k :: i < k < j && log[k].Erased?
  {
    Linearizable(run);
    var log := After(START, run).log;
    TakenIsBound(log, j, log[j].agent);
  }
}
