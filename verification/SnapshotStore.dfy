/** The two-slot snapshot store: the freshest snapshot of each agent. */
module SnapshotStore {
  import opened Decimals
  import opened CursorSpec

  const MAX_AGENTS := 2

  /** A slot is empty when its agent is. */
  datatype Slot = Slot(snap: Snapshot, receivedUs: int)

  const EMPTY_SLOT := Slot(NO_SNAPSHOT, 0)

  datatype PutResult = PutOk | PutStale | PutNoSlot

  type Slots = seq<Slot>

  // ------------------------------------------------------- specification

  /** The first slot of the agent, or the length. */
  function Find(slots: Slots, agent: string): (i: nat)
    ensures i <= |slots|
    ensures i < |slots| ==> slots[i].snap.agent == agent
    ensures forall k :: 0 <= k < i ==> slots[k].snap.agent != agent
  {
    if slots == [] || slots[0].snap.agent == agent then 0 else 1 + Find(slots[1..], agent)
  }

  /** One put: the slots afterwards and the result. */
  function PutSpec(slots: Slots, snap: Snapshot, now: int): (Slots, PutResult) {
    var existing := Find(slots, snap.agent);
    var empty := Find(slots, "");
    if snap.agent == "" then (slots, PutNoSlot)
    else if existing < |slots| then
      if snap.capturedAt < slots[existing].snap.capturedAt then (slots, PutStale)
      else (slots[existing := Slot(snap, now)], PutOk)
    else if empty < |slots| then (slots[empty := Slot(snap, now)], PutOk)
    else (slots, PutNoSlot)
  }

  /** What the store answers for an agent. */
  function Stored(slots: Slots, agent: string): Option<Snapshot> {
    var i := Find(slots, agent);
    if agent != "" && i < |slots| then Some(slots[i].snap) else None
  }

  /** The occupied slots, in order. */
  function Occupied(slots: Slots): seq<Snapshot> {
    if slots == [] then []
    else if slots[0].snap.agent == "" then Occupied(slots[1..])
    else [slots[0].snap] + Occupied(slots[1..])
  }

  class Store {
    const slots: array<Slot>

    constructor ()
      ensures slots.Length == MAX_AGENTS && fresh(slots)
      ensures forall i :: 0 <= i < MAX_AGENTS ==> slots[i] == EMPTY_SLOT
    {
      slots := new Slot[MAX_AGENTS](_ => EMPTY_SLOT);
    }

    method Put(snap: Snapshot, now: int) returns (r: PutResult)
      modifies slots
      ensures (slots[..], r) == PutSpec(old(slots[..]), snap, now)
    {
      if snap.agent == "" {
        return PutNoSlot;
      }
      var existing, empty := -1, -1;
      var i := 0;
      while i < slots.Length
        invariant 0 <= i <= slots.Length
        invariant slots[..] == old(slots[..])
        invariant existing == -1 && (forall k :: 0 <= k < i ==> slots[k].snap.agent != snap.agent)
        invariant -1 <= empty < i
        invariant empty >= 0 ==> slots[empty].snap.agent == ""
        invariant forall k :: 0 <= k < (if empty < 0 then i else empty) ==> slots[k].snap.agent != ""
      {
        if slots[i].snap.agent == "" {
          if empty < 0 {
            empty := i;
          }
        } else if slots[i].snap.agent == snap.agent {
          existing := i;
          break;
        }
        i := i + 1;
      }
      assert existing >= 0 ==> Find(slots[..], snap.agent) == existing;
      assert existing < 0 ==> Find(slots[..], snap.agent) == slots.Length;
      assert existing < 0 ==> Find(slots[..], "") == if empty < 0 then slots.Length else empty;
      var slot := if existing >= 0 then existing else empty;
      if slot < 0 {
        return PutNoSlot;
      }
      if existing >= 0 && snap.capturedAt < slots[slot].snap.capturedAt {
        return PutStale;
      }
      slots[slot] := Slot(snap, now);
      return PutOk;
    }

    method Get(agent: string) returns (found: bool, out: Snapshot)
      ensures Stored(slots[..], agent) == if found then Some(out) else None
    {
      out := NO_SNAPSHOT;
      found := false;
      for i := 0 to slots.Length
        invariant forall k :: 0 <= k < i ==> slots[k].snap.agent != agent || agent == ""
      {
        if slots[i].snap.agent != "" && slots[i].snap.agent == agent {
          assert Find(slots[..], agent) == i;
          return true, slots[i].snap;
        }
      }
    }

    /** The copies that the callback of a `foreach` sees. */
    method ForEach() returns (copies: seq<Snapshot>)
      ensures copies == Occupied(slots[..])
    {
      copies := [];
      assert slots[0..] == slots[..];
      for i := 0 to slots.Length
        invariant copies + Occupied(slots[i..]) == Occupied(slots[..])
      {
        assert slots[i..][0] == slots[i] && slots[i..][1..] == slots[i + 1..];
        if slots[i].snap.agent != "" {
          assert copies + ([slots[i].snap] + Occupied(slots[i + 1..]))
              == (copies + [slots[i].snap]) + Occupied(slots[i + 1..]);
          copies := copies + [slots[i].snap];
        }
      }
      assert slots[slots.Length..] == [];
    }
  }

  // ------------------------------------------------------------ invariant

  /** Occupied slots hold distinct agents and come before the empty ones. */
  ghost predicate Good(slots: Slots) {
    && |slots| == MAX_AGENTS
    && (slots[0].snap.agent == "" ==> slots[1].snap.agent == "")
    && (slots[0].snap.agent == slots[1].snap.agent ==> slots[0].snap.agent == "")
  }

  const EMPTY_STORE: Slots := [EMPTY_SLOT, EMPTY_SLOT]

  /** The slot of an agent shows that it was received at `us`. */
  predicate ReceivedAt(slots: Slots, agent: string, us: int) {
    exists slot <- slots :: slot.snap.agent == agent && slot.receivedUs == us
  }

  lemma ReceivedIn(slots: Slots, b: string, us: int)
    requires |slots| == MAX_AGENTS
    ensures ReceivedAt(slots, b, us) <==>
            || (slots[0].snap.agent == b && slots[0].receivedUs == us)
            || (slots[1].snap.agent == b && slots[1].receivedUs == us)
  {
    assert slots == [slots[0], slots[1]];
  }

  lemma StampsKept(slots: Slots, snap: Snapshot, now: int)
    requires Good(slots)
    ensures var (after, r) := PutSpec(slots, snap, now);
      && (r == PutOk ==> forall us :: ReceivedAt(after, snap.agent, us) <==> us == now)
      && (forall b, us :: b != "" && b != snap.agent ==> (ReceivedAt(after, b, us) <==> ReceivedAt(slots, b, us)))
  {
    var (after, r) := PutSpec(slots, snap, now);
    forall b, us
      ensures b == snap.agent && r == PutOk ==> (ReceivedAt(after, b, us) <==> us == now)
      ensures b != "" && b != snap.agent ==> (ReceivedAt(after, b, us) <==> ReceivedAt(slots, b, us))
    {
      ReceivedIn(slots, b, us);
      ReceivedIn(after, b, us);
    }
  }

  /** What one put does, as seen through `get`. An accepted one stamps the agent's slot with the time of the put and
      leaves the stamp of every other agent alone. */
  lemma PutMeaning(slots: Slots, snap: Snapshot, now: int)
    requires Good(slots)
    ensures var (after, r) := PutSpec(slots, snap, now);
      && Good(after)
      && (r != PutOk ==> after == slots)
      && (r == PutOk ==> Stored(after, snap.agent) == Some(snap) && snap.agent != "")
      && (forall b :: b != snap.agent ==> Stored(after, b) == Stored(slots, b))
      && (r == PutOk ==> forall us :: ReceivedAt(after, snap.agent, us) <==> us == now)
      && (forall b, us :: b != "" && b != snap.agent ==> (ReceivedAt(after, b, us) <==> ReceivedAt(slots, b, us)))
      && (r == PutStale <==> Stored(slots, snap.agent).Some?
                             && snap.capturedAt < Stored(slots, snap.agent).value.capturedAt)
      && (r == PutNoSlot <==> snap.agent == ""
                              || (Stored(slots, snap.agent).None?
                                  && slots[0].snap.agent != "" && slots[1].snap.agent != ""))
  {
    var (after, r) := PutSpec(slots, snap, now);
    StampsKept(slots, snap, now);
    forall b | b != snap.agent && b != "" ensures Stored(after, b) == Stored(slots, b) {
      assert Find(slots, b) == if slots[0].snap.agent == b then 0 else if slots[1].snap.agent == b then 1 else 2;
      assert Find(after, b) == if after[0].snap.agent == b then 0 else if after[1].snap.agent == b then 1 else 2;
    }
  }

  /** The occupied slots are exactly the stored snapshots, each agent once. */
  lemma OccupiedAreStored(slots: Slots)
    requires Good(slots)
    ensures forall x :: x in Occupied(slots) <==> x.agent != "" && Stored(slots, x.agent) == Some(x)
    ensures forall i, j :: 0 <= i < j < |Occupied(slots)| ==> Occupied(slots)[i].agent != Occupied(slots)[j].agent
  {
    assert slots[1..] == [slots[1]] && slots[1..][1..] == [];
    assert Occupied(slots[1..]) == if slots[1].snap.agent == "" then [] else [slots[1].snap];
    assert Occupied(slots) == (if slots[0].snap.agent == "" then [] else [slots[0].snap]) + Occupied(slots[1..]);
    forall agent | agent != "" ensures Find(slots, agent) ==
      if slots[0].snap.agent == agent then 0 else if slots[1].snap.agent == agent then 1 else 2 {
    }
  }

  // ----------------------------------------------------------------- runs

  datatype Arrival = Arrival(snap: Snapshot, now: int)

  function Run(slots: Slots, puts: seq<Arrival>): Slots {
    if puts == [] then slots
    else PutSpec(Run(slots, puts[..|puts| - 1]), puts[|puts| - 1].snap, puts[|puts| - 1].now).0
  }

  lemma {:induction false} RunGood(slots: Slots, puts: seq<Arrival>)
    requires Good(slots)
    ensures Good(Run(slots, puts))
  {
    if puts != [] {
      var n := |puts| - 1;
      RunGood(slots, puts[..n]);
      PutMeaning(Run(slots, puts[..n]), puts[n].snap, puts[n].now);
    }
  }

  /** Along every run, what is stored for an agent never goes back in time or away. */
  lemma {:induction false} CapturedNeverDecreases(slots: Slots, puts: seq<Arrival>, agent: string)
    requires Good(slots) && Stored(slots, agent).Some?
    ensures Stored(Run(slots, puts), agent).Some?
    ensures Stored(Run(slots, puts), agent).value.capturedAt >= Stored(slots, agent).value.capturedAt
  {
    if puts != [] {
      var n := |puts| - 1;
      RunGood(slots, puts[..n]);
      CapturedNeverDecreases(slots, puts[..n], agent);
      PutMeaning(Run(slots, puts[..n]), puts[n].snap, puts[n].now);
    }
  }

  /** Both agents of the deployment. */
  ghost predicate OnlyTwo(puts: seq<Arrival>, a: string, b: string) {
    a != "" && b != "" && forall i :: 0 <= i < |puts| ==> puts[i].snap.agent == a || puts[i].snap.agent == b
  }

  /** Different snapshots of one agent were captured at different times. */
  ghost predicate DistinctTimes(puts: seq<Arrival>) {
    forall i, j :: 0 <= i < |puts| && 0 <= j < |puts|
      && puts[i].snap.agent == puts[j].snap.agent && puts[i].snap.capturedAt == puts[j].snap.capturedAt
      ==> puts[i].snap == puts[j].snap
  }

  /** The freshest snapshot of an agent among the arrivals. */
  ghost predicate Freshest(puts: seq<Arrival>, agent: string, x: Option<Snapshot>) {
    match x
    case None => forall i :: 0 <= i < |puts| ==> puts[i].snap.agent != agent
    case Some(s) =>
      && (exists i :: 0 <= i < |puts| && puts[i].snap == s)
      && s.agent == agent
      && forall i :: 0 <= i < |puts| && puts[i].snap.agent == agent ==> puts[i].snap.capturedAt <= s.capturedAt
  }

  ghost predicate TwoSlots(slots: Slots, a: string, b: string) {
    Good(slots) && forall i :: 0 <= i < MAX_AGENTS ==> slots[i].snap.agent in {"", a, b}
  }

  lemma TwoSlotsKept(slots: Slots, snap: Snapshot, now: int, a: string, b: string)
    requires TwoSlots(slots, a, b) && a != "" && b != "" && (snap.agent == a || snap.agent == b)
    ensures TwoSlots(PutSpec(slots, snap, now).0, a, b)
    ensures PutSpec(slots, snap, now).1 != PutNoSlot
  {
    PutMeaning(slots, snap, now);
    if Stored(slots, snap.agent).None? {
      assert Find(slots, snap.agent) == 2;
      assert slots[0].snap.agent in {"", a, b} && slots[1].snap.agent in {"", a, b};
    }
  }

  lemma {:induction false} RunIsFreshest(puts: seq<Arrival>, a: string, b: string, agent: string)
    requires OnlyTwo(puts, a, b) && agent != ""
    ensures TwoSlots(Run(EMPTY_STORE, puts), a, b)
    ensures Freshest(puts, agent, Stored(Run(EMPTY_STORE, puts), agent))
  {
    if puts == [] {
      assert Find(EMPTY_STORE, agent) == 2;
    } else {
      var n := |puts| - 1;
      var before := Run(EMPTY_STORE, puts[..n]);
      var x := Stored(before, agent);
      RunIsFreshest(puts[..n], a, b, agent);
      TwoSlotsKept(before, puts[n].snap, puts[n].now, a, b);
      PutMeaning(before, puts[n].snap, puts[n].now);
      if x.Some? {
        var i :| 0 <= i < n && puts[..n][i].snap == x.value;
        assert puts[i].snap == x.value;
      }
      FreshestStep(puts, agent, x, Stored(Run(EMPTY_STORE, puts), agent));
    }
  }

  lemma FreshestStep(puts: seq<Arrival>, agent: string, x: Option<Snapshot>, y: Option<Snapshot>)
    requires puts != [] && Freshest(puts[..|puts| - 1], agent, x)
    requires var last := puts[|puts| - 1].snap;
             if last.agent != agent then y == x
             else if x.Some? && last.capturedAt < x.value.capturedAt then y == x
             else y == Some(last)
    ensures Freshest(puts, agent, y)
  {
    var n := |puts| - 1;
    assert forall i :: 0 <= i < n ==> puts[..n][i] == puts[i];
    if y.Some? {
      if y == x {
        var i :| 0 <= i < n && puts[..n][i].snap == y.value;
        assert puts[i].snap == y.value;
      } else {
        assert puts[n].snap == y.value;
      }
    }
  }

  lemma FreshestUnique(p: seq<Arrival>, q: seq<Arrival>, agent: string, x: Option<Snapshot>, y: Option<Snapshot>)
    requires forall s :: s in p <==> s in q
    requires DistinctTimes(p) && Freshest(p, agent, x) && Freshest(q, agent, y)
    ensures x == y
  {
    if x.Some? {
      var i :| 0 <= i < |p| && p[i].snap == x.value;
      assert p[i] in q;
      var j :| 0 <= j < |q| && q[j] == p[i];
      assert q[j].snap.agent == agent;
    }
    if y.Some? {
      var j :| 0 <= j < |q| && q[j].snap == y.value;
      assert q[j] in p;
      var i :| 0 <= i < |p| && p[i] == q[j];
      assert p[i].snap.agent == agent;
    }
  }

  /** Every arrival order of the same puts ends with the same snapshot for each agent: the
      one captured last. */
  lemma OrderDoesNotMatter(p: seq<Arrival>, q: seq<Arrival>, a: string, b: string, agent: string)
    requires multiset(p) == multiset(q) && OnlyTwo(p, a, b) && DistinctTimes(p)
    ensures Stored(Run(EMPTY_STORE, p), agent) == Stored(Run(EMPTY_STORE, q), agent)
    ensures agent != "" ==> Freshest(p, agent, Stored(Run(EMPTY_STORE, p), agent))
  {
    forall i | 0 <= i < |q| ensures q[i].snap.agent == a || q[i].snap.agent == b {
      assert q[i] in multiset(q);
      assert q[i] in multiset(p);
    }
    if agent != "" {
      RunIsFreshest(p, a, b, agent);
      RunIsFreshest(q, a, b, agent);
      forall s ensures s in p <==> s in q {
        assert s in p <==> s in multiset(p);
        assert s in q <==> s in multiset(q);
      }
      FreshestUnique(p, q, agent, Stored(Run(EMPTY_STORE, p), agent), Stored(Run(EMPTY_STORE, q), agent));
    }
  }
}
