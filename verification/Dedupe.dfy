/** The daemon's dedupe gate: drifting reset times are anchored to the last pushed snapshot
    before the two are compared. */
module Dedupe {
  import opened Decimals
  import opened CursorSpec

  // ------------------------------------------- order-free comparison

  /** A total order, as tuples of comparable values have one. */
  ghost predicate TotalOrder<T(!new)>(below: (T, T) -> bool) {
    && (forall a :: below(a, a))
    && (forall a, b :: below(a, b) || below(b, a))
    && (forall a, b :: below(a, b) && below(b, a) ==> a == b)
    && (forall a, b, c :: below(a, b) && below(b, c) ==> below(a, c))
  }

  function Insert<T>(x: T, s: seq<T>, below: (T, T) -> bool): (r: seq<T>)
    ensures multiset(r) == multiset(s) + multiset{x}
  {
    if s == [] then [x]
    else if below(x, s[0]) then [x] + s
    else
      assert s == [s[0]] + s[1..];
      [s[0]] + Insert(x, s[1..], below)
  }

  function Sorted<T>(s: seq<T>, below: (T, T) -> bool): (r: seq<T>)
    ensures multiset(r) == multiset(s)
  {
    if s == [] then [] else assert s == [s[0]] + s[1..]; Insert(s[0], Sorted(s[1..], below), below)
  }

  ghost predicate InOrder<T>(s: seq<T>, below: (T, T) -> bool) {
    forall i, j :: 0 <= i < j < |s| ==> below(s[i], s[j])
  }

  lemma {:induction false} InsertInOrder<T(!new)>(x: T, s: seq<T>, below: (T, T) -> bool)
    requires TotalOrder(below) && InOrder(s, below)
    ensures InOrder(Insert(x, s, below), below)
    decreases s
  {
    if s != [] && !below(x, s[0]) {
      InsertInOrder(x, s[1..], below);
      var rest := Insert(x, s[1..], below);
      forall y <- rest ensures below(s[0], y) {
        assert y in multiset(rest);
        assert y == x || y in s[1..];
      }
    }
  }

  lemma {:induction false} SortedInOrder<T(!new)>(s: seq<T>, below: (T, T) -> bool)
    requires TotalOrder(below)
    ensures InOrder(Sorted(s, below), below)
    decreases s
  {
    if s != [] {
      SortedInOrder(s[1..], below);
      InsertInOrder(s[0], Sorted(s[1..], below), below);
    }
  }

  /** Two ordered lists with the same elements are the same list. */
  lemma {:induction false} OneOrder<T(!new)>(a: seq<T>, b: seq<T>, below: (T, T) -> bool)
    requires TotalOrder(below) && InOrder(a, below) && InOrder(b, below) && multiset(a) == multiset(b)
    ensures a == b
    decreases a
  {
    assert |multiset(a)| == |multiset(b)|;
    if a != [] {
      assert a[0] in multiset(b) && b[0] in multiset(a);
      assert below(a[0], b[0]) && below(b[0], a[0]);
      TailMultiset(a);
      TailMultiset(b);
      OneOrder(a[1..], b[1..], below);
    }
  }

  lemma TailMultiset<T>(s: seq<T>)
    requires s != []
    ensures multiset(s[1..]) == multiset(s) - multiset{s[0]}
  {
    assert s == [s[0]] + s[1..];
  }

  /** The comparison of two snapshots: the agent and the sorted sessions; the capture time is left out. */
  predicate SemanticallyEqual(a: Snapshot, other: Option<Snapshot>, below: (Session, Session) -> bool) {
    match other
    case None => false
    case Some(b) => a.agent == b.agent && Sorted(a.sessions, below) == Sorted(b.sessions, below)
  }

  /** Whatever the order of tuples is, the comparison says that the sessions are the same, each as often. */
  lemma SemanticallyEqualExactly(a: Snapshot, b: Snapshot, below: (Session, Session) -> bool)
    requires TotalOrder(below)
    ensures SemanticallyEqual(a, Some(b), below) <==>
              a.agent == b.agent && multiset(a.sessions) == multiset(b.sessions)
  {
    SortedInOrder(a.sessions, below);
    SortedInOrder(b.sessions, below);
    if multiset(a.sessions) == multiset(b.sessions) {
      OneOrder(Sorted(a.sessions, below), Sorted(b.sessions, below), below);
    } else {
      assert multiset(Sorted(a.sessions, below)) == multiset(a.sessions);
    }
  }

  // --------------------------------------------------------- anchoring

  /** The last pushed session of the type; of two the later one. */
  function PriorOf(sessions: seq<Session>, kind: string): Option<Session> {
    if sessions == [] then None
    else
      var last := sessions[|sessions| - 1];
      if last.kind == kind then Some(last) else PriorOf(sessions[..|sessions| - 1], kind)
  }

  function AnchoredSession(s: Session, last: seq<Session>): Session {
    match PriorOf(last, s.kind)
    case None => s
    case Some(prior) => if prior.usedPct != s.usedPct then s else s.(resetsAt := prior.resetsAt)
  }

  function AnchoredSessions(latest: seq<Session>, last: seq<Session>): seq<Session> {
    seq(|latest|, i requires 0 <= i < |latest| => AnchoredSession(latest[i], last))
  }

  function Anchored(latest: Snapshot, last: Option<Snapshot>): Snapshot {
    match last
    case None => latest
    case Some(l) => latest.(sessions := AnchoredSessions(latest.sessions, l.sessions))
  }

  method AnchorResetsAt(latest: Snapshot, last: Option<Snapshot>) returns (r: Snapshot)
    ensures r == Anchored(latest, last)
  {
    if last.None? {
      return latest;
    }
    var byType: map<string, Session> := map[];
    var n := 0;
    var prior := last.value.sessions;
    while n < |prior|
      invariant n <= |prior|
      invariant forall kind :: (kind in byType <==> PriorOf(prior[..n], kind).Some?)
                               && (kind in byType ==> PriorOf(prior[..n], kind) == Some(byType[kind]))
    {
      assert prior[..n + 1][..n] == prior[..n];
      byType := byType[prior[n].kind := prior[n]];
      n := n + 1;
    }
    assert prior[..n] == prior;
    var anchored: seq<Session> := [];
    var i := 0;
    while i < |latest.sessions|
      invariant i <= |latest.sessions|
      invariant anchored == AnchoredSessions(latest.sessions, prior)[..i]
    {
      var s := latest.sessions[i];
      if s.kind !in byType || byType[s.kind].usedPct != s.usedPct {
        anchored := anchored + [s];
      } else {
        anchored := anchored + [Session(s.kind, s.usedPct, byType[s.kind].resetsAt, s.rolling, s.windowMins)];
      }
      i := i + 1;
    }
    r := Snapshot(latest.agent, latest.capturedAt, anchored);
  }

  predicate DistinctTypes(sessions: seq<Session>) {
    forall i, j :: 0 <= i < j < |sessions| ==> sessions[i].kind != sessions[j].kind
  }

  /** A session without its reset time. */
  datatype Facts = Facts(kind: string, usedPct: Decimal, rolling: bool, windowMins: int)

  function FactsOf(s: Session): Facts {
    Facts(s.kind, s.usedPct, s.rolling, s.windowMins)
  }

  function AllFacts(sessions: seq<Session>): set<Facts> {
    set s <- sessions :: FactsOf(s)
  }

  lemma {:induction false} PriorIsUnique(sessions: seq<Session>, s: Session)
    requires DistinctTypes(sessions) && s in sessions
    ensures PriorOf(sessions, s.kind) == Some(s)
    decreases sessions
  {
    var n := |sessions| - 1;
    if sessions[n] != s {
      assert sessions == sessions[..n] + [sessions[n]];
      PriorIsUnique(sessions[..n], s);
      var i :| 0 <= i < n && sessions[i] == s;
    }
  }

  lemma {:induction false} PriorIsThere(sessions: seq<Session>, kind: string)
    ensures PriorOf(sessions, kind).Some? ==>
              PriorOf(sessions, kind).value in sessions && PriorOf(sessions, kind).value.kind == kind
    decreases sessions
  {
    if sessions != [] {
      var n := |sessions| - 1;
      PriorIsThere(sessions[..n], kind);
    }
  }

  /** Sessions of distinct types, each once, with the same elements. */
  lemma {:induction false} DistinctMultiset(sessions: seq<Session>)
    requires DistinctTypes(sessions)
    ensures forall s :: multiset(sessions)[s] == if s in sessions then 1 else 0
    decreases sessions
  {
    if sessions != [] {
      assert sessions == [sessions[0]] + sessions[1..];
      DistinctMultiset(sessions[1..]);
      assert sessions[0] !in sessions[1..];
    }
  }

  /** With distinct types an anchored session is one of the last pushed exactly when the
      last pushed sessions have its facts. */
  lemma AnchoredIsPushed(s: Session, last: seq<Session>)
    requires DistinctTypes(last)
    ensures AnchoredSession(s, last) in last <==> FactsOf(s) in AllFacts(last)
    ensures FactsOf(AnchoredSession(s, last)) == FactsOf(s)
  {
    PriorIsThere(last, s.kind);
    if FactsOf(s) in AllFacts(last) {
      var l :| l in last && FactsOf(l) == FactsOf(s);
      PriorIsUnique(last, l);
    }
    var a := AnchoredSession(s, last);
    if a in last {
      PriorIsUnique(last, a);
      assert FactsOf(a) in AllFacts(last);
    }
  }

  lemma AnchoredFacts(latest: seq<Session>, last: seq<Session>)
    requires DistinctTypes(last)
    ensures AllFacts(AnchoredSessions(latest, last)) == AllFacts(latest)
    ensures DistinctTypes(latest) ==> DistinctTypes(AnchoredSessions(latest, last))
  {
    var a := AnchoredSessions(latest, last);
    forall s <- latest ensures FactsOf(s) in AllFacts(a) {
      var i :| 0 <= i < |latest| && latest[i] == s;
      AnchoredIsPushed(s, last);
      assert a[i] in a;
    }
    forall t <- a ensures FactsOf(t) in AllFacts(latest) {
      var i :| 0 <= i < |a| && a[i] == t;
      AnchoredIsPushed(latest[i], last);
      assert latest[i] in latest;
    }
  }

  lemma SameElementsSameMultiset(a: seq<Session>, b: seq<Session>)
    requires DistinctTypes(a) && DistinctTypes(b)
    ensures multiset(a) == multiset(b) <==> forall s :: s in a <==> s in b
  {
    DistinctMultiset(a);
    DistinctMultiset(b);
    if multiset(a) == multiset(b) {
      forall s ensures s in a <==> s in b {
        assert multiset(a)[s] == multiset(b)[s];
      }
    }
  }

  /** The gate is exact: for distinct types the anchored latest snapshot equals the last pushed
      one exactly when they agree on the agent and on the set of sessions apart from reset times. */
  lemma {:induction false} GateIsExact(latest: Snapshot, last: Snapshot, below: (Session, Session) -> bool)
    requires TotalOrder(below) && DistinctTypes(latest.sessions) && DistinctTypes(last.sessions)
    ensures SemanticallyEqual(Anchored(latest, Some(last)), Some(last), below) <==>
              latest.agent == last.agent && AllFacts(latest.sessions) == AllFacts(last.sessions)
  {
    var a, l := AnchoredSessions(latest.sessions, last.sessions), last.sessions;
    SemanticallyEqualExactly(Anchored(latest, Some(last)), last, below);
    AnchoredFacts(latest.sessions, l);
    SameElementsSameMultiset(a, l);
    if AllFacts(latest.sessions) == AllFacts(l) {
      AnchoredIsPermutation(latest.sessions, l);
    }
  }

  lemma AnchoredIsPermutation(latest: seq<Session>, last: seq<Session>)
    requires DistinctTypes(last) && AllFacts(latest) == AllFacts(last)
    ensures forall s :: s in AnchoredSessions(latest, last) <==> s in last
  {
    var a := AnchoredSessions(latest, last);
    forall s | s in a ensures s in last {
      var i :| 0 <= i < |a| && a[i] == s;
      assert latest[i] in latest;
      AnchoredIsPushed(latest[i], last);
    }
    forall s | s in last ensures s in a {
      assert FactsOf(s) in AllFacts(latest);
      var f :| f in latest && FactsOf(f) == FactsOf(s);
      var i :| 0 <= i < |latest| && latest[i] == f;
      PriorIsUnique(last, s);
      assert a[i] == s;
    }
  }

  /** Anchoring twice is anchoring once, for any sessions. */
  lemma AnchoringIsIdempotent(latest: Snapshot, last: Option<Snapshot>)
    ensures Anchored(Anchored(latest, last), last) == Anchored(latest, last)
  {
    if last.Some? {
      var once := AnchoredSessions(latest.sessions, last.value.sessions);
      forall i | 0 <= i < |once|
        ensures AnchoredSessions(once, last.value.sessions)[i] == once[i]
      {
      }
    }
  }

  // ------------------------------------------------- any session types

  function FactsList(sessions: seq<Session>): seq<Facts> {
    if sessions == [] then [] else [FactsOf(sessions[0])] + FactsList(sessions[1..])
  }

  /** The same agent and the same sessions apart from reset times, each as often. */
  predicate OnlyDrifted(a: Snapshot, b: Snapshot) {
    a.agent == b.agent && multiset(FactsList(a.sessions)) == multiset(FactsList(b.sessions))
  }

  /** Of the sessions of one type the last has the usage and the reset time of all of them. */
  predicate Anchorable(sessions: seq<Session>) {
    forall s <- sessions ::
      match PriorOf(sessions, s.kind)
      case None => false
      case Some(prior) => prior.usedPct == s.usedPct && prior.resetsAt == s.resetsAt
  }

  lemma DistinctIsAnchorable(sessions: seq<Session>)
    requires DistinctTypes(sessions)
    ensures Anchorable(sessions)
  {
    forall s <- sessions ensures PriorOf(sessions, s.kind) == Some(s) {
      PriorIsUnique(sessions, s);
    }
  }

  /** The session with these facts and the reset time its type is anchored to. */
  function Restored(f: Facts, last: seq<Session>): Session {
    Session(f.kind, f.usedPct, match PriorOf(last, f.kind) case None => 0 case Some(prior) => prior.resetsAt,
            f.rolling, f.windowMins)
  }

  function AllRestored(facts: seq<Facts>, last: seq<Session>): seq<Session> {
    if facts == [] then [] else [Restored(facts[0], last)] + AllRestored(facts[1..], last)
  }

  lemma {:induction false} FactIsThere(sessions: seq<Session>, f: Facts)
    ensures f in FactsList(sessions) <==> exists s <- sessions :: FactsOf(s) == f
    decreases sessions
  {
    if sessions != [] {
      FactIsThere(sessions[1..], f);
      assert sessions == [sessions[0]] + sessions[1..];
    }
  }

  lemma AnchoredIsRestored(s: Session, last: seq<Session>)
    requires Anchorable(last) && FactsOf(s) in FactsList(last)
    ensures AnchoredSession(s, last) == Restored(FactsOf(s), last)
  {
    FactIsThere(last, FactsOf(s));
    var l :| l in last && FactsOf(l) == FactsOf(s);
  }

  lemma {:induction false} AnchoredAreRestored(latest: seq<Session>, last: seq<Session>)
    requires Anchorable(last) && forall f <- FactsList(latest) :: f in FactsList(last)
    ensures AnchoredSessions(latest, last) == AllRestored(FactsList(latest), last)
    decreases latest
  {
    if latest != [] {
      assert FactsList(latest)[0] == FactsOf(latest[0]);
      AnchoredIsRestored(latest[0], last);
      assert forall f <- FactsList(latest[1..]) :: f in FactsList(latest);
      AnchoredAreRestored(latest[1..], last);
      assert AnchoredSessions(latest, last) == [AnchoredSession(latest[0], last)] + AnchoredSessions(latest[1..], last);
    }
  }

  lemma {:induction false} PushedAreRestored(part: seq<Session>, last: seq<Session>)
    requires Anchorable(last) && forall s <- part :: s in last
    ensures AllRestored(FactsList(part), last) == part
    decreases part
  {
    if part != [] {
      assert part[0] in last;
      PushedAreRestored(part[1..], last);
    }
  }

  lemma {:induction false} RestoredConcat(a: seq<Facts>, b: seq<Facts>, last: seq<Session>)
    ensures AllRestored(a + b, last) == AllRestored(a, last) + AllRestored(b, last)
    decreases a
  {
    if a == [] {
      assert a + b == b;
    } else {
      assert (a + b)[1..] == a[1..] + b;
      RestoredConcat(a[1..], b, last);
    }
  }

  lemma RestoredInsert(front: seq<Facts>, f: Facts, back: seq<Facts>, last: seq<Session>)
    ensures multiset(AllRestored(front + ([f] + back), last))
         == multiset(AllRestored(front + back, last)) + multiset{Restored(f, last)}
  {
    RestoredConcat(front, [f] + back, last);
    RestoredConcat(front, back, last);
    assert ([f] + back)[1..] == back;
  }

  lemma InsertMultiset<T>(front: seq<T>, x: T, back: seq<T>)
    ensures multiset(front + ([x] + back)) == multiset(front + back) + multiset{x}
  {
  }

  lemma TakeOut(a: seq<Facts>, b: seq<Facts>) returns (front: seq<Facts>, back: seq<Facts>)
    requires a != [] && multiset(a) == multiset(b)
    ensures b == front + ([a[0]] + back) && multiset(a[1..]) == multiset(front + back)
  {
    assert a[0] in multiset(b);
    var k :| 0 <= k < |b| && b[k] == a[0];
    front, back := b[..k], b[k + 1..];
    assert b == front + ([b[k]] + back);
    InsertMultiset(front, b[k], back);
    TailMultiset(a);
    assert multiset(front + back) == multiset(b) - multiset{b[k]};
  }

  /** Lists with the same facts, each as often, are restored to the same sessions, each as often. */
  lemma {:induction false} RestoredAsOften(a: seq<Facts>, b: seq<Facts>, last: seq<Session>)
    requires multiset(a) == multiset(b)
    ensures multiset(AllRestored(a, last)) == multiset(AllRestored(b, last))
    decreases a
  {
    if a == [] {
      assert |multiset(b)| == 0;
    } else {
      var front, back := TakeOut(a, b);
      RestoredAsOften(a[1..], front + back, last);
      RestoredInsert(front, a[0], back, last);
    }
  }

  lemma AnchorableSwallows(latest: Snapshot, last: Snapshot, below: (Session, Session) -> bool)
    requires TotalOrder(below) && Anchorable(last.sessions) && OnlyDrifted(latest, last)
    ensures SemanticallyEqual(Anchored(latest, Some(last)), Some(last), below)
  {
    var a, b := FactsList(latest.sessions), FactsList(last.sessions);
    forall f <- a ensures f in b {
      assert f in multiset(b);
    }
    AnchoredAreRestored(latest.sessions, last.sessions);
    PushedAreRestored(last.sessions, last.sessions);
    RestoredAsOften(a, b, last.sessions);
    SemanticallyEqualExactly(Anchored(latest, Some(last)), last, below);
  }

  /** A reset time later than all of the list's. */
  function Beyond(sessions: seq<Session>): (r: int)
    ensures forall s <- sessions :: s.resetsAt < r
  {
    if sessions == [] then 0
    else var r := Beyond(sessions[1..]); if sessions[0].resetsAt < r then r else sessions[0].resetsAt + 1
  }

  lemma {:induction false} DriftedFacts(sessions: seq<Session>, i: nat, resetsAt: int)
    requires i < |sessions|
    ensures FactsList(sessions[i := sessions[i].(resetsAt := resetsAt)]) == FactsList(sessions)
    decreases sessions
  {
    var drifted := sessions[i := sessions[i].(resetsAt := resetsAt)];
    if i > 0 {
      assert drifted[1..] == sessions[1..][i - 1 := sessions[1..][i - 1].(resetsAt := resetsAt)];
      DriftedFacts(sessions[1..], i - 1, resetsAt);
    } else {
      assert drifted[1..] == sessions[1..];
    }
  }

  lemma {:induction false} PriorExists(sessions: seq<Session>, s: Session)
    requires s in sessions
    ensures PriorOf(sessions, s.kind).Some?
    decreases sessions
  {
    var n := |sessions| - 1;
    if sessions[n] != s {
      assert sessions == sessions[..n] + [sessions[n]];
      PriorExists(sessions[..n], s);
    }
  }

  /** A session that its type's last one does not agree with lets some drift through. */
  lemma NotAnchorableDrifts(last: Snapshot, i: nat, below: (Session, Session) -> bool) returns (latest: Snapshot)
    requires TotalOrder(below) && i < |last.sessions|
    requires var s := last.sessions[i];
             match PriorOf(last.sessions, s.kind)
             case None => true
             case Some(prior) => prior.usedPct != s.usedPct || prior.resetsAt != s.resetsAt
    ensures OnlyDrifted(latest, last)
    ensures !SemanticallyEqual(Anchored(latest, Some(last)), Some(last), below)
  {
    var list, s := last.sessions, last.sessions[i];
    PriorExists(list, s);
    var prior := PriorOf(list, s.kind).value;
    latest := last;
    if prior.usedPct != s.usedPct {
      var later := s.(resetsAt := Beyond(list));
      latest := last.(sessions := list[i := later]);
      DriftedFacts(list, i, Beyond(list));
      var anchored := AnchoredSessions(latest.sessions, list);
      assert anchored[i] == later;
      assert later in multiset(anchored) && later !in multiset(list);
    } else {
      var anchored := AnchoredSessions(list, list);
      forall j | 0 <= j < |anchored| ensures anchored[j] != s {
        assert anchored[j] == AnchoredSession(list[j], list);
      }
      assert s in multiset(list) && s !in multiset(anchored);
    }
    SemanticallyEqualExactly(Anchored(latest, Some(last)), last, below);
  }

  /** For any session types: drift of reset times alone, however far, is always swallowed exactly when in
      the last pushed snapshot the sessions of one type agree on usage and reset time. Distinct types do. */
  lemma {:induction false} DriftSwallowedExactly(last: Snapshot, below: (Session, Session) -> bool)
    requires TotalOrder(below)
    ensures Anchorable(last.sessions) <==>
            forall latest | OnlyDrifted(latest, last) ::
              SemanticallyEqual(Anchored(latest, Some(last)), Some(last), below)
    ensures DistinctTypes(last.sessions) ==> Anchorable(last.sessions)
  {
    if Anchorable(last.sessions) {
      forall latest | OnlyDrifted(latest, last)
        ensures SemanticallyEqual(Anchored(latest, Some(last)), Some(last), below)
      {
        AnchorableSwallows(latest, last, below);
      }
    } else {
      var s :| s in last.sessions &&
               match PriorOf(last.sessions, s.kind)
               case None => true
               case Some(prior) => prior.usedPct != s.usedPct || prior.resetsAt != s.resetsAt;
      var i :| 0 <= i < |last.sessions| && last.sessions[i] == s;
      var latest := NotAnchorableDrifts(last, i, below);
    }
    if DistinctTypes(last.sessions) {
      DistinctIsAnchorable(last.sessions);
    }
  }

  // ------------------------------------------------------------- polls

  /** What a poll puts on the queue. */
  function Polled(latest: Snapshot, last: Option<Snapshot>, below: (Session, Session) -> bool): seq<Snapshot> {
    var snapshot := Anchored(latest, last);
    if SemanticallyEqual(snapshot, last, below) then [] else [snapshot]
  }

  /** What a run of polls between two pushes puts on the queue. */
  function AllPolled(polls: seq<Snapshot>, last: Option<Snapshot>, below: (Session, Session) -> bool): seq<Snapshot> {
    if polls == [] then [] else Polled(polls[0], last, below) + AllPolled(polls[1..], last, below)
  }

  predicate SameFacts(a: Snapshot, b: Snapshot) {
    a.agent == b.agent && AllFacts(a.sessions) == AllFacts(b.sessions)
  }

  /** A run of polls enqueues nothing exactly when every poll agrees with the last pushed snapshot
      on everything but reset times, however long the run is and however far they drift. */
  lemma {:induction false} DriftEnqueuesNothing(polls: seq<Snapshot>, last: Snapshot, below: (Session, Session) -> bool)
    requires TotalOrder(below) && DistinctTypes(last.sessions)
    requires forall p <- polls :: DistinctTypes(p.sessions)
    ensures AllPolled(polls, Some(last), below) == [] <==> forall p <- polls :: SameFacts(p, last)
    decreases polls
  {
    if polls != [] {
      assert polls[0] in polls;
      GateIsExact(polls[0], last, below);
      DriftEnqueuesNothing(polls[1..], last, below);
      assert polls == [polls[0]] + polls[1..];
    }
  }

  /** What a poll puts on the queue: the latest snapshot with its usage, in its order. A session whose type was pushed
      last with the same usage has that session's reset time, any other keeps its own. */
  lemma PolledIsAnchored(latest: Snapshot, last: Snapshot, below: (Session, Session) -> bool)
    requires DistinctTypes(last.sessions)
    ensures Polled(latest, None, below) == [latest]
    ensures |Polled(latest, Some(last), below)| <= 1
    ensures forall x <- Polled(latest, Some(last), below) ::
              && x.agent == latest.agent && x.capturedAt == latest.capturedAt && |x.sessions| == |latest.sessions|
              && forall i :: 0 <= i < |x.sessions| ==> AnchoredTo(latest.sessions[i], last.sessions, x.sessions[i])
  {
    var x := Anchored(latest, Some(last));
    forall i | 0 <= i < |x.sessions| ensures AnchoredTo(latest.sessions[i], last.sessions, x.sessions[i]) {
      var s := latest.sessions[i];
      PriorIsThere(last.sessions, s.kind);
      forall l <- last.sessions ensures PriorOf(last.sessions, l.kind) == Some(l) {
        PriorIsUnique(last.sessions, l);
      }
    }
  }

  /** a is s, but with the reset time of the session in `last` that has the type and the usage of s. */
  predicate AnchoredTo(s: Session, last: seq<Session>, a: Session) {
    && FactsOf(a) == FactsOf(s)
    && (forall l <- last :: l.kind == s.kind && l.usedPct == s.usedPct ==> a.resetsAt == l.resetsAt)
    && ((forall l <- last :: l.kind == s.kind ==> l.usedPct != s.usedPct) ==> a.resetsAt == s.resetsAt)
  }
}
