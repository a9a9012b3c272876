/** Printed session lists of any length: what the device makes of the sessions after the third. */
module ExtraSessions {
  import opened Decimals
  import opened JsonText
  import opened CursorSpec
  import opened DropLoop
  import opened ParseTheorems
  import opened WireFormat
  import opened HealthText
  import opened EndToEnd

  /** The walk over the printed sessions sees only the braces and brackets in their types. */
  function WalkKinds(list: seq<Session>, depth: nat): Option<nat> {
    if list == [] then Some(depth)
    else
      match Walk(list[0].kind, depth + 1)
      case None => None
      case Some(d) => if d == 0 then None else WalkKinds(list[1..], d - 1)
  }

  lemma {:induction false} CharsConcat(a: Body, b: Body)
    ensures Chars(a + b) == Chars(a) + Chars(b)
  {
  }

  /** Escaping a character does not change where the walk stands after it. */
  lemma EscapedByteWalk(c: char, depth: nat)
    ensures Walk(Chars(EscapeByte(c)), depth) == Walk([c], depth)
  {
    var t := Chars(EscapeByte(c));
    assert [c][1..] == "";
    if OddControl(c) {
      HexIsNeutral(c as int / 16);
      HexIsNeutral(c as int % 16);
      NeutralWalk(t, depth);
    } else {
      assert |t| == 1 && t[1..] == "";
    }
  }

  lemma HexIsNeutral(d: int)
    requires 0 <= d < 16
    ensures Neutral([HexDigit(d)])
  {
  }

  lemma {:induction false} EscapedWalk(s: string, depth: nat)
    ensures Walk(Chars(Escape(s)), depth) == Walk(s, depth)
    decreases s
  {
    if s != "" {
      CharsConcat(EscapeByte(s[0]), Escape(s[1..]));
      WalkConcat(Chars(EscapeByte(s[0])), Chars(Escape(s[1..])), depth);
      EscapedByteWalk(s[0], depth);
      assert s == [s[0]] + s[1..];
      WalkConcat([s[0]], s[1..], depth);
      if Walk([s[0]], depth).Some? {
        EscapedWalk(s[1..], Walk([s[0]], depth).value);
      }
    }
  }

  lemma FieldWalk(key: string, v: Json, rest: Members, depth: nat)
    requires Neutral(key)
    ensures WalkMembers(MCons(Field(key, v), rest), depth)
         == match WalkValue(v, depth) case None => None case Some(d) => WalkMembers(rest, d)
  {
    assert Chars(RawBody(key)) == key;
    NeutralWalk(key, depth);
  }

  lemma UsageWalk(s: Session, depth: nat)
    ensures WalkMembers(UsageMembers(s), depth) == Some(depth)
  {
    FieldWalk("window_duration_mins", JNum(IntTok(s.windowMins)), MNil, depth);
    FieldWalk("rolling", if s.rolling then JTrue else JFalse, WindowMembers(s).rest, depth);
    FieldWalk("resets_at", JNum(IntTok(s.resetsAt)), WindowMembers(s), depth);
    FieldWalk("used_pct", PctNum(s.usedPct), UsageMembers(s).rest, depth);
  }

  lemma SessionWalk(s: Session, depth: nat)
    ensures WalkValue(SessionTree(s), depth) == Close(Walk(s.kind, depth + 1), 1)
  {
    FieldWalk("type", JStr(Escape(s.kind)), UsageMembers(s), depth + 1);
    EscapedWalk(s.kind, depth + 1);
    if Walk(s.kind, depth + 1).Some? {
      UsageWalk(s, Walk(s.kind, depth + 1).value);
    }
  }

  lemma KindsStep(v: Json, es: Elems, s: Session, rest: seq<Session>, depth: nat)
    requires WalkValue(v, depth) == Close(Walk(s.kind, depth + 1), 1)
    requires WalkValue(v, depth).Some? ==>
               WalkElems(es, WalkValue(v, depth).value) == WalkKinds(rest, WalkValue(v, depth).value)
    ensures WalkElems(ECons("", v, "", es), depth) == WalkKinds([s] + rest, depth)
  {
    assert ([s] + rest)[1..] == rest;
  }

  lemma {:induction false} SessionElemsWalk(list: seq<Session>, depth: nat)
    ensures WalkElems(SessionElems(list), depth) == WalkKinds(list, depth)
    decreases list
  {
    if list != [] {
      var s, rest := list[0], list[1..];
      SessionWalk(s, depth);
      var d := Close(Walk(s.kind, depth + 1), 1);
      if d.Some? {
        SessionElemsWalk(rest, d.value);
      }
      KindsStep(SessionTree(s), SessionElems(rest), s, rest, depth);
      assert list == [s] + rest;
    }
  }

  ghost predicate AllGood(list: seq<Session>) {
    forall s <- list :: GoodSession(s) && Exact(s)
  }

  /** The first sessions of a list, as many as the device keeps. */
  function Taken(got: seq<Session>, list: seq<Session>): seq<Session>
    requires |got| <= MAX_SESSIONS
  {
    got + if |list| <= MAX_SESSIONS - |got| then list else list[..MAX_SESSIONS - |got|]
  }

  /** The sessions of a list that come after the device has its three, when it has `got` before. */
  function Dropped(got: nat, list: seq<Session>): seq<Session>
    requires got <= MAX_SESSIONS
  {
    if |list| <= MAX_SESSIONS - got then [] else list[MAX_SESSIONS - got..]
  }

  lemma PrintedSession(s: Session)
    requires GoodSession(s) && Exact(s)
    ensures Valid(SessionTree(s)) && SessionMeaning(SessionTree(s)) == Some(s)
  {
    SessionTreeCarries(s);
    SessionCarried(SessionTree(s), s);
  }

  lemma TakeStep(got: seq<Session>, v: Json, x: Session, rest: Elems)
    requires |got| < MAX_SESSIONS && SessionMeaning(v) == Some(x)
    ensures TakeElems(got, ECons("", v, "", rest)) == TakeElems(got + [x], rest)
  {
  }

  lemma TakenStep(got: seq<Session>, list: seq<Session>)
    requires |got| < MAX_SESSIONS && list != []
    ensures Taken(got + [list[0]], list[1..]) == Taken(got, list)
  {
  }

  lemma {:induction false} PrintedTake(got: seq<Session>, list: seq<Session>)
    requires AllGood(list) && |got| <= MAX_SESSIONS
    ensures TakeElems(got, SessionElems(list)) == Some(Taken(got, list))
    decreases list
  {
    if list == [] {
      assert got + [] == got;
    } else if |got| < MAX_SESSIONS {
      PrintedSession(list[0]);
      TakeStep(got, SessionTree(list[0]), list[0], SessionElems(list[1..]));
      PrintedTake(got + [list[0]], list[1..]);
      TakenStep(got, list);
    } else {
      assert Taken(got, list) == got;
    }
  }

  lemma CleanStep(got: nat, v: Json, rest: Elems)
    requires got < MAX_SESSIONS && SessionMeaning(v).Some?
    ensures CleanElems(ECons("", v, "", rest), got) <==> CleanElems(rest, got + 1)
  {
  }

  lemma CleanRest(es: Elems)
    requires es.ECons?
    ensures CleanElems(es, MAX_SESSIONS) <==> WalkElems(es, 0) == Some(0)
  {
  }

  lemma CleanFrom(got: nat, v: Json, es: Elems, list: seq<Session>)
    requires got < MAX_SESSIONS && SessionMeaning(v).Some? && list != []
    requires CleanElems(es, got + 1) <==> WalkKinds(Dropped(got + 1, list[1..]), 0) == Some(0)
    ensures CleanElems(ECons("", v, "", es), got) <==> WalkKinds(Dropped(got, list), 0) == Some(0)
  {
    CleanStep(got, v, es);
    assert Dropped(got + 1, list[1..]) == Dropped(got, list);
  }

  lemma CleanNext(got: nat, list: seq<Session>)
    requires got < MAX_SESSIONS && list != [] && GoodSession(list[0]) && Exact(list[0])
    requires CleanElems(SessionElems(list[1..]), got + 1) <==> WalkKinds(Dropped(got + 1, list[1..]), 0) == Some(0)
    ensures CleanElems(SessionElems(list), got) <==> WalkKinds(Dropped(got, list), 0) == Some(0)
  {
    PrintedSession(list[0]);
    CleanFrom(got, SessionTree(list[0]), SessionElems(list[1..]), list);
  }

  lemma GoodTail(list: seq<Session>)
    requires AllGood(list) && list != []
    ensures GoodSession(list[0]) && Exact(list[0]) && AllGood(list[1..])
  {
    assert list[0] in list && forall s <- list[1..] :: s in list;
  }

  lemma {:induction false} PrintedClean(got: nat, list: seq<Session>)
    requires AllGood(list) && got <= MAX_SESSIONS
    ensures CleanElems(SessionElems(list), got) <==> WalkKinds(Dropped(got, list), 0) == Some(0)
    decreases list
  {
    if list != [] {
      if got < MAX_SESSIONS {
        GoodTail(list);
        PrintedClean(got + 1, list[1..]);
        CleanNext(got, list);
      } else {
        PrintedRest(list);
      }
    }
  }

  lemma PrintedRest(list: seq<Session>)
    requires list != []
    ensures CleanElems(SessionElems(list), MAX_SESSIONS) <==> WalkKinds(Dropped(MAX_SESSIONS, list), 0) == Some(0)
  {
    SessionElemsWalk(list, 0);
    CleanRest(SessionElems(list));
    assert Dropped(MAX_SESSIONS, list) == list;
  }

  lemma {:induction false} PrintedValid(list: seq<Session>)
    requires AllGood(list)
    ensures ValidElems(SessionElems(list))
  {
    if list != [] {
      PrintedSession(list[0]);
      PrintedValid(list[1..]);
    }
  }

  /** For every printed list of sessions, however long: the device keeps the first three and stops
      behind the list exactly when the brackets in the types of the others balance as the drop loop
      counts them. */
  lemma ListReadExactly(list: seq<Session>, r: string)
    requires AllGood(list)
    ensures Sessions([], PutElems(SessionElems(list), [']'] + r)) == Ok(Taken([], list), r)
        <==> WalkKinds(Dropped(0, list), 0) == Some(0)
  {
    PrintedValid(list);
    PrintedTake([], list);
    PrintedClean(0, list);
    SessionsReadExactly([], SessionElems(list), r);
  }

  lemma TopStep(d: Draft, key: string, v: Json, rest: Members)
    requires |key| < TOP_KEY_CAP && forall i :: 0 <= i < |key| ==> key[i] != '\0'
    ensures TakeTops(d, MCons(Field(key, v), rest))
         == match TakeTop(d, key, v) case None => None case Some(e) => TakeTops(e, rest)
    ensures CleanMembers(MCons(Field(key, v), rest))
        <==> (key == "sessions" && v.JArr? ==> CleanElems(v.elems, 0)) && CleanMembers(rest)
  {
    KeyIsName(key, TOP_KEY_CAP);
  }

  /** Every posted snapshot whose dropped types balance is read as its first three sessions. */
  lemma LongSnapshotRead(w: string, x: Snapshot, r: string)
    requires AllSpace(w) && IsKnownAgent(x.agent) && x.sessions != [] && AllGood(x.sessions)
    requires WalkKinds(Dropped(0, x.sessions), 0) == Some(0)
    ensures ParseSnapshot(w + (Text(WireTree(x)) + r)) == Ok(x.(sessions := Taken([], x.sessions)), r)
  {
    PrintedValid(x.sessions);
    WireTreeValid(x);
    WireTreeMeans(x, SessionElems(x.sessions));
    ParseSnapshotReads(w, WireTree(x), r);
  }

  lemma CapturedTaken(d: Draft, n: int)
    ensures TakeTop(d, "captured_at", JNum(IntTok(n))) == Some(d.(out := d.out.(capturedAt := n), haveCaptured := true))
  {
    IntTokReads(n);
    IntReads(n);
  }

  lemma SessionsTaken(d: Draft, es: Elems, list: seq<Session>)
    requires TakeElems([], es) == Some(list)
    ensures TakeTop(d, "sessions", JArr("", es)) == Some(d.(out := d.out.(sessions := list), haveSessions := true))
  {
  }

  lemma SessionsMean(d: Draft, es: Elems, list: seq<Session>)
    requires TakeElems([], es) == Some(list) && CleanElems(es, 0)
    ensures var last := MCons(Field("sessions", JArr("", es)), MNil);
            CleanMembers(last) && TakeTops(d, last) == Some(d.(out := d.out.(sessions := list), haveSessions := true))
  {
    TopStep(d, "sessions", JArr("", es), MNil);
    SessionsTaken(d, es, list);
  }

  lemma CapturedMeans(d: Draft, n: int, last: Members)
    requires CleanMembers(last)
    ensures var ms := MCons(Field("captured_at", JNum(IntTok(n))), last);
            && CleanMembers(ms)
            && TakeTops(d, ms) == TakeTops(d.(out := d.out.(capturedAt := n), haveCaptured := true), last)
  {
    TopStep(d, "captured_at", JNum(IntTok(n)), last);
    CapturedTaken(d, n);
  }

  lemma WireTreeMeans(x: Snapshot, es: Elems)
    requires IsKnownAgent(x.agent) && x.sessions != [] && AllGood(x.sessions) && es == SessionElems(x.sessions)
    requires WalkKinds(Dropped(0, x.sessions), 0) == Some(0)
    ensures Clean(WireTree(x))
    ensures SnapshotMeaning(WireTree(x)) == Some(x.(sessions := Taken([], x.sessions)))
  {
    PrintedTake([], x.sessions);
    PrintedClean(0, x.sessions);
    var taken := Taken([], x.sessions);
    SessionsMean(Draft(Snapshot(x.agent, x.capturedAt, []), true, true, false), es, taken);
    CapturedMeans(Draft(Snapshot(x.agent, 0, []), true, false, false), x.capturedAt, WireRest(x).rest);
    AgentMeans(x.agent, WireRest(x));
    assert taken != [];
  }

  lemma AgentMeans(agent: string, rest: Members)
    requires IsKnownAgent(agent) && CleanMembers(rest)
    ensures var ms := MCons(Field("agent", JStr(Escape(agent))), rest);
            && CleanMembers(ms)
            && TakeTops(EMPTY_DRAFT, ms) == TakeTops(Draft(Snapshot(agent, 0, []), true, false, false), rest)
  {
    AgentTaken(agent);
    TopStep(EMPTY_DRAFT, "agent", JStr(Escape(agent)), rest);
  }

  lemma AgentTaken(agent: string)
    requires IsKnownAgent(agent)
    ensures TakeTop(EMPTY_DRAFT, "agent", JStr(Escape(agent)))
         == Some(Draft(Snapshot(agent, 0, []), true, false, false))
  {
    AgentName(agent);
    StringIsName(agent, AGENT_CAP);
  }

  /** A session of type `}` in fourth place: the list is not read, although without it it is. */
  lemma FourthSessionMisread(list: seq<Session>, s: Session, r: string)
    requires AllGood(list) && |list| == MAX_SESSIONS && GoodSession(s) && Exact(s) && s.kind == "}"
    ensures Sessions([], PutElems(SessionElems(list), [']'] + r)) == Ok(list, r)
    ensures Sessions([], PutElems(SessionElems(list + [s]), [']'] + r)) != Ok(list, r)
  {
    ListReadExactly(list, r);
    ListReadExactly(list + [s], r);
    assert Taken([], list) == list && Taken([], list + [s]) == list;
    assert Dropped(0, list + [s]) == [s];
    assert "}"[1..] == "" && Walk("}", 1) == Some(0);
  }
}
