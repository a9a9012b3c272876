/** The texts that carry a given snapshot, and what the device reads from them. */
module WireFormat {
  import opened Decimals
  import opened JsonText
  import opened CursorSpec
  import opened SkipTheorems
  import opened ParseTheorems

  /** The number lies between 0 and 1. */
  predicate UnitInterval(d: Decimal) {
    0 <= d.m && if d.e < 0 then d.m <= Pow10(-d.e) else d.m * Pow10(d.e) <= 1
  }

  /** What the wire format allows in a session. */
  ghost predicate GoodSession(s: Session) {
    && 1 <= |s.kind| <= 15 && (forall i :: 0 <= i < |s.kind| ==> s.kind[i] as int >= 0x20)
    && UnitInterval(s.usedPct) && Canonical(s.usedPct)
    && 0 <= s.windowMins <= 2147483647
  }

  ghost predicate GoodSnapshot(x: Snapshot) {
    && x.agent in {"claude", "codex"}
    && 1 <= |x.sessions| <= 3
    && forall i :: 0 <= i < |x.sessions| ==> GoodSession(x.sessions[i])
  }

  /** A fraction m / 10^k is in the interval exactly when 0 <= m <= 10^k. */
  lemma UnitIntervalIs(m: int, k: nat)
    ensures UnitInterval(Norm(m, 0 - k)) <==> 0 <= m <= Pow10(k)
  {
    FractionCompared(m, k, 1);
  }

  predicate Mentions(ms: Members, key: string, cap: nat) {
    match ms
    case MNil => false
    case MCons(m, rest) => NameIn(m.key, cap) == Some(key) || Mentions(rest, key, cap)
  }

  /** The member's name can be read, and if it is a known one its value is that of `s`. */
  predicate SessionMemberOf(m: Member, s: Session) {
    match NameIn(m.key, SESSION_KEY_CAP)
    case None => false
    case Some(key) =>
      && (key == "type" ==> StringIn(m.v, TYPE_CAP) == Some(s.kind))
      && (key == "used_pct" ==> NumberIn(m.v) == Some(s.usedPct))
      && (key == "resets_at" ==> NumberIn(m.v) == Some(OfInt(s.resetsAt)))
      && (key == "rolling" ==> m.v == if s.rolling then JTrue else JFalse)
      && (key == "window_duration_mins" ==> NumberIn(m.v) == Some(OfInt(s.windowMins)))
  }

  predicate SessionMembersOf(ms: Members, s: Session) {
    match ms
    case MNil => true
    case MCons(m, rest) => SessionMemberOf(m, s) && SessionMembersOf(rest, s)
  }

  /** An object that carries `s`: keys in any order, any white space, unknown keys anywhere;
      the two optional keys may be missing when they hold their default. */
  predicate Carries(v: Json, s: Session) {
    && v.JObj? && SessionMembersOf(v.members, s)
    && Mentions(v.members, "type", SESSION_KEY_CAP)
    && Mentions(v.members, "used_pct", SESSION_KEY_CAP)
    && Mentions(v.members, "resets_at", SESSION_KEY_CAP)
    && (Mentions(v.members, "rolling", SESSION_KEY_CAP) || !s.rolling)
    && (Mentions(v.members, "window_duration_mins", SESSION_KEY_CAP) || s.windowMins == 0)
  }

  predicate ElemsCarry(es: Elems, list: seq<Session>) {
    match es
    case ENil => list == []
    case ECons(_, v, _, rest) => list != [] && Carries(v, list[0]) && ElemsCarry(rest, list[1..])
  }

  predicate TopMemberOf(m: Member, x: Snapshot) {
    match NameIn(m.key, TOP_KEY_CAP)
    case None => false
    case Some(key) =>
      && (key == "agent" ==> StringIn(m.v, AGENT_CAP) == Some(x.agent))
      && (key == "captured_at" ==> NumberIn(m.v) == Some(OfInt(x.capturedAt)))
      && (key == "sessions" ==> m.v.JArr? && ElemsCarry(m.v.elems, x.sessions))
  }

  predicate TopMembersOf(ms: Members, x: Snapshot) {
    match ms
    case MNil => true
    case MCons(m, rest) => TopMemberOf(m, x) && TopMembersOf(rest, x)
  }

  predicate CarriesSnapshot(v: Json, x: Snapshot) {
    && v.JObj? && TopMembersOf(v.members, x)
    && Mentions(v.members, "agent", TOP_KEY_CAP)
    && Mentions(v.members, "captured_at", TOP_KEY_CAP)
    && Mentions(v.members, "sessions", TOP_KEY_CAP)
  }

  lemma MinutesRead(n: int)
    requires 0 <= n <= INT32_MAX
    ensures ClampMinutes(OfInt(n)) == n
  {
    IntReads(n);
  }

  lemma TakeSessionMember(d: SessionDraft, m: Member, s: Session)
    requires GoodSession(s) && SessionMemberOf(m, s)
    ensures var key := NameIn(m.key, SESSION_KEY_CAP).value;
            TakeSession(d, key, m.v) == Some(SessionDraft(
              Session(if key == "type" then s.kind else d.out.kind,
                      if key == "used_pct" then s.usedPct else d.out.usedPct,
                      if key == "resets_at" then s.resetsAt else d.out.resetsAt,
                      if key == "rolling" then s.rolling else d.out.rolling,
                      if key == "window_duration_mins" then s.windowMins else d.out.windowMins),
              d.haveType || key == "type", d.havePct || key == "used_pct", d.haveReset || key == "resets_at"))
  {
    IntReads(s.resetsAt);
    MinutesRead(s.windowMins);
  }

  lemma {:induction false} TakeSessionMembers(d: SessionDraft, ms: Members, s: Session)
    requires GoodSession(s) && SessionMembersOf(ms, s)
    ensures TakeSessions(d, ms) == Some(SessionDraft(
              Session(if Mentions(ms, "type", SESSION_KEY_CAP) then s.kind else d.out.kind,
                      if Mentions(ms, "used_pct", SESSION_KEY_CAP) then s.usedPct else d.out.usedPct,
                      if Mentions(ms, "resets_at", SESSION_KEY_CAP) then s.resetsAt else d.out.resetsAt,
                      if Mentions(ms, "rolling", SESSION_KEY_CAP) then s.rolling else d.out.rolling,
                      if Mentions(ms, "window_duration_mins", SESSION_KEY_CAP) then s.windowMins else d.out.windowMins),
              d.haveType || Mentions(ms, "type", SESSION_KEY_CAP),
              d.havePct || Mentions(ms, "used_pct", SESSION_KEY_CAP),
              d.haveReset || Mentions(ms, "resets_at", SESSION_KEY_CAP)))
    decreases ms
  {
    match ms
    case MNil =>
    case MCons(m, rest) =>
      TakeSessionMember(d, m, s);
      TakeSessionMembers(TakeSession(d, NameIn(m.key, SESSION_KEY_CAP).value, m.v).value, rest, s);
  }

  lemma SessionCarried(v: Json, s: Session)
    requires GoodSession(s) && Carries(v, s)
    ensures SessionMeaning(v) == Some(s)
  {
    TakeSessionMembers(EMPTY_SESSION, v.members, s);
  }

  lemma {:induction false} ElemsCarried(got: seq<Session>, es: Elems, list: seq<Session>)
    requires ElemsCarry(es, list) && |got| + |list| <= MAX_SESSIONS
    requires forall i :: 0 <= i < |list| ==> GoodSession(list[i])
    ensures TakeElems(got, es) == Some(got + list) && CleanElems(es, |got|)
    decreases es
  {
    match es
    case ENil =>
      assert got + list == got;
    case ECons(_, v, _, rest) =>
      SessionCarried(v, list[0]);
      ElemsCarried(got + [list[0]], rest, list[1..]);
      assert (got + [list[0]]) + list[1..] == got + list;
  }

  lemma TakeTopMember(d: Draft, m: Member, x: Snapshot)
    requires GoodSnapshot(x) && TopMemberOf(m, x)
    ensures var key := NameIn(m.key, TOP_KEY_CAP).value;
            && (key == "sessions" && m.v.JArr? ==> CleanElems(m.v.elems, 0))
            && TakeTop(d, key, m.v) == Some(Draft(
                 Snapshot(if key == "agent" then x.agent else d.out.agent,
                          if key == "captured_at" then x.capturedAt else d.out.capturedAt,
                          if key == "sessions" then x.sessions else d.out.sessions),
                 d.haveAgent || key == "agent", d.haveCaptured || key == "captured_at",
                 d.haveSessions || key == "sessions"))
  {
    IntReads(x.capturedAt);
    if NameIn(m.key, TOP_KEY_CAP) == Some("sessions") {
      ElemsCarried([], m.v.elems, x.sessions);
      assert [] + x.sessions == x.sessions;
    }
  }

  lemma {:induction false} TakeTopMembers(d: Draft, ms: Members, x: Snapshot)
    requires GoodSnapshot(x) && TopMembersOf(ms, x)
    ensures CleanMembers(ms)
    ensures TakeTops(d, ms) == Some(Draft(
              Snapshot(if Mentions(ms, "agent", TOP_KEY_CAP) then x.agent else d.out.agent,
                       if Mentions(ms, "captured_at", TOP_KEY_CAP) then x.capturedAt else d.out.capturedAt,
                       if Mentions(ms, "sessions", TOP_KEY_CAP) then x.sessions else d.out.sessions),
              d.haveAgent || Mentions(ms, "agent", TOP_KEY_CAP),
              d.haveCaptured || Mentions(ms, "captured_at", TOP_KEY_CAP),
              d.haveSessions || Mentions(ms, "sessions", TOP_KEY_CAP)))
    decreases ms
  {
    match ms
    case MNil =>
    case MCons(m, rest) =>
      TakeTopMember(d, m, x);
      TakeTopMembers(TakeTop(d, NameIn(m.key, TOP_KEY_CAP).value, m.v).value, rest, x);
  }

  /** Every text that carries a snapshot is read back as exactly that snapshot: any key
      order, any white space, unknown keys with any values in between. */
  lemma SnapshotRoundTrip(w: string, v: Json, x: Snapshot, r: string)
    requires AllSpace(w) && Valid(v) && GoodSnapshot(x) && CarriesSnapshot(v, x)
    ensures SnapshotMeaning(v) == Some(x)
    ensures ParseSnapshot(w + (Text(v) + r)) == Ok(x, r)
  {
    TakeTopMembers(EMPTY_DRAFT, v.members, x);
    ParseSnapshotReads(w, v, r);
  }
}
