/** What a JSON tree says on the wire, told by the last value of each name, and that nothing else is accepted.

    `ParseTheorems` reads a tree member by member as the parser does; here the same meaning is stated
    without an order of reading. */
module WireMeaning {
  import opened Decimals
  import opened JsonText
  import opened CursorSpec
  import opened SkipTheorems
  import opened ParseTheorems
  import opened WireFormat

  /** The value of the last member with the name. */
  function LastOf(ms: Members, key: string, cap: nat): Option<Json> {
    match ms
    case MNil => None
    case MCons(m, rest) =>
      match LastOf(rest, key, cap)
      case Some(v) => Some(v)
      case None => if NameIn(m.key, cap) == Some(key) then Some(m.v) else None
  }

  /** n is the number without what stands behind its point. */
  ghost predicate WholePart(d: Decimal, n: int) {
    if d.e >= 0 then n == d.m * Pow10(d.e) else CutOff(d.m, Pow10(-d.e), n)
  }

  predicate Exceeds(d: Decimal, n: nat) {
    if d.e >= 0 then d.m * Pow10(d.e) > n else d.m > n * Pow10(-d.e)
  }

  ghost predicate Minutes(d: Decimal, n: int) {
    if d.m < 0 then n == 0 else if Exceeds(d, 2147483647) then n == 2147483647 else WholePart(d, n)
  }

  lemma CutOnce(m: int, unit: nat, q: int, p: int)
    requires unit > 0 && CutOff(m, unit, q) && CutOff(m, unit, p)
    ensures q == p
  {
    if q > p {
      TimesGrows(q, p, unit);
    } else if p > q {
      TimesGrows(p, q, unit);
    }
  }

  lemma TruncIs(d: Decimal, n: int)
    ensures WholePart(d, n) <==> n == Trunc(d)
  {
    if d.e < 0 {
      TruncDivIs(d.m, Pow10(-d.e));
      if WholePart(d, n) {
        CutOnce(d.m, Pow10(-d.e), n, Trunc(d));
      }
    }
  }

  lemma MinutesIs(d: Decimal, n: int)
    ensures Minutes(d, n) <==> n == ClampMinutes(d)
  {
    TruncIs(d, n);
  }

  // ------------------------------------------------------------ sessions

  /** A value the parser takes under this name of a session. */
  predicate SessionFits(key: string, v: Json) {
    && (key == "type" ==>
          match StringIn(v, 16)
          case None => false
          case Some(x) => forall i :: 0 <= i < |x| ==> x[i] as int >= 0x20)
    && (key == "used_pct" ==> v.JNum? && UnitInterval(NumValue(v.tok)))
    && (key == "resets_at" || key == "window_duration_mins" ==> v.JNum?)
    && (key == "rolling" ==> v.JTrue? || v.JFalse?)
  }

  predicate AllFit(ms: Members) {
    match ms
    case MNil => true
    case MCons(m, rest) =>
      && NameIn(m.key, 32).Some? && SessionFits(NameIn(m.key, 32).value, m.v)
      && AllFit(rest)
  }

  /** The tree stands for the session: every member fits, the three required names occur, and of each name the
      last value counts. */
  ghost predicate Stands(v: Json, s: Session) {
    v.JObj? && AllFit(v.members) && UsageStands(v.members, s) && WindowStands(v.members, s)
  }

  ghost predicate UsageStands(ms: Members, s: Session) {
    var kind, pct, reset := LastOf(ms, "type", 32), LastOf(ms, "used_pct", 32), LastOf(ms, "resets_at", 32);
    && kind.Some? && StringIn(kind.value, 16) == Some(s.kind) && s.kind != ""
    && pct.Some? && NumberIn(pct.value) == Some(s.usedPct)
    && reset.Some? && reset.value.JNum? && WholePart(NumValue(reset.value.tok), s.resetsAt)
  }

  /** The optional members: a fixed window of unknown length unless they say otherwise. */
  ghost predicate WindowStands(ms: Members, s: Session) {
    var rolling, mins := LastOf(ms, "rolling", 32), LastOf(ms, "window_duration_mins", 32);
    && s.rolling == (rolling == Some(JTrue))
    && (if mins.None? then s.windowMins == 0
        else mins.value.JNum? && Minutes(NumValue(mins.value.tok), s.windowMins))
  }

  lemma {:induction false} LastFits(ms: Members, key: string)
    requires AllFit(ms) && LastOf(ms, key, 32).Some?
    ensures SessionFits(key, LastOf(ms, key, 32).value)
    decreases ms
  {
    if LastOf(ms.rest, key, 32).Some? {
      LastFits(ms.rest, key);
    }
  }

  function StringOr(v: Option<Json>, given: string): string {
    match v
    case None => given
    case Some(v) => match StringIn(v, 16) case None => given case Some(x) => x
  }

  function NumberOr(v: Option<Json>, given: Decimal): Decimal {
    if v.Some? && v.value.JNum? then NumValue(v.value.tok) else given
  }

  /** The draft once all members are taken. */
  function Drafted(d: SessionDraft, ms: Members): SessionDraft {
    WindowDrafted(UsageDrafted(d, ms), ms)
  }

  function UsageDrafted(d: SessionDraft, ms: Members): SessionDraft {
    var kind, pct, reset := LastOf(ms, "type", 32), LastOf(ms, "used_pct", 32), LastOf(ms, "resets_at", 32);
    SessionDraft(
      d.out.(kind := StringOr(kind, d.out.kind), usedPct := NumberOr(pct, d.out.usedPct),
             resetsAt := if reset.None? then d.out.resetsAt else Trunc(NumberOr(reset, ZERO))),
      d.haveType || kind.Some?, d.havePct || pct.Some?, d.haveReset || reset.Some?)
  }

  function WindowDrafted(d: SessionDraft, ms: Members): SessionDraft {
    var rolling, mins := LastOf(ms, "rolling", 32), LastOf(ms, "window_duration_mins", 32);
    d.(out := d.out.(rolling := if rolling.None? then d.out.rolling else rolling.value.JTrue?,
                     windowMins := if mins.None? then d.out.windowMins else ClampMinutes(NumberOr(mins, ZERO))))
  }

  lemma TakenFits(d: SessionDraft, key: string, v: Json)
    ensures TakeSession(d, key, v).Some? <==> SessionFits(key, v)
  {
  }

  /** The draft after one member, field by field. */
  function OneMore(d: SessionDraft, key: string, v: Json): SessionDraft {
    OneWindow(OneUsage(d, key, v), key, v)
  }

  function OneUsage(d: SessionDraft, key: string, v: Json): SessionDraft {
    SessionDraft(
      d.out.(kind := if key == "type" then StringOr(Some(v), d.out.kind) else d.out.kind,
             usedPct := if key == "used_pct" then NumberOr(Some(v), d.out.usedPct) else d.out.usedPct,
             resetsAt := if key == "resets_at" then Trunc(NumberOr(Some(v), ZERO)) else d.out.resetsAt),
      d.haveType || key == "type", d.havePct || key == "used_pct", d.haveReset || key == "resets_at")
  }

  function OneWindow(d: SessionDraft, key: string, v: Json): SessionDraft {
    d.(out := d.out.(
         rolling := if key == "rolling" then v.JTrue? else d.out.rolling,
         windowMins := if key == "window_duration_mins" then ClampMinutes(NumberOr(Some(v), ZERO))
                       else d.out.windowMins))
  }

  lemma TakenIs(d: SessionDraft, key: string, v: Json)
    requires SessionFits(key, v)
    ensures TakeSession(d, key, v) == Some(OneMore(d, key, v))
  {
  }

  lemma UsageNext(d: SessionDraft, m: Member, rest: Members, key: string)
    requires NameIn(m.key, 32) == Some(key) && AllFit(rest)
    ensures UsageDrafted(OneUsage(d, key, m.v), rest) == UsageDrafted(d, MCons(m, rest))
  {
    if LastOf(rest, "type", 32).Some? {
      LastFits(rest, "type");
    }
    if LastOf(rest, "used_pct", 32).Some? {
      LastFits(rest, "used_pct");
    }
  }

  lemma WindowNext(d: SessionDraft, m: Member, rest: Members, key: string)
    requires NameIn(m.key, 32) == Some(key)
    ensures WindowDrafted(OneWindow(d, key, m.v), rest) == WindowDrafted(d, MCons(m, rest))
  {
  }

  /** One member in front of others. */
  lemma DraftedNext(d: SessionDraft, m: Member, rest: Members, key: string)
    requires NameIn(m.key, 32) == Some(key) && AllFit(rest)
    ensures Drafted(OneMore(d, key, m.v), rest) == Drafted(d, MCons(m, rest))
  {
    UsageNext(d, m, rest, key);
    WindowNext(UsageDrafted(d, MCons(m, rest)), m, rest, key);
    Independent(OneUsage(d, key, m.v), key, m.v, rest);
  }

  /** The two halves of a draft do not meet. */
  lemma Independent(d: SessionDraft, key: string, v: Json, ms: Members)
    ensures UsageDrafted(OneWindow(d, key, v), ms) == OneWindow(UsageDrafted(d, ms), key, v)
  {
  }

  lemma {:induction false} TakesIs(d: SessionDraft, ms: Members)
    ensures TakeSessions(d, ms) == if AllFit(ms) then Some(Drafted(d, ms)) else None
    decreases ms
  {
    match ms
    case MNil =>
    case MCons(m, rest) =>
      var key := NameIn(m.key, 32);
      if key.Some? {
        TakenFits(d, key.value, m.v);
        if SessionFits(key.value, m.v) {
          TakenIs(d, key.value, m.v);
          TakesIs(OneMore(d, key.value, m.v), rest);
          if AllFit(rest) {
            DraftedNext(d, m, rest, key.value);
          }
        }
      }
  }

  lemma UsageIs(ms: Members, s: Session)
    requires AllFit(ms)
    ensures var d := UsageDrafted(EMPTY_SESSION, ms);
            UsageStands(ms, s) <==>
            && d.haveType && d.havePct && d.haveReset && d.out.kind != ""
            && d.out.kind == s.kind && d.out.usedPct == s.usedPct && d.out.resetsAt == s.resetsAt
  {
    var kind, pct, reset := LastOf(ms, "type", 32), LastOf(ms, "used_pct", 32), LastOf(ms, "resets_at", 32);
    if kind.Some? {
      LastFits(ms, "type");
    }
    if pct.Some? {
      LastFits(ms, "used_pct");
    }
    if reset.Some? {
      LastFits(ms, "resets_at");
      TruncIs(NumValue(reset.value.tok), s.resetsAt);
    }
  }

  lemma WindowIs(d: SessionDraft, ms: Members, s: Session)
    requires AllFit(ms) && !d.out.rolling && d.out.windowMins == 0
    ensures var e := WindowDrafted(d, ms);
            WindowStands(ms, s) <==> e.out.rolling == s.rolling && e.out.windowMins == s.windowMins
  {
    var rolling, mins := LastOf(ms, "rolling", 32), LastOf(ms, "window_duration_mins", 32);
    if rolling.Some? {
      LastFits(ms, "rolling");
    }
    if mins.Some? {
      LastFits(ms, "window_duration_mins");
      MinutesIs(NumValue(mins.value.tok), s.windowMins);
    }
  }

  /** What `parse_session` makes of a tree, whatever the order of its members: exactly the session it stands for. */
  lemma SessionMeaningIs(v: Json, s: Session)
    ensures SessionMeaning(v) == Some(s) <==> Stands(v, s)
  {
    if v.JObj? {
      TakesIs(EMPTY_SESSION, v.members);
      if AllFit(v.members) {
        UsageIs(v.members, s);
        WindowIs(UsageDrafted(EMPTY_SESSION, v.members), v.members, s);
      }
    }
  }

  // ----------------------------------------------------------- snapshots

  /** The first elements, at most `room` of them, stand for the sessions of the list. */
  ghost predicate ElemsStand(es: Elems, room: nat, list: seq<Session>) {
    match es
    case ENil => list == []
    case ECons(_, v, _, rest) =>
      if room == 0 then list == [] else list != [] && Stands(v, list[0]) && ElemsStand(rest, room - 1, list[1..])
  }

  lemma {:induction false} TakenGrows(got: seq<Session>, es: Elems)
    ensures TakeElems(got, es).Some? ==> got <= TakeElems(got, es).value
    decreases es
  {
    if es.ECons? && SessionMeaning(es.v).Some? {
      TakenGrows(got + [SessionMeaning(es.v).value], es.rest);
    }
  }

  lemma {:induction false} ElemsTaken(got: seq<Session>, es: Elems, list: seq<Session>)
    requires |got| <= 3
    ensures TakeElems(got, es) == Some(got + list) <==> ElemsStand(es, 3 - |got|, list)
    decreases es
  {
    assert got + list == got <==> list == [];
    if es.ECons? && |got| < 3 {
      if list != [] {
        SessionMeaningIs(es.v, list[0]);
      }
      var x := SessionMeaning(es.v);
      if x.Some? {
        var longer := got + [x.value];
        TakenGrows(longer, es.rest);
        if list == [] || list[0] != x.value {
          assert longer[|got|] == x.value && (list != [] ==> (got + list)[|got|] == list[0]);
        } else {
          ElemsTaken(longer, es.rest, list[1..]);
          assert got + list == longer + list[1..];
        }
      }
    }
  }

  /** A value the parser takes under this name of a snapshot. */
  ghost predicate TopFits(key: string, v: Json) {
    && (key == "agent" ==> StringIn(v, 16) in {Some("claude"), Some("codex")})
    && (key == "captured_at" ==> v.JNum?)
    && (key == "sessions" ==> v.JArr? && exists list :: ElemsStand(v.elems, 3, list))
  }

  ghost predicate AllTopFit(ms: Members) {
    match ms
    case MNil => true
    case MCons(m, rest) =>
      && NameIn(m.key, 16).Some? && TopFits(NameIn(m.key, 16).value, m.v)
      && AllTopFit(rest)
  }

  /** The tree stands for the snapshot. */
  ghost predicate SnapshotStands(v: Json, x: Snapshot) {
    v.JObj? && AllTopFit(v.members) && TopStands(v.members, x)
  }

  ghost predicate TopStands(ms: Members, x: Snapshot) {
    var agent, captured, sessions := LastOf(ms, "agent", 16), LastOf(ms, "captured_at", 16), LastOf(ms, "sessions", 16);
    && agent.Some? && StringIn(agent.value, 16) == Some(x.agent)
    && captured.Some? && captured.value.JNum? && WholePart(NumValue(captured.value.tok), x.capturedAt)
    && sessions.Some? && sessions.value.JArr? && ElemsStand(sessions.value.elems, 3, x.sessions)
    && x.sessions != []
  }

  lemma ListTaken(es: Elems, list: seq<Session>)
    ensures TakeElems([], es) == Some(list) <==> ElemsStand(es, 3, list)
  {
    ElemsTaken([], es, list);
    assert [] + list == list;
  }

  function ListOr(v: Option<Json>, given: seq<Session>): seq<Session> {
    if v.Some? && v.value.JArr? then match TakeElems([], v.value.elems) case Some(list) => list case None => given
    else given
  }

  function TopDrafted(d: Draft, ms: Members): Draft {
    var agent, captured, sessions := LastOf(ms, "agent", 16), LastOf(ms, "captured_at", 16), LastOf(ms, "sessions", 16);
    Draft(Snapshot(StringOr(agent, d.out.agent),
                   if captured.None? then d.out.capturedAt else Trunc(NumberOr(captured, ZERO)),
                   ListOr(sessions, d.out.sessions)),
          d.haveAgent || agent.Some?, d.haveCaptured || captured.Some?, d.haveSessions || sessions.Some?)
  }

  lemma TopTaken(d: Draft, key: string, v: Json)
    ensures TakeTop(d, key, v).Some? <==> TopFits(key, v)
  {
    if key == "sessions" && v.JArr? {
      var list := TakeElems([], v.elems);
      if list.Some? {
        ListTaken(v.elems, list.value);
      }
      if x :| ElemsStand(v.elems, 3, x) {
        ListTaken(v.elems, x);
      }
    }
  }

  lemma {:induction false} TopLastFits(ms: Members, key: string)
    requires AllTopFit(ms) && LastOf(ms, key, 16).Some?
    ensures TopFits(key, LastOf(ms, key, 16).value)
    decreases ms
  {
    if LastOf(ms.rest, key, 16).Some? {
      TopLastFits(ms.rest, key);
    }
  }

  /** The draft after one member, field by field. */
  function OneTop(d: Draft, key: string, v: Json): Draft {
    Draft(Snapshot(if key == "agent" then StringOr(Some(v), d.out.agent) else d.out.agent,
                   if key == "captured_at" then Trunc(NumberOr(Some(v), ZERO)) else d.out.capturedAt,
                   if key == "sessions" then ListOr(Some(v), d.out.sessions) else d.out.sessions),
          d.haveAgent || key == "agent", d.haveCaptured || key == "captured_at", d.haveSessions || key == "sessions")
  }

  lemma TopTakenIs(d: Draft, key: string, v: Json)
    requires TakeTop(d, key, v).Some?
    ensures TakeTop(d, key, v).value == OneTop(d, key, v)
  {
  }

  lemma AgentNext(m: Member, rest: Members, key: string, given: string)
    requires NameIn(m.key, 16) == Some(key) && AllTopFit(rest)
    ensures StringOr(LastOf(rest, "agent", 16), if key == "agent" then StringOr(Some(m.v), given) else given)
         == StringOr(LastOf(MCons(m, rest), "agent", 16), given)
  {
    if LastOf(rest, "agent", 16).Some? {
      TopLastFits(rest, "agent");
    }
  }

  lemma ListNext(m: Member, rest: Members, key: string, given: seq<Session>)
    requires NameIn(m.key, 16) == Some(key) && AllTopFit(rest)
    ensures ListOr(LastOf(rest, "sessions", 16), if key == "sessions" then ListOr(Some(m.v), given) else given)
         == ListOr(LastOf(MCons(m, rest), "sessions", 16), given)
  {
    var sessions := LastOf(rest, "sessions", 16);
    if sessions.Some? {
      TopLastFits(rest, "sessions");
      ListGiven(sessions.value);
    }
  }

  lemma TopDraftedNext(d: Draft, m: Member, rest: Members, key: string)
    requires NameIn(m.key, 16) == Some(key) && AllTopFit(rest)
    ensures TopDrafted(OneTop(d, key, m.v), rest) == TopDrafted(d, MCons(m, rest))
  {
    AgentNext(m, rest, key, d.out.agent);
    ListNext(m, rest, key, d.out.sessions);
  }

  lemma ListGiven(v: Json)
    requires TopFits("sessions", v)
    ensures v.JArr? && TakeElems([], v.elems).Some?
  {
    var list :| ElemsStand(v.elems, 3, list);
    ListTaken(v.elems, list);
  }

  lemma {:induction false} TopTakesIs(d: Draft, ms: Members)
    ensures TakeTops(d, ms).Some? <==> AllTopFit(ms)
    ensures AllTopFit(ms) ==> TakeTops(d, ms) == Some(TopDrafted(d, ms))
    decreases ms
  {
    match ms
    case MNil =>
    case MCons(m, rest) =>
      var key := NameIn(m.key, 16);
      if key.Some? {
        TopTaken(d, key.value, m.v);
        var next := TakeTop(d, key.value, m.v);
        if next.Some? {
          TopTakenIs(d, key.value, m.v);
          TopTakesIs(next.value, rest);
          if AllTopFit(rest) {
            TopDraftedNext(d, m, rest, key.value);
          }
        }
      }
  }

  lemma TopIs(ms: Members, x: Snapshot)
    requires AllTopFit(ms)
    ensures var d := TopDrafted(EMPTY_DRAFT, ms);
            TopStands(ms, x) <==>
            && d.haveAgent && d.haveCaptured && d.haveSessions && d.out.sessions != [] && d.out == x
  {
    var agent, captured, sessions := LastOf(ms, "agent", 16), LastOf(ms, "captured_at", 16), LastOf(ms, "sessions", 16);
    if agent.Some? {
      TopLastFits(ms, "agent");
    }
    if captured.Some? {
      TopLastFits(ms, "captured_at");
      TruncIs(NumValue(captured.value.tok), x.capturedAt);
    }
    if sessions.Some? {
      TopLastFits(ms, "sessions");
      ListGiven(sessions.value);
      ListTaken(sessions.value.elems, x.sessions);
    }
  }

  /** What `parse_snapshot` makes of a tree, whatever the order of its members: exactly the snapshot it stands for. */
  lemma SnapshotMeaningIs(v: Json, x: Snapshot)
    ensures SnapshotMeaning(v) == Some(x) <==> SnapshotStands(v, x)
  {
    if v.JObj? {
      TopTakesIs(EMPTY_DRAFT, v.members);
      if AllTopFit(v.members) {
        TopIs(v.members, x);
      }
    }
  }
}
