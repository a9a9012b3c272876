/** `parse_snapshot` against the meaning of the JSON tree it is given. */
module ParseTheorems {
  import opened Decimals
  import opened JsonText
  import opened CursorSpec
  import opened SkipTheorems
  import opened DropLoop

  // ------------------------------------------------ the meaning of a tree

  function NumberIn(v: Json): Option<Decimal> {
    if v.JNum? then Some(NumValue(v.tok)) else None
  }

  /** A decoded string as the C string its buffer of `cap` bytes then holds. */
  function NameIn(b: Body, cap: nat): Option<string> {
    match DecodeFor(b, cap)
    case Some(v) => Some(CStr(v))
    case None => None
  }

  function StringIn(v: Json, cap: nat): Option<string> {
    if v.JStr? then NameIn(v.body, cap) else None
  }

  /** One member of a session object. */
  function TakeSession(d: SessionDraft, key: string, v: Json): Option<SessionDraft> {
    match key
    case "type" =>
      (match StringIn(v, TYPE_CAP)
       case Some(x) => if HasControl(x) then None else Some(d.(out := d.out.(kind := x), haveType := true))
       case None => None)
    case "used_pct" =>
      (match NumberIn(v)
       case Some(x) =>
         if Negative(x) || Above(x, 1) then None else Some(d.(out := d.out.(usedPct := x), havePct := true))
       case None => None)
    case "resets_at" =>
      (match NumberIn(v)
       case Some(x) => Some(d.(out := d.out.(resetsAt := Trunc(x)), haveReset := true))
       case None => None)
    case "rolling" =>
      if v.JTrue? || v.JFalse? then Some(d.(out := d.out.(rolling := v.JTrue?))) else None
    case "window_duration_mins" =>
      (match NumberIn(v)
       case Some(x) => Some(d.(out := d.out.(windowMins := ClampMinutes(x))))
       case None => None)
    case _ => Some(d)
  }

  function TakeSessions(d: SessionDraft, ms: Members): Option<SessionDraft>
    decreases ms
  {
    match ms
    case MNil => Some(d)
    case MCons(m, rest) =>
      match NameIn(m.key, SESSION_KEY_CAP)
      case None => None
      case Some(key) =>
        match TakeSession(d, key, m.v)
        case None => None
        case Some(d') => TakeSessions(d', rest)
  }

  function SessionMeaning(v: Json): Option<Session> {
    if !v.JObj? then None
    else
      match TakeSessions(EMPTY_SESSION, v.members)
      case None => None
      case Some(d) => if d.haveType && d.havePct && d.haveReset && d.out.kind != "" then Some(d.out) else None
  }

  /** The first three sessions of the array, after the ones in `got`. */
  function TakeElems(got: seq<Session>, es: Elems): (r: Option<seq<Session>>)
    ensures r.Some? && |got| <= MAX_SESSIONS ==> |r.value| <= MAX_SESSIONS
    decreases es
  {
    match es
    case ENil => Some(got)
    case ECons(_, v, _, rest) =>
      if |got| >= MAX_SESSIONS then Some(got)
      else
        match SessionMeaning(v)
        case None => None
        case Some(x) => TakeElems(got + [x], rest)
  }

  function TakeTop(d: Draft, key: string, v: Json): Option<Draft> {
    match key
    case "agent" =>
      (match StringIn(v, AGENT_CAP)
       case Some(x) => if IsKnownAgent(x) then Some(d.(out := d.out.(agent := x), haveAgent := true)) else None
       case None => None)
    case "captured_at" =>
      (match NumberIn(v)
       case Some(x) => Some(d.(out := d.out.(capturedAt := Trunc(x)), haveCaptured := true))
       case None => None)
    case "sessions" =>
      if !v.JArr? then None
      else (match TakeElems([], v.elems)
            case Some(x) => Some(d.(out := d.out.(sessions := x), haveSessions := true))
            case None => None)
    case _ => Some(d)
  }

  function TakeTops(d: Draft, ms: Members): Option<Draft>
    decreases ms
  {
    match ms
    case MNil => Some(d)
    case MCons(m, rest) =>
      match NameIn(m.key, TOP_KEY_CAP)
      case None => None
      case Some(key) =>
        match TakeTop(d, key, m.v)
        case None => None
        case Some(d') => TakeTops(d', rest)
  }

  /** The snapshot a tree stands for: an object; members in order, the last one of a name
      wins; unknown names are ignored; the required ones must be there. */
  function SnapshotMeaning(v: Json): Option<Snapshot> {
    if !v.JObj? then None
    else
      match TakeTops(EMPTY_DRAFT, v.members)
      case None => None
      case Some(d) =>
        if d.haveAgent && d.haveCaptured && d.haveSessions && |d.out.sessions| > 0 then Some(d.out) else None
  }

  // --------------------------------------------------- extra sessions

  /** If the list gets as far as its fourth element, the walk over the rest comes back to depth 0. */
  predicate CleanElems(es: Elems, n: nat) {
    match es
    case ENil => true
    case ECons(_, v, _, rest) =>
      if n >= MAX_SESSIONS then WalkElems(es, 0) == Some(0) else SessionMeaning(v).None? || CleanElems(rest, n + 1)
  }

  predicate CleanMembers(ms: Members) {
    match ms
    case MNil => true
    case MCons(m, rest) =>
      && (NameIn(m.key, TOP_KEY_CAP) == Some("sessions") && m.v.JArr? ==> CleanElems(m.v.elems, 0))
      && CleanMembers(rest)
  }

  /** No session list has sessions after its third that the drop loop misreads. */
  predicate Clean(v: Json) {
    v.JObj? ==> CleanMembers(v.members)
  }

  // ------------------------------------------------------ the parser

  lemma Starts(v: Json, r: string)
    requires Valid(v)
    ensures var s := Put(v, r);
            s != "" && !IsSpace(s[0])
            && (s[0] == '"' <==> v.JStr?) && (s[0] == '{' <==> v.JObj?) && (s[0] == '[' <==> v.JArr?)
            && (s[0] == 't' <==> v.JTrue?) && (s[0] == 'f' <==> v.JFalse?)
            && (v.JNum? <==> (IsDigit(s[0]) || s[0] == '-')) && s[0] != '+' && s[0] != '.'
            && s[0] != ']' && s[0] != '}' && s[0] != ','
  {
    if v.JNum? {
      NumStarts(v.tok, r);
    }
  }

  lemma StringFieldReads(w: string, v: Json, cap: nat, r: string)
    requires AllSpace(w) && Valid(v) && cap > 0
    ensures ReadString(w + Put(v, r), cap) == Outcome(if v.JStr? then DecodeFor(v.body, cap) else None, r)
  {
    if v.JStr? {
      ReadStringReads(w, v.body, cap, r);
    } else {
      SkipWsPast(w, Put(v, r));
      Starts(v, r);
    }
  }

  lemma NoNumber(s: string)
    requires s != "" && !IsSpace(s[0]) && !IsDigit(s[0]) && s[0] !in "+-."
    ensures ReadNumber(s) == Fail
  {
    assert s[0] != '+' && s[0] != '-' && s[0] != '.';
    assert s[|""|..] == s;
  }

  lemma NumberFieldReads(w: string, v: Json, r: string)
    requires AllSpace(w) && Valid(v) && Delimits(r)
    ensures ReadNumber(w + Put(v, r)) == Outcome(NumberIn(v), r)
  {
    if v.JNum? {
      ReadNumberReads(w, v.tok, r);
    } else {
      SkipWsPast(w, Put(v, r));
      Starts(v, r);
      NoNumber(Put(v, r));
    }
  }

  lemma RollingReads(d: SessionDraft, w: string, v: Json, r: string)
    requires AllSpace(w) && Valid(v)
    ensures SessionField(d, "rolling", w + Put(v, r)) == Outcome(TakeSession(d, "rolling", v), r)
  {
    SkipWsPast(w, Put(v, r));
    Starts(v, r);
    var t := Put(v, r);
    if "true" <= t {
      assert t[0] == 't';
    } else if "false" <= t {
      assert t[0] == 'f';
    }
  }

  lemma NumberKeyReads(d: SessionDraft, key: string, w: string, v: Json, r: string)
    requires AllSpace(w) && Valid(v) && Delimits(r)
    requires key == "used_pct" || key == "resets_at" || key == "window_duration_mins"
    ensures SessionField(d, key, w + Put(v, r)) == Outcome(TakeSession(d, key, v), r)
  {
    NumberFieldReads(w, v, r);
  }

  lemma OtherKeyReads(d: SessionDraft, key: string, w: string, v: Json, r: string)
    requires AllSpace(w) && Valid(v) && Delimits(r)
    requires key != "type" && key != "rolling"
    requires key != "used_pct" && key != "resets_at" && key != "window_duration_mins"
    ensures SessionField(d, key, w + Put(v, r)) == Outcome(TakeSession(d, key, v), r)
  {
    SkipValuePut(w, v, r);
  }

  lemma SessionFieldReads(d: SessionDraft, key: string, w: string, v: Json, r: string)
    requires AllSpace(w) && Valid(v) && Delimits(r)
    ensures SessionField(d, key, w + Put(v, r)) == Outcome(TakeSession(d, key, v), r)
  {
    if key == "type" {
      StringFieldReads(w, v, TYPE_CAP, r);
    } else if key == "rolling" {
      RollingReads(d, w, v, r);
    } else if key == "used_pct" || key == "resets_at" || key == "window_duration_mins" {
      NumberKeyReads(d, key, w, v, r);
    } else {
      OtherKeyReads(d, key, w, v, r);
    }
  }

  /** The start of a member list: the key and what comes after the colon. */
  lemma MemberStarts(ms: Members, r: string, cap: nat)
    requires ms.MCons? && ValidMembers(ms) && cap > 0
    ensures var m := ms.head;
            var tail := if ms.rest.MNil? then r else [','] + PutMembers(ms.rest, r);
            var t := SkipWs(PutMembers(ms, r));
            && t != "" && t[0] == '"'
            && PeekKey(t, cap) == Outcome(DecodeFor(m.key, cap), m.gap + Put(m.v, m.post + tail))
  {
    var m := ms.head;
    var tail := if ms.rest.MNil? then r else [','] + PutMembers(ms.rest, r);
    var s := m.mid + ([':'] + (m.gap + Put(m.v, m.post + tail)));
    SkipWsPast(m.pre, PutStr(m.key, s));
    PeekKeyReads("", m.key, cap, m.mid, m.gap + Put(m.v, m.post + tail));
    assert "" + PutStr(m.key, s) == PutStr(m.key, s);
  }

  lemma DelimitsAfter(w: string, r: string)
    requires AllSpace(w) && Delimits(r)
    ensures Delimits(w + r)
  {
    if w == "" {
      assert w + r == r;
    }
  }

  /** One turn of the member loop, from what its parts read. */
  lemma SessionTurnFrom(d: SessionDraft, s: string, key: Option<string>, u: string,
                        x: Option<SessionDraft>, after: string, tail: string)
    requires SkipWs(s) != "" && SkipWs(s)[0] == '"' && PeekKey(SkipWs(s), SESSION_KEY_CAP) == Outcome(key, u)
    requires key.Some? ==> SessionField(d, CStr(key.value), u) == Outcome(x, after)
    requires SkipWs(after) == tail && tail != "" && (tail[0] == ',' || tail[0] == '}')
    ensures SessionTurn(d, s)
         == if key.None? || x.None? then Fail else Ok(Turn(x.value, tail[0] == ','), tail[1..])
  {
  }

  lemma {:induction false} SessionMembersRead(d: SessionDraft, ms: Members, r: string)
    requires ValidMembers(ms)
    ensures SessionMembers(d, PutMembers(ms, ['}'] + r))
         == match TakeSessions(d, ms) case Some(d') => SessionDone(d', r) case None => Fail
    decreases ms
  {
    var end := ['}'] + r;
    assert end[1..] == r;
    match ms
    case MNil =>
    case MCons(m, rest) =>
      var tail := if rest.MNil? then end else [','] + PutMembers(rest, end);
      assert tail[1..] == if rest.MNil? then r else PutMembers(rest, end);
      var key := DecodeFor(m.key, SESSION_KEY_CAP);
      var x := if key.Some? then TakeSession(d, CStr(key.value), m.v) else None;
      MemberStarts(ms, end, SESSION_KEY_CAP);
      DelimitsAfter(m.post, tail);
      SkipWsPast(m.post, tail);
      if key.Some? {
        SessionFieldReads(d, CStr(key.value), m.gap, m.v, m.post + tail);
      }
      SessionTurnFrom(d, PutMembers(ms, end), key, m.gap + Put(m.v, m.post + tail), x, m.post + tail, tail);
      if x.Some? && !rest.MNil? {
        SessionMembersRead(x.value, rest, r);
      }
  }

  lemma SessionReads(w: string, v: Json, r: string)
    requires AllSpace(w) && Valid(v)
    ensures ParseSession(w + Put(v, r)) == Outcome(SessionMeaning(v), r)
  {
    SkipWsPast(w, Put(v, r));
    Starts(v, r);
    if v.JObj? {
      var s := PutMembers(v.members, ['}'] + r);
      assert Put(v, r)[1..] == v.pad + s;
      SessionMembersPad(EMPTY_SESSION, v.pad, s);
      SessionMembersRead(EMPTY_SESSION, v.members, r);
    }
  }

  // White space before a list does not matter.

  lemma SessionMembersPad(d: SessionDraft, w: string, s: string)
    requires AllSpace(w)
    ensures SessionMembers(d, w + s) == SessionMembers(d, s)
  {
    SkipWsPast(w, s);
    assert SessionTurn(d, w + s) == SessionTurn(d, s);
  }

  lemma TopMembersPad(d: Draft, w: string, s: string)
    requires AllSpace(w)
    ensures TopMembers(d, w + s) == TopMembers(d, s)
  {
    SkipWsPast(w, s);
    assert TopTurn(d, w + s) == TopTurn(d, s);
  }

  lemma ElementTurnPad(got: seq<Session>, w: string, s: string)
    requires AllSpace(w) && |got| <= MAX_SESSIONS
    ensures ElementTurn(got, w + s) == ElementTurn(got, s)
  {
    SkipWsPast(w, s);
  }

  lemma SessionsPad(got: seq<Session>, w: string, s: string)
    requires AllSpace(w) && |got| <= MAX_SESSIONS
    ensures Sessions(got, w + s) == Sessions(got, s)
  {
    ElementTurnPad(got, w, s);
  }

  /** With three sessions taken, the turn ends the list exactly when the rest can be dropped. */
  lemma ElementsDrop(got: seq<Session>, es: Elems, r: string)
    requires ValidElems(es) && es.ECons? && |got| == MAX_SESSIONS
    ensures ElementTurn(got, PutElems(es, [']'] + r))
         == match DropSessions(PutElems(es, [']'] + r), 0)
            case Fail => Fail
            case Ok(_, rest) => Ok(Turn(got, false), rest)
  {
    var end := [']'] + r;
    var tail := if es.rest.ENil? then end else [','] + PutElems(es.rest, end);
    var s := Put(es.v, es.post + tail);
    ElementTurnPad(got, es.pre, s);
    Starts(es.v, es.post + tail);
    DropFollowsWalk(es.pre, s, 0);
    NeutralWalk(es.pre, 0);
  }

  /** One turn of the session loop, from what its parts read. */
  lemma ElementTurnFrom(got: seq<Session>, s: string, x: Option<Session>, after: string, tail: string)
    requires |got| < MAX_SESSIONS && s != "" && !IsSpace(s[0]) && s[0] != ']'
    requires ParseSession(s) == Outcome(x, after)
    requires SkipWs(after) == tail && tail != "" && (tail[0] == ',' || tail[0] == ']')
    ensures ElementTurn(got, s)
         == if x.None? then Fail else Ok(Turn(got + [x.value], tail[0] == ','), tail[1..])
  {
  }

  lemma ElementReads(got: seq<Session>, pre: string, v: Json, post: string, tail: string)
    requires AllSpace(pre) && Valid(v) && AllSpace(post) && |got| < MAX_SESSIONS
    requires tail != "" && (tail[0] == ',' || tail[0] == ']')
    ensures ElementTurn(got, pre + Put(v, post + tail))
         == match SessionMeaning(v)
            case None => Fail
            case Some(x) => Ok(Turn(got + [x], tail[0] == ','), tail[1..])
  {
    ElementTurnPad(got, pre, Put(v, post + tail));
    SkipWsPast(post, tail);
    Starts(v, post + tail);
    SessionReadsAlone(v, post + tail);
    ElementTurnFrom(got, Put(v, post + tail), SessionMeaning(v), post + tail, tail);
  }

  lemma SessionReadsAlone(v: Json, r: string)
    requires Valid(v)
    ensures ParseSession(Put(v, r)) == Outcome(SessionMeaning(v), r)
  {
    SessionReads("", v, r);
    assert "" + Put(v, r) == Put(v, r);
  }

  /** The loop after one turn that read an element and then `tail`. */
  lemma SessionsTurn(got: seq<Session>, s: string, x: Option<Session>, tail: string)
    requires |got| <= MAX_SESSIONS && tail != ""
    requires ElementTurn(got, s)
          == match x case None => Fail case Some(y) => Ok(Turn(got + [y], tail[0] == ','), tail[1..])
    ensures Sessions(got, s)
         == if x.None? then Fail
            else if tail[0] != ',' then Ok(got + [x.value], tail[1..])
            else if |got| < MAX_SESSIONS then Sessions(got + [x.value], tail[1..])
            else Sessions(got, s)
  {
  }

  /** The list from one element on. */
  lemma SessionsStep(got: seq<Session>, es: Elems, r: string)
    requires ValidElems(es) && es.ECons? && |got| < MAX_SESSIONS
    ensures Sessions(got, PutElems(es, [']'] + r))
         == match SessionMeaning(es.v)
            case None => Fail
            case Some(x) =>
              if es.rest.ENil? then Ok(got + [x], r) else Sessions(got + [x], PutElems(es.rest, [']'] + r))
  {
    var end := [']'] + r;
    assert end[1..] == r;
    var tail := if es.rest.ENil? then end else [','] + PutElems(es.rest, end);
    assert tail[1..] == if es.rest.ENil? then r else PutElems(es.rest, end);
    ElementReads(got, es.pre, es.v, es.post, tail);
    SessionsTurn(got, PutElems(es, end), SessionMeaning(es.v), tail);
  }

  /** On every list of values, whatever its length: the session loop answers the meaning of the list
      and stops behind it exactly when the walk over the elements after the third comes back to depth 0. */
  lemma {:induction false} SessionsReadExactly(got: seq<Session>, es: Elems, r: string)
    requires ValidElems(es) && |got| <= MAX_SESSIONS
    ensures Sessions(got, PutElems(es, [']'] + r)) == Outcome(TakeElems(got, es), r) <==> CleanElems(es, |got|)
    decreases es
  {
    match es
    case ENil =>
      assert ([']'] + r)[1..] == r;
    case ECons(pre, v, post, rest) =>
      if |got| >= MAX_SESSIONS {
        ElementsDrop(got, es, r);
        ElementsDropExactly(es, r);
        var dropped := DropSessions(PutElems(es, [']'] + r), 0);
        assert Sessions(got, PutElems(es, [']'] + r))
            == match dropped case Fail => Fail case Ok(_, rest) => Ok(got, rest);
        assert dropped.Ok? ==> dropped.v == ();
      } else {
        if SessionMeaning(v).Some? {
          SessionsReadExactly(got + [SessionMeaning(v).value], rest, r);
        }
        SessionsStep(got, es, r);
      }
  }

  lemma SessionsFieldReads(d: Draft, w: string, v: Json, r: string)
    requires AllSpace(w) && Valid(v) && (v.JArr? ==> CleanElems(v.elems, 0))
    ensures TopField(d, "sessions", w + Put(v, r)) == Outcome(TakeTop(d, "sessions", v), r)
  {
    SkipWsPast(w, Put(v, r));
    Starts(v, r);
    if v.JArr? {
      var s := PutElems(v.elems, [']'] + r);
      assert Put(v, r)[1..] == v.pad + s;
      SessionsPad([], v.pad, s);
      SessionsReadExactly([], v.elems, r);
    }
  }

  lemma TopFieldReads(d: Draft, key: string, w: string, v: Json, r: string)
    requires AllSpace(w) && Valid(v) && Delimits(r)
    requires key == "sessions" && v.JArr? ==> CleanElems(v.elems, 0)
    ensures TopField(d, key, w + Put(v, r)) == Outcome(TakeTop(d, key, v), r)
  {
    if key == "agent" {
      StringFieldReads(w, v, AGENT_CAP, r);
    } else if key == "captured_at" {
      NumberFieldReads(w, v, r);
    } else if key == "sessions" {
      SessionsFieldReads(d, w, v, r);
    } else {
      SkipValuePut(w, v, r);
    }
  }

  /** One turn of the member loop, from what its parts read. */
  lemma TopTurnFrom(d: Draft, s: string, key: Option<string>, u: string,
                    x: Option<Draft>, after: string, tail: string)
    requires SkipWs(s) != "" && SkipWs(s)[0] == '"' && PeekKey(SkipWs(s), TOP_KEY_CAP) == Outcome(key, u)
    requires key.Some? ==> TopField(d, CStr(key.value), u) == Outcome(x, after)
    requires SkipWs(after) == tail && tail != "" && (tail[0] == ',' || tail[0] == '}')
    ensures TopTurn(d, s)
         == if key.None? || x.None? then Fail else Ok(Turn(x.value, tail[0] == ','), tail[1..])
  {
  }

  lemma {:induction false} TopMembersRead(d: Draft, ms: Members, r: string)
    requires ValidMembers(ms) && CleanMembers(ms)
    ensures TopMembers(d, PutMembers(ms, ['}'] + r))
         == match TakeTops(d, ms) case Some(d') => SnapshotDone(d', r) case None => Fail
    decreases ms
  {
    var end := ['}'] + r;
    assert end[1..] == r;
    match ms
    case MNil =>
    case MCons(m, rest) =>
      var tail := if rest.MNil? then end else [','] + PutMembers(rest, end);
      assert tail[1..] == if rest.MNil? then r else PutMembers(rest, end);
      var key := DecodeFor(m.key, TOP_KEY_CAP);
      var x := if key.Some? then TakeTop(d, CStr(key.value), m.v) else None;
      MemberStarts(ms, end, TOP_KEY_CAP);
      DelimitsAfter(m.post, tail);
      SkipWsPast(m.post, tail);
      if key.Some? {
        TopFieldReads(d, CStr(key.value), m.gap, m.v, m.post + tail);
      }
      TopTurnFrom(d, PutMembers(ms, end), key, m.gap + Put(m.v, m.post + tail), x, m.post + tail, tail);
      if x.Some? && !rest.MNil? {
        TopMembersRead(x.value, rest, r);
      }
  }

  /** On every JSON text, `parse_snapshot` accepts exactly the texts whose tree stands for a
      snapshot, returns that snapshot, and stops just after the tree. */
  lemma ParseSnapshotReads(w: string, v: Json, r: string)
    requires AllSpace(w) && Valid(v) && Clean(v)
    ensures ParseSnapshot(w + (Text(v) + r)) == Outcome(SnapshotMeaning(v), r)
  {
    PutIsText(v, r);
    SkipWsPast(w, Put(v, r));
    Starts(v, r);
    if v.JObj? {
      var s := PutMembers(v.members, ['}'] + r);
      assert Put(v, r)[1..] == v.pad + s;
      TopMembersPad(EMPTY_DRAFT, v.pad, s);
      TopMembersRead(EMPTY_DRAFT, v.members, r);
    }
  }
}
