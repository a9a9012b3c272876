/** What each step of the hand-written JSON cursor reads from the text that remains. */
module CursorSpec {
  import opened Decimals
  import opened JsonText

  /** A value and the text left after it, or failure. */
  datatype Read<+T> = Ok(v: T, rest: string) | Fail

  /** The text of a C buffer: everything before the first NUL. */
  function CStr(s: string): (r: string)
    ensures |r| <= |s| && (forall i :: 0 <= i < |r| ==> r[i] != '\0')
  {
    if s == "" || s[0] == '\0' then "" else [s[0]] + CStr(s[1..])
  }

  function SkipWs(s: string): (r: string)
    ensures |r| <= |s|
    ensures r != "" ==> !IsSpace(r[0])
  {
    if s != "" && IsSpace(s[0]) then SkipWs(s[1..]) else s
  }

  /** What is left out is white space, and what is left is the end of the text. */
  lemma {:induction false} SkipWsIs(s: string)
    ensures SkipWs(s) == s[|s| - |SkipWs(s)|..] && AllSpace(s[..|s| - |SkipWs(s)|])
  {
    if s != "" && IsSpace(s[0]) {
      SkipWsIs(s[1..]);
    }
  }

  lemma {:induction false} CStrIs(s: string)
    ensures CStr(s) <= s && '\0' !in CStr(s)
    ensures |CStr(s)| < |s| ==> s[|CStr(s)|] == '\0'
  {
    if s != "" && s[0] != '\0' {
      CStrIs(s[1..]);
    }
  }

  function Eat(s: string, ch: char): (r: Read<()>)
    ensures r.Ok? ==> |r.rest| < |s|
  {
    var t := SkipWs(s);
    if t != "" && t[0] == ch then Ok((), t[1..]) else Fail
  }

  /** The escapes `read_string` knows. */
  function Unescape(c: char): Option<char> {
    match c
    case '"' => Some('"')
    case '\\' => Some('\\')
    case '/' => Some('/')
    case 'n' => Some('\n')
    case 't' => Some('\t')
    case 'r' => Some('\r')
    case _ => None
  }

  /** Six of the escapes of RFC 8259, section 7, with their meaning, and no other. */
  lemma UnescapeIs(c: char)
    ensures forall i :: 0 <= i < 6 ==> Unescape("\"\\/ntr"[i]) == Some("\"\\/\n\t\r"[i])
    ensures Unescape(c).Some? <==> c in "\"\\/ntr"
  {
  }

  /** One character of a string, plain or escaped. */
  function StringChar(s: string): (r: Read<char>)
    requires s != ""
    ensures r.Ok? ==> |r.rest| < |s|
  {
    if s[0] != '\\' then Ok(s[0], s[1..])
    else if |s| < 2 || Unescape(s[1]).None? then Fail
    else Ok(Unescape(s[1]).value, s[2..])
  }

  /** The rest of a string after its opening quote, of at most `room` bytes. */
  function StringRest(s: string, room: nat): (r: Read<string>)
    ensures r.Ok? ==> |r.rest| < |s| && |r.v| <= room
    decreases |s|
  {
    if s == "" then Fail
    else if s[0] == '"' then Ok("", s[1..])
    else
      match StringChar(s)
      case Fail => Fail
      case Ok(c, t) => if room == 0 then Fail else Prepend(c, StringRest(t, room - 1))
  }

  function Prepend(c: char, r: Read<string>): Read<string> {
    match r
    case Ok(v, rest) => Ok([c] + v, rest)
    case Fail => Fail
  }

  /** A string for a buffer of `cap` bytes, one of them for the NUL. */
  function ReadString(s: string, cap: nat): (r: Read<string>)
    ensures r.Ok? ==> |r.rest| < |s| && (cap > 0 ==> |r.v| < cap)
  {
    var t := SkipWs(s);
    if t == "" || t[0] != '"' then Fail else StringRest(t[1..], if cap == 0 then 0 else cap - 1)
  }

  function PeekKey(s: string, cap: nat): (r: Read<string>)
    ensures r.Ok? ==> |r.rest| < |s| && (cap > 0 ==> |r.v| < cap)
  {
    match ReadString(s, cap)
    case Fail => Fail
    case Ok(key, t) =>
      var u := SkipWs(t);
      if u == "" || u[0] != ':' then Fail else Ok(key, u[1..])
  }

  // ------------------------------------------------------------- numbers

  /** The longest run of digits at the front. */
  function Digits(s: string): (d: string)
    ensures d <= s
    ensures |d| < |s| ==> !IsDigit(s[|d|])
  {
    if s != "" && IsDigit(s[0]) then [s[0]] + Digits(s[1..]) else ""
  }

  /** An optional sign: whether it is a minus, and what follows. */
  function ReadSign(s: string): (r: (bool, string))
    ensures |r.1| <= |s|
  {
    if s != "" && (s[0] == '+' || s[0] == '-') then (s[0] == '-', s[1..]) else (false, s)
  }

  /** The exponent part, when one with digits is there. */
  function ReadExponent(s: string): (r: (int, string))
    ensures |r.1| <= |s|
  {
    if s == "" || (s[0] != 'e' && s[0] != 'E') then (0, s)
    else
      var (neg, t) := ReadSign(s[1..]);
      var d := Digits(t);
      if d == "" then (0, s)
      else (if neg then -DigitsValue(d) else DigitsValue(d), t[|d|..])
  }

  /** A point and the digits after it, both optional. */
  function ReadFraction(s: string): (r: (string, string))
    ensures |r.1| <= |s| && (r.0 != "" ==> |r.1| < |s|)
  {
    if s == "" || s[0] != '.' then ("", s)
    else var frac := Digits(s[1..]); (frac, s[1..][|frac|..])
  }

  function ReadUnsigned(s: string, neg: bool): (r: Read<Decimal>)
    ensures r.Ok? ==> |r.rest| < |s|
  {
    var whole := Digits(s);
    var (frac, t) := ReadFraction(s[|whole|..]);
    if whole == "" && frac == "" then Fail
    else
      var (x, rest) := ReadExponent(t);
      Ok(NumberOf(neg, whole, frac, x), rest)
  }

  /** `strtod` on decimal input: sign, digits with an optional point, optional exponent. */
  function Strtod(s: string): (r: Read<Decimal>)
    ensures r.Ok? ==> |r.rest| < |s|
  {
    var (neg, t) := ReadSign(s);
    ReadUnsigned(t, neg)
  }

  function ReadNumber(s: string): (r: Read<Decimal>)
    ensures r.Ok? ==> |r.rest| < |s|
  {
    Strtod(SkipWs(s))
  }

  // ------------------------------------------------------ skipping values

  function SkipStringBody(s: string): (r: Read<()>)
    ensures r.Ok? ==> |r.rest| < |s|
  {
    if s == "" then Fail
    else if s[0] == '"' then Ok((), s[1..])
    else if s[0] == '\\' && |s| > 1 then SkipStringBody(s[2..])
    else SkipStringBody(s[1..])
  }

  function Closer(open: char): char {
    if open == '{' then '}' else ']'
  }

  /** Reads until `depth` brackets of the kind `open` are closed. */
  function SkipNested(s: string, open: char, depth: nat): (r: Read<()>)
    ensures r.Ok? ==> |r.rest| <= |s|
    decreases |s|
  {
    if depth == 0 then Ok((), s)
    else if s == "" then Fail
    else if s[0] == '"' then
      var t := SkipStringBody(s[1..]);
      if t.Fail? then Fail else SkipNested(t.rest, open, depth)
    else if s[0] == open then SkipNested(s[1..], open, depth + 1)
    else if s[0] == Closer(open) then SkipNested(s[1..], open, depth - 1)
    else SkipNested(s[1..], open, depth)
  }

  function SkipLiteral(s: string, lit: string): (r: Read<()>)
    ensures r.Ok? ==> |r.rest| <= |s|
  {
    if lit <= s then Ok((), s[|lit|..]) else Fail
  }

  function SkipValue(s: string): (r: Read<()>)
    ensures r.Ok? ==> |r.rest| < |s|
  {
    var t := SkipWs(s);
    if t == "" then Fail
    else if t[0] == '"' then SkipStringBody(t[1..])
    else if t[0] == '{' || t[0] == '[' then SkipNested(t[1..], t[0], 1)
    else if t[0] == 't' then SkipLiteral(t, "true")
    else if t[0] == 'f' then SkipLiteral(t, "false")
    else if t[0] == 'n' then SkipLiteral(t, "null")
    else match ReadNumber(t) case Ok(_, rest) => Ok((), rest) case Fail => Fail
  }

  // ------------------------------------------------------------ snapshots

  const MAX_SESSIONS := 3
  const AGENT_CAP := 16
  const TYPE_CAP := 16
  const SESSION_KEY_CAP := 32
  const TOP_KEY_CAP := 16
  const INT32_MAX := 2147483647

  datatype Session = Session(kind: string, usedPct: Decimal, resetsAt: int, rolling: bool, windowMins: int)

  datatype Snapshot = Snapshot(agent: string, capturedAt: int, sessions: seq<Session>)

  const NO_SESSION := Session("", ZERO, 0, false, 0)
  const NO_SNAPSHOT := Snapshot("", 0, [])

  predicate IsKnownAgent(s: string) {
    s == "claude" || s == "codex"
  }

  predicate HasControl(s: string) {
    exists i :: 0 <= i < |s| && s[i] as int < 0x20
  }

  /** The value kept for `window_duration_mins`. */
  function ClampMinutes(d: Decimal): (n: int)
    ensures 0 <= n <= INT32_MAX
  {
    if Negative(d) then 0
    else if Above(d, INT32_MAX) then INT32_MAX
    else TruncInRange(d, INT32_MAX); Trunc(d)
  }

  lemma TruncInRange(d: Decimal, n: nat)
    requires !Negative(d) && !Above(d, n)
    ensures 0 <= Trunc(d) <= n
  {
    if d.e < 0 {
      QuotientBelow(d.m, n, Pow10(-d.e));
    }
  }

  /** The minutes of any number m / 10^k: 0 below zero, the largest 32-bit integer above it, else the whole part. */
  lemma MinutesAre(m: int, k: nat)
    ensures var n := ClampMinutes(Norm(m, 0 - k));
            if m < 0 then n == 0
            else if m > 2147483647 * Pow10(k) then n == 2147483647
            else n * Pow10(k) <= m < n * Pow10(k) + Pow10(k)
  {
    FractionCompared(m, k, INT32_MAX);
    FractionCut(m, k);
  }

  /** The session read so far and which of its required keys were seen. */
  datatype SessionDraft = SessionDraft(out: Session, haveType: bool, havePct: bool, haveReset: bool)

  const EMPTY_SESSION := SessionDraft(NO_SESSION, false, false, false)

  function SessionDone(d: SessionDraft, rest: string): Read<Session> {
    if d.haveType && d.havePct && d.haveReset && d.out.kind != "" then Ok(d.out, rest) else Fail
  }

  /** The value of key `key`, read into the draft. */
  function SessionField(d: SessionDraft, key: string, s: string): (r: Read<SessionDraft>)
    ensures r.Ok? ==> |r.rest| < |s|
  {
    if key == "type" then
      match ReadString(s, TYPE_CAP)
      case Fail => Fail
      case Ok(v, rest) =>
        if HasControl(CStr(v)) then Fail
        else Ok(d.(out := d.out.(kind := CStr(v)), haveType := true), rest)
    else if key == "used_pct" then
      match ReadNumber(s)
      case Fail => Fail
      case Ok(v, rest) =>
        if Negative(v) || Above(v, 1) then Fail
        else Ok(d.(out := d.out.(usedPct := v), havePct := true), rest)
    else if key == "resets_at" then
      match ReadNumber(s)
      case Fail => Fail
      case Ok(v, rest) => Ok(d.(out := d.out.(resetsAt := Trunc(v)), haveReset := true), rest)
    else if key == "rolling" then
      var t := SkipWs(s);
      if "true" <= t then Ok(d.(out := d.out.(rolling := true)), t[4..])
      else if "false" <= t then Ok(d.(out := d.out.(rolling := false)), t[5..])
      else Fail
    else if key == "window_duration_mins" then
      match ReadNumber(s)
      case Fail => Fail
      case Ok(v, rest) => Ok(d.(out := d.out.(windowMins := ClampMinutes(v))), rest)
    else
      match SkipValue(s)
      case Fail => Fail
      case Ok(_, rest) => Ok(d, rest)
  }

  /** One turn of a loop: the new draft, and whether another turn follows. */
  datatype Turn<+T> = Turn(draft: T, more: bool)

  /** After a member or an element: a comma asks for more, the closing bracket ends the list. */
  function Separator<T>(draft: T, close: char, s: string): (r: Read<Turn<T>>)
    ensures r.Ok? ==> |r.rest| < |s|
  {
    var t := SkipWs(s);
    if t != "" && t[0] == ',' then Ok(Turn(draft, true), t[1..])
    else if t != "" && t[0] == close then Ok(Turn(draft, false), t[1..])
    else Fail
  }

  function SessionTurn(d: SessionDraft, s: string): (r: Read<Turn<SessionDraft>>)
    ensures r.Ok? ==> |r.rest| < |s|
  {
    var t := SkipWs(s);
    if t != "" && t[0] == '}' then Ok(Turn(d, false), t[1..])
    else
      match PeekKey(t, SESSION_KEY_CAP)
      case Fail => Fail
      case Ok(key, u) =>
        match SessionField(d, CStr(key), u)
        case Fail => Fail
        case Ok(d', w) => Separator(d', '}', w)
  }

  /** The members that remain of a session object, and its closing brace. */
  function SessionMembers(d: SessionDraft, s: string): (r: Read<Session>)
    ensures r.Ok? ==> |r.rest| < |s|
    decreases |s|
  {
    match SessionTurn(d, s)
    case Fail => Fail
    case Ok(turn, rest) => if turn.more then SessionMembers(turn.draft, rest) else SessionDone(turn.draft, rest)
  }

  function ParseSession(s: string): (r: Read<Session>)
    ensures r.Ok? ==> |r.rest| < |s|
  {
    match Eat(s, '{')
    case Fail => Fail
    case Ok(_, t) => SessionMembers(EMPTY_SESSION, t)
  }

  /** Drops every session after the third, by counting braces outside of the grammar. */
  function DropSessions(s: string, depth: nat): (r: Read<()>)
    ensures r.Ok? ==> |r.rest| < |s|
  {
    if s == "" then Fail
    else if s[0] == '{' then DropSessions(s[1..], depth + 1)
    else if s[0] == '}' then if depth == 0 then Fail else DropSessions(s[1..], depth - 1)
    else if s[0] == ']' && depth == 0 then Ok((), s[1..])
    else DropSessions(s[1..], depth)
  }

  function ElementTurn(got: seq<Session>, s: string): (r: Read<Turn<seq<Session>>>)
    requires |got| <= MAX_SESSIONS
    ensures r.Ok? ==> |r.rest| < |s| && |r.v.draft| <= MAX_SESSIONS
  {
    var t := SkipWs(s);
    if t != "" && t[0] == ']' then Ok(Turn(got, false), t[1..])
    else if |got| >= MAX_SESSIONS then
      match DropSessions(t, 0)
      case Fail => Fail
      case Ok(_, rest) => Ok(Turn(got, false), rest)
    else
      match ParseSession(t)
      case Fail => Fail
      case Ok(one, u) => Separator(got + [one], ']', u)
  }

  /** The sessions that remain of the array, after the ones in `got`. */
  function Sessions(got: seq<Session>, s: string): (r: Read<seq<Session>>)
    requires |got| <= MAX_SESSIONS
    ensures r.Ok? ==> |r.rest| < |s| && |r.v| <= MAX_SESSIONS
    decreases |s|
  {
    match ElementTurn(got, s)
    case Fail => Fail
    case Ok(turn, rest) => if turn.more then Sessions(turn.draft, rest) else Ok(turn.draft, rest)
  }

  datatype Draft = Draft(out: Snapshot, haveAgent: bool, haveCaptured: bool, haveSessions: bool)

  const EMPTY_DRAFT := Draft(NO_SNAPSHOT, false, false, false)

  function SnapshotDone(d: Draft, rest: string): Read<Snapshot> {
    if d.haveAgent && d.haveCaptured && d.haveSessions && |d.out.sessions| > 0 then Ok(d.out, rest)
    else Fail
  }

  function TopField(d: Draft, key: string, s: string): (r: Read<Draft>)
    ensures r.Ok? ==> |r.rest| < |s|
  {
    if key == "agent" then
      match ReadString(s, AGENT_CAP)
      case Fail => Fail
      case Ok(v, rest) =>
        if !IsKnownAgent(CStr(v)) then Fail
        else Ok(d.(out := d.out.(agent := CStr(v)), haveAgent := true), rest)
    else if key == "captured_at" then
      match ReadNumber(s)
      case Fail => Fail
      case Ok(v, rest) => Ok(d.(out := d.out.(capturedAt := Trunc(v)), haveCaptured := true), rest)
    else if key == "sessions" then
      match Eat(s, '[')
      case Fail => Fail
      case Ok(_, t) =>
        match Sessions([], t)
        case Fail => Fail
        case Ok(list, rest) => Ok(d.(out := d.out.(sessions := list), haveSessions := true), rest)
    else
      match SkipValue(s)
      case Fail => Fail
      case Ok(_, rest) => Ok(d, rest)
  }

  function TopTurn(d: Draft, s: string): (r: Read<Turn<Draft>>)
    ensures r.Ok? ==> |r.rest| < |s|
  {
    var t := SkipWs(s);
    if t != "" && t[0] == '}' then Ok(Turn(d, false), t[1..])
    else
      match PeekKey(t, TOP_KEY_CAP)
      case Fail => Fail
      case Ok(key, u) =>
        match TopField(d, CStr(key), u)
        case Fail => Fail
        case Ok(d', w) => Separator(d', '}', w)
  }

  function TopMembers(d: Draft, s: string): (r: Read<Snapshot>)
    ensures r.Ok? ==> |r.rest| < |s|
    decreases |s|
  {
    match TopTurn(d, s)
    case Fail => Fail
    case Ok(turn, rest) => if turn.more then TopMembers(turn.draft, rest) else SnapshotDone(turn.draft, rest)
  }

  function ParseSnapshot(s: string): (r: Read<Snapshot>)
    ensures r.Ok? ==> |r.rest| < |s|
  {
    match Eat(s, '{')
    case Fail => Fail
    case Ok(_, t) => TopMembers(EMPTY_DRAFT, t)
  }
}
