/** The /health document: its text, and the JSON tree it is the text of. */
module HealthText {
  import opened Decimals
  import opened JsonText
  import opened CursorSpec
  import opened SkipTheorems

  // ------------------------------------------------------------ escapes

  function HexDigit(d: int): char
    requires 0 <= d < 16
  {
    "0123456789abcdef"[d]
  }

  /** What one byte becomes between quotes. */
  function EscapeByte(c: char): Body {
    match c
    case '"' => [Esc('"')]
    case '\\' => [Esc('\\')]
    case '\n' => [Esc('n')]
    case '\r' => [Esc('r')]
    case '\t' => [Esc('t')]
    case _ =>
      if c as int < 0x20 then
        [Esc('u'), Raw('0'), Raw('0'), Raw(HexDigit(c as int / 16)), Raw(HexDigit(c as int % 16))]
      else [Raw(c)]
  }

  function Escape(s: string): Body {
    if s == "" then [] else EscapeByte(s[0]) + Escape(s[1..])
  }

  function EscapeText(s: string): string {
    PutBody(Escape(s), "")
  }

  lemma {:induction false} PutBodyConcat(a: Body, b: Body, r: string)
    ensures PutBody(a + b, r) == PutBody(a, PutBody(b, r))
  {
    if a == [] {
      assert a + b == b;
    } else {
      assert (a + b)[1..] == a[1..] + b;
      PutBodyConcat(a[1..], b, r);
    }
  }

  lemma PutBodyAround(b: Body, r: string)
    ensures PutBody(b, r) == PutBody(b, "") + r
  {
    PutBodyText(b, "", r);
    assert "" + r == r;
  }

  lemma EscapeTextStep(s: string)
    requires s != ""
    ensures EscapeText(s) == PutBody(EscapeByte(s[0]), "") + EscapeText(s[1..])
  {
    PutBodyConcat(EscapeByte(s[0]), Escape(s[1..]), "");
    PutBodyAround(EscapeByte(s[0]), EscapeText(s[1..]));
  }

  lemma {:induction false} EscapeValid(s: string)
    ensures ValidBody(Escape(s))
  {
    if s != "" {
      EscapeValid(s[1..]);
      EscapeByteValid(s[0]);
    }
  }

  lemma EscapeByteValid(c: char)
    ensures ValidBody(EscapeByte(c))
  {
    if c as int < 0x20 {
      HexIsPlain(c as int / 16);
      HexIsPlain(c as int % 16);
    }
  }

  lemma HexIsPlain(d: int)
    requires 0 <= d < 16
    ensures HexDigit(d) != '"' && HexDigit(d) != '\\'
  {
  }

  /** A control byte that has no short escape. */
  predicate OddControl(c: char) {
    c as int < 0x20 && c != '\n' && c != '\r' && c != '\t'
  }

  lemma DecodeConcat(c: char, b: Body)
    ensures Decode(EscapeByte(c) + b)
         == if OddControl(c) || Decode(b).None? then None else Some([c] + Decode(b).value)
  {
    var e := EscapeByte(c) + b;
    assert e[0] == EscapeByte(c)[0];
    if !OddControl(c) {
      assert e[1..] == b;
    }
  }

  /** `read_string` undoes `json_escape_append` exactly on the strings without odd control
      bytes; it refuses every other one. */
  lemma {:induction false} EscapeRoundTrip(s: string)
    ensures Decode(Escape(s)) == if exists i :: 0 <= i < |s| && OddControl(s[i]) then None else Some(s)
  {
    if s != "" {
      EscapeRoundTrip(s[1..]);
      DecodeConcat(s[0], Escape(s[1..]));
      assert s == [s[0]] + s[1..];
      if i :| 0 <= i < |s| && OddControl(s[i]) {
        assert i == 0 || OddControl(s[1..][i - 1]);
      } else {
        assert forall i :: 0 <= i < |s[1..]| ==> s[1..][i] == s[i + 1];
      }
    }
  }

  lemma EscapedReads(s: string, cap: nat, r: string)
    requires |s| < cap && (forall i :: 0 <= i < |s| ==> !OddControl(s[i]))
    ensures ReadString(['"'] + (EscapeText(s) + (['"'] + r)), cap) == Ok(s, r)
  {
    EscapeRoundTrip(s);
    EscapeValid(s);
    ReadStringReads("", Escape(s), cap, r);
    PutBodyAround(Escape(s), ['"'] + r);
    assert "" + PutStr(Escape(s), r) == PutStr(Escape(s), r);
  }

  lemma EscapedSkips(s: string, r: string)
    ensures SkipStringBody(EscapeText(s) + (['"'] + r)) == Ok((), r)
  {
    EscapeValid(s);
    SkipStringBodyReads(Escape(s), r);
    PutBodyAround(Escape(s), ['"'] + r);
  }

  // ------------------------------------------------------- the document

  /** A stored snapshot with what the handler looks up for it. */
  datatype Entry = Entry(snap: Snapshot, age: int, clientId: string)

  datatype Header = Header(deviceId: string, version: string, uptime: nat, freeHeap: nat)

  ghost predicate Storable(s: Session) {
    s.usedPct.m >= 0 && Canonical(s.usedPct)
  }

  ghost predicate StorableEntry(e: Entry) {
    forall i :: 0 <= i < |e.snap.sessions| ==> Storable(e.snap.sessions[i])
  }

  function IntText(n: int): string {
    PutNum(IntTok(n), "")
  }

  function PctText(d: Decimal): string {
    PutNum(PctTok(if d.m >= 0 then d else ZERO), "")
  }

  /** A quoted key and its colon. */
  function Key(k: string): string {
    ['"'] + (k + "\":")
  }

  // Each piece below is written by one formatted print; `r` is the text after it.

  function PutSessionOpen(first: bool, r: string): string {
    (if first then "" else ",") + (['{'] + (Key("type") + (['"'] + r)))
  }

  function PutWindow(s: Session, r: string): string {
    Key("rolling") + ((if s.rolling then "true" else "false")
      + ([','] + (Key("window_duration_mins") + (IntText(s.windowMins) + (['}'] + r)))))
  }

  function PutSessionClose(s: Session, r: string): string {
    ['"'] + ([','] + (Key("used_pct") + (PctText(s.usedPct)
      + ([','] + (Key("resets_at") + (IntText(s.resetsAt) + ([','] + PutWindow(s, r))))))))
  }

  function PutClient(r: string): string {
    ['"'] + ([':'] + (['{'] + (Key("client_id") + (['"'] + r))))
  }

  function PutAge(age: int, r: string): string {
    ['"'] + ([','] + (Key("seconds_since_last_push") + (IntText(age)
      + ([','] + (Key("sessions") + (['['] + r))))))
  }

  function PutEnd(r: string): string {
    [']'] + (['}'] + r)
  }

  function PutSessions(list: seq<Session>, first: bool, r: string): string {
    if list == [] then r
    else PutSessionOpen(first, EscapeText(list[0].kind) + PutSessionClose(list[0], PutSessions(list[1..], false, r)))
  }

  /** One agent's entry, with the text after it. */
  function PutEntry(e: Entry, r: string): string {
    ['"'] + (EscapeText(e.snap.agent) + PutClient(EscapeText(e.clientId)
      + PutAge(e.age, PutSessions(e.snap.sessions, true, PutEnd(r)))))
  }

  function EntryText(e: Entry): string {
    PutEntry(e, "")
  }

  // Each printed piece stands before the text after it.

  lemma PutSessionOpenAround(first: bool, r: string)
    ensures PutSessionOpen(first, r) == PutSessionOpen(first, "") + r
  {
    assert ['"'] + r == (['"'] + "") + r;
    Assoc(Key("type"), ['"'] + "", r);
    Assoc(['{'], Key("type") + (['"'] + ""), r);
    Assoc(if first then "" else ",", ['{'] + (Key("type") + (['"'] + "")), r);
  }

  lemma PutWindowAround(s: Session, r: string)
    ensures PutWindow(s, r) == PutWindow(s, "") + r
  {
    var x := ['}'] + "";
    assert ['}'] + r == x + r;
    Assoc(IntText(s.windowMins), x, r);
    var y := IntText(s.windowMins) + x;
    Assoc(Key("window_duration_mins"), y, r);
    Assoc([','], Key("window_duration_mins") + y, r);
    var z := [','] + (Key("window_duration_mins") + y);
    Assoc(if s.rolling then "true" else "false", z, r);
    Assoc(Key("rolling"), (if s.rolling then "true" else "false") + z, r);
  }

  lemma PutSessionCloseAround(s: Session, r: string)
    ensures PutSessionClose(s, r) == PutSessionClose(s, "") + r
  {
    PutWindowAround(s, r);
    var x := [','] + PutWindow(s, "");
    Assoc([','], PutWindow(s, ""), r);
    Assoc(IntText(s.resetsAt), x, r);
    Assoc(Key("resets_at"), IntText(s.resetsAt) + x, r);
    var y := [','] + (Key("resets_at") + (IntText(s.resetsAt) + x));
    Assoc([','], Key("resets_at") + (IntText(s.resetsAt) + x), r);
    Assoc(PctText(s.usedPct), y, r);
    Assoc(Key("used_pct"), PctText(s.usedPct) + y, r);
    Assoc([','], Key("used_pct") + (PctText(s.usedPct) + y), r);
    Assoc(['"'], [','] + (Key("used_pct") + (PctText(s.usedPct) + y)), r);
  }

  lemma PutClientAround(r: string)
    ensures PutClient(r) == PutClient("") + r
  {
    assert ['"'] + r == (['"'] + "") + r;
    var x := Key("client_id") + (['"'] + "");
    Assoc(Key("client_id"), ['"'] + "", r);
    Assoc(['{'], x, r);
    Assoc([':'], ['{'] + x, r);
    Assoc(['"'], [':'] + (['{'] + x), r);
  }

  lemma PutAgeAround(age: int, r: string)
    ensures PutAge(age, r) == PutAge(age, "") + r
  {
    assert ['['] + r == (['['] + "") + r;
    var x := Key("sessions") + (['['] + "");
    Assoc(Key("sessions"), ['['] + "", r);
    Assoc([','], x, r);
    Assoc(IntText(age), [','] + x, r);
    var y := IntText(age) + ([','] + x);
    Assoc(Key("seconds_since_last_push"), y, r);
    Assoc([','], Key("seconds_since_last_push") + y, r);
    Assoc(['"'], [','] + (Key("seconds_since_last_push") + y), r);
  }

  lemma {:induction false} PutSessionsAround(list: seq<Session>, first: bool, r: string)
    ensures PutSessions(list, first, PutEnd(r)) == PutSessions(list, first, PutEnd("")) + r
  {
    if list == [] {
      assert ['}'] + r == (['}'] + "") + r;
      Assoc([']'], ['}'] + "", r);
    } else {
      PutSessionsAround(list[1..], false, r);
      PutSessionAround(list[0], first, PutSessions(list[1..], false, PutEnd("")), r);
    }
  }

  lemma PutSessionAround(s: Session, first: bool, x: string, r: string)
    ensures PutSessionOpen(first, EscapeText(s.kind) + PutSessionClose(s, x + r))
         == PutSessionOpen(first, EscapeText(s.kind) + PutSessionClose(s, x)) + r
  {
    PutSessionCloseAround(s, x + r);
    PutSessionCloseAround(s, x);
    Assoc(PutSessionClose(s, ""), x, r);
    var y := PutSessionClose(s, x);
    Assoc(EscapeText(s.kind), y, r);
    PutSessionOpenAround(first, (EscapeText(s.kind) + y) + r);
    PutSessionOpenAround(first, EscapeText(s.kind) + y);
    Assoc(PutSessionOpen(first, ""), EscapeText(s.kind) + y, r);
  }

  lemma PutEntryAround(e: Entry, r: string)
    ensures PutEntry(e, r) == EntryText(e) + r
  {
    var s := PutSessions(e.snap.sessions, true, PutEnd(""));
    PutSessionsAround(e.snap.sessions, true, r);
    PutAgeAround(e.age, s + r);
    PutAgeAround(e.age, s);
    Assoc(PutAge(e.age, ""), s, r);
    var a := PutAge(e.age, s);
    Assoc(EscapeText(e.clientId), a, r);
    var c := EscapeText(e.clientId) + a;
    PutClientAround(c + r);
    PutClientAround(c);
    Assoc(PutClient(""), c, r);
    Assoc(EscapeText(e.snap.agent), PutClient(c), r);
    Assoc(['"'], EscapeText(e.snap.agent) + PutClient(c), r);
  }

  /** The elements printed one after the other, with commas between them; `first` as long
      as nothing was printed. */
  function JoinWith<T>(es: seq<T>, put: (T, string) -> string, first: bool, r: string): string {
    if es == [] then r
    else (if first then "" else ",") + put(es[0], JoinWith(es[1..], put, false, r))
  }

  function Joined(es: seq<Entry>, first: bool, r: string): string {
    JoinWith(es, PutEntry, first, r)
  }

  function PutCounters(h: Header, r: string): string {
    Key("uptime_s") + (IntText(h.uptime)
      + ([','] + (Key("free_heap_b") + (IntText(h.freeHeap)
      + ([','] + (Key("agents") + (['{'] + r)))))))
  }

  function PutHeader(h: Header, r: string): string {
    ['{'] + (Key("device_id") + (['"'] + (h.deviceId + (['"']
      + ([','] + (Key("firmware_version") + (['"'] + (h.version + (['"']
      + ([','] + PutCounters(h, r)))))))))))
  }

  lemma PutCountersAround(h: Header, r: string)
    ensures PutCounters(h, r) == PutCounters(h, "") + r
  {
    assert ['{'] + r == (['{'] + "") + r;
    Assoc(Key("agents"), ['{'] + "", r);
    var x := Key("agents") + (['{'] + "");
    Assoc([','], x, r);
    Assoc(IntText(h.freeHeap), [','] + x, r);
    Assoc(Key("free_heap_b"), IntText(h.freeHeap) + ([','] + x), r);
    var y := Key("free_heap_b") + (IntText(h.freeHeap) + ([','] + x));
    Assoc([','], y, r);
    Assoc(IntText(h.uptime), [','] + y, r);
    Assoc(Key("uptime_s"), IntText(h.uptime) + ([','] + y), r);
  }

  lemma PutHeaderAround(h: Header, r: string)
    ensures PutHeader(h, r) == PutHeader(h, "") + r
  {
    PutCountersAround(h, r);
    var x := [','] + PutCounters(h, "");
    Assoc([','], PutCounters(h, ""), r);
    Assoc(['"'], x, r);
    Assoc(h.version, ['"'] + x, r);
    var y := ['"'] + (h.version + (['"'] + x));
    Assoc(['"'], h.version + (['"'] + x), r);
    Assoc(Key("firmware_version"), y, r);
    Assoc([','], Key("firmware_version") + y, r);
    var z := ['"'] + ([','] + (Key("firmware_version") + y));
    Assoc(['"'], [','] + (Key("firmware_version") + y), r);
    Assoc(h.deviceId, z, r);
    Assoc(['"'], h.deviceId + z, r);
    Assoc(Key("device_id"), ['"'] + (h.deviceId + z), r);
    Assoc(['{'], Key("device_id") + (['"'] + (h.deviceId + z)), r);
  }

  /** The whole document. */
  function HealthBody(h: Header, es: seq<Entry>): string {
    PutHeader(h, Joined(es, true, "}}"))
  }

  // ------------------------------------------------------------ the tree

  /** Text that needs no escape. */
  ghost predicate Plainly(s: string) {
    forall i :: 0 <= i < |s| ==> s[i] != '"' && s[i] != '\\'
  }

  function RawBody(s: string): Body {
    seq(|s|, i requires 0 <= i < |s| => Raw(s[i]))
  }

  lemma {:induction false} PutRawBody(s: string, r: string)
    ensures PutBody(RawBody(s), r) == s + r
  {
    if s == "" {
      assert s + r == r;
    } else {
      assert RawBody(s)[1..] == RawBody(s[1..]);
      PutRawBody(s[1..], r);
      assert s + r == [s[0]] + (s[1..] + r);
    }
  }

  function Field(key: string, v: Json): Member {
    Member("", RawBody(key), "", "", v, "")
  }

  function WindowMembers(s: Session): Members {
    MCons(Field("rolling", if s.rolling then JTrue else JFalse),
    MCons(Field("window_duration_mins", JNum(IntTok(s.windowMins))), MNil))
  }

  function PctNum(d: Decimal): Json {
    JNum(PctTok(if d.m >= 0 then d else ZERO))
  }

  function UsageMembers(s: Session): Members {
    MCons(Field("used_pct", PctNum(s.usedPct)),
    MCons(Field("resets_at", JNum(IntTok(s.resetsAt))), WindowMembers(s)))
  }

  function SessionTree(s: Session): Json {
    JObj("", MCons(Field("type", JStr(Escape(s.kind))), UsageMembers(s)))
  }

  function SessionElems(list: seq<Session>): Elems {
    if list == [] then ENil else ECons("", SessionTree(list[0]), "", SessionElems(list[1..]))
  }

  function AgeMembers(e: Entry): Members {
    MCons(Field("seconds_since_last_push", JNum(IntTok(e.age))),
    MCons(Field("sessions", JArr("", SessionElems(e.snap.sessions))), MNil))
  }

  function EntryValue(e: Entry): Json {
    JObj("", MCons(Field("client_id", JStr(Escape(e.clientId))), AgeMembers(e)))
  }

  function EntryTree(e: Entry): Member {
    Member("", Escape(e.snap.agent), "", "", EntryValue(e), "")
  }

  function EntryMembers(es: seq<Entry>): Members {
    if es == [] then MNil else MCons(EntryTree(es[0]), EntryMembers(es[1..]))
  }

  function CounterMembers(h: Header, es: seq<Entry>): Members {
    MCons(Field("uptime_s", JNum(IntTok(h.uptime))),
    MCons(Field("free_heap_b", JNum(IntTok(h.freeHeap))),
    MCons(Field("agents", JObj("", EntryMembers(es))), MNil)))
  }

  function HealthTree(h: Header, es: seq<Entry>): Json {
    JObj("", MCons(Field("device_id", JStr(RawBody(h.deviceId))),
             MCons(Field("firmware_version", JStr(RawBody(h.version))), CounterMembers(h, es))))
  }

  lemma PutNumAround(t: NumTok, r: string)
    ensures PutNum(t, r) == PutNum(t, "") + r
  {
    PutNumText(t, "", r);
    assert "" + r == r;
  }

  lemma NoText(r: string)
    ensures "" + r == r
  {
  }

  /** A field is its quoted key, a colon, and its value. */
  lemma PutField(key: string, v: Json, rest: Members, r: string)
    ensures PutMembers(MCons(Field(key, v), rest), r)
         == Key(key) + Put(v, if rest.MNil? then r else [','] + PutMembers(rest, r))
  {
    var tail := if rest.MNil? then r else [','] + PutMembers(rest, r);
    NoText(tail);
    PutMemberText(RawBody(key), Put(v, tail));
    PutQuoted(key, Put(v, tail));
  }

  lemma PutMemberText(key: Body, value: string)
    ensures "" + PutStr(key, "" + ([':'] + ("" + value))) == PutStr(key, [':'] + value)
  {
    NoText(value);
    NoText([':'] + value);
    NoText(PutStr(key, [':'] + value));
  }

  lemma PutQuoted(key: string, value: string)
    ensures PutStr(RawBody(key), [':'] + value) == Key(key) + value
  {
    PutRawBody(key, ['"'] + ([':'] + value));
    Assoc(['"'], [':'], value);
    Assoc(key, "\":", value);
    Assoc(['"'], key + "\":", value);
    assert ['"'] + [':'] == "\":";
  }

  lemma PutStrValue(b: Body, r: string)
    ensures Put(JStr(b), r) == ['"'] + (PutBody(b, "") + (['"'] + r))
  {
    PutBodyAround(b, ['"'] + r);
  }

  /** A field with a number, and the fields after it. */
  lemma PutNumField(key: string, tok: NumTok, rest: Members, r: string)
    ensures PutMembers(MCons(Field(key, JNum(tok)), rest), r)
         == Key(key) + (PutNum(tok, "") + (if rest.MNil? then r else [','] + PutMembers(rest, r)))
  {
    PutField(key, JNum(tok), rest, r);
    PutNumAround(tok, if rest.MNil? then r else [','] + PutMembers(rest, r));
  }

  lemma PutWindowMembers(s: Session, r: string)
    ensures PutMembers(WindowMembers(s), ['}'] + r) == PutWindow(s, r)
  {
    PutNumField("window_duration_mins", IntTok(s.windowMins), MNil, ['}'] + r);
    PutField("rolling", if s.rolling then JTrue else JFalse, WindowMembers(s).rest, ['}'] + r);
  }

  lemma PutUsageMembers(s: Session, r: string)
    ensures ['"'] + ([','] + PutMembers(UsageMembers(s), ['}'] + r)) == PutSessionClose(s, r)
  {
    PutWindowMembers(s, r);
    PutNumField("resets_at", IntTok(s.resetsAt), WindowMembers(s), ['}'] + r);
    PutNumField("used_pct", PctNum(s.usedPct).tok, UsageMembers(s).rest, ['}'] + r);
  }

  lemma PutSessionTree(s: Session, r: string)
    ensures Put(SessionTree(s), r) == ['{'] + (Key("type") + (['"'] + (EscapeText(s.kind) + PutSessionClose(s, r))))
  {
    PutUsageMembers(s, r);
    PutFirstStr("type", Escape(s.kind), UsageMembers(s), r);
  }

  lemma {:induction false} PutSessionElems(list: seq<Session>, first: bool, r: string)
    ensures PutSessions(list, first, r)
         == if list == [] then r else (if first then "" else ",") + PutElems(SessionElems(list), r)
  {
    if list != [] {
      PutSessionElems(list[1..], false, r);
      var tail := PutSessions(list[1..], false, r);
      PutSessionTree(list[0], tail);
      NoText(tail);
      NoText(Put(SessionTree(list[0]), tail));
    }
  }

  lemma PutLastArray(key: string, es: Elems, r: string, inside: string)
    requires PutElems(es, [']'] + r) == inside
    ensures PutMembers(MCons(Field(key, JArr("", es)), MNil), r) == Key(key) + (['['] + inside)
  {
    NoText(inside);
    PutField(key, JArr("", es), MNil, r);
  }

  lemma PutSessionsField(list: seq<Session>, r: string)
    ensures PutMembers(MCons(Field("sessions", JArr("", SessionElems(list))), MNil), ['}'] + r)
         == Key("sessions") + (['['] + PutSessions(list, true, PutEnd(r)))
  {
    PutSessionElems(list, true, PutEnd(r));
    NoText(PutElems(SessionElems(list), PutEnd(r)));
    PutLastArray("sessions", SessionElems(list), ['}'] + r, PutSessions(list, true, PutEnd(r)));
  }

  lemma PutAgeMembers(e: Entry, r: string)
    ensures ['"'] + ([','] + PutMembers(AgeMembers(e), ['}'] + r))
         == PutAge(e.age, PutSessions(e.snap.sessions, true, PutEnd(r)))
  {
    PutSessionsField(e.snap.sessions, r);
    PutNumField("seconds_since_last_push", IntTok(e.age), AgeMembers(e).rest, ['}'] + r);
  }

  lemma PutFirstStr(key: string, b: Body, rest: Members, r: string)
    requires rest.MCons?
    ensures Put(JObj("", MCons(Field(key, JStr(b)), rest)), r)
         == ['{'] + (Key(key) + (['"'] + (PutBody(b, "") + (['"'] + ([','] + PutMembers(rest, ['}'] + r))))))
  {
    PutField(key, JStr(b), rest, ['}'] + r);
    PutStrValue(b, [','] + PutMembers(rest, ['}'] + r));
    NoText(PutMembers(MCons(Field(key, JStr(b)), rest), ['}'] + r));
  }

  lemma PutEntryValue(e: Entry, r: string)
    ensures ['"'] + ([':'] + Put(EntryValue(e), r))
         == PutClient(EscapeText(e.clientId) + PutAge(e.age, PutSessions(e.snap.sessions, true, PutEnd(r))))
  {
    PutAgeMembers(e, r);
    PutFirstStr("client_id", Escape(e.clientId), AgeMembers(e), r);
  }

  /** An entry printed as the member it is. */
  lemma PutEntryTree(e: Entry, rest: Members, r: string)
    ensures PutMembers(MCons(EntryTree(e), rest), r)
         == PutEntry(e, if rest.MNil? then r else [','] + PutMembers(rest, r))
  {
    var tail := if rest.MNil? then r else [','] + PutMembers(rest, r);
    NoText(tail);
    PutEntryValue(e, tail);
    PutMemberText(Escape(e.snap.agent), Put(EntryValue(e), tail));
    PutBodyAround(Escape(e.snap.agent), ['"'] + ([':'] + Put(EntryValue(e), tail)));
  }

  lemma {:induction false} PutEntryMembers(es: seq<Entry>, first: bool, r: string)
    ensures Joined(es, first, r)
         == if es == [] then r else (if first then "" else ",") + PutMembers(EntryMembers(es), r)
  {
    if es != [] {
      PutEntryMembers(es[1..], false, r);
      PutEntryTree(es[0], EntryMembers(es[1..]), r);
    }
  }

  lemma PutLastField(key: string, ms: Members, r: string, inside: string)
    requires PutMembers(ms, ['}'] + r) == inside
    ensures PutMembers(MCons(Field(key, JObj("", ms)), MNil), r) == Key(key) + (['{'] + inside)
  {
    NoText(inside);
    PutField(key, JObj("", ms), MNil, r);
  }

  lemma PutAgentsField(es: seq<Entry>)
    ensures PutMembers(MCons(Field("agents", JObj("", EntryMembers(es))), MNil), "}")
         == Key("agents") + (['{'] + Joined(es, true, "}}"))
  {
    assert ['}'] + "}" == "}}";
    PutEntryMembers(es, true, "}}");
    NoText(PutMembers(EntryMembers(es), "}}"));
    PutLastField("agents", EntryMembers(es), "}", Joined(es, true, "}}"));
  }

  lemma PutCounterMembers(h: Header, es: seq<Entry>)
    ensures PutMembers(CounterMembers(h, es), "}") == PutCounters(h, Joined(es, true, "}}"))
  {
    PutAgentsField(es);
    PutNumField("free_heap_b", IntTok(h.freeHeap), CounterMembers(h, es).rest.rest, "}");
    PutNumField("uptime_s", IntTok(h.uptime), CounterMembers(h, es).rest, "}");
  }

  lemma PutStrField(key: string, s: string, rest: Members, r: string)
    requires rest.MCons?
    ensures PutMembers(MCons(Field(key, JStr(RawBody(s))), rest), r)
         == Key(key) + (['"'] + (s + (['"'] + ([','] + PutMembers(rest, r)))))
  {
    PutField(key, JStr(RawBody(s)), rest, r);
    PutRawBody(s, ['"'] + ([','] + PutMembers(rest, r)));
  }

  lemma PutWhole(ms: Members)
    ensures Text(JObj("", ms)) == ['{'] + PutMembers(ms, "}")
  {
    NoText(PutMembers(ms, "}"));
    assert ['}'] + "" == "}";
  }

  /** The /health document is exactly the text of its tree. */
  lemma HealthBodyIsTree(h: Header, es: seq<Entry>)
    ensures HealthBody(h, es) == Text(HealthTree(h, es))
  {
    var ms := HealthTree(h, es).members;
    PutCounterMembers(h, es);
    PutStrField("firmware_version", h.version, CounterMembers(h, es), "}");
    PutStrField("device_id", h.deviceId, ms.rest, "}");
    PutWhole(ms);
  }

  // The tree is a valid JSON text.

  lemma FieldValid(key: string, v: Json, rest: Members)
    requires Plainly(key) && Valid(v) && ValidMembers(rest)
    ensures ValidMembers(MCons(Field(key, v), rest))
  {
  }

  lemma NumFieldValid(key: string, n: int, rest: Members)
    requires Plainly(key) && ValidMembers(rest)
    ensures ValidMembers(MCons(Field(key, JNum(IntTok(n))), rest))
  {
    IntTokReads(n);
    FieldValid(key, JNum(IntTok(n)), rest);
  }

  lemma SessionTreeValid(s: Session)
    requires Storable(s)
    ensures Valid(SessionTree(s))
  {
    EscapeValid(s.kind);
    PctTokReads(s.usedPct);
    NumFieldValid("window_duration_mins", s.windowMins, MNil);
    FieldValid("rolling", if s.rolling then JTrue else JFalse, WindowMembers(s).rest);
    NumFieldValid("resets_at", s.resetsAt, WindowMembers(s));
    FieldValid("used_pct", PctNum(s.usedPct), UsageMembers(s).rest);
    FieldValid("type", JStr(Escape(s.kind)), UsageMembers(s));
  }

  lemma {:induction false} SessionElemsValid(list: seq<Session>)
    requires forall i :: 0 <= i < |list| ==> Storable(list[i])
    ensures ValidElems(SessionElems(list))
  {
    if list != [] {
      SessionTreeValid(list[0]);
      SessionElemsValid(list[1..]);
    }
  }

  lemma EntryValueValid(e: Entry)
    requires StorableEntry(e)
    ensures Valid(EntryValue(e))
  {
    EscapeValid(e.clientId);
    SessionElemsValid(e.snap.sessions);
    FieldValid("sessions", JArr("", SessionElems(e.snap.sessions)), MNil);
    NumFieldValid("seconds_since_last_push", e.age, AgeMembers(e).rest);
    FieldValid("client_id", JStr(Escape(e.clientId)), AgeMembers(e));
  }

  lemma {:induction false} EntryMembersValid(es: seq<Entry>)
    requires forall i :: 0 <= i < |es| ==> StorableEntry(es[i])
    ensures ValidMembers(EntryMembers(es))
  {
    if es != [] {
      EscapeValid(es[0].snap.agent);
      EntryValueValid(es[0]);
      EntryMembersValid(es[1..]);
    }
  }

  lemma HealthTreeValid(h: Header, es: seq<Entry>)
    requires Plainly(h.deviceId) && Plainly(h.version)
    requires forall i :: 0 <= i < |es| ==> StorableEntry(es[i])
    ensures Valid(HealthTree(h, es))
  {
    EntryMembersValid(es);
    FieldValid("agents", JObj("", EntryMembers(es)), MNil);
    NumFieldValid("free_heap_b", h.freeHeap, CounterMembers(h, es).rest.rest);
    NumFieldValid("uptime_s", h.uptime, CounterMembers(h, es).rest);
    FieldValid("firmware_version", JStr(RawBody(h.version)), CounterMembers(h, es));
    FieldValid("device_id", JStr(RawBody(h.deviceId)), HealthTree(h, es).members.rest);
  }
}
