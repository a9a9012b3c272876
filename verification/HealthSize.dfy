/** How long a /health entry is, and what 2048 bytes are enough for. */
module HealthSize {
  import opened Decimals
  import opened JsonText
  import opened CursorSpec
  import opened HealthText
  import opened HealthWriter

  // ------------------------------------------------------- exact lengths

  function SessionLength(s: Session): nat {
    |EscapeText(s.kind)| + |PctText(s.usedPct)| + |IntText(s.resetsAt)| + |IntText(s.windowMins)|
      + (if s.rolling then 4 else 5) + 71
  }

  function SessionsLength(list: seq<Session>, first: bool): nat {
    if list == [] then 0 else SessionLength(list[0]) + (if first then 0 else 1) + SessionsLength(list[1..], false)
  }

  function EntryLength(e: Entry): nat {
    |EscapeText(e.snap.agent)| + |EscapeText(e.clientId)| + |IntText(e.age)|
      + SessionsLength(e.snap.sessions, true) + 60
  }

  function HeaderLength(h: Header): nat {
    |h.deviceId| + |h.version| + |IntText(h.uptime)| + |IntText(h.freeHeap)| + 75
  }

  lemma KeyLength(k: string)
    ensures |Key(k)| == |k| + 3
  {
  }

  lemma WindowLength(s: Session, r: string)
    ensures |PutWindow(s, r)| == |r| + |IntText(s.windowMins)| + (if s.rolling then 4 else 5) + 35
  {
    KeyLength("rolling");
    KeyLength("window_duration_mins");
  }

  lemma CloseLength(s: Session, r: string)
    ensures |PutSessionClose(s, r)| == |r| + |PctText(s.usedPct)| + |IntText(s.resetsAt)|
              + |IntText(s.windowMins)| + (if s.rolling then 4 else 5) + 62
  {
    KeyLength("used_pct");
    KeyLength("resets_at");
    WindowLength(s, r);
  }

  lemma OpenLength(first: bool, r: string)
    ensures |PutSessionOpen(first, r)| == |r| + (if first then 9 else 10)
  {
    KeyLength("type");
  }

  lemma {:induction false} SessionsLengthIs(list: seq<Session>, first: bool, r: string)
    ensures |PutSessions(list, first, r)| == SessionsLength(list, first) + |r|
  {
    if list != [] {
      SessionsLengthIs(list[1..], false, r);
      var tail := PutSessions(list[1..], false, r);
      CloseLength(list[0], tail);
      OpenLength(first, EscapeText(list[0].kind) + PutSessionClose(list[0], tail));
    }
  }

  lemma LeadLength(age: int, r: string)
    ensures |PutAge(age, r)| == |r| + |IntText(age)| + 41
    ensures |PutClient(r)| == |r| + 16
  {
    KeyLength("seconds_since_last_push");
    KeyLength("sessions");
    KeyLength("client_id");
  }

  lemma EntryLengthIs(e: Entry)
    ensures |EntryText(e)| == EntryLength(e)
  {
    var list := PutSessions(e.snap.sessions, true, PutEnd(""));
    SessionsLengthIs(e.snap.sessions, true, PutEnd(""));
    LeadLength(e.age, list);
    LeadLength(e.age, EscapeText(e.clientId) + PutAge(e.age, list));
  }

  lemma HeaderLengthIs(h: Header)
    ensures |PutHeader(h, "")| == HeaderLength(h)
  {
    KeyLength("uptime_s");
    KeyLength("free_heap_b");
    KeyLength("agents");
    assert |PutCounters(h, "")| == |IntText(h.uptime)| + |IntText(h.freeHeap)| + 37;
    KeyLength("device_id");
    KeyLength("firmware_version");
  }

  // --------------------------------------------------------------- bounds

  lemma {:induction false} EscapeLength(s: string)
    requires !HasControl(s)
    ensures |EscapeText(s)| <= 2 * |s|
    ensures Plainly(s) ==> |EscapeText(s)| == |s|
  {
    if s != "" {
      EscapeTextStep(s);
      assert s[0] as int >= 0x20;
      assert forall i :: 0 <= i < |s[1..]| ==> s[1..][i] == s[i + 1];
      EscapeLength(s[1..]);
      OneLength(s[0]);
    }
  }

  lemma OneLength(c: char)
    requires c as int >= 0x20
    ensures |PutBody(EscapeByte(c), "")| == if c == '"' || c == '\\' then 2 else 1
  {
    assert EscapeByte(c)[1..] == [];
  }

  lemma IntLength(n: int, k: nat)
    requires k > 0 && Abs(n) < Pow10(k)
    ensures |IntText(n)| <= k + (if n < 0 then 1 else 0)
  {
    NatTextShort(Abs(n), k);
  }

  lemma Pow10Values()
    ensures Pow10(6) == SIX && Pow10(10) == 10000000000 && Pow10(19) == 10000000000000000000
  {
    assert Pow10(3) == 1000;
    assert Pow10(6) == 1000 * Pow10(3);
    assert Pow10(9) == 1000 * Pow10(6);
    assert Pow10(12) == 1000 * Pow10(9);
    assert Pow10(15) == 1000 * Pow10(12);
    assert Pow10(18) == 1000 * Pow10(15);
  }

  /** What is printed has six digits and a decimal exponent of at most two digits, as
      every `float` has. */
  predicate ShortPct(d: Decimal) {
    d.m >= 0 && SixDigits(d).m >= 0 && |NatText(SixDigits(d).m)| <= 6
    && -100 < |NatText(SixDigits(d).m)| - 1 + SixDigits(d).e < 100
  }

  lemma GeneralLength(d: Decimal)
    requires d.m >= 0 && |NatText(d.m)| <= 6 && -100 < |NatText(d.m)| - 1 + d.e < 100
    ensures |PutNum(GeneralTok(d), "")| <= 12
  {
    var n := |NatText(d.m)|;
    var x := n - 1 + d.e;
    if d.m != 0 && !(-4 <= x < 6) {
      Pow10Values();
      assert Pow10(2) == 100;
      NatTextShort(Abs(x), 2);
      ExponentLength(x);
    }
  }

  lemma ExponentLength(x: int)
    requires -100 < x < 100
    ensures |PutExponent(Some(ExponentOf(x)), "")| <= 5
  {
    assert Pow10(2) == 100;
    NatTextShort(Abs(x), 2);
    if Abs(x) < 10 {
      NatTextShort(Abs(x), 1);
    }
  }

  ghost predicate Int64(n: int) {
    -0x8000_0000_0000_0000 <= n < 0x8000_0000_0000_0000
  }

  /** Whole seconds in a 64-bit number of microseconds. */
  const MAX_AGE := 9223372036854

  /** The age is -1 for an agent that is no longer stored. */
  ghost predicate DeviceAge(n: int) {
    -1 <= n <= MAX_AGE
  }

  /** The bytes `client_id_byte_ok` accepts at pairing. */
  ghost predicate ClientIdBytes(s: string) {
    |s| <= 254 && forall c <- s :: 0x20 <= c as int < 0x7F
  }

  ghost predicate DeviceSession(s: Session) {
    && !Above(s.usedPct, 1)
    && 0 < |s.kind| < TYPE_CAP && !HasControl(s.kind) && ShortPct(s.usedPct)
    && Int64(s.resetsAt) && 0 <= s.windowMins <= INT32_MAX
  }

  ghost predicate DeviceEntry(e: Entry) {
    && IsKnownAgent(e.snap.agent) && |e.snap.sessions| <= MAX_SESSIONS && DeviceAge(e.age)
    && ClientIdBytes(e.clientId)
    && forall i :: 0 <= i < |e.snap.sessions| ==> DeviceSession(e.snap.sessions[i])
  }

  lemma SessionBound(s: Session)
    requires DeviceSession(s)
    ensures SessionLength(s) <= 150
  {
    Pow10Values();
    EscapeLength(s.kind);
    IntLength(s.resetsAt, 19);
    IntLength(s.windowMins, 10);
    GeneralLength(SixDigits(s.usedPct));
  }

  lemma {:induction false} SessionsBound(list: seq<Session>, first: bool)
    requires forall i :: 0 <= i < |list| ==> DeviceSession(list[i])
    ensures SessionsLength(list, first) <= 151 * |list|
  {
    if list != [] {
      SessionBound(list[0]);
      SessionsBound(list[1..], false);
    }
  }

  lemma AgentBound(agent: string)
    requires IsKnownAgent(agent)
    ensures |EscapeText(agent)| <= 12
  {
    assert !HasControl("claude") && !HasControl("codex");
    EscapeLength(agent);
  }

  lemma AgeBound(n: int)
    requires DeviceAge(n)
    ensures |IntText(n)| <= 20
  {
    Pow10Values();
    IntLength(n, 19);
  }

  lemma {:induction false} BytesHaveNoControl(s: string)
    requires ClientIdBytes(s)
    ensures !HasControl(s)
  {
    forall i | 0 <= i < |s| ensures s[i] as int >= 0x20 {
      assert s[i] in s;
    }
  }

  lemma EntryLengthBound(e: Entry)
    requires DeviceEntry(e)
    ensures EntryLength(e) <= 545 + |EscapeText(e.clientId)|
  {
    AgentBound(e.snap.agent);
    AgeBound(e.age);
    SessionsBound(e.snap.sessions, true);
  }

  lemma EntryBound(e: Entry)
    requires DeviceEntry(e)
    ensures EntrySize(e) <= 545 + |EscapeText(e.clientId)|
  {
    EntryLengthIs(e);
    EntryLengthBound(e);
  }

  /** With client ids that need no escape, no agent is ever dropped from the 2048 bytes. */
  lemma NothingDropped(h: Header, a: Entry, b: Entry)
    requires |h.deviceId| + |h.version| <= 300 && h.uptime < 0x1_0000_0000 && h.freeHeap < 0x1_0000_0000
    requires DeviceEntry(a) && DeviceEntry(b) && Plainly(a.clientId) && Plainly(b.clientId)
    ensures var off := |PutHeader(h, "")|;
            off < 2048 && Kept([a, b], off, true, 2048) == [a, b] && |HealthBody(h, [a, b])| <= 2048
  {
    HeaderLengthIs(h);
    Pow10Values();
    IntLength(h.uptime, 10);
    IntLength(h.freeHeap, 10);
    BytesHaveNoControl(a.clientId);
    BytesHaveNoControl(b.clientId);
    EscapeLength(a.clientId);
    EscapeLength(b.clientId);
    EntryBound(a);
    EntryBound(b);
    BothKept(a, b, |PutHeader(h, "")|, 2048);
    PutHeaderAround(h, Joined([a, b], true, "}}"));
    JoinedLength(a, b);
  }

  /** Exactly when both of two agents are written. */
  lemma BothKept(a: Entry, b: Entry, off: nat, cap: nat)
    ensures Kept([a, b], off, true, cap) == [a, b] <==> off + EntrySize(a) + 1 + EntrySize(b) < cap
  {
    PairSelected(a, b, EntrySize, off, cap);
  }

  lemma PairSelected<T>(a: T, b: T, size: T -> nat, off: nat, cap: nat)
    ensures Select([a, b], size, off, true, cap) == [a, b] <==> off + size(a) + 1 + size(b) < cap
  {
    assert [a, b][1..] == [b] && [b][1..] == [];
    if off + size(a) < cap {
      assert Select([b], size, off + size(a), false, cap) == if off + size(a) + 1 + size(b) < cap then [b] else [];
    } else {
      assert |Select([b], size, off, true, cap)| <= 1;
    }
  }

  lemma JoinedLength(a: Entry, b: Entry)
    ensures |Joined([a, b], true, "}}")| == EntrySize(a) + EntrySize(b) + 3
  {
    PutEntryAround(b, "}}");
    PutEntryAround(a, "," + PutEntry(b, "}}"));
    PairJoined(a, b, PutEntry);
  }

  lemma PairJoined<T>(a: T, b: T, put: (T, string) -> string)
    ensures |JoinWith([a, b], put, true, "}}")| == |put(a, "," + put(b, "}}"))|
  {
    assert [a, b][1..] == [b] && [b][1..] == [];
    assert JoinWith([b], put, false, "}}") == "," + put(b, "}}");
  }

  // ------------------------------------------ escapes can cost an agent

  function Quotes(n: nat): (s: string)
    ensures |s| == n && (forall i :: 0 <= i < n ==> s[i] == '"') && !HasControl(s)
  {
    seq(n, _ => '"')
  }

  lemma {:induction false} QuotesLength(n: nat)
    ensures |EscapeText(Quotes(n))| == 2 * n
  {
    if n > 0 {
      EscapeTextStep(Quotes(n));
      assert Quotes(n)[1..] == Quotes(n - 1);
      QuotesLength(n - 1);
      OneLength('"');
    }
  }

  lemma {:induction false} NatTextLong(n: nat, k: nat)
    requires n >= Pow10(k)
    ensures |NatText(n)| > k
  {
    if k > 0 {
      assert Pow10(k) == 10 * Pow10(k - 1);
      NatTextLong(n / 10, k - 1);
    }
  }

  const LARGE := 9000000000000000000
  const LONG_SESSION := Session(Quotes(15), ZERO, LARGE, true, 1000000000)

  function LongEntry(agent: string, age: int): Entry {
    Entry(Snapshot(agent, 0, [LONG_SESSION, LONG_SESSION, LONG_SESSION]), age, Quotes(254))
  }

  lemma LargeLength()
    ensures Int64(LARGE) && |IntText(LARGE)| >= 19 && |IntText(1000000000)| >= 10
  {
    Pow10Values();
    assert Pow10(19) == 10 * Pow10(18);
    NatTextLong(LARGE, 18);
    assert Pow10(10) == 10 * Pow10(9);
    NatTextLong(1000000000, 9);
  }

  lemma LongSession()
    ensures DeviceSession(LONG_SESSION) && SessionLength(LONG_SESSION) >= 135
  {
    QuotesLength(15);
    LargeLength();
  }

  lemma ThreeSessions(s: Session)
    ensures SessionsLength([s, s, s], true) == 3 * SessionLength(s) + 2
  {
    assert [s, s, s][1..] == [s, s] && [s, s][1..] == [s] && [s][1..] == [];
    assert SessionsLength([s], false) == SessionLength(s) + 1;
    assert SessionsLength([s, s], false) == 2 * SessionLength(s) + 2;
  }

  lemma AgeLength(age: int)
    ensures |IntText(age)| >= 1
  {
    if age != 0 {
      NatTextLong(Abs(age), 0);
    }
  }

  lemma KnownLength(agent: string)
    requires IsKnownAgent(agent)
    ensures |EscapeText(agent)| >= 5
  {
    assert Plainly("claude") && Plainly("codex") && !HasControl("claude") && !HasControl("codex");
    EscapeLength(agent);
  }

  lemma LongEntryLength(agent: string, age: int)
    requires IsKnownAgent(agent)
    ensures EntryLength(LongEntry(agent, age)) >= 981
  {
    KnownLength(agent);
    AgeLength(age);
    LongSession();
    ThreeSessions(LONG_SESSION);
    QuotesLength(254);
  }

  lemma LegalEntry(e: Entry, s: Session)
    requires IsKnownAgent(e.snap.agent) && e.snap.sessions == [s, s, s] && DeviceSession(s)
    requires DeviceAge(e.age) && ClientIdBytes(e.clientId)
    ensures DeviceEntry(e)
  {
  }

  lemma LongEntryFacts(agent: string, age: int)
    requires IsKnownAgent(agent) && DeviceAge(age)
    ensures DeviceEntry(LongEntry(agent, age)) && EntrySize(LongEntry(agent, age)) >= 981
  {
    LongSession();
    LegalEntry(LongEntry(agent, age), LONG_SESSION);
    LongEntryLength(agent, age);
    EntryLengthIs(LongEntry(agent, age));
  }

  lemma TwoLongDropped(a: Entry, b: Entry, off: nat)
    requires off >= 91 && EntrySize(a) >= 981 && EntrySize(b) >= 981
    ensures Kept([a, b], off, true, 2048) != [a, b]
  {
    BothKept(a, b, off, 2048);
  }

  lemma ShortestHeader(h: Header)
    requires |h.deviceId| == 14
    ensures |PutHeader(h, "")| >= 91
  {
    HeaderLengthIs(h);
    AgeLength(h.uptime);
    AgeLength(h.freeHeap);
  }

  /** Client ids made of quotes are accepted at pairing, but double in length. Behind the header of
      any device, whose id is `burnscope-` and four digits, the second of two such agents is
      dropped, however long ago they were pushed. */
  lemma EscapesCanDrop(h: Header, first: string, second: string, age: int)
    requires |h.deviceId| == 14 && IsKnownAgent(first) && IsKnownAgent(second) && DeviceAge(age)
    ensures DeviceEntry(LongEntry(first, age)) && DeviceEntry(LongEntry(second, age))
    ensures var es := [LongEntry(first, age), LongEntry(second, age)];
            Kept(es, |PutHeader(h, "")|, true, 2048) != es
  {
    ShortestHeader(h);
    LongEntryFacts(first, age);
    LongEntryFacts(second, age);
    TwoLongDropped(LongEntry(first, age), LongEntry(second, age), |PutHeader(h, "")|);
  }
}
