/** From the text a daemon posts to the verdict it draws from /health. */
module EndToEnd {
  import opened Decimals
  import opened JsonText
  import opened CursorSpec
  import opened SkipTheorems
  import opened ParseTheorems
  import opened WireFormat
  import opened HealthText
  import opened HealthWriter
  import opened SnapshotStore
  import opened Divergence

  // ------------------------------------------------- what json.loads returns

  function HexOrZero(c: char): (v: int)
    ensures 0 <= v < 16
  {
    match HexValue(c)
    case Some(d) => d
    case None => 0
  }

  /** The character of a \u00XX escape; the device prints no others. */
  function UnicodeChar(b: Body): char
    requires |b| >= 5
  {
    (HexOrZero(b[3].c) * 16 + HexOrZero(b[4].c)) as char
  }

  function PyString(b: Body): string {
    if b == [] then ""
    else match b[0]
      case Raw(c) => [c] + PyString(b[1..])
      case Esc(c) =>
        if c == 'u' && |b| >= 5 then [UnicodeChar(b)] + PyString(b[5..])
        else (match Unescape(c)
              case Some(x) => [x] + PyString(b[1..])
              case None => PyString(b[1..]))
  }

  function PyValue(v: Json): Py {
    match v
    case JTrue => PyBool(true)
    case JFalse => PyBool(false)
    case JNull => PyNone
    case JNum(t) => PyNum(NumValue(t))
    case JStr(b) => PyStr(PyString(b))
    case JArr(_, es) => PyList(PyItems(es))
    case JObj(_, ms) => PyDict(PyEntries(ms, map[]))
  }

  function PyItems(es: Elems): seq<Py> {
    match es
    case ENil => []
    case ECons(_, v, _, rest) => [PyValue(v)] + PyItems(rest)
  }

  /** Later members replace earlier ones of the same name. */
  function PyEntries(ms: Members, d: map<string, Py>): map<string, Py>
    decreases ms
  {
    match ms
    case MNil => d
    case MCons(m, rest) => PyEntries(rest, d[PyString(m.key) := PyValue(m.v)])
  }

  // ------------------------------------------------------ reading it back

  lemma HexRoundTrip(d: int)
    requires 0 <= d < 16
    ensures HexValue(HexDigit(d)) == Some(d)
  {
  }

  lemma PyEscapedByte(c: char, b: Body)
    ensures PyString(EscapeByte(c) + b) == [c] + PyString(b)
  {
    var e := EscapeByte(c) + b;
    if OddControl(c) {
      HexRoundTrip(c as int / 16);
      HexRoundTrip(c as int % 16);
      assert e[5..] == b;
      assert e[0] == Esc('u') && UnicodeChar(e) == c;
    } else {
      assert e[1..] == b;
    }
  }

  /** Python reads back every string the device escapes. */
  lemma {:induction false} PyEscaped(s: string)
    ensures PyString(Escape(s)) == s
  {
    if s != "" {
      PyEscaped(s[1..]);
      PyEscapedByte(s[0], Escape(s[1..]));
    }
  }

  lemma {:induction false} PyRaw(s: string)
    ensures PyString(RawBody(s)) == s
  {
    if s != "" {
      assert RawBody(s)[1..] == RawBody(s[1..]);
      PyRaw(s[1..]);
    }
  }

  lemma PyField(key: string, v: Json, rest: Members, d: map<string, Py>)
    ensures PyEntries(MCons(Field(key, v), rest), d) == PyEntries(rest, d[key := PyValue(v)])
  {
    PyRaw(key);
  }

  lemma PyInt(n: int)
    ensures PyValue(JNum(IntTok(n))) == PyNum(OfInt(n))
  {
    IntTokReads(n);
  }

  /** The stored session is printed without loss. */
  ghost predicate Exact(s: Session) {
    Storable(s) && s.usedPct.m < 1000000
  }

  /** A session with the six significant digits that `%.6g` prints. */
  function Rounded(s: Session): Session {
    if s.usedPct.m >= 0 then s.(usedPct := SixDigits(s.usedPct)) else s
  }

  function AllRounded(list: seq<Session>): seq<Session> {
    if list == [] then [] else [Rounded(list[0])] + AllRounded(list[1..])
  }

  ghost predicate AllStorable(list: seq<Session>) {
    forall i :: 0 <= i < |list| ==> Storable(list[i])
  }

  lemma {:induction false} ExactIsRounded(list: seq<Session>)
    requires forall i :: 0 <= i < |list| ==> Exact(list[i])
    ensures AllRounded(list) == list
  {
    if list != [] {
      PctTokReads(list[0].usedPct);
      ExactIsRounded(list[1..]);
    }
  }

  lemma PySession(s: Session)
    requires Storable(s)
    ensures PyValue(SessionTree(s)) == SessionDict(Rounded(s))
  {
    var pct := PyNum(SixDigits(s.usedPct));
    PyEscaped(s.kind);
    PctTokReads(s.usedPct);
    PyInt(s.resetsAt);
    PyInt(s.windowMins);
    var d1: map<string, Py> := map["type" := PyStr(s.kind)];
    var d2 := d1["used_pct" := pct];
    var d3 := d2["resets_at" := PyNum(OfInt(s.resetsAt))];
    var d4 := d3["rolling" := PyBool(s.rolling)];
    PyField("type", JStr(Escape(s.kind)), UsageMembers(s), map[]);
    PyField("used_pct", PctNum(s.usedPct), UsageMembers(s).rest, d1);
    PyField("resets_at", JNum(IntTok(s.resetsAt)), WindowMembers(s), d2);
    PyField("rolling", if s.rolling then JTrue else JFalse, WindowMembers(s).rest, d3);
    PyField("window_duration_mins", JNum(IntTok(s.windowMins)), MNil, d4);
  }

  lemma {:induction false} PySessions(list: seq<Session>)
    requires AllStorable(list)
    ensures PyItems(SessionElems(list)) == SessionDicts(AllRounded(list))
  {
    if list != [] {
      PySession(list[0]);
      PySessions(list[1..]);
    }
  }

  /** What the document says of one agent. */
  function EntryDict(e: Entry): Py {
    PyDict(map["client_id" := PyStr(e.clientId), "seconds_since_last_push" := PyNum(OfInt(e.age)),
               "sessions" := PyList(SessionDicts(AllRounded(e.snap.sessions)))])
  }

  lemma PyAge(e: Entry, d: map<string, Py>)
    requires AllStorable(e.snap.sessions)
    ensures PyEntries(AgeMembers(e), d)
         == d["seconds_since_last_push" := PyNum(OfInt(e.age))]
             ["sessions" := PyList(SessionDicts(AllRounded(e.snap.sessions)))]
  {
    PySessions(e.snap.sessions);
    PyInt(e.age);
    var d' := d["seconds_since_last_push" := PyNum(OfInt(e.age))];
    PyField("seconds_since_last_push", JNum(IntTok(e.age)), AgeMembers(e).rest, d);
    PyField("sessions", JArr("", SessionElems(e.snap.sessions)), MNil, d');
  }

  lemma PyClient(client: Json, rest: Members)
    ensures PyValue(JObj("", MCons(Field("client_id", client), rest)))
         == PyDict(PyEntries(rest, map["client_id" := PyValue(client)]))
  {
    PyField("client_id", client, rest, map[]);
  }

  lemma PyEntry(e: Entry)
    requires AllStorable(e.snap.sessions)
    ensures PyValue(EntryValue(e)) == EntryDict(e)
  {
    PyEscaped(e.clientId);
    PyClient(JStr(Escape(e.clientId)), AgeMembers(e));
    PyAge(e, map["client_id" := PyStr(e.clientId)]);
  }

  ghost predicate DistinctAgents(es: seq<Entry>) {
    forall i, j :: 0 <= i < j < |es| ==> es[i].snap.agent != es[j].snap.agent
  }

  /** The agents of the document, as a dictionary. */
  lemma {:induction false} PyAgents(es: seq<Entry>, d: map<string, Py>, agent: string)
    requires DistinctAgents(es)
    ensures var r := PyEntries(EntryMembers(es), d);
      && (agent in r <==> agent in d || exists i :: 0 <= i < |es| && es[i].snap.agent == agent)
      && (forall i :: 0 <= i < |es| && es[i].snap.agent == agent ==> r[agent] == PyValue(EntryValue(es[i])))
      && ((forall i :: 0 <= i < |es| ==> es[i].snap.agent != agent) && agent in d ==> r[agent] == d[agent])
  {
    if es != [] {
      PyEscaped(es[0].snap.agent);
      var d' := d[es[0].snap.agent := PyValue(EntryValue(es[0]))];
      PyAgents(es[1..], d', agent);
      var r := PyEntries(EntryMembers(es), d);
      assert r == PyEntries(EntryMembers(es[1..]), d');
      assert forall i :: 0 < i < |es| ==> es[1..][i - 1] == es[i];
      if i :| 0 <= i < |es| && es[i].snap.agent == agent {
        if i > 0 {
          assert es[1..][i - 1].snap.agent == agent;
        }
      }
    }
  }

  lemma PyNumField(key: string, n: int, rest: Members, d: map<string, Py>)
    ensures PyEntries(MCons(Field(key, JNum(IntTok(n))), rest), d) == PyEntries(rest, d[key := PyNum(OfInt(n))])
  {
    PyInt(n);
    PyField(key, JNum(IntTok(n)), rest, d);
  }

  lemma PyCounters(h: Header, es: seq<Entry>, d: map<string, Py>)
    ensures PyEntries(CounterMembers(h, es), d)
         == d["uptime_s" := PyNum(OfInt(h.uptime))]["free_heap_b" := PyNum(OfInt(h.freeHeap))]
             ["agents" := PyDict(PyEntries(EntryMembers(es), map[]))]
  {
    var agents := MCons(Field("agents", JObj("", EntryMembers(es))), MNil);
    var heap := MCons(Field("free_heap_b", JNum(IntTok(h.freeHeap))), agents);
    var d1 := d["uptime_s" := PyNum(OfInt(h.uptime))];
    var d2 := d1["free_heap_b" := PyNum(OfInt(h.freeHeap))];
    PyNumField("uptime_s", h.uptime, heap, d);
    PyNumField("free_heap_b", h.freeHeap, agents, d1);
    PyField("agents", JObj("", EntryMembers(es)), MNil, d2);
  }

  lemma PyHeader(h: Header, rest: Members)
    ensures PyValue(JObj("", MCons(Field("device_id", JStr(RawBody(h.deviceId))),
                             MCons(Field("firmware_version", JStr(RawBody(h.version))), rest))))
         == PyDict(PyEntries(rest, map["device_id" := PyStr(h.deviceId), "firmware_version" := PyStr(h.version)]))
  {
    PyRaw(h.deviceId);
    PyRaw(h.version);
    var d: map<string, Py> := map["device_id" := PyStr(h.deviceId)];
    PyField("device_id", JStr(RawBody(h.deviceId)), MCons(Field("firmware_version", JStr(RawBody(h.version))), rest),
            map[]);
    PyField("firmware_version", JStr(RawBody(h.version)), rest, d);
  }

  /** What the document says. */
  function HealthDict(h: Header, agents: map<string, Py>): map<string, Py> {
    map["device_id" := PyStr(h.deviceId), "firmware_version" := PyStr(h.version),
        "uptime_s" := PyNum(OfInt(h.uptime)), "free_heap_b" := PyNum(OfInt(h.freeHeap)), "agents" := PyDict(agents)]
  }

  lemma PyHealth(h: Header, es: seq<Entry>)
    ensures PyValue(HealthTree(h, es)) == PyDict(HealthDict(h, PyEntries(EntryMembers(es), map[])))
  {
    PyHeader(h, CounterMembers(h, es));
    PyCounters(h, es, map["device_id" := PyStr(h.deviceId), "firmware_version" := PyStr(h.version)]);
  }

  lemma AgentsRead(es: seq<Entry>)
    requires DistinctAgents(es) && forall e <- es :: AllStorable(e.snap.sessions)
    ensures var agents := PyEntries(EntryMembers(es), map[]);
            && (forall agent :: agent in agents <==> exists e <- es :: e.snap.agent == agent)
            && forall e <- es :: agents[e.snap.agent] == EntryDict(e)
  {
    var agents := PyEntries(EntryMembers(es), map[]);
    forall agent ensures agent in agents <==> exists e <- es :: e.snap.agent == agent {
      PyAgents(es, map[], agent);
      if e :| e in es && e.snap.agent == agent {
        var i :| 0 <= i < |es| && es[i] == e;
      }
    }
    forall e <- es ensures e.snap.agent in agents && agents[e.snap.agent] == EntryDict(e) {
      PyAgents(es, map[], e.snap.agent);
      PyEntry(e);
      var i :| 0 <= i < |es| && es[i] == e;
    }
  }

  /** A full JSON reader gets from the document the four header fields and, for exactly the agents of the
      entries, the client id, the age and the sessions with their usage as printed. */
  lemma HealthReads(h: Header, es: seq<Entry>)
    requires DistinctAgents(es) && forall e <- es :: AllStorable(e.snap.sessions)
    ensures exists agents ::
              && PyValue(HealthTree(h, es)) == PyDict(HealthDict(h, agents))
              && (forall agent :: agent in agents <==> exists e <- es :: e.snap.agent == agent)
              && forall e <- es :: agents[e.snap.agent] == EntryDict(e)
  {
    PyHealth(h, es);
    AgentsRead(es);
  }

  // ---------------------------------------------------------- the verdict

  lemma SessionDictInjective(a: Session, b: Session)
    requires SessionDict(a) == SessionDict(b)
    ensures a == b
  {
    var x, y := SessionDict(a).entries, SessionDict(b).entries;
    assert x["type"] == y["type"] && x["used_pct"] == y["used_pct"] && x["resets_at"] == y["resets_at"];
    assert x["rolling"] == y["rolling"] && x["window_duration_mins"] == y["window_duration_mins"];
    IntReads(a.resetsAt);
    IntReads(b.resetsAt);
    IntReads(a.windowMins);
    IntReads(b.windowMins);
  }

  lemma {:induction false} SessionDictsInjective(a: seq<Session>, b: seq<Session>)
    requires SessionDicts(a) == SessionDicts(b)
    ensures a == b
  {
    if a == [] {
      assert b == [];
    } else {
      assert b != [];
      assert SessionDicts(a)[0] == SessionDicts(b)[0];
      assert SessionDicts(a)[1..] == SessionDicts(b)[1..];
      SessionDictInjective(a[0], b[0]);
      SessionDictsInjective(a[1..], b[1..]);
    }
  }

  lemma EntrySessions(e: Entry)
    requires AllStorable(e.snap.sessions)
    ensures PyValue(EntryValue(e)).PyDict?
    ensures var d := PyValue(EntryValue(e)).entries;
            "sessions" in d && d["sessions"] == PyList(SessionDicts(AllRounded(e.snap.sessions)))
  {
    PyEntry(e);
  }

  lemma HealthAgents(h: Header, es: seq<Entry>)
    ensures PyValue(HealthTree(h, es)).PyDict?
    ensures var d := PyValue(HealthTree(h, es)).entries;
            "agents" in d && d["agents"] == PyDict(PyEntries(EntryMembers(es), map[]))
  {
    PyHealth(h, es);
  }

  /** The daemon sees a divergence exactly when the agent is not in the document or its
      session list, rounded as it is printed, is not the expected one. */
  lemma VerdictIsExact(h: Header, es: seq<Entry>, expected: Snapshot)
    requires DistinctAgents(es)
    requires forall i :: 0 <= i < |es| && es[i].snap.agent == expected.agent ==> AllStorable(es[i].snap.sessions)
    ensures PyValue(HealthTree(h, es)).PyDict?
    ensures FirmwareDiverged(PyValue(HealthTree(h, es)).entries, expected)
        <==> !exists i :: 0 <= i < |es| && es[i].snap.agent == expected.agent
                          && AllRounded(es[i].snap.sessions) == expected.sessions
  {
    HealthAgents(h, es);
    PyAgents(es, map[], expected.agent);
    if i :| 0 <= i < |es| && es[i].snap.agent == expected.agent {
      EntrySessions(es[i]);
      var printed := AllRounded(es[i].snap.sessions);
      if SessionDicts(printed) == SessionDicts(expected.sessions) {
        SessionDictsInjective(printed, expected.sessions);
      }
    }
  }

  // ------------------------------------------------------ the whole trip

  lemma {:induction false} DecodeRaw(s: string)
    ensures Decode(RawBody(s)) == Some(s)
  {
    if s != "" {
      assert RawBody(s)[1..] == RawBody(s[1..]) && s == [s[0]] + s[1..];
      DecodeRaw(s[1..]);
    }
  }

  lemma {:induction false} CStrWhole(s: string)
    requires forall i :: 0 <= i < |s| ==> s[i] != '\0'
    ensures CStr(s) == s
  {
    if s != "" {
      CStrWhole(s[1..]);
    }
  }

  lemma KeyIsName(key: string, cap: nat)
    requires |key| < cap && forall i :: 0 <= i < |key| ==> key[i] != '\0'
    ensures NameIn(RawBody(key), cap) == Some(key)
  {
    DecodeRaw(key);
    CStrWhole(key);
  }

  lemma StringIsName(s: string, cap: nat)
    requires |s| < cap && !HasControl(s)
    ensures StringIn(JStr(Escape(s)), cap) == Some(s)
  {
    EscapeRoundTrip(s);
    CStrWhole(s);
  }

  /** One more field of a session object. */
  lemma CarryField(key: string, v: Json, rest: Members, s: Session)
    requires |key| < SESSION_KEY_CAP && forall i :: 0 <= i < |key| ==> key[i] != '\0'
    requires SessionMembersOf(rest, s)
    requires key == "type" ==> StringIn(v, TYPE_CAP) == Some(s.kind)
    requires key == "used_pct" ==> NumberIn(v) == Some(s.usedPct)
    requires key == "resets_at" ==> NumberIn(v) == Some(OfInt(s.resetsAt))
    requires key == "rolling" ==> v == if s.rolling then JTrue else JFalse
    requires key == "window_duration_mins" ==> NumberIn(v) == Some(OfInt(s.windowMins))
    ensures SessionMembersOf(MCons(Field(key, v), rest), s)
    ensures forall k :: Mentions(MCons(Field(key, v), rest), k, SESSION_KEY_CAP)
                   <==> k == key || Mentions(rest, k, SESSION_KEY_CAP)
  {
    KeyIsName(key, SESSION_KEY_CAP);
  }

  lemma CarryNumbers(s: Session)
    requires Exact(s)
    ensures NumberIn(PctNum(s.usedPct)) == Some(s.usedPct)
    ensures NumberIn(JNum(IntTok(s.resetsAt))) == Some(OfInt(s.resetsAt))
    ensures NumberIn(JNum(IntTok(s.windowMins))) == Some(OfInt(s.windowMins))
  {
    PctTokReads(s.usedPct);
    IntTokReads(s.resetsAt);
    IntTokReads(s.windowMins);
  }

  lemma WindowCarries(s: Session)
    requires Exact(s)
    ensures SessionMembersOf(WindowMembers(s), s)
    ensures Mentions(WindowMembers(s), "rolling", SESSION_KEY_CAP)
    ensures Mentions(WindowMembers(s), "window_duration_mins", SESSION_KEY_CAP)
  {
    CarryNumbers(s);
    CarryField("window_duration_mins", JNum(IntTok(s.windowMins)), MNil, s);
    CarryField("rolling", if s.rolling then JTrue else JFalse, WindowMembers(s).rest, s);
  }

  lemma MentionsOuter(m: Member, rest: Members, key: string, cap: nat)
    requires Mentions(rest, key, cap)
    ensures Mentions(MCons(m, rest), key, cap)
  {
  }

  lemma ResetsCarries(s: Session, rest: Members)
    requires Exact(s) && SessionMembersOf(rest, s)
    ensures var ms := MCons(Field("resets_at", JNum(IntTok(s.resetsAt))), rest);
            SessionMembersOf(ms, s) && Mentions(ms, "resets_at", SESSION_KEY_CAP)
  {
    CarryNumbers(s);
    CarryField("resets_at", JNum(IntTok(s.resetsAt)), rest, s);
  }

  lemma PctCarries(s: Session, rest: Members)
    requires Exact(s) && SessionMembersOf(rest, s)
    ensures var ms := MCons(Field("used_pct", PctNum(s.usedPct)), rest);
            SessionMembersOf(ms, s) && Mentions(ms, "used_pct", SESSION_KEY_CAP)
  {
    CarryNumbers(s);
    CarryField("used_pct", PctNum(s.usedPct), rest, s);
  }

  /** The usage members in front of window members that were already seen to carry the session. */
  lemma UsageFrom(s: Session, window: Members, resets: Member, pct: Member)
    requires Exact(s) && SessionMembersOf(window, s)
    requires Mentions(window, "rolling", SESSION_KEY_CAP) && Mentions(window, "window_duration_mins", SESSION_KEY_CAP)
    requires resets == Field("resets_at", JNum(IntTok(s.resetsAt))) && pct == Field("used_pct", PctNum(s.usedPct))
    ensures var ms := MCons(pct, MCons(resets, window));
            && SessionMembersOf(ms, s)
            && Mentions(ms, "used_pct", SESSION_KEY_CAP) && Mentions(ms, "resets_at", SESSION_KEY_CAP)
            && Mentions(ms, "rolling", SESSION_KEY_CAP) && Mentions(ms, "window_duration_mins", SESSION_KEY_CAP)
  {
    var rest := MCons(resets, window);
    ResetsCarries(s, window);
    PctCarries(s, rest);
    MentionsOuter(resets, window, "rolling", SESSION_KEY_CAP);
    MentionsOuter(resets, window, "window_duration_mins", SESSION_KEY_CAP);
    MentionsOuter(pct, rest, "resets_at", SESSION_KEY_CAP);
    MentionsOuter(pct, rest, "rolling", SESSION_KEY_CAP);
    MentionsOuter(pct, rest, "window_duration_mins", SESSION_KEY_CAP);
  }

  lemma UsageCarries(s: Session)
    requires Exact(s)
    ensures var ms := UsageMembers(s);
            && SessionMembersOf(ms, s)
            && Mentions(ms, "used_pct", SESSION_KEY_CAP) && Mentions(ms, "resets_at", SESSION_KEY_CAP)
            && Mentions(ms, "rolling", SESSION_KEY_CAP) && Mentions(ms, "window_duration_mins", SESSION_KEY_CAP)
  {
    WindowCarries(s);
    var ms := UsageMembers(s);
    UsageFrom(s, WindowMembers(s), ms.rest.head, ms.head);
    assert ms == MCons(ms.head, MCons(ms.rest.head, WindowMembers(s)));
  }

  lemma SessionTreeCarries(s: Session)
    requires GoodSession(s) && Exact(s)
    ensures Valid(SessionTree(s)) && Carries(SessionTree(s), s)
  {
    SessionTreeValid(s);
    StringIsName(s.kind, TYPE_CAP);
    UsageCarries(s);
    CarryField("type", JStr(Escape(s.kind)), UsageMembers(s), s);
  }

  lemma {:induction false} SessionElemsCarry(list: seq<Session>)
    requires forall i :: 0 <= i < |list| ==> GoodSession(list[i]) && Exact(list[i])
    ensures ValidElems(SessionElems(list)) && ElemsCarry(SessionElems(list), list)
  {
    if list != [] {
      SessionTreeCarries(list[0]);
      SessionElemsCarry(list[1..]);
    }
  }

  function WireRest(x: Snapshot): Members {
    MCons(Field("captured_at", JNum(IntTok(x.capturedAt))),
    MCons(Field("sessions", JArr("", SessionElems(x.sessions))), MNil))
  }

  /** The object the daemon posts: `to_dict`, printed. */
  function WireTree(x: Snapshot): Json {
    JObj("", MCons(Field("agent", JStr(Escape(x.agent))), WireRest(x)))
  }

  lemma AgentName(agent: string)
    requires IsKnownAgent(agent)
    ensures |agent| < AGENT_CAP && !HasControl(agent)
  {
    assert !HasControl("claude") && !HasControl("codex");
  }

  lemma CarryTop(key: string, v: Json, rest: Members, x: Snapshot)
    requires |key| < TOP_KEY_CAP && forall i :: 0 <= i < |key| ==> key[i] != '\0'
    requires TopMembersOf(rest, x)
    requires key == "agent" ==> StringIn(v, AGENT_CAP) == Some(x.agent)
    requires key == "captured_at" ==> NumberIn(v) == Some(OfInt(x.capturedAt))
    requires key == "sessions" ==> v.JArr? && ElemsCarry(v.elems, x.sessions)
    ensures TopMembersOf(MCons(Field(key, v), rest), x)
    ensures forall k :: Mentions(MCons(Field(key, v), rest), k, TOP_KEY_CAP)
                   <==> k == key || Mentions(rest, k, TOP_KEY_CAP)
  {
    KeyIsName(key, TOP_KEY_CAP);
  }

  lemma WireTreeValid(x: Snapshot)
    requires ValidElems(SessionElems(x.sessions))
    ensures Valid(WireTree(x))
  {
    EscapeValid(x.agent);
    FieldValid("sessions", JArr("", SessionElems(x.sessions)), MNil);
    NumFieldValid("captured_at", x.capturedAt, WireRest(x).rest);
    FieldValid("agent", JStr(Escape(x.agent)), WireRest(x));
  }

  lemma SessionsCarry(es: Elems, rest: Members, x: Snapshot)
    requires ElemsCarry(es, x.sessions) && TopMembersOf(rest, x)
    ensures var ms := MCons(Field("sessions", JArr("", es)), rest);
            TopMembersOf(ms, x) && Mentions(ms, "sessions", TOP_KEY_CAP)
  {
    CarryTop("sessions", JArr("", es), rest, x);
  }

  lemma CapturedCarries(rest: Members, x: Snapshot)
    requires TopMembersOf(rest, x)
    ensures var ms := MCons(Field("captured_at", JNum(IntTok(x.capturedAt))), rest);
            TopMembersOf(ms, x) && Mentions(ms, "captured_at", TOP_KEY_CAP)
  {
    IntTokReads(x.capturedAt);
    CarryTop("captured_at", JNum(IntTok(x.capturedAt)), rest, x);
  }

  lemma WireRestCarries(x: Snapshot)
    requires ElemsCarry(SessionElems(x.sessions), x.sessions)
    ensures TopMembersOf(WireRest(x), x)
    ensures Mentions(WireRest(x), "captured_at", TOP_KEY_CAP) && Mentions(WireRest(x), "sessions", TOP_KEY_CAP)
  {
    var rest := WireRest(x).rest;
    SessionsCarry(SessionElems(x.sessions), MNil, x);
    CapturedCarries(rest, x);
    MentionsOuter(WireRest(x).head, rest, "sessions", TOP_KEY_CAP);
  }

  lemma AgentCarries(rest: Members, x: Snapshot)
    requires IsKnownAgent(x.agent) && TopMembersOf(rest, x)
    requires Mentions(rest, "captured_at", TOP_KEY_CAP) && Mentions(rest, "sessions", TOP_KEY_CAP)
    ensures CarriesSnapshot(JObj("", MCons(Field("agent", JStr(Escape(x.agent))), rest)), x)
  {
    AgentName(x.agent);
    StringIsName(x.agent, AGENT_CAP);
    CarryTop("agent", JStr(Escape(x.agent)), rest, x);
  }

  /** The printed form of a snapshot is one of the texts that carry it. */
  lemma WireTreeCarries(x: Snapshot)
    requires GoodSnapshot(x) && (forall i :: 0 <= i < |x.sessions| ==> Exact(x.sessions[i]))
    ensures Valid(WireTree(x)) && CarriesSnapshot(WireTree(x), x)
  {
    SessionElemsCarry(x.sessions);
    WireTreeValid(x);
    WireRestCarries(x);
    AgentCarries(WireRest(x), x);
  }

  lemma {:induction false} SublistDistinct(a: seq<Entry>, b: seq<Entry>)
    requires Sublist(a, b) && DistinctAgents(b)
    ensures DistinctAgents(a)
    ensures forall x :: x in a ==> x in b
    decreases |b|
  {
    if a != [] {
      assert forall i :: 0 < i < |b| ==> b[1..][i - 1] == b[i];
      if a[0] == b[0] && Sublist(a[1..], b[1..]) {
        SublistDistinct(a[1..], b[1..]);
        assert a == [a[0]] + a[1..] && b == [b[0]] + b[1..];
        forall i | 0 < i < |a| ensures a[i].snap.agent != a[0].snap.agent {
          assert a[i] == a[1..][i - 1] && a[i] in b[1..];
        }
        forall i, j | 0 < i < j < |a| ensures a[i].snap.agent != a[j].snap.agent {
          assert a[i] == a[1..][i - 1] && a[j] == a[1..][j - 1];
        }
      } else {
        SublistDistinct(a, b[1..]);
      }
    }
  }

  /** One entry per occupied slot, in order; ages and client ids are looked up elsewhere. */
  ghost predicate EntriesOf(es: seq<Entry>, slots: Slots) {
    |es| == |Occupied(slots)| && forall i :: 0 <= i < |es| ==> es[i].snap == Occupied(slots)[i]
  }

  lemma EntriesDistinct(es: seq<Entry>, slots: Slots)
    requires Good(slots) && EntriesOf(es, slots)
    ensures DistinctAgents(es)
    ensures forall e :: e in es ==> Stored(slots, e.snap.agent) == Some(e.snap)
  {
    OccupiedAreStored(slots);
    forall e | e in es ensures Stored(slots, e.snap.agent) == Some(e.snap) {
      var i :| 0 <= i < |es| && es[i] == e;
      assert e.snap == Occupied(slots)[i] && Occupied(slots)[i] in Occupied(slots);
    }
  }

  /** A snapshot that was posted in any textual form, accepted and stored is reported by
      /health so that the daemon, expecting y, sees a divergence exactly when y's sessions are not
      the posted ones as they are printed; with at most six significant digits that is as they are. */
  lemma PushThenHealth(w: string, v: Json, r: string, x: Snapshot, slots: Slots, now: int,
                       h: Header, es: seq<Entry>, off: nat, cap: nat, mine: Entry, y: Snapshot)
    requires AllSpace(w) && Valid(v) && GoodSnapshot(x) && CarriesSnapshot(v, x)
    requires Good(slots) && PutSpec(slots, x, now).1 == PutOk && EntriesOf(es, PutSpec(slots, x, now).0)
    requires mine in Kept(es, off, true, cap) && mine.snap.agent == x.agent == y.agent
    ensures ParseSnapshot(w + (Text(v) + r)) == Ok(x, r)
    ensures var kept := Kept(es, off, true, cap);
            PyValue(HealthTree(h, kept)).PyDict?
            && (FirmwareDiverged(PyValue(HealthTree(h, kept)).entries, y) <==> y.sessions != AllRounded(x.sessions))
    ensures (forall k :: 0 <= k < |x.sessions| ==> Exact(x.sessions[k])) ==> AllRounded(x.sessions) == x.sessions
  {
    SnapshotRoundTrip(w, v, x, r);
    PutMeaning(slots, x, now);
    var after := PutSpec(slots, x, now).0;
    EntriesDistinct(es, after);
    SelectIsSublist(es, EntrySize, off, true, cap);
    var kept := Kept(es, off, true, cap);
    SublistDistinct(kept, es);
    assert mine in es && mine.snap == x;
    assert AllStorable(x.sessions);
    forall i | 0 <= i < |kept| && kept[i].snap.agent == y.agent ensures kept[i].snap == x {
      assert kept[i] in es;
    }
    VerdictIsExact(h, kept, y);
    var m :| 0 <= m < |kept| && kept[m] == mine;
    forall i | 0 <= i < |kept| && kept[i].snap.agent == y.agent ensures i == m {
    }
    if forall k :: 0 <= k < |x.sessions| ==> Exact(x.sessions[k]) {
      ExactIsRounded(x.sessions);
    }
  }
}
