/** Whatever bytes arrive, JSON or not: a snapshot that is accepted is one the wire format allows. */
module WireLegal {
  import opened Decimals
  import opened JsonText
  import opened CursorSpec
  import opened WireFormat

  /** What is read of a session so far is legal. */
  ghost predicate DraftLegal(d: SessionDraft) {
    && |d.out.kind| <= 15 && (forall i :: 0 <= i < |d.out.kind| ==> d.out.kind[i] as int >= 0x20)
    && (d.havePct ==> UnitInterval(d.out.usedPct) && Canonical(d.out.usedPct))
    && 0 <= d.out.windowMins <= 2147483647
  }

  lemma NumberOfCanonical(neg: bool, whole: string, frac: string, x: int)
    ensures Canonical(NumberOf(neg, whole, frac, x))
  {
    var m := DigitsValue(whole + frac);
    NormIsCanonical(if neg then -m else m, x - |frac|);
  }

  lemma UnsignedCanonical(s: string, neg: bool)
    ensures ReadUnsigned(s, neg).Ok? ==> Canonical(ReadUnsigned(s, neg).v)
  {
    var whole := Digits(s);
    var (frac, t) := ReadFraction(s[|whole|..]);
    NumberOfCanonical(neg, whole, frac, ReadExponent(t).0);
  }

  lemma NumberCanonical(s: string)
    ensures ReadNumber(s).Ok? ==> Canonical(ReadNumber(s).v)
  {
    var (neg, t) := ReadSign(SkipWs(s));
    UnsignedCanonical(t, neg);
  }

  lemma FieldLegal(d: SessionDraft, key: string, s: string)
    requires DraftLegal(d) && SessionField(d, key, s).Ok?
    ensures DraftLegal(SessionField(d, key, s).v)
  {
    if key == "used_pct" {
      NumberCanonical(s);
    }
  }

  lemma TurnLegal(d: SessionDraft, s: string)
    requires DraftLegal(d) && SessionTurn(d, s).Ok?
    ensures DraftLegal(SessionTurn(d, s).v.draft)
  {
    var t := SkipWs(s);
    if !(t != "" && t[0] == '}') {
      var key := PeekKey(t, SESSION_KEY_CAP);
      FieldLegal(d, CStr(key.v), key.rest);
    }
  }

  lemma {:induction false} MembersLegal(d: SessionDraft, s: string)
    requires DraftLegal(d) && SessionMembers(d, s).Ok?
    ensures GoodSession(SessionMembers(d, s).v)
    decreases |s|
  {
    var turn := SessionTurn(d, s);
    TurnLegal(d, s);
    if turn.v.more {
      MembersLegal(turn.v.draft, turn.rest);
    }
  }

  ghost predicate AllLegal(list: seq<Session>) {
    forall i :: 0 <= i < |list| ==> GoodSession(list[i])
  }

  lemma ElementLegal(got: seq<Session>, s: string)
    requires |got| <= 3 && AllLegal(got) && ElementTurn(got, s).Ok?
    ensures AllLegal(ElementTurn(got, s).v.draft)
  {
    var t := SkipWs(s);
    if |got| < 3 && !(t != "" && t[0] == ']') {
      MembersLegal(EMPTY_SESSION, Eat(t, '{').rest);
    }
  }

  lemma {:induction false} SessionsLegal(got: seq<Session>, s: string)
    requires |got| <= 3 && AllLegal(got) && Sessions(got, s).Ok?
    ensures AllLegal(Sessions(got, s).v) && |Sessions(got, s).v| <= 3
    decreases |s|
  {
    var turn := ElementTurn(got, s);
    ElementLegal(got, s);
    if turn.v.more {
      SessionsLegal(turn.v.draft, turn.rest);
    }
  }

  ghost predicate TopLegal(d: Draft) {
    && (d.haveAgent ==> d.out.agent in {"claude", "codex"})
    && |d.out.sessions| <= 3 && AllLegal(d.out.sessions)
  }

  lemma TopFieldLegal(d: Draft, key: string, s: string)
    requires TopLegal(d) && TopField(d, key, s).Ok?
    ensures TopLegal(TopField(d, key, s).v)
  {
    if key == "sessions" {
      SessionsLegal([], Eat(s, '[').rest);
    }
  }

  lemma TopTurnLegal(d: Draft, s: string)
    requires TopLegal(d) && TopTurn(d, s).Ok?
    ensures TopLegal(TopTurn(d, s).v.draft)
  {
    var t := SkipWs(s);
    if !(t != "" && t[0] == '}') {
      var key := PeekKey(t, TOP_KEY_CAP);
      TopFieldLegal(d, CStr(key.v), key.rest);
    }
  }

  lemma {:induction false} TopMembersLegal(d: Draft, s: string)
    requires TopLegal(d) && TopMembers(d, s).Ok?
    ensures GoodSnapshot(TopMembers(d, s).v)
    decreases |s|
  {
    var turn := TopTurn(d, s);
    TopTurnLegal(d, s);
    if turn.v.more {
      TopMembersLegal(turn.v.draft, turn.rest);
    }
  }

  /** Every accepted snapshot has a known agent and one to three sessions, each with a printable type of 1 to 15 bytes,
      a usage between 0 and 1 and a window of 32 bits. */
  lemma AcceptedIsLegal(s: string)
    ensures ParseSnapshot(s).Ok? ==> GoodSnapshot(ParseSnapshot(s).v)
  {
    if ParseSnapshot(s).Ok? {
      TopMembersLegal(EMPTY_DRAFT, Eat(s, '{').rest);
    }
  }
}
