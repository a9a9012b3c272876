/** The cursor on any bytes, JSON or not: what it accepts as a string, a key and a member.

    A value under an unknown name is skipped loosely; everything around it is read as the grammar says,
    except that a comma may stand in front of the closing brace. */
module WireExact {
  import opened Decimals
  import opened JsonText
  import opened CursorSpec
  import opened SkipTheorems
  import opened ParseTheorems

  lemma SpaceBefore(s: string) returns (w: string)
    ensures AllSpace(w) && s == w + SkipWs(s)
  {
    SkipWsIs(s);
    w := s[..|s| - |SkipWs(s)|];
  }

  /** The body of a string that was read. */
  lemma {:induction false} BodyOf(s: string, room: nat) returns (b: Body)
    requires StringRest(s, room).Ok?
    ensures ValidBody(b) && s == PutBody(b, ['"'] + StringRest(s, room).rest)
    ensures Decode(b) == Some(StringRest(s, room).v)
    decreases |s|
  {
    if s[0] == '"' {
      b := [];
    } else {
      var one := StringChar(s);
      var rest := BodyOf(one.rest, room - 1);
      b := [if s[0] == '\\' then Esc(s[1]) else Raw(s[0])] + rest;
      assert b[1..] == rest;
      if s[0] == '\\' {
        assert s == ['\\'] + ([s[1]] + s[2..]);
      } else {
        assert s == [s[0]] + s[1..];
      }
    }
  }

  lemma StringParts(s: string, cap: nat) returns (w: string, b: Body)
    requires cap > 0 && ReadString(s, cap).Ok?
    ensures AllSpace(w) && ValidBody(b) && s == w + PutStr(b, ReadString(s, cap).rest)
    ensures DecodeFor(b, cap) == Some(ReadString(s, cap).v)
  {
    w := SpaceBefore(s);
    var t := SkipWs(s);
    b := BodyOf(t[1..], cap - 1);
    assert t == ['"'] + t[1..];
  }

  /** On any bytes: a string is read exactly when the text is white space and a quoted body whose escapes are known and
      whose bytes fit; the result is the decoded body and what follows the closing quote. */
  lemma ReadStringExactly(s: string, cap: nat, v: string, r: string)
    requires cap > 0
    ensures ReadString(s, cap) == Ok(v, r) <==>
            exists w, b :: AllSpace(w) && ValidBody(b) && s == w + PutStr(b, r) && DecodeFor(b, cap) == Some(v)
  {
    if ReadString(s, cap) == Ok(v, r) {
      var w, b := StringParts(s, cap);
    }
    if w, b :| AllSpace(w) && ValidBody(b) && s == w + PutStr(b, r) && DecodeFor(b, cap) == Some(v) {
      ReadStringReads(w, b, cap, r);
    }
  }

  /** The text is white space, a quoted key, white space, a colon and u; the key fits and reads as v. */
  ghost predicate Keyed(s: string, cap: nat, v: string, u: string) {
    exists w, b, mid :: KeyParts(s, cap, v, u, w, b, mid)
  }

  ghost predicate KeyParts(s: string, cap: nat, v: string, u: string, w: string, b: Body, mid: string) {
    && AllSpace(w) && ValidBody(b) && AllSpace(mid) && DecodeFor(b, cap) == Some(v)
    && s == w + PutStr(b, mid + ([':'] + u))
  }

  lemma KeyFound(s: string, cap: nat)
    requires cap > 0 && PeekKey(s, cap).Ok?
    ensures Keyed(s, cap, PeekKey(s, cap).v, PeekKey(s, cap).rest)
  {
    var w, b := StringParts(s, cap);
    var t := ReadString(s, cap).rest;
    var mid := SpaceBefore(t);
    var u := PeekKey(s, cap).rest;
    assert SkipWs(t) == [':'] + u;
    assert KeyParts(s, cap, PeekKey(s, cap).v, u, w, b, mid);
  }

  lemma KeyRead(s: string, cap: nat, v: string, u: string, w: string, b: Body, mid: string)
    requires cap > 0 && KeyParts(s, cap, v, u, w, b, mid)
    ensures PeekKey(s, cap) == Ok(v, u)
  {
    PeekKeyReads(w, b, cap, mid, u);
  }

  lemma PeekKeyExactly(s: string, cap: nat, v: string, u: string)
    requires cap > 0
    ensures PeekKey(s, cap) == Ok(v, u) <==> Keyed(s, cap, v, u)
  {
    if PeekKey(s, cap).Ok? {
      KeyFound(s, cap);
    }
    if w, b, mid :| KeyParts(s, cap, v, u, w, b, mid) {
      KeyRead(s, cap, v, u, w, b, mid);
    }
  }

  /** White space and one mark, with r behind it. */
  ghost predicate Marked(s: string, mark: char, r: string) {
    exists w :: AllSpace(w) && s == w + ([mark] + r)
  }

  lemma MarkedIs(s: string, mark: char, r: string)
    requires !IsSpace(mark)
    ensures Marked(s, mark, r) <==> SkipWs(s) == [mark] + r
  {
    if SkipWs(s) == [mark] + r {
      var w := SpaceBefore(s);
    }
    if w :| AllSpace(w) && s == w + ([mark] + r) {
      SkipWsPast(w, [mark] + r);
    }
  }

  lemma SeparatorExactly<T>(draft: T, close: char, s: string, more: bool, r: string)
    requires !IsSpace(close) && close != ','
    ensures Separator(draft, close, s) == Ok(Turn(draft, more), r) <==> Marked(s, if more then ',' else close, r)
  {
    MarkedIs(s, if more then ',' else close, r);
    var t := SkipWs(s);
    if t != "" {
      assert t == [t[0]] + t[1..];
    }
  }

  lemma KeySkipsSpace(s: string, cap: nat)
    ensures PeekKey(SkipWs(s), cap) == PeekKey(s, cap)
  {
    var w := SpaceBefore(s);
    SkipWsPast(w, SkipWs(s));
    assert SkipWs(SkipWs(s)) == SkipWs(s);
  }

  /** On any bytes, one turn of the loop over the members of a session: the object ends here, or a key, a value its
      field takes and a comma or the closing brace come next; nothing else is accepted. */
  lemma SessionTurnExactly(d: SessionDraft, s: string, e: SessionDraft, more: bool, r: string)
    ensures SessionTurn(d, s) == Ok(Turn(e, more), r) <==>
            || (Marked(s, '}', r) && e == d && !more)
            || exists key, u, after ::
                 && Keyed(s, 32, key, u) && SessionField(d, CStr(key), u) == Ok(e, after)
                 && Marked(after, if more then ',' else '}', r)
  {
    MarkedIs(s, '}', r);
    KeySkipsSpace(s, 32);
    var t := SkipWs(s);
    if SessionTurn(d, s) == Ok(Turn(e, more), r) {
      if t != "" && t[0] == '}' {
        assert t == ['}'] + r;
      } else {
        var key, u := PeekKey(t, 32).v, PeekKey(t, 32).rest;
        PeekKeyExactly(s, 32, key, u);
        var after := SessionField(d, CStr(key), u).rest;
        SeparatorExactly(e, '}', after, more, r);
        assert SessionField(d, CStr(key), u) == Ok(e, after);
      }
    }
    if key, u, after :| Keyed(s, 32, key, u) && SessionField(d, CStr(key), u) == Ok(e, after)
                        && Marked(after, if more then ',' else '}', r) {
      PeekKeyExactly(s, 32, key, u);
      SeparatorExactly(e, '}', after, more, r);
    }
  }

  /** The same for the members of a snapshot. */
  lemma TopTurnExactly(d: Draft, s: string, e: Draft, more: bool, r: string)
    ensures TopTurn(d, s) == Ok(Turn(e, more), r) <==>
            || (Marked(s, '}', r) && e == d && !more)
            || exists key, u, after ::
                 && Keyed(s, 16, key, u) && TopField(d, CStr(key), u) == Ok(e, after)
                 && Marked(after, if more then ',' else '}', r)
  {
    MarkedIs(s, '}', r);
    KeySkipsSpace(s, 16);
    var t := SkipWs(s);
    if TopTurn(d, s) == Ok(Turn(e, more), r) {
      if t != "" && t[0] == '}' {
        assert t == ['}'] + r;
      } else {
        var key, u := PeekKey(t, 16).v, PeekKey(t, 16).rest;
        PeekKeyExactly(s, 16, key, u);
        var after := TopField(d, CStr(key), u).rest;
        SeparatorExactly(e, '}', after, more, r);
        assert TopField(d, CStr(key), u) == Ok(e, after);
      }
    }
    if key, u, after :| Keyed(s, 16, key, u) && TopField(d, CStr(key), u) == Ok(e, after)
                        && Marked(after, if more then ',' else '}', r) {
      PeekKeyExactly(s, 16, key, u);
      SeparatorExactly(e, '}', after, more, r);
    }
  }
}
