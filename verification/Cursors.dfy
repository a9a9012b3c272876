/** The JSON cursor itself: a position that advances over a byte buffer. */
module Cursors {
  import opened Decimals
  import opened JsonText
  import Spec = CursorSpec

  type Session = Spec.Session
  type Snapshot = Spec.Snapshot

  /** A prefix that was already copied, put before what is still to be read. */
  ghost function Glue(prefix: string, r: Spec.Read<string>): Spec.Read<string> {
    match r
    case Ok(v, rest) => Spec.Ok(prefix + v, rest)
    case Fail => Spec.Fail
  }

  lemma {:induction false} CStrOfBuffer(v: string, buffer: string)
    requires |v| < |buffer| && buffer[..|v|] == v && buffer[|v|] == '\0'
    ensures Spec.CStr(buffer) == Spec.CStr(v)
  {
    if v != "" {
      assert v[0] == buffer[0] && v[1..] == buffer[1..][..|v| - 1];
      CStrOfBuffer(v[1..], buffer[1..]);
    }
  }

  /** `r` is what is left of `s` after some prefix. */
  ghost predicate Suffix(r: string, s: string) {
    |r| <= |s| && r == s[|s| - |r|..]
  }

  lemma SuffixTrans(r: string, t: string, s: string)
    requires Suffix(r, t) && Suffix(t, s)
    ensures Suffix(r, s)
  {
    assert r == s[|s| - |t|..][|t| - |r|..];
  }

  lemma FractionSuffix(s: string)
    ensures Suffix(Spec.ReadFraction(s).1, s)
  {
    if s != "" && s[0] == '.' {
      SuffixTrans(Spec.ReadFraction(s).1, s[1..], s);
    }
  }

  lemma ExponentSuffix(s: string)
    ensures Suffix(Spec.ReadExponent(s).1, s)
  {
    if s != "" {
      var (neg, t) := Spec.ReadSign(s[1..]);
      SuffixTrans(t, s[1..], s);
      SuffixTrans(t[|Spec.Digits(t)|..], t, s);
    }
  }

  lemma UnsignedSuffix(s: string, neg: bool)
    requires Spec.ReadUnsigned(s, neg).Ok?
    ensures Suffix(Spec.ReadUnsigned(s, neg).rest, s)
  {
    var t := s[|Spec.Digits(s)|..];
    var u := Spec.ReadFraction(t).1;
    FractionSuffix(t);
    ExponentSuffix(u);
    SuffixTrans(u, t, s);
    SuffixTrans(Spec.ReadExponent(u).1, u, s);
  }

  lemma StrtodSuffix(s: string)
    requires Spec.Strtod(s).Ok?
    ensures Suffix(Spec.Strtod(s).rest, s)
  {
    var (neg, t) := Spec.ReadSign(s);
    UnsignedSuffix(t, neg);
    SuffixTrans(Spec.Strtod(s).rest, t, s);
  }

  class Cursor {
    const buf: array<char>
    var p: nat
    var err: bool

    constructor (buf: array<char>)
      ensures this.buf == buf && p == 0 && !err && Valid()
    {
      this.buf := buf;
      p := 0;
      err := false;
    }

    ghost predicate Valid()
      reads this
    {
      p <= buf.Length
    }

    /** The text that remains. */
    ghost function Rest(): string
      reads this, buf
      requires Valid()
    {
      buf[p..]
    }

    /** The cursor stands where a reader with outcome `r` leaves it. */
    ghost predicate After<T>(r: Spec.Read<T>)
      reads this, buf
      requires Valid()
    {
      r.Ok? && Rest() == r.rest
    }

    method SkipWs()
      requires Valid()
      modifies this
      ensures Valid() && Rest() == Spec.SkipWs(old(Rest())) && err == old(err)
    {
      while p < buf.Length && IsSpace(buf[p])
        invariant Valid() && err == old(err)
        invariant Spec.SkipWs(Rest()) == Spec.SkipWs(old(Rest()))
      {
        assert Rest()[1..] == buf[p + 1..];
        p := p + 1;
      }
    }

    method Eat(ch: char) returns (ok: bool)
      requires Valid()
      modifies this
      ensures Valid() && ok == Spec.Eat(old(Rest()), ch).Ok?
      ensures if ok then After(Spec.Eat(old(Rest()), ch)) && err == old(err) else err
    {
      SkipWs();
      if p < buf.Length && buf[p] == ch {
        p := p + 1;
        return true;
      }
      err := true;
      return false;
    }

    /** Copies the characters up to the closing quote, and steps over it. */
    method CopyString(out: array<char>) returns (ok: bool, i: nat)
      requires Valid() && out != buf
      modifies this, out
      ensures Valid() && i <= Room(out) && (out.Length > 0 ==> i < out.Length)
      ensures ok == Spec.StringRest(old(Rest()), Room(out)).Ok?
      ensures if ok then After(Spec.StringRest(old(Rest()), Room(out))) && err == old(err)
                         && out[..i] == Spec.StringRest(old(Rest()), Room(out)).v
              else err
    {
      i := 0;
      ok := true;
      ghost var goal := Spec.StringRest(Rest(), Room(out));
      GlueNone(goal);
      assert out[..0] == "";
      while p < buf.Length && buf[p] != '"'
        invariant Valid() && err == old(err) && ok
        invariant i <= Room(out) && (out.Length > 0 ==> i < out.Length)
        invariant goal == Glue(out[..i], Spec.StringRest(Rest(), Room(out) - i))
        decreases buf.Length - p
      {
        ok := CopyChar(out, i);
        if !ok {
          return;
        }
        i := i + 1;
      }
      ok := CloseString(Room(out) - i);
    }

    /** Steps over the closing quote. */
    method CloseString(ghost room: nat) returns (ok: bool)
      requires Valid() && (p < buf.Length ==> buf[p] == '"')
      modifies this
      ensures Valid() && ok == Spec.StringRest(old(Rest()), room).Ok?
      ensures ok ==> Spec.StringRest(old(Rest()), room) == Spec.Ok("", Rest()) && err == old(err)
      ensures !ok ==> err
    {
      if p >= buf.Length {
        err := true;
        return false;
      }
      p := p + 1;
      ok := true;
    }

    /** Reads one character into place i; fails when it is malformed or the buffer is full. */
    method CopyChar(out: array<char>, i: nat) returns (ok: bool)
      requires Valid() && out != buf && p < buf.Length && buf[p] != '"'
      requires i <= Room(out) && (out.Length > 0 ==> i < out.Length)
      modifies this, out
      ensures Valid() && p > old(p)
      ensures if ok then err == old(err) && i < Room(out) else err
      ensures !ok ==> Spec.StringRest(old(Rest()), Room(out) - i).Fail?
      ensures ok ==> (Glue(old(out[..i]), Spec.StringRest(old(Rest()), Room(out) - i))
                      == Glue(out[..i + 1], Spec.StringRest(Rest(), Room(out) - i - 1)))
    {
      ghost var got, here := out[..i], Rest();
      var ch;
      ok, ch := ReadChar();
      if !ok {
        return;
      }
      if i + 1 >= out.Length {
        err := true;
        return false;
      }
      out[i] := ch;
      assert out[..i + 1] == got + [ch];
      CopyNext(here, got, ch, Rest(), Room(out) - i);
    }

    /** The bytes a buffer has besides its NUL. */
    static function Room(out: array<char>): nat {
      if out.Length == 0 then 0 else out.Length - 1
    }

    /** Copies a string into `out` and terminates it, never past the end of `out`. */
    method ReadString(out: array<char>) returns (ok: bool)
      requires Valid() && out != buf
      modifies this, out
      ensures Valid() && ok == Spec.ReadString(old(Rest()), out.Length).Ok?
      ensures if ok then After(Spec.ReadString(old(Rest()), out.Length)) && err == old(err) else err
      ensures ok && out.Length > 0 ==>
        var v := Spec.ReadString(old(Rest()), out.Length).v;
        out[..|v|] == v && out[|v|] == '\0'
    {
      SkipWs();
      if p >= buf.Length || buf[p] != '"' {
        err := true;
        return false;
      }
      p := p + 1;
      var i;
      ok, i := CopyString(out);
      if ok && out.Length > 0 {
        out[i] := '\0';
      }
    }

    lemma GlueNone(r: Spec.Read<string>)
      ensures Glue("", r) == r
    {
      if r.Ok? {
        assert "" + r.v == r.v;
      }
    }

    lemma GlueOne(got: string, ch: char, r: Spec.Read<string>)
      ensures Glue(got, Spec.Prepend(ch, r)) == Glue(got + [ch], r)
    {
      if r.Ok? {
        assert got + ([ch] + r.v) == (got + [ch]) + r.v;
      }
    }

    /** What is left to copy after one more character. */
    lemma CopyNext(s: string, got: string, ch: char, t: string, room: nat)
      requires s != "" && s[0] != '"' && Spec.StringChar(s) == Spec.Ok(ch, t) && room > 0
      ensures Glue(got, Spec.StringRest(s, room)) == Glue(got + [ch], Spec.StringRest(t, room - 1))
    {
      GlueOne(got, ch, Spec.StringRest(t, room - 1));
    }

    /** One character of a string, plain or escaped. */
    method ReadChar() returns (ok: bool, ch: char)
      requires Valid() && p < buf.Length
      modifies this
      ensures Valid() && p > old(p) && ok == Spec.StringChar(old(Rest())).Ok?
      ensures if ok then After(Spec.StringChar(old(Rest()))) && err == old(err)
                         && ch == Spec.StringChar(old(Rest())).v
              else err
    {
      ghost var here := Rest();
      ch := buf[p];
      p := p + 1;
      assert Rest() == here[1..];
      if ch != '\\' {
        return true, ch;
      }
      if p >= buf.Length {
        err := true;
        return false, ch;
      }
      var un := Spec.Unescape(buf[p]);
      p := p + 1;
      assert Rest() == here[2..];
      if un.None? {
        err := true;
        return false, ch;
      }
      return true, un.value;
    }

    /** A string as the C string its buffer of `cap` bytes holds afterwards. */
    method ReadName(cap: nat) returns (ok: bool, name: string)
      requires Valid() && cap > 0
      modifies this
      ensures Valid() && ok == Spec.ReadString(old(Rest()), cap).Ok?
      ensures if ok then After(Spec.ReadString(old(Rest()), cap)) && err == old(err)
                         && name == Spec.CStr(Spec.ReadString(old(Rest()), cap).v)
              else err
    {
      var out := new char[cap];
      name := "";
      ok := ReadString(out);
      if ok {
        name := Spec.CStr(out[..]);
        CStrOfBuffer(Spec.ReadString(old(Rest()), cap).v, out[..]);
      }
    }

    method ReadNumber() returns (ok: bool, v: Decimal)
      requires Valid()
      modifies this
      ensures Valid() && ok == Spec.ReadNumber(old(Rest())).Ok?
      ensures if ok then After(Spec.ReadNumber(old(Rest()))) && err == old(err)
                         && v == Spec.ReadNumber(old(Rest())).v
              else err
    {
      SkipWs();
      var r := Spec.Strtod(buf[p..]);
      match r
      case Fail =>
        err := true;
        return false, ZERO;
      case Ok(x, rest) =>
        StrtodSuffix(buf[p..]);
        MoveTo(rest);
        return true, x;
    }

    /** Moves on to where only `rest` remains. */
    method MoveTo(rest: string)
      requires Valid() && Suffix(rest, Rest())
      modifies this
      ensures Valid() && Rest() == rest && err == old(err)
    {
      p := buf.Length - |rest|;
    }

    /** Where a failed key leaves the cursor: on what is no quote, with `err` as it was; back on the quote
        of a string that could not be read; or on what stands in place of the colon. */
    ghost predicate KeyFailure(before: string, cap: nat, rest: string, was: bool, now: bool) {
      var t, key := Spec.SkipWs(before), Spec.ReadString(before, cap);
      if t == "" || t[0] != '"' then rest == t && now == was
      else if key.Fail? then rest == t && now
      else rest == Spec.SkipWs(key.rest) && now
    }

    method PeekKey(cap: nat) returns (ok: bool, key: string)
      requires Valid() && cap > 0
      modifies this
      ensures Valid() && ok == Spec.PeekKey(old(Rest()), cap).Ok?
      ensures ok ==> After(Spec.PeekKey(old(Rest()), cap)) && err == old(err)
                     && key == Spec.CStr(Spec.PeekKey(old(Rest()), cap).v)
      ensures !ok ==> KeyFailure(old(Rest()), cap, Rest(), old(err), err)
    {
      SkipWs();
      key := "";
      if p >= buf.Length || buf[p] != '"' {
        return false, key;
      }
      var save := p;
      assert Spec.SkipWs(Rest()) == Rest();
      ok, key := ReadName(cap);
      if !ok {
        p := save;
        return false, key;
      }
      SkipWs();
      if p >= buf.Length || buf[p] != ':' {
        err := true;
        return false, key;
      }
      p := p + 1;
    }

    method SkipStringBody() returns (ok: bool)
      requires Valid()
      modifies this
      ensures Valid() && ok == Spec.SkipStringBody(old(Rest())).Ok?
      ensures if ok then After(Spec.SkipStringBody(old(Rest()))) && err == old(err) else err
    {
      while p < buf.Length && buf[p] != '"'
        invariant Valid() && err == old(err)
        invariant Spec.SkipStringBody(Rest()) == Spec.SkipStringBody(old(Rest()))
      {
        ghost var here := Rest();
        if buf[p] == '\\' && p + 1 < buf.Length {
          p := p + 2;
          assert Rest() == here[2..];
        } else {
          p := p + 1;
          assert Rest() == here[1..];
        }
      }
      if p >= buf.Length {
        err := true;
        return false;
      }
      p := p + 1;
      return true;
    }

    method SkipNested(open: char) returns (ok: bool)
      requires Valid()
      modifies this
      ensures Valid() && ok == Spec.SkipNested(old(Rest()), open, 1).Ok?
      ensures if ok then After(Spec.SkipNested(old(Rest()), open, 1)) && err == old(err) else err
    {
      var close := if open == '{' then '}' else ']';
      var depth := 1;
      while p < buf.Length && depth > 0
        invariant Valid() && err == old(err) && depth >= 0
        invariant Spec.SkipNested(Rest(), open, depth) == Spec.SkipNested(old(Rest()), open, 1)
        decreases buf.Length - p
      {
        ghost var here := Rest();
        ghost var at := p;
        var cc := buf[p];
        p := p + 1;
        assert Rest() == here[1..];
        if cc == '"' {
          var skipped := SkipStringBody();
          if !skipped {
            return false;
          }
          assert |Rest()| < |here|;
        } else if cc == open {
          depth := depth + 1;
        } else if cc == close {
          depth := depth - 1;
        }
      }
      if depth != 0 {
        err := true;
        return false;
      }
      return true;
    }

    method SkipValue() returns (ok: bool)
      requires Valid()
      modifies this
      ensures Valid() && ok == Spec.SkipValue(old(Rest())).Ok?
      ensures if ok then After(Spec.SkipValue(old(Rest()))) && err == old(err) else err
    {
      SkipWs();
      if p >= buf.Length {
        err := true;
        return false;
      }
      ghost var here := Rest();
      var ch := buf[p];
      if ch == '"' {
        p := p + 1;
        assert Rest() == here[1..];
        ok := SkipStringBody();
        return;
      }
      if ch == '{' || ch == '[' {
        p := p + 1;
        assert Rest() == here[1..];
        ok := SkipNested(ch);
        return;
      }
      if ch == 't' || ch == 'f' || ch == 'n' {
        var lit := if ch == 't' then "true" else if ch == 'f' then "false" else "null";
        ok := TakeLiteral(lit);
        if !ok {
          err := true;
        }
        return;
      }
      assert Spec.SkipWs(here) == here;
      var v;
      ok, v := ReadNumber();
    }

    /** `memcmp` with a literal, within the buffer. */
    method TakeLiteral(lit: string) returns (ok: bool)
      requires Valid()
      modifies this
      ensures Valid() && ok == (lit <= old(Rest())) && err == old(err)
      ensures if ok then Rest() == old(Rest())[|lit|..] else p == old(p)
    {
      if buf.Length - p < |lit| || buf[p..p + |lit|] != lit {
        assert |lit| <= |Rest()| ==> Rest()[..|lit|] == buf[p..p + |lit|];
        return false;
      }
      assert Rest()[..|lit|] == buf[p..p + |lit|];
      p := p + |lit|;
      return true;
    }

    // -------------------------------------------------------- sessions

    /** The value of one session key. */
    method SessionField(d: Spec.SessionDraft, key: string) returns (ok: bool, d': Spec.SessionDraft)
      requires Valid()
      modifies this
      ensures Valid() && ok == Spec.SessionField(d, key, old(Rest())).Ok?
      ensures ok ==> After(Spec.SessionField(d, key, old(Rest()))) && err == old(err)
                     && d' == Spec.SessionField(d, key, old(Rest())).v
    {
      d' := d;
      if key == "type" {
        var name;
        ok, name := ReadName(Spec.TYPE_CAP);
        if !ok {
          return;
        }
        if Spec.HasControl(name) {
          err := true;
          return false, d;
        }
        d' := d.(out := d.out.(kind := name), haveType := true);
      } else if key == "used_pct" {
        var v;
        ok, v := ReadNumber();
        if !ok {
          return;
        }
        if Negative(v) || Above(v, 1) {
          err := true;
          return false, d;
        }
        d' := d.(out := d.out.(usedPct := v), havePct := true);
      } else if key == "resets_at" {
        var v;
        ok, v := ReadNumber();
        if ok {
          d' := d.(out := d.out.(resetsAt := Trunc(v)), haveReset := true);
        }
      } else if key == "rolling" {
        SkipWs();
        ok := TakeLiteral("true");
        if ok {
          d' := d.(out := d.out.(rolling := true));
          return;
        }
        ok := TakeLiteral("false");
        if ok {
          d' := d.(out := d.out.(rolling := false));
        } else {
          err := true;
        }
      } else if key == "window_duration_mins" {
        var v;
        ok, v := ReadNumber();
        if ok {
          d' := d.(out := d.out.(windowMins := Spec.ClampMinutes(v)));
        }
      } else {
        ok := SkipValue();
      }
    }

    /** `,` asks for another turn, `close` ends the list. */
    method Separator(close: char) returns (ok: bool, more: bool)
      requires Valid()
      modifies this
      ensures Valid() && ok == Spec.Separator((), close, old(Rest())).Ok?
      ensures if ok then After(Spec.Separator((), close, old(Rest()))) && err == old(err)
                         && more == Spec.Separator((), close, old(Rest())).v.more
              else err
    {
      SkipWs();
      if p < buf.Length && buf[p] == ',' {
        p := p + 1;
        return true, true;
      }
      if p < buf.Length && buf[p] == close {
        p := p + 1;
        return true, false;
      }
      err := true;
      return false, false;
    }

    /** One turn of the loop over the members of a session object. */
    method SessionTurn(d: Spec.SessionDraft) returns (ok: bool, more: bool, d': Spec.SessionDraft)
      requires Valid()
      modifies this
      ensures Valid() && ok == Spec.SessionTurn(d, old(Rest())).Ok?
      ensures ok ==> After(Spec.SessionTurn(d, old(Rest()))) && err == old(err)
                     && Spec.Turn(d', more) == Spec.SessionTurn(d, old(Rest())).v
    {
      more, d' := false, d;
      SkipWs();
      if p < buf.Length && buf[p] == '}' {
        p := p + 1;
        return true, false, d;
      }
      var key;
      ok, key := PeekKey(Spec.SESSION_KEY_CAP);
      if !ok {
        return;
      }
      ok, d' := SessionField(d, key);
      if !ok {
        return;
      }
      ok, more := Separator('}');
    }

    method ParseSession() returns (ok: bool, out: Session)
      requires Valid()
      modifies this
      ensures Valid() && ok == Spec.ParseSession(old(Rest())).Ok?
      ensures ok ==> After(Spec.ParseSession(old(Rest()))) && err == old(err)
                     && out == Spec.ParseSession(old(Rest())).v
    {
      out := Spec.NO_SESSION;
      ok := Eat('{');
      if !ok {
        return;
      }
      ghost var start := Rest();
      var d := Spec.EMPTY_SESSION;
      var more := true;
      while more
        invariant Valid() && err == old(err)
        invariant Spec.SessionMembers(Spec.EMPTY_SESSION, start)
               == if more then Spec.SessionMembers(d, Rest()) else Spec.SessionDone(d, Rest())
        decreases more, buf.Length - p
      {
        ghost var here := Rest();
        ok, more, d := SessionTurn(d);
        if !ok {
          return;
        }
        assert |Rest()| < |here|;
      }
      out := d.out;
      if !d.haveType || !d.havePct || !d.haveReset || out.kind == "" {
        return false, out;
      }
      return true, out;
    }

    method DropSessions() returns (ok: bool)
      requires Valid()
      modifies this
      ensures Valid() && ok == Spec.DropSessions(old(Rest()), 0).Ok?
      ensures if ok then After(Spec.DropSessions(old(Rest()), 0)) && err == old(err) else err
    {
      var depth := 0;
      while p < buf.Length
        invariant Valid() && err == old(err) && depth >= 0
        invariant Spec.DropSessions(Rest(), depth) == Spec.DropSessions(old(Rest()), 0)
      {
        ghost var here := Rest();
        var ch := buf[p];
        p := p + 1;
        assert Rest() == here[1..];
        if ch == '{' {
          depth := depth + 1;
        } else if ch == '}' {
          if depth == 0 {
            err := true;
            return false;
          }
          depth := depth - 1;
        } else if ch == ']' && depth == 0 {
          return true;
        }
      }
      err := true;
      return false;
    }

    /** One turn of the loop over the session array. */
    method ElementTurn(got: seq<Session>) returns (ok: bool, more: bool, list: seq<Session>)
      requires Valid() && |got| <= Spec.MAX_SESSIONS
      modifies this
      ensures Valid() && ok == Spec.ElementTurn(got, old(Rest())).Ok?
      ensures ok ==> After(Spec.ElementTurn(got, old(Rest()))) && err == old(err)
                     && Spec.Turn(list, more) == Spec.ElementTurn(got, old(Rest())).v
    {
      more, list := false, got;
      SkipWs();
      if p < buf.Length && buf[p] == ']' {
        p := p + 1;
        return true, false, got;
      }
      if |got| >= Spec.MAX_SESSIONS {
        ok := DropSessions();
        return;
      }
      var one;
      ok, one := ParseSession();
      if !ok {
        return;
      }
      list := got + [one];
      ok, more := Separator(']');
    }

    method ParseSessions() returns (ok: bool, list: seq<Session>)
      requires Valid()
      modifies this
      ensures Valid() && ok == Spec.Sessions([], old(Rest())).Ok?
      ensures ok ==> After(Spec.Sessions([], old(Rest()))) && err == old(err)
                     && list == Spec.Sessions([], old(Rest())).v
    {
      list := [];
      var more := true;
      ok := true;
      while more
        invariant Valid() && err == old(err) && ok && |list| <= Spec.MAX_SESSIONS
        invariant Spec.Sessions([], old(Rest()))
               == if more then Spec.Sessions(list, Rest()) else Spec.Ok(list, Rest())
        decreases more, buf.Length - p
      {
        ghost var here := Rest();
        ok, more, list := ElementTurn(list);
        if !ok {
          return;
        }
        assert |Rest()| < |here|;
      }
    }

    // -------------------------------------------------------- snapshot

    /** The value of one top-level key. */
    method TopField(d: Spec.Draft, key: string) returns (ok: bool, d': Spec.Draft)
      requires Valid()
      modifies this
      ensures Valid() && ok == Spec.TopField(d, key, old(Rest())).Ok?
      ensures ok ==> After(Spec.TopField(d, key, old(Rest()))) && err == old(err)
                     && d' == Spec.TopField(d, key, old(Rest())).v
    {
      d' := d;
      if key == "agent" {
        var name;
        ok, name := ReadName(Spec.AGENT_CAP);
        if !ok {
          return;
        }
        if !Spec.IsKnownAgent(name) {
          err := true;
          return false, d;
        }
        d' := d.(out := d.out.(agent := name), haveAgent := true);
      } else if key == "captured_at" {
        var v;
        ok, v := ReadNumber();
        if ok {
          d' := d.(out := d.out.(capturedAt := Trunc(v)), haveCaptured := true);
        }
      } else if key == "sessions" {
        ok := Eat('[');
        if !ok {
          return;
        }
        var list;
        ok, list := ParseSessions();
        if ok {
          d' := d.(out := d.out.(sessions := list), haveSessions := true);
        }
      } else {
        ok := SkipValue();
      }
    }

    /** One turn of the loop over the top-level members. */
    method TopTurn(d: Spec.Draft) returns (ok: bool, more: bool, d': Spec.Draft)
      requires Valid()
      modifies this
      ensures Valid() && ok == Spec.TopTurn(d, old(Rest())).Ok?
      ensures ok ==> After(Spec.TopTurn(d, old(Rest()))) && err == old(err)
                     && Spec.Turn(d', more) == Spec.TopTurn(d, old(Rest())).v
    {
      more, d' := false, d;
      SkipWs();
      if p < buf.Length && buf[p] == '}' {
        p := p + 1;
        return true, false, d;
      }
      var key;
      ok, key := PeekKey(Spec.TOP_KEY_CAP);
      if !ok {
        return;
      }
      ok, d' := TopField(d, key);
      if !ok {
        return;
      }
      ok, more := Separator('}');
    }

    /** Reads one snapshot.  Success implies that no error was recorded on the way. */
    method ParseSnapshot() returns (ok: bool, out: Snapshot)
      requires Valid()
      modifies this
      ensures Valid() && ok == Spec.ParseSnapshot(old(Rest())).Ok?
      ensures ok ==> After(Spec.ParseSnapshot(old(Rest()))) && err == old(err)
                     && out == Spec.ParseSnapshot(old(Rest())).v
    {
      out := Spec.NO_SNAPSHOT;
      ok := Eat('{');
      if !ok {
        return;
      }
      ghost var start := Rest();
      var d := Spec.EMPTY_DRAFT;
      var more := true;
      while more
        invariant Valid() && err == old(err)
        invariant Spec.TopMembers(Spec.EMPTY_DRAFT, start)
               == if more then Spec.TopMembers(d, Rest()) else Spec.SnapshotDone(d, Rest())
        decreases more, buf.Length - p
      {
        ghost var here := Rest();
        ok, more, d := TopTurn(d);
        if !ok {
          return;
        }
        assert |Rest()| < |here|;
      }
      out := d.out;
      ok := d.haveAgent && d.haveCaptured && d.haveSessions && |out.sessions| > 0;
    }
  }
}
