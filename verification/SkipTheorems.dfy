/** The cursor against the grammar: strings, numbers, and skipping whole values. */
module SkipTheorems {
  import opened Decimals
  import opened JsonText
  import opened CursorSpec

  lemma {:induction false} SkipWsPast(w: string, r: string)
    requires AllSpace(w)
    ensures SkipWs(w + r) == SkipWs(r)
  {
    if w == "" {
      assert w + r == r;
    } else {
      assert (w + r)[1..] == w[1..] + r;
      SkipWsPast(w[1..], r);
    }
  }

  // ------------------------------------------------------------- strings

  /** The string a body stands for, when `read_string` knows all its escapes. */
  function Decode(b: Body): Option<string> {
    if b == [] then Some("")
    else
      var c := match b[0] case Raw(c) => Some(c) case Esc(c) => Unescape(c);
      match (c, Decode(b[1..]))
      case (Some(c), Some(v)) => Some([c] + v)
      case _ => None
  }

  /** The string a body stands for, when it fits a buffer of `cap` bytes. */
  function DecodeFor(b: Body, cap: nat): Option<string> {
    match Decode(b)
    case Some(v) => if |v| < cap then Some(v) else None
    case None => None
  }

  function Outcome<T>(v: Option<T>, rest: string): Read<T> {
    match v
    case Some(v) => Ok(v, rest)
    case None => Fail
  }

  lemma {:induction false} StringRestReads(b: Body, room: nat, r: string)
    requires ValidBody(b)
    ensures StringRest(PutBody(b, ['"'] + r), room) == Outcome(DecodeFor(b, room + 1), r)
  {
    if b != [] {
      var s := PutBody(b, ['"'] + r);
      var s' := PutBody(b[1..], ['"'] + r);
      if b[0].Esc? {
        assert s[2..] == s';
      } else {
        assert s[1..] == s';
      }
      if room > 0 {
        StringRestReads(b[1..], room - 1, r);
      }
    }
  }

  /** `read_string` takes exactly the texts it can decode and that fit the buffer. */
  lemma ReadStringReads(w: string, b: Body, cap: nat, r: string)
    requires AllSpace(w) && ValidBody(b) && cap > 0
    ensures ReadString(w + PutStr(b, r), cap) == Outcome(DecodeFor(b, cap), r)
  {
    SkipWsPast(w, PutStr(b, r));
    StringRestReads(b, cap - 1, r);
  }

  lemma PeekKeyReads(w: string, b: Body, cap: nat, mid: string, r: string)
    requires AllSpace(w) && ValidBody(b) && AllSpace(mid) && cap > 0
    ensures PeekKey(w + PutStr(b, mid + ([':'] + r)), cap) == Outcome(DecodeFor(b, cap), r)
  {
    ReadStringReads(w, b, cap, mid + ([':'] + r));
    SkipWsPast(mid, [':'] + r);
  }

  /** `skip_string_body` stops just after the closing quote, whatever the string holds. */
  lemma {:induction false} SkipStringBodyReads(b: Body, r: string)
    requires ValidBody(b)
    ensures SkipStringBody(PutBody(b, ['"'] + r)) == Ok((), r)
  {
    if b != [] {
      var s := PutBody(b, ['"'] + r);
      var s' := PutBody(b[1..], ['"'] + r);
      SkipStringBodyReads(b[1..], r);
      if b[0].Esc? {
        assert s[2..] == s';
      } else {
        assert s[1..] == s';
      }
    }
  }

  // ------------------------------------------------------------- numbers

  /** What may follow a number so that no reader takes more than the number. */
  predicate Delimits(r: string) {
    r == "" || IsSpace(r[0]) || r[0] == ',' || r[0] == ']' || r[0] == '}'
  }

  lemma {:induction false} DigitsReads(d: string, r: string)
    requires AllDigits(d) && (r == "" || !IsDigit(r[0]))
    ensures Digits(d + r) == d && (d + r)[|d|..] == r
  {
    if d == "" {
      assert d + r == r;
    } else {
      assert (d + r)[1..] == d[1..] + r;
      DigitsReads(d[1..], r);
    }
  }

  lemma SignReads(x: Sign, r: string)
    requires r != "" && IsDigit(r[0])
    ensures ReadSign(PutSign(x, r)) == (x.Minus?, r)
  {
  }

  lemma ExponentReadsBack(x: Exponent, r: string)
    requires ValidExponent(x) && Delimits(r)
    ensures ReadExponent([x.mark] + PutSign(x.sign, x.digits + r)) == (ExponentValue(x), r)
  {
    assert (x.digits + r)[0] == x.digits[0];
    SignReads(x.sign, x.digits + r);
    DigitsReads(x.digits, r);
    ExponentFrom(x, PutSign(x.sign, x.digits + r), x.digits + r, r);
  }

  /** `ReadExponent` from what its parts read. */
  lemma ExponentFrom(x: Exponent, s: string, t: string, r: string)
    requires x.mark == 'e' || x.mark == 'E'
    requires x.digits != "" && ReadSign(s) == (x.sign.Minus?, t)
    requires Digits(t) == x.digits && t[|x.digits|..] == r
    ensures ReadExponent([x.mark] + s) == (ExponentValue(x), r)
  {
    assert ([x.mark] + s)[1..] == s;
  }

  lemma TailReads(x: Option<Exponent>, r: string)
    requires x.Some? ==> ValidExponent(x.value)
    requires Delimits(r)
    ensures ReadExponent(PutExponent(x, r)) == (if x.Some? then ExponentValue(x.value) else 0, r)
    ensures var s := PutExponent(x, r); s == "" || (!IsDigit(s[0]) && s[0] != '.')
  {
    if x.Some? {
      ExponentReadsBack(x.value, r);
    }
  }

  lemma FractionReads(frac: string, r: string)
    requires AllDigits(frac) && (r == "" || (!IsDigit(r[0]) && r[0] != '.'))
    ensures ReadFraction(PutFrac(frac, r)) == (frac, r)
    ensures var s := PutFrac(frac, r); s == "" || !IsDigit(s[0])
  {
    if frac != "" {
      DigitsReads(frac, r);
      assert PutFrac(frac, r)[1..] == frac + r;
    }
  }

  /** `ReadUnsigned` from what its three parts read. */
  lemma UnsignedFrom(t: NumTok, s: string, mid: string, u: string, r: string)
    requires t.whole != "" && Digits(s) == t.whole && s[|t.whole|..] == mid
    requires ReadFraction(mid) == (t.frac, u)
    requires ReadExponent(u) == (TokExponent(t), r)
    ensures ReadUnsigned(s, t.neg) == Ok(NumValue(t), r)
  {
  }

  lemma UnsignedReads(t: NumTok, r: string)
    requires ValidNum(t) && Delimits(r)
    ensures ReadUnsigned(t.whole + PutFrac(t.frac, PutExponent(t.exp, r)), t.neg) == Ok(NumValue(t), r)
  {
    var u := PutExponent(t.exp, r);
    TailReads(t.exp, r);
    FractionReads(t.frac, u);
    DigitsReads(t.whole, PutFrac(t.frac, u));
    UnsignedFrom(t, t.whole + PutFrac(t.frac, u), PutFrac(t.frac, u), u, r);
  }

  lemma NumStarts(t: NumTok, r: string)
    requires ValidNum(t)
    ensures var s := PutNum(t, r); s != "" && (s[0] == '-' || IsDigit(s[0]))
    ensures ReadSign(PutNum(t, r)) == (t.neg, t.whole + PutFrac(t.frac, PutExponent(t.exp, r)))
  {
    var u := t.whole + PutFrac(t.frac, PutExponent(t.exp, r));
    assert u[0] == t.whole[0];
    SignReads(if t.neg then Minus else NoSign, u);
  }

  lemma ReadNumberReads(w: string, t: NumTok, r: string)
    requires AllSpace(w) && ValidNum(t) && Delimits(r)
    ensures ReadNumber(w + PutNum(t, r)) == Ok(NumValue(t), r)
  {
    SkipWsPast(w, PutNum(t, r));
    NumStarts(t, r);
    UnsignedReads(t, r);
  }

  // ------------------------------------------------------ skipping values

  /** A text without quotes and brackets. */
  ghost predicate Inert(s: string) {
    forall i :: 0 <= i < |s| ==> s[i] !in "\"{}[]"
  }

  predicate IsOpen(c: char) {
    c == '{' || c == '['
  }

  lemma {:induction false} SkipNestedPast(s: string, r: string, open: char, depth: nat)
    requires Inert(s) && IsOpen(open) && depth > 0
    ensures SkipNested(s + r, open, depth) == SkipNested(r, open, depth)
  {
    if s == "" {
      assert s + r == r;
    } else {
      assert s[0] !in "\"{}[]" && s[0] != '"' && s[0] != '{' && s[0] != '}' && s[0] != '[' && s[0] != ']';
      assert (s + r)[1..] == s[1..] + r;
      SkipNestedPast(s[1..], r, open, depth);
    }
  }

  lemma SkipNestedNum(t: NumTok, r: string, open: char, depth: nat)
    requires ValidNum(t) && IsOpen(open) && depth > 0
    ensures SkipNested(PutNum(t, r), open, depth) == SkipNested(r, open, depth)
  {
    var x := PutExponent(t.exp, r);
    var f := PutFrac(t.frac, x);
    SkipNestedSign(if t.neg then Minus else NoSign, t.whole + f, open, depth);
    SkipNestedPast(t.whole, f, open, depth);
    if t.frac != "" {
      SkipNestedPast(['.'], t.frac + x, open, depth);
      SkipNestedPast(t.frac, x, open, depth);
    }
    if t.exp.Some? {
      var e := t.exp.value;
      SkipNestedPast([e.mark], PutSign(e.sign, e.digits + r), open, depth);
      SkipNestedSign(e.sign, e.digits + r, open, depth);
      SkipNestedPast(e.digits, r, open, depth);
    }
  }

  lemma SkipNestedSign(x: Sign, r: string, open: char, depth: nat)
    requires IsOpen(open) && depth > 0
    ensures SkipNested(PutSign(x, r), open, depth) == SkipNested(r, open, depth)
  {
    match x
    case NoSign =>
    case Plus => SkipNestedPast(['+'], r, open, depth);
    case Minus => SkipNestedPast(['-'], r, open, depth);
  }

  lemma SkipNestedStr(b: Body, r: string, open: char, depth: nat)
    requires ValidBody(b) && IsOpen(open) && depth > 0
    ensures SkipNested(PutStr(b, r), open, depth) == SkipNested(r, open, depth)
  {
    SkipStringBodyReads(b, r);
  }

  /** Counting only one kind of bracket, the scan crosses any value at its own depth. */
  lemma {:induction false} SkipNestedReads(v: Json, r: string, open: char, depth: nat)
    requires Valid(v) && IsOpen(open) && depth > 0
    ensures SkipNested(Put(v, r), open, depth) == SkipNested(r, open, depth)
    decreases v, 0
  {
    match v
    case JTrue => SkipNestedPast("true", r, open, depth);
    case JFalse => SkipNestedPast("false", r, open, depth);
    case JNull => SkipNestedPast("null", r, open, depth);
    case JNum(t) => SkipNestedNum(t, r, open, depth);
    case JStr(b) => SkipNestedStr(b, r, open, depth);
    case JArr(pad, es) =>
      var d := if open == '[' then depth + 1 else depth;
      SkipNestedElems(es, [']'] + r, open, d);
      SkipNestedGroup('[', pad, PutElems(es, [']'] + r), r, open, depth);
    case JObj(pad, ms) =>
      var d := if open == '{' then depth + 1 else depth;
      SkipNestedMembers(ms, ['}'] + r, open, d);
      SkipNestedGroup('{', pad, PutMembers(ms, ['}'] + r), r, open, depth);
  }

  /** A bracketed group, of the counted kind or of the other one. */
  lemma SkipNestedGroup(mine: char, pad: string, inside: string, r: string, open: char, depth: nat)
    requires IsOpen(open) && IsOpen(mine) && AllSpace(pad) && depth > 0
    requires var d := if mine == open then depth + 1 else depth;
             SkipNested(inside, open, d) == SkipNested([Closer(mine)] + r, open, d)
    ensures SkipNested([mine] + (pad + inside), open, depth) == SkipNested(r, open, depth)
  {
    var d := if mine == open then depth + 1 else depth;
    SkipNestedPast(pad, inside, open, d);
    assert ([mine] + (pad + inside))[1..] == pad + inside;
    assert ([Closer(mine)] + r)[1..] == r;
  }

  lemma {:induction false} SkipNestedElems(es: Elems, r: string, open: char, depth: nat)
    requires ValidElems(es) && IsOpen(open) && depth > 0
    ensures SkipNested(PutElems(es, r), open, depth) == SkipNested(r, open, depth)
    decreases es, 1
  {
    match es
    case ENil =>
    case ECons(pre, v, post, rest) =>
      SkipNestedElems(rest, r, open, depth);
      var tail := if rest.ENil? then r else [','] + PutElems(rest, r);
      SkipNestedPast(pre, Put(v, post + tail), open, depth);
      SkipNestedReads(v, post + tail, open, depth);
      SkipNestedPast(post, tail, open, depth);
  }

  lemma {:induction false} SkipNestedMembers(ms: Members, r: string, open: char, depth: nat)
    requires ValidMembers(ms) && IsOpen(open) && depth > 0
    ensures SkipNested(PutMembers(ms, r), open, depth) == SkipNested(r, open, depth)
    decreases ms, 1
  {
    match ms
    case MNil =>
    case MCons(m, rest) =>
      SkipNestedMembers(rest, r, open, depth);
      var tail := if rest.MNil? then r else [','] + PutMembers(rest, r);
      SkipNestedMember(m, tail, open, depth);
  }

  lemma {:induction false} SkipNestedMember(m: Member, tail: string, open: char, depth: nat)
    requires AllSpace(m.pre) && ValidBody(m.key) && AllSpace(m.mid) && AllSpace(m.gap) && Valid(m.v) && AllSpace(m.post)
    requires IsOpen(open) && depth > 0
    ensures SkipNested(m.pre + PutStr(m.key, m.mid + ([':'] + (m.gap + Put(m.v, m.post + tail)))), open, depth)
         == SkipNested(tail, open, depth)
    decreases m, 1
  {
    SkipNestedReads(m.v, m.post + tail, open, depth);
    SkipNestedPast(m.post, tail, open, depth);
    SkipNestedKey(m, Put(m.v, m.post + tail), open, depth);
  }

  lemma SkipNestedKey(m: Member, value: string, open: char, depth: nat)
    requires AllSpace(m.pre) && ValidBody(m.key) && AllSpace(m.mid) && AllSpace(m.gap)
    requires IsOpen(open) && depth > 0
    ensures SkipNested(m.pre + PutStr(m.key, m.mid + ([':'] + (m.gap + value))), open, depth)
         == SkipNested(value, open, depth)
  {
    var s := [':'] + (m.gap + value);
    SkipNestedPast(m.gap, value, open, depth);
    SkipNestedPast([':'], m.gap + value, open, depth);
    SkipNestedPast(m.mid, s, open, depth);
    SkipNestedStr(m.key, m.mid + s, open, depth);
    SkipNestedPast(m.pre, PutStr(m.key, m.mid + s), open, depth);
  }

  /** `skip_value` advances exactly past one value of any shape and depth.  A bare number
      must not run into further digits. */
  lemma SkipValueReads(w: string, v: Json, r: string)
    requires AllSpace(w) && Valid(v)
    requires v.JNum? ==> Delimits(r)
    ensures SkipValue(w + (Text(v) + r)) == Ok((), r)
  {
    PutIsText(v, r);
    SkipValuePut(w, v, r);
  }

  lemma SkipValuePut(w: string, v: Json, r: string)
    requires AllSpace(w) && Valid(v)
    requires v.JNum? ==> Delimits(r)
    ensures SkipValue(w + Put(v, r)) == Ok((), r)
  {
    SkipWsPast(w, Put(v, r));
    match v
    case JTrue =>
    case JFalse =>
    case JNull =>
    case JNum(t) => SkipNum(t, r);
    case JStr(b) => SkipStringBodyReads(b, r);
    case JArr(pad, es) =>
      SkipNestedElems(es, [']'] + r, '[', 1);
      SkipGroup(pad, PutElems(es, [']'] + r), '[', r);
    case JObj(pad, ms) =>
      SkipNestedMembers(ms, ['}'] + r, '{', 1);
      SkipGroup(pad, PutMembers(ms, ['}'] + r), '{', r);
  }

  lemma SkipGroup(pad: string, inside: string, open: char, r: string)
    requires IsOpen(open) && AllSpace(pad)
    requires SkipNested(inside, open, 1) == SkipNested([Closer(open)] + r, open, 1)
    ensures SkipValue([open] + (pad + inside)) == Ok((), r)
  {
    SkipNestedPast(pad, inside, open, 1);
    OneMore(Closer(open), open, r);
    assert ([open] + (pad + inside))[1..] == pad + inside;
  }

  lemma OneMore(close: char, open: char, r: string)
    requires IsOpen(open) && close == Closer(open)
    ensures SkipNested([close] + r, open, 1) == Ok((), r)
  {
    assert ([close] + r)[1..] == r;
  }

  lemma SkipNum(t: NumTok, r: string)
    requires ValidNum(t) && Delimits(r)
    ensures SkipValue(PutNum(t, r)) == Ok((), r)
  {
    ReadNumberReads("", t, r);
    NumStarts(t, r);
    assert "" + PutNum(t, r) == PutNum(t, r);
    SkipNumFrom(PutNum(t, r), NumValue(t), r);
  }

  lemma SkipNumFrom(s: string, v: Decimal, r: string)
    requires s != "" && (s[0] == '-' || IsDigit(s[0])) && ReadNumber(s) == Ok(v, r)
    ensures SkipValue(s) == Ok((), r)
  {
  }
}
