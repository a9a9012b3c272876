/** JSON texts of RFC 8259 as concrete syntax trees.

    A tree keeps everything a text can choose: white space, key order, duplicate keys,
    string escapes and number tokens.  Printers take the text that follows, so that
    `Put(v, r)` is the text of v with r after it. */
module JsonText {
  import opened Decimals

  /** `isspace` in the C locale; a superset of the white space of RFC 8259, section 2. */
  predicate IsSpace(c: char) {
    c == ' ' || c == '\t' || c == '\n' || c == '\r' || c as int == 11 || c as int == 12
  }

  /** The white space of RFC 8259, section 2, and beside it only vertical tab and form feed. */
  lemma SpaceIs(c: char)
    ensures c in " \t\n\r" ==> IsSpace(c)
    ensures IsSpace(c) <==> c as int == 32 || 9 <= c as int <= 13
  {
  }

  ghost predicate AllSpace(w: string) {
    forall i :: 0 <= i < |w| ==> IsSpace(w[i])
  }

  /** One piece of a string: a raw character, or a backslash and the character after it
      (the four hex digits of a \u escape are then raw characters). */
  datatype Piece = Raw(c: char) | Esc(c: char)

  type Body = seq<Piece>

  datatype Json =
    | JTrue
    | JFalse
    | JNull
    | JNum(tok: NumTok)
    | JStr(body: Body)
    | JArr(pad: string, elems: Elems)
    | JObj(pad: string, members: Members)

  datatype Elems = ENil | ECons(pre: string, v: Json, post: string, rest: Elems)

  datatype Members = MNil | MCons(head: Member, rest: Members)

  /** pre "key" mid : gap value post */
  datatype Member = Member(pre: string, key: Body, mid: string, gap: string, v: Json, post: string)

  ghost predicate ValidBody(b: Body) {
    forall i :: 0 <= i < |b| && b[i].Raw? ==> b[i].c != '"' && b[i].c != '\\'
  }

  ghost predicate Valid(v: Json) {
    match v
    case JNum(t) => ValidNum(t)
    case JStr(b) => ValidBody(b)
    case JArr(pad, es) => AllSpace(pad) && ValidElems(es)
    case JObj(pad, ms) => AllSpace(pad) && ValidMembers(ms)
    case _ => true
  }

  ghost predicate ValidElems(es: Elems) {
    match es
    case ENil => true
    case ECons(pre, v, post, rest) => AllSpace(pre) && Valid(v) && AllSpace(post) && ValidElems(rest)
  }

  ghost predicate ValidMembers(ms: Members) {
    match ms
    case MNil => true
    case MCons(m, rest) =>
      && AllSpace(m.pre) && ValidBody(m.key) && AllSpace(m.mid) && AllSpace(m.gap)
      && Valid(m.v) && AllSpace(m.post) && ValidMembers(rest)
  }

  // ------------------------------------------------------------ printing

  function PutBody(b: Body, r: string): string {
    if b == [] then r
    else match b[0]
      case Raw(c) => [c] + PutBody(b[1..], r)
      case Esc(c) => ['\\'] + ([c] + PutBody(b[1..], r))
  }

  function PutStr(b: Body, r: string): string {
    ['"'] + PutBody(b, ['"'] + r)
  }

  function Put(v: Json, r: string): string {
    match v
    case JTrue => "true" + r
    case JFalse => "false" + r
    case JNull => "null" + r
    case JNum(t) => PutNum(t, r)
    case JStr(b) => PutStr(b, r)
    case JArr(pad, es) => ['['] + (pad + PutElems(es, [']'] + r))
    case JObj(pad, ms) => ['{'] + (pad + PutMembers(ms, ['}'] + r))
  }

  function PutElems(es: Elems, r: string): string {
    match es
    case ENil => r
    case ECons(pre, v, post, rest) =>
      pre + Put(v, post + (if rest.ENil? then r else [','] + PutElems(rest, r)))
  }

  function PutMembers(ms: Members, r: string): string {
    match ms
    case MNil => r
    case MCons(m, rest) =>
      m.pre + PutStr(m.key, m.mid + ([':'] + (m.gap + Put(m.v,
        m.post + (if rest.MNil? then r else [','] + PutMembers(rest, r))))))
  }

  /** The text of a tree. */
  function Text(v: Json): string {
    Put(v, "")
  }

  // `Put(v, r)` really is the text of v followed by r.

  lemma {:induction false} PutBodyText(b: Body, r: string, q: string)
    ensures PutBody(b, r + q) == PutBody(b, r) + q
  {
    if b != [] {
      PutBodyText(b[1..], r, q);
    }
  }

  lemma PutSignText(x: Sign, r: string, q: string)
    ensures PutSign(x, r + q) == PutSign(x, r) + q
  {
  }

  lemma PutExponentText(x: Option<Exponent>, r: string, q: string)
    ensures PutExponent(x, r + q) == PutExponent(x, r) + q
  {
    if x.Some? {
      var e := x.value;
      Assoc(e.digits, r, q);
      PutSignText(e.sign, e.digits + r, q);
      Assoc([e.mark], PutSign(e.sign, e.digits + r), q);
    }
  }

  lemma PutFracText(frac: string, r: string, q: string)
    ensures PutFrac(frac, r + q) == PutFrac(frac, r) + q
  {
    Assoc(frac, r, q);
    Assoc(['.'], frac + r, q);
  }

  lemma PutNumText(t: NumTok, r: string, q: string)
    ensures PutNum(t, r + q) == PutNum(t, r) + q
  {
    var x := PutExponent(t.exp, r);
    PutExponentText(t.exp, r, q);
    PutFracText(t.frac, x, q);
    var f := PutFrac(t.frac, x);
    Assoc(t.whole, f, q);
    PutSignText(if t.neg then Minus else NoSign, t.whole + f, q);
  }

  lemma {:induction false} PutText(v: Json, r: string, q: string)
    ensures Put(v, r + q) == Put(v, r) + q
    decreases v, 0
  {
    match v
    case JNum(t) => PutNumText(t, r, q);
    case JStr(b) =>
      assert ['"'] + (r + q) == (['"'] + r) + q;
      PutBodyText(b, ['"'] + r, q);
    case JArr(pad, es) =>
      assert [']'] + (r + q) == ([']'] + r) + q;
      PutElemsText(es, [']'] + r, q);
    case JObj(pad, ms) =>
      assert ['}'] + (r + q) == (['}'] + r) + q;
      PutMembersText(ms, ['}'] + r, q);
    case _ =>
  }

  lemma {:induction false} PutElemsText(es: Elems, r: string, q: string)
    ensures PutElems(es, r + q) == PutElems(es, r) + q
    decreases es, 2
  {
    match es
    case ENil =>
    case ECons(pre, v, post, rest) =>
      PutElemsText(rest, r, q);
      var tail := if rest.ENil? then r else [','] + PutElems(rest, r);
      assert (if rest.ENil? then r + q else [','] + PutElems(rest, r + q)) == tail + q;
      PutPaddedText(pre, v, post, tail, q);
  }

  lemma {:induction false} PutPaddedText(pre: string, v: Json, post: string, r: string, q: string)
    ensures pre + Put(v, post + (r + q)) == (pre + Put(v, post + r)) + q
    decreases v, 1
  {
    Assoc(post, r, q);
    PutText(v, post + r, q);
    Assoc(pre, Put(v, post + r), q);
  }

  lemma {:induction false} PutMembersText(ms: Members, r: string, q: string)
    ensures PutMembers(ms, r + q) == PutMembers(ms, r) + q
    decreases ms, 2
  {
    match ms
    case MNil =>
    case MCons(m, rest) =>
      PutMembersText(rest, r, q);
      var tail := if rest.MNil? then r else [','] + PutMembers(rest, r);
      assert (if rest.MNil? then r + q else [','] + PutMembers(rest, r + q)) == tail + q;
      PutPaddedText(m.gap, m.v, m.post, tail, q);
      PutKeyText(m, m.gap + Put(m.v, m.post + tail), q);
  }

  lemma PutKeyText(m: Member, value: string, q: string)
    ensures m.pre + PutStr(m.key, m.mid + ([':'] + (value + q)))
         == (m.pre + PutStr(m.key, m.mid + ([':'] + value))) + q
  {
    var s := [':'] + value;
    Assoc([':'], value, q);
    Assoc(m.mid, s, q);
    Assoc(['"'], m.mid + s, q);
    PutBodyText(m.key, ['"'] + (m.mid + s), q);
    Assoc(['"'], PutBody(m.key, ['"'] + (m.mid + s)), q);
    Assoc(m.pre, PutStr(m.key, m.mid + s), q);
  }

  lemma PutIsText(v: Json, r: string)
    ensures Put(v, r) == Text(v) + r
  {
    PutText(v, "", r);
    assert "" + r == r;
  }
}
