/** The loop that drops the sessions after the third: it counts braces, also those inside strings. */
module DropLoop {
  import opened Decimals
  import opened JsonText
  import opened CursorSpec

  /** The depth after all braces of a text; nothing when a `}` or a `]` comes at depth 0. */
  function Walk(s: string, depth: nat): Option<nat> {
    if s == "" then Some(depth)
    else if s[0] == '{' then Walk(s[1..], depth + 1)
    else if s[0] == '}' then if depth == 0 then None else Walk(s[1..], depth - 1)
    else if s[0] == ']' && depth == 0 then None
    else Walk(s[1..], depth)
  }

  function Then(depth: Option<nat>, s: string): Option<nat> {
    match depth
    case None => None
    case Some(d) => Walk(s, d)
  }

  lemma {:induction false} WalkConcat(a: string, b: string, depth: nat)
    ensures Walk(a + b, depth) == Then(Walk(a, depth), b)
    decreases a
  {
    if a == "" {
      assert a + b == b;
    } else {
      assert (a + b)[1..] == a[1..] + b;
      WalkConcat(a[1..], b, if a[0] == '{' then depth + 1 else if a[0] == '}' && depth > 0 then depth - 1 else depth);
    }
  }

  /** The loop follows the walk; where the walk breaks off, the loop fails or ends within the text. */
  lemma {:induction false} DropFollowsWalk(s: string, r: string, depth: nat)
    ensures Walk(s, depth).Some? ==> DropSessions(s + r, depth) == DropSessions(r, Walk(s, depth).value)
    ensures Walk(s, depth).None? ==>
              DropSessions(s + r, depth).Fail? || |DropSessions(s + r, depth).rest| >= |r|
    decreases s
  {
    if s == "" {
      assert s + r == r;
    } else {
      assert (s + r)[1..] == s[1..] + r;
      var next := if s[0] == '{' then depth + 1 else if s[0] == '}' && depth > 0 then depth - 1 else depth;
      DropFollowsWalk(s[1..], r, next);
    }
  }

  /** Dropping ends at the closing bracket exactly when the walk over what stands before it
      comes back to depth 0. */
  lemma DropExactly(s: string, r: string)
    ensures DropSessions(s + ([']'] + r), 0) == Ok((), r) <==> Walk(s, 0) == Some(0)
  {
    DropFollowsWalk(s, [']'] + r, 0);
    assert ([']'] + r)[1..] == r;
  }

  // ----------------------------------------------------- over the tree

  /** The characters of a string body, without the backslashes of its escapes. */
  function Chars(b: Body): string {
    seq(|b|, i requires 0 <= i < |b| => b[i].c)
  }

  /** Only strings, objects and closing brackets matter to the walk. */
  function WalkValue(v: Json, depth: nat): Option<nat> {
    match v
    case JStr(b) => Walk(Chars(b), depth)
    case JArr(_, es) => Close(WalkElems(es, depth), 0)
    case JObj(_, ms) => Close(WalkMembers(ms, depth + 1), 1)
    case _ => Some(depth)
  }

  /** A closing bracket or brace at depth 0 ends the walk; a brace leads one level up. */
  function Close(depth: Option<nat>, levels: nat): Option<nat> {
    match depth
    case None => None
    case Some(d) => if d == 0 || d < levels then None else Some(d - levels)
  }

  function WalkElems(es: Elems, depth: nat): Option<nat> {
    match es
    case ENil => Some(depth)
    case ECons(_, v, _, rest) =>
      match WalkValue(v, depth)
      case None => None
      case Some(d) => WalkElems(rest, d)
  }

  function WalkMembers(ms: Members, depth: nat): Option<nat> {
    match ms
    case MNil => Some(depth)
    case MCons(m, rest) =>
      match Walk(Chars(m.key), depth)
      case None => None
      case Some(d) =>
        match WalkValue(m.v, d)
        case None => None
        case Some(e) => WalkMembers(rest, e)
  }

  ghost predicate Neutral(s: string) {
    forall i :: 0 <= i < |s| ==> s[i] != '{' && s[i] != '}' && s[i] != ']'
  }

  lemma {:induction false} WalkPast(s: string, r: string, depth: nat)
    requires Neutral(s)
    ensures Walk(s + r, depth) == Walk(r, depth)
    decreases s
  {
    if s == "" {
      assert s + r == r;
    } else {
      assert (s + r)[1..] == s[1..] + r;
      WalkPast(s[1..], r, depth);
    }
  }

  lemma {:induction false} WalkBody(b: Body, r: string, depth: nat)
    ensures Walk(PutBody(b, r), depth) == Then(Walk(Chars(b), depth), r)
    decreases b
  {
    if b != [] {
      var c, s := b[0].c, PutBody(b[1..], r);
      assert Chars(b) == [c] + Chars(b[1..]) && ([c] + s)[1..] == s;
      var next := if c == '{' then depth + 1 else if c == '}' && depth > 0 then depth - 1 else depth;
      WalkBody(b[1..], r, next);
      if b[0].Esc? {
        WalkPast(['\\'], [c] + s, depth);
      }
    }
  }

  lemma WalkStr(b: Body, r: string, depth: nat)
    ensures Walk(PutStr(b, r), depth) == Then(Walk(Chars(b), depth), r)
  {
    WalkPast(['"'], PutBody(b, ['"'] + r), depth);
    WalkBody(b, ['"'] + r, depth);
    if Walk(Chars(b), depth).Some? {
      WalkPast(['"'], r, Walk(Chars(b), depth).value);
    }
  }

  lemma WalkSign(x: Sign, r: string, depth: nat)
    ensures Walk(PutSign(x, r), depth) == Walk(r, depth)
  {
    match x
    case NoSign =>
    case Plus => WalkPast(['+'], r, depth);
    case Minus => WalkPast(['-'], r, depth);
  }

  lemma WalkNum(t: NumTok, r: string, depth: nat)
    requires ValidNum(t)
    ensures Walk(PutNum(t, r), depth) == Walk(r, depth)
  {
    var x := PutExponent(t.exp, r);
    var f := PutFrac(t.frac, x);
    WalkSign(if t.neg then Minus else NoSign, t.whole + f, depth);
    WalkPast(t.whole, f, depth);
    if t.frac != "" {
      WalkPast(['.'], t.frac + x, depth);
      WalkPast(t.frac, x, depth);
    }
    if t.exp.Some? {
      var e := t.exp.value;
      WalkPast([e.mark], PutSign(e.sign, e.digits + r), depth);
      WalkSign(e.sign, e.digits + r, depth);
      WalkPast(e.digits, r, depth);
    }
  }

  /** The walk over a printed value is the walk over its tree. */
  lemma {:induction false} WalkPut(v: Json, r: string, depth: nat)
    requires Valid(v)
    ensures Walk(Put(v, r), depth) == Then(WalkValue(v, depth), r)
    decreases v, 0
  {
    match v
    case JTrue => WalkPast("true", r, depth);
    case JFalse => WalkPast("false", r, depth);
    case JNull => WalkPast("null", r, depth);
    case JNum(t) => WalkNum(t, r, depth);
    case JStr(b) => WalkStr(b, r, depth);
    case JArr(pad, es) =>
      WalkPast(['['], pad + PutElems(es, [']'] + r), depth);
      WalkPast(pad, PutElems(es, [']'] + r), depth);
      WalkPutElems(es, [']'] + r, depth);
      assert ([']'] + r)[1..] == r;
    case JObj(pad, ms) =>
      assert Put(v, r)[1..] == pad + PutMembers(ms, ['}'] + r);
      WalkPast(pad, PutMembers(ms, ['}'] + r), depth + 1);
      WalkPutMembers(ms, ['}'] + r, depth + 1);
      assert (['}'] + r)[1..] == r;
  }

  lemma {:induction false} WalkPutElems(es: Elems, r: string, depth: nat)
    requires ValidElems(es)
    ensures Walk(PutElems(es, r), depth) == Then(WalkElems(es, depth), r)
    decreases es, 1
  {
    match es
    case ENil =>
    case ECons(pre, v, post, rest) =>
      var tail := if rest.ENil? then r else [','] + PutElems(rest, r);
      WalkPast(pre, Put(v, post + tail), depth);
      WalkPut(v, post + tail, depth);
      if WalkValue(v, depth).Some? {
        var d := WalkValue(v, depth).value;
        WalkPast(post, tail, d);
        if !rest.ENil? {
          WalkPast([','], PutElems(rest, r), d);
        }
        WalkPutElems(rest, r, d);
      }
  }

  lemma {:induction false} WalkPutMembers(ms: Members, r: string, depth: nat)
    requires ValidMembers(ms)
    ensures Walk(PutMembers(ms, r), depth) == Then(WalkMembers(ms, depth), r)
    decreases ms, 1
  {
    match ms
    case MNil =>
    case MCons(m, rest) =>
      var tail := if rest.MNil? then r else [','] + PutMembers(rest, r);
      WalkKey(m, Put(m.v, m.post + tail), depth);
      if Walk(Chars(m.key), depth).Some? {
        var d := Walk(Chars(m.key), depth).value;
        WalkPut(m.v, m.post + tail, d);
        if WalkValue(m.v, d).Some? {
          var e := WalkValue(m.v, d).value;
          WalkPast(m.post, tail, e);
          if !rest.MNil? {
            WalkPast([','], PutMembers(rest, r), e);
          }
          WalkPutMembers(rest, r, e);
        }
      }
  }

  lemma WalkKey(m: Member, value: string, depth: nat)
    requires AllSpace(m.pre) && AllSpace(m.mid) && AllSpace(m.gap)
    ensures Walk(m.pre + PutStr(m.key, m.mid + ([':'] + (m.gap + value))), depth)
         == Then(Walk(Chars(m.key), depth), value)
  {
    var s := [':'] + (m.gap + value);
    WalkPast(m.pre, PutStr(m.key, m.mid + s), depth);
    WalkStr(m.key, m.mid + s, depth);
    if Walk(Chars(m.key), depth).Some? {
      var d := Walk(Chars(m.key), depth).value;
      WalkPast(m.mid, s, d);
      WalkPast([':'], m.gap + value, d);
      WalkPast(m.gap, value, d);
    }
  }

  /** The elements that remain are dropped up to their closing bracket exactly when the walk over
      them comes back to depth 0. */
  lemma ElementsDropExactly(es: Elems, r: string)
    requires ValidElems(es)
    ensures DropSessions(PutElems(es, [']'] + r), 0) == Ok((), r) <==> WalkElems(es, 0) == Some(0)
  {
    var end := [']'] + r;
    assert "" + end == end;
    PutElemsText(es, "", end);
    DropExactly(PutElems(es, ""), r);
    WalkPutElems(es, "", 0);
  }

  // ------------------------------------------- strings without brackets

  /** No string in the value holds a brace or a closing bracket. */
  ghost predicate Plain(v: Json) {
    match v
    case JStr(b) => Neutral(Chars(b))
    case JArr(_, es) => PlainElems(es)
    case JObj(_, ms) => PlainMembers(ms)
    case _ => true
  }

  ghost predicate PlainElems(es: Elems) {
    match es
    case ENil => true
    case ECons(_, v, _, rest) => Plain(v) && PlainElems(rest)
  }

  ghost predicate PlainMembers(ms: Members) {
    match ms
    case MNil => true
    case MCons(m, rest) => Neutral(Chars(m.key)) && Plain(m.v) && PlainMembers(rest)
  }

  lemma NeutralWalk(s: string, depth: nat)
    requires Neutral(s)
    ensures Walk(s, depth) == Some(depth)
  {
    WalkPast(s, "", depth);
    assert s + "" == s;
  }

  /** Below the top level a plain value leaves the depth alone, and so does a plain object anywhere. */
  lemma {:induction false} PlainWalk(v: Json, depth: nat)
    requires Plain(v) && (depth > 0 || v.JObj?)
    ensures WalkValue(v, depth) == Some(depth)
    decreases v, 0
  {
    match v
    case JStr(b) => NeutralWalk(Chars(b), depth);
    case JArr(_, es) => PlainElemsWalk(es, depth);
    case JObj(_, ms) => PlainMembersWalk(ms, depth + 1);
    case _ =>
  }

  lemma {:induction false} PlainElemsWalk(es: Elems, depth: nat)
    requires PlainElems(es) && depth > 0
    ensures WalkElems(es, depth) == Some(depth)
    decreases es, 1
  {
    match es
    case ENil =>
    case ECons(_, v, _, rest) =>
      PlainWalk(v, depth);
      PlainElemsWalk(rest, depth);
  }

  lemma {:induction false} PlainMembersWalk(ms: Members, depth: nat)
    requires PlainMembers(ms) && depth > 0
    ensures WalkMembers(ms, depth) == Some(depth)
    decreases ms, 1
  {
    match ms
    case MNil =>
    case MCons(m, rest) =>
      NeutralWalk(Chars(m.key), depth);
      PlainWalk(m.v, depth);
      PlainMembersWalk(rest, depth);
  }

  predicate AllObjects(es: Elems) {
    match es
    case ENil => true
    case ECons(_, v, _, rest) => v.JObj? && AllObjects(rest)
  }

  /** Objects without brackets in their strings are always dropped as they should be. */
  lemma {:induction false} PlainObjectsDrop(es: Elems, r: string)
    requires ValidElems(es) && PlainElems(es) && AllObjects(es)
    ensures WalkElems(es, 0) == Some(0) && DropSessions(PutElems(es, [']'] + r), 0) == Ok((), r)
    decreases es
  {
    match es
    case ENil =>
      ElementsDropExactly(es, r);
    case ECons(_, v, _, rest) =>
      PlainWalk(v, 0);
      PlainObjectsDrop(rest, r);
      ElementsDropExactly(es, r);
  }
}
