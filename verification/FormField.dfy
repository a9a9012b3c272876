/** The decoder of one form field, against the serialiser of sections 5.1 and 5.2 of the
    WHATWG URL Standard. Bytes are chars below 256. */
module FormField {
  import opened Decimals
  import opened JsonText
  import opened CursorSpec

  // ----------------------------------------------------- the serialiser

  predicate IsByte(c: char) {
    c as int < 256
  }

  ghost predicate Bytes(s: string) {
    forall c <- s :: IsByte(c)
  }

  /** The bytes that stand for themselves. */
  predicate Unreserved(c: char) {
    '0' <= c <= '9' || 'A' <= c <= 'Z' || 'a' <= c <= 'z' || c == '*' || c == '-' || c == '.' || c == '_'
  }

  ghost predicate UnreservedText(s: string) {
    forall c <- s :: Unreserved(c)
  }

  function UpperHex(d: int): char
    requires 0 <= d < 16
  {
    if d < 10 then ('0' as int + d) as char else ('A' as int + d - 10) as char
  }

  function EncodedByte(c: char): string
    requires IsByte(c)
  {
    if c == ' ' then "+"
    else if Unreserved(c) then [c]
    else ['%', UpperHex(c as int / 16), UpperHex(c as int % 16)]
  }

  function Encoded(s: string): string
    requires Bytes(s)
  {
    if s == "" then "" else EncodedByte(s[0]) + Encoded(s[1..])
  }

  datatype Pair = Pair(key: string, value: string)

  ghost predicate BytePairs(pairs: seq<Pair>) {
    forall p <- pairs :: Bytes(p.key) && Bytes(p.value)
  }

  function Serialised(pairs: seq<Pair>): string
    requires BytePairs(pairs)
  {
    if pairs == [] then ""
    else
      assert pairs[0] in pairs;
      Encoded(pairs[0].key) + "=" + Encoded(pairs[0].value)
        + (if |pairs| == 1 then "" else "&" + Serialised(pairs[1..]))
  }

  function First(pairs: seq<Pair>, key: string): Option<string> {
    if pairs == [] then None else if pairs[0].key == key then Some(pairs[0].value) else First(pairs[1..], key)
  }

  // -------------------------------------------------------- the decoder

  /** `(char)strtol` of two characters in base 16: leading space, then a sign, then digits; the prefix
      `0x` needs a digit after it and counts as the digit 0 here. */
  function HexByte(a: char, b: char): char {
    match HexValue(a)
    case Some(high) => (match HexValue(b) case Some(low) => (16 * high + low) as char case None => high as char)
    case None =>
      match HexValue(b)
      case None => '\0'
      case Some(low) =>
        if IsSpace(a) || a == '+' then low as char
        else if a == '-' then ((256 - low) % 256) as char
        else '\0'
  }

  /** The value up to the next `&`. */
  function Decoded(s: string): string {
    if s == "" || s[0] == '&' then ""
    else if s[0] == '+' then " " + Decoded(s[1..])
    else if s[0] == '%' && |s| >= 3 then [HexByte(s[1], s[2])] + Decoded(s[3..])
    else [s[0]] + Decoded(s[1..])
  }

  /** What follows the next `&`. */
  function NextPair(s: string): (r: string)
    ensures s != "" ==> |r| < |s|
  {
    if s == "" then "" else if s[0] == '&' then s[1..] else NextPair(s[1..])
  }

  function Extracted(s: string, key: string, outLen: nat): (r: Option<string>)
    ensures r.Some? ==> |r.value| < outLen
    decreases |s|
  {
    if s == "" || outLen == 0 then None
    else if key + "=" <= s then
      var value := Decoded(s[|key| + 1..]);
      if |value| < outLen then Some(value) else None
    else Extracted(NextPair(s), key, outLen)
  }

  // --------------------------------------------------------- round trip

  lemma HexPairReads(c: char)
    requires IsByte(c)
    ensures HexByte(UpperHex(c as int / 16), UpperHex(c as int % 16)) == c
  {
    assert c as int == 16 * (c as int / 16) + c as int % 16;
  }

  predicate Ends(rest: string) {
    rest == "" || rest[0] == '&'
  }

  lemma EncodedByteReads(c: char, rest: string)
    requires IsByte(c)
    ensures Decoded(EncodedByte(c) + rest) == [c] + Decoded(rest)
  {
    var s := EncodedByte(c) + rest;
    if c == ' ' || Unreserved(c) {
      assert s[1..] == rest;
    } else {
      HexPairReads(c);
      assert s[3..] == rest;
    }
  }

  lemma {:induction false} EncodedReads(value: string, rest: string)
    requires Bytes(value) && Ends(rest)
    ensures Decoded(Encoded(value) + rest) == value
  {
    if value != "" {
      EncodedByteReads(value[0], Encoded(value[1..]) + rest);
      EncodedReads(value[1..], rest);
      Assoc(EncodedByte(value[0]), Encoded(value[1..]), rest);
    }
  }

  /** An encoded text holds neither separator. */
  lemma {:induction false} EncodedHasNoSeparator(s: string)
    requires Bytes(s)
    ensures '&' !in Encoded(s) && '=' !in Encoded(s)
  {
    if s != "" {
      EncodedHasNoSeparator(s[1..]);
      assert '&' !in EncodedByte(s[0]) && '=' !in EncodedByte(s[0]);
    }
  }

  lemma {:induction false} SkipsText(text: string, rest: string)
    requires '&' !in text
    ensures NextPair(text + rest) == NextPair(rest)
  {
    if text == "" {
      assert text + rest == rest;
    } else {
      assert (text + rest)[1..] == text[1..] + rest && text[0] in text;
      SkipsText(text[1..], rest);
    }
  }

  /** An unreserved key is met only by its own encoding. */
  lemma {:induction false} OnlyItself(key: string, other: string)
    requires UnreservedText(key) && Bytes(other)
    ensures Encoded(other) == key <==> other == key
    decreases other
  {
    if other != "" {
      var first := EncodedByte(other[0]);
      if key == "" {
        assert |Encoded(other)| > 0;
      } else if Unreserved(other[0]) {
        assert Encoded(other)[1..] == Encoded(other[1..]) && Encoded(other)[0] == other[0];
        OnlyItself(key[1..], other[1..]);
        assert key == [key[0]] + key[1..] && other == [other[0]] + other[1..];
      } else {
        assert !Unreserved(Encoded(other)[0]);
        assert key[0] in key && other[0] in other;
      }
    }
  }

  /** Where no `=` occurs in either name, one is followed by `=` in front of the other exactly when they are equal. */
  lemma NameMatches(key: string, name: string, rest: string)
    requires '=' !in key && '=' !in name
    ensures key + "=" <= name + "=" + rest <==> key == name
  {
    var s := name + "=" + rest;
    assert |key| < |name| ==> s[|key|] == name[|key|] && name[|key|] in name;
    assert s[|name|] == '=' && s[..|name|] == name;
    assert |name| < |key| ==> (key + "=")[|name|] == key[|name|] && key[|name|] in key;
    assert (key + "=")[|key|] == '=' && (key + "=")[..|key|] == key;
  }

  /** For every list of pairs and every buffer: the field of an unreserved key decodes to the value of
      the first pair with that key when it fits, and to nothing exactly when there is no such pair or the
      value is too long. */
  lemma {:induction false} FieldRoundTrip(pairs: seq<Pair>, key: string, outLen: nat)
    requires BytePairs(pairs) && UnreservedText(key)
    ensures Extracted(Serialised(pairs), key, outLen) ==
            match First(pairs, key)
            case None => None
            case Some(value) => if |value| < outLen then Some(value) else None
    decreases pairs
  {
    if pairs != [] && outLen > 0 {
      var p := pairs[0];
      assert p in pairs;
      var tail := if |pairs| == 1 then "" else "&" + Serialised(pairs[1..]);
      var s := Serialised(pairs);
      var name, value := Encoded(p.key), Encoded(p.value);
      assert s == name + "=" + (value + tail);
      EncodedHasNoSeparator(p.key);
      EncodedHasNoSeparator(p.value);
      KeyHasNoSeparator(key);
      NameMatches(key, name, value + tail);
      OnlyItself(key, p.key);
      if p.key == key {
        assert s[|key| + 1..] == value + tail;
        EncodedReads(p.value, tail);
      } else {
        SkipsText(name + "=" + value, tail);
        assert s == name + "=" + value + tail;
        FieldRoundTrip(pairs[1..], key, outLen);
        if |pairs| > 1 {
          assert tail[1..] == Serialised(pairs[1..]);
        } else {
          assert pairs[1..] == [];
        }
      }
    }
  }

  lemma KeyHasNoSeparator(key: string)
    requires UnreservedText(key)
    ensures '=' !in key
  {
  }

  // ------------------------------------------------------- the program

  /** The text from p on, up to the terminator. */
  function At(body: array<char>, p: nat): string
    reads body
    requires p <= body.Length
  {
    CStr(body[p..])
  }

  lemma AtNext(body: array<char>, p: nat)
    requires p < body.Length
    ensures body[p] == '\0' <==> At(body, p) == ""
    ensures body[p] != '\0' ==> At(body, p) == [body[p]] + At(body, p + 1)
  {
    assert body[p..][1..] == body[p + 1..];
  }

  predicate Terminated(body: array<char>)
    reads body
  {
    body.Length > 0 && body[body.Length - 1] == '\0'
  }

  lemma MatchNext(key: string, s: string, k: nat)
    requires k < |key| && k <= |s| && key[..k] == s[..k]
    ensures k < |s| && s[k] == key[k] ==> key[..k + 1] == s[..k + 1] && s[k..][1..] == s[k + 1..]
    ensures k == |s| || s[k] != key[k] ==> !(key + "=" <= s)
  {
    assert (key + "=")[k] == key[k];
    if k < |s| && s[k] == key[k] {
      assert key[..k + 1] == key[..k] + [key[k]] && s[..k + 1] == s[..k] + [s[k]];
    }
  }

  lemma MatchEnd(key: string, s: string)
    requires |key| <= |s| && key == s[..|key|]
    ensures key + "=" <= s <==> |key| < |s| && s[|key|] == '='
    ensures |key| < |s| ==> s[|key|..][1..] == s[|key| + 1..]
  {
    assert (key + "=")[|key|] == '=';
    if |key| < |s| && s[|key|] == '=' {
      assert s[..|key| + 1] == key + "=";
    }
  }

  /** `strncmp` on the key and the `=` behind it. */
  method Matches(body: array<char>, p: nat, key: string) returns (yes: bool)
    requires Terminated(body) && p < body.Length && '\0' !in key
    ensures yes <==> key + "=" <= At(body, p)
    ensures yes ==> p + |key| + 1 < body.Length && At(body, p + |key| + 1) == At(body, p)[|key| + 1..]
  {
    ghost var s := At(body, p);
    var k := 0;
    while k < |key|
      invariant k <= |key| && p + k < body.Length
      invariant k <= |s| && key[..k] == s[..k] && At(body, p + k) == s[k..]
    {
      AtNext(body, p + k);
      MatchNext(key, s, k);
      assert key[k] in key;
      if body[p + k] != key[k] {
        return false;
      }
      k := k + 1;
    }
    AtNext(body, p + k);
    assert key[..k] == key;
    MatchEnd(key, s);
    yes := body[p + k] == '=';
  }

  /** Decodes the byte at p and tells where the next one is. */
  method DecodeByte(body: array<char>, p: nat) returns (c: char, next: nat)
    requires Terminated(body) && p < body.Length && body[p] != '\0' && body[p] != '&'
    ensures p < next < body.Length
    ensures Decoded(At(body, p)) == [c] + Decoded(At(body, next))
  {
    AtNext(body, p);
    AtNext(body, p + 1);
    if body[p + 1] != '\0' {
      AtNext(body, p + 2);
    }
    if body[p] == '+' {
      return ' ', p + 1;
    }
    if body[p] == '%' && body[p + 1] != '\0' && body[p + 2] != '\0' {
      var s := At(body, p);
      assert s[3..] == At(body, p + 3);
      return HexByte(body[p + 1], body[p + 2]), p + 3;
    }
    return body[p], p + 1;
  }

  /** Decodes the value at p into the buffer. */
  method DecodeInto(body: array<char>, start: nat, out: array<char>) returns (ok: bool)
    requires Terminated(body) && start < body.Length && out.Length > 0 && body != out
    modifies out
    ensures var value := Decoded(old(At(body, start)));
            && (ok <==> |value| < out.Length)
            && (if ok then out[..|value|] == value && out[|value|] == '\0' else out[0] == '\0')
  {
    ghost var value := Decoded(At(body, start));
    var p, i := start, 0;
    while body[p] != '\0' && body[p] != '&'
      invariant start <= p < body.Length && i < out.Length
      invariant value == out[..i] + Decoded(At(body, p))
      decreases body.Length - p
    {
      var c, next := DecodeByte(body, p);
      if i + 1 >= out.Length {
        out[0] := '\0';
        return false;
      }
      ghost var done, rest := out[..i], Decoded(At(body, next));
      Assoc(done, [c], rest);
      out[i] := c;
      assert out[..i + 1] == done + [c];
      assert Decoded(At(body, next)) == rest;
      i, p := i + 1, next;
    }
    AtNext(body, p);
    assert value == out[..i];
    out[i] := '\0';
    ok := true;
  }

  /** Finds the first pair of the key and decodes its value, never outside the two buffers. */
  method ExtractField(body: array<char>, key: string, out: array<char>) returns (ok: bool)
    requires Terminated(body) && '\0' !in key && body != out
    modifies out
    ensures var value := Extracted(old(At(body, 0)), key, out.Length);
            && ok == value.Some?
            && (ok ==> out[..|value.value|] == value.value && out[|value.value|] == '\0')
  {
    if out.Length == 0 {
      return false;
    }
    var p := 0;
    while body[p] != '\0'
      invariant p < body.Length
      invariant Extracted(At(body, p), key, out.Length) == Extracted(At(body, 0), key, out.Length)
      decreases body.Length - p
    {
      AtNext(body, p);
      var yes := Matches(body, p, key);
      if yes {
        ok := DecodeInto(body, p + |key| + 1, out);
        return;
      }
      p := SkipPair(body, p);
    }
    AtNext(body, p);
    ok := false;
  }

  method SkipPair(body: array<char>, start: nat) returns (p: nat)
    requires Terminated(body) && start < body.Length && body[start] != '\0'
    ensures start < p < body.Length && At(body, p) == NextPair(At(body, start))
  {
    p := start;
    while body[p] != '\0' && body[p] != '&'
      invariant start <= p < body.Length
      invariant NextPair(At(body, p)) == NextPair(At(body, start))
      decreases body.Length - p
    {
      AtNext(body, p);
      p := p + 1;
    }
    AtNext(body, p);
    if body[p] == '&' {
      p := p + 1;
    }
  }
}
