/** The bounded writer of /health: agents are written whole or rolled back. */
module HealthWriter {
  import opened Decimals
  import opened JsonText
  import opened HealthText
  import Spec = CursorSpec

  /** The separator an entry starts with. */
  function Sep(first: bool): string {
    if first then "" else ","
  }

  class AgentsWriter {
    const body: array<char>
    var off: nat
    var first: bool

    constructor (body: array<char>, off: nat)
      requires off <= body.Length
      ensures this.body == body && this.off == off && first && Valid()
    {
      this.body := body;
      this.off := off;
      first := true;
    }

    ghost predicate Valid()
      reads this
    {
      off <= body.Length
    }

    ghost function Written(): string
      reads this, body
      requires Valid()
    {
      body[..off]
    }

    /** What was there is still there, and after success `text` follows it. */
    ghost predicate Appended(before: string, text: string, ok: bool)
      reads this, body
      requires Valid()
    {
      && before <= Written()
      && (ok ==> Written() == before + text)
    }

    method PutByte(c: char) returns (ok: bool)
      requires Valid()
      modifies this`off, body
      ensures Valid() && Appended(old(Written()), [c], ok)
      ensures ok <==> old(off) + 1 <= body.Length
    {
      if off + 1 > body.Length {
        return false;
      }
      body[off] := c;
      off := off + 1;
      return true;
    }

    /** Copies one escape sequence, when it fits. */
    method PutBytes(text: string) returns (ok: bool)
      requires Valid()
      modifies this`off, body
      ensures Valid() && Appended(old(Written()), text, ok)
      ensures ok <==> old(off) + |text| <= body.Length
      ensures !ok ==> off == old(off)
    {
      if off + |text| > body.Length {
        return false;
      }
      Copy(text);
      off := off + |text|;
      return true;
    }

    /** `memcpy` to the current offset. */
    method Copy(text: string)
      requires Valid() && off + |text| <= body.Length
      modifies body
      ensures body[..off] == old(body[..off]) && body[off..off + |text|] == text
      ensures body[..off + |text|] == old(body[..off]) + text
    {
      for i := 0 to |text|
        invariant body[..off] == old(body[..off])
        invariant body[off..off + i] == text[..i]
      {
        body[off + i] := text[i];
      }
      assert body[..off + |text|] == body[..off] + body[off..off + |text|];
    }

    /** One more byte's escape, after what is written already. */
    lemma EscapeFrom(before: string, here: string, s: string, i: nat)
      requires i < |s| && here + EscapeText(s[i..]) == before + EscapeText(s)
      ensures var piece := PutBody(EscapeByte(s[i]), "");
              && here + piece + EscapeText(s[i + 1..]) == before + EscapeText(s)
              && |here| + |piece| <= |before| + |EscapeText(s)|
    {
      EscapeTextStep(s[i..]);
      assert s[i..][1..] == s[i + 1..];
      Assoc(here, PutBody(EscapeByte(s[i]), ""), EscapeText(s[i + 1..]));
    }

    method JsonEscapeAppend(s: string) returns (ok: bool)
      requires Valid()
      modifies this`off, body
      ensures Valid() && Appended(old(Written()), EscapeText(s), ok)
      ensures ok <==> old(off) + |EscapeText(s)| <= body.Length
    {
      ghost var before := Written();
      var i := 0;
      assert s[0..] == s;
      while i < |s|
        invariant 0 <= i <= |s| && Valid() && before <= Written()
        invariant Written() + EscapeText(s[i..]) == before + EscapeText(s)
      {
        var piece := PutBody(EscapeByte(s[i]), "");
        EscapeFrom(before, Written(), s, i);
        ok := PutBytes(piece);
        if !ok {
          return;
        }
        i := i + 1;
      }
      assert EscapeText(s[i..]) == "";
      ok := true;
    }

    /** `snprintf` at the current offset: prints at most what fits with a NUL, and returns
        the length of the whole text. */
    method Snprintf(text: string) returns (n: nat)
      requires Valid()
      modifies body
      ensures n == |text| && body[..off] == old(body[..off])
      ensures n < body.Length - off ==> body[..off + n] == old(body[..off]) + text
    {
      n := |text|;
      if off < body.Length {
        var fits := if n < body.Length - off then n else body.Length - off - 1;
        Copy(text[..fits]);
        ghost var got := body[..off + fits];
        body[off + fits] := '\0';
        assert body[..off + fits] == got;
        assert body[..off] == got[..off];
        assert n < body.Length - off ==> text[..fits] == text;
      }
    }

    method Print(text: string) returns (ok: bool)
      requires Valid() && text != ""
      modifies this`off, body
      ensures Valid() && Appended(old(Written()), text, ok)
      ensures ok <==> old(off) + |text| < body.Length
    {
      var n := Snprintf(text);
      if n <= 0 || n >= body.Length - off {
        return false;
      }
      off := off + n;
      return true;
    }

    lemma SessionsFrom(list: seq<Spec.Session>, i: nat, first: bool, r: string)
      requires i < |list|
      ensures PutSessions(list[i..], first, r)
           == PutSessionOpen(first, EscapeText(list[i].kind)
                + PutSessionClose(list[i], PutSessions(list[i + 1..], false, r)))
    {
      assert list[i..][0] == list[i] && list[i..][1..] == list[i + 1..];
    }

    /** The sessions of one entry; `end` closes it. */
    method WriteSessions(list: seq<Spec.Session>, ghost end: string, ghost goal: string) returns (ok: bool)
      requires Valid() && Written() + PutSessions(list, true, end) == goal
      modifies this`off, body
      ensures Valid() && old(Written()) <= Written()
      ensures if ok then Written() + end == goal else |goal| >= body.Length
    {
      var i := 0;
      ok := true;
      assert list[0..] == list;
      while i < |list|
        invariant 0 <= i <= |list| && Valid() && old(Written()) <= Written() && ok
        invariant Written() + PutSessions(list[i..], i == 0, end) == goal
      {
        ok := WriteNextSession(list, i, end, goal);
        if !ok {
          return;
        }
        i := i + 1;
      }
    }

    method WriteNextSession(list: seq<Spec.Session>, i: nat, ghost end: string, ghost goal: string) returns (ok: bool)
      requires Valid() && i < |list|
      requires Written() + PutSessions(list[i..], i == 0, end) == goal
      modifies this`off, body
      ensures Valid() && old(Written()) <= Written()
      ensures if ok then Written() + PutSessions(list[i + 1..], false, end) == goal else |goal| >= body.Length
    {
      SessionsFrom(list, i, i == 0, end);
      ok := WriteSession(list[i], i == 0, PutSessions(list[i + 1..], false, end), goal);
    }

    /** The sessions and what closes the entry. */
    method WriteTail(list: seq<Spec.Session>, ghost goal: string) returns (ok: bool)
      requires Valid() && Written() + PutSessions(list, true, PutEnd("")) == goal
      modifies this`off, body
      ensures Valid() && old(Written()) <= Written()
      ensures if ok then Written() == goal && |goal| < body.Length else |goal| >= body.Length
    {
      ok := WriteSessions(list, PutEnd(""), goal);
      if ok {
        ok := WriteLast(PutEnd(""), goal);
      }
    }

    /** The last piece of a text. */
    method WriteLast(piece: string, ghost goal: string) returns (ok: bool)
      requires Valid() && piece != "" && Written() + piece == goal
      modifies this`off, body
      ensures Valid() && old(Written()) <= Written()
      ensures if ok then Written() == goal && |goal| < body.Length else |goal| >= body.Length
    {
      ok := Print(piece);
    }

    method WriteSession(s: Spec.Session, leading: bool, ghost rest: string, ghost goal: string) returns (ok: bool)
      requires Valid()
      requires Written() + PutSessionOpen(leading, EscapeText(s.kind) + PutSessionClose(s, rest)) == goal
      modifies this`off, body
      ensures Valid() && old(Written()) <= Written()
      ensures if ok then Written() + rest == goal else |goal| >= body.Length
    {
      ghost var close := PutSessionClose(s, "");
      PutSessionCloseAround(s, rest);
      PutSessionOpenAround(leading, EscapeText(s.kind) + (close + rest));
      ghost var w := Written();
      Assoc(w, PutSessionOpen(leading, ""), EscapeText(s.kind) + (close + rest));
      ok := Print(PutSessionOpen(leading, ""));
      if !ok {
        return;
      }
      w := Written();
      Assoc(w, EscapeText(s.kind), close + rest);
      ok := JsonEscapeAppend(s.kind);
      if !ok {
        return;
      }
      w := Written();
      Assoc(w, close, rest);
      ok := Print(PutSessionClose(s, ""));
    }

    /** An entry up to its session list. */
    method WriteLead(e: Entry, ghost rest: string, ghost goal: string) returns (ok: bool)
      requires Valid()
      requires Written() + (Sep(first) + (['"'] + (EscapeText(e.snap.agent)
                 + PutClient(EscapeText(e.clientId) + PutAge(e.age, rest))))) == goal
      requires rest != ""
      modifies this`off, body
      ensures Valid() && old(Written()) <= Written()
      ensures if ok then Written() + rest == goal else |goal| >= body.Length
    {
      ghost var age := PutAge(e.age, "");
      PutAgeAround(e.age, rest);
      PutClientAround(EscapeText(e.clientId) + (age + rest));
      ghost var named := PutClient("") + (EscapeText(e.clientId) + (age + rest));
      ok := WriteSep(['"'] + (EscapeText(e.snap.agent) + named), goal);
      if !ok {
        return;
      }
      ok := WriteName(e.snap.agent, named, goal);
      if !ok {
        return;
      }
      ok := WriteClient(e, age, rest, goal);
    }

    method WriteSep(ghost rest: string, ghost goal: string) returns (ok: bool)
      requires Valid() && Written() + (Sep(first) + rest) == goal && rest != ""
      modifies this`off, body
      ensures Valid() && old(Written()) <= Written()
      ensures if ok then Written() + rest == goal else |goal| >= body.Length
    {
      if first {
        assert Sep(first) + rest == rest;
        return true;
      }
      Assoc(Written(), [','], rest);
      ok := PutByte(',');
    }

    method WriteName(agent: string, ghost rest: string, ghost goal: string) returns (ok: bool)
      requires Valid() && Written() + (['"'] + (EscapeText(agent) + rest)) == goal
      modifies this`off, body
      ensures Valid() && old(Written()) <= Written()
      ensures if ok then Written() + rest == goal else |goal| >= body.Length
    {
      Assoc(Written(), ['"'], EscapeText(agent) + rest);
      ok := PutByte('"');
      if !ok {
        return;
      }
      Assoc(Written(), EscapeText(agent), rest);
      ok := JsonEscapeAppend(agent);
    }

    method WriteClient(e: Entry, ghost age: string, ghost rest: string, ghost goal: string) returns (ok: bool)
      requires Valid() && age == PutAge(e.age, "")
      requires Written() + (PutClient("") + (EscapeText(e.clientId) + (age + rest))) == goal
      modifies this`off, body
      ensures Valid() && old(Written()) <= Written()
      ensures if ok then Written() + rest == goal else |goal| >= body.Length
    {
      Assoc(Written(), PutClient(""), EscapeText(e.clientId) + (age + rest));
      ok := Print(PutClient(""));
      if !ok {
        return;
      }
      Assoc(Written(), EscapeText(e.clientId), age + rest);
      ok := JsonEscapeAppend(e.clientId);
      if !ok {
        return;
      }
      Assoc(Written(), age, rest);
      ok := Print(PutAge(e.age, ""));
    }

    /** Appends the entry of one agent, or leaves the document as it was: it is written
        exactly when it fits with one byte to spare. */
    method AppendAgent(e: Entry) returns (ghost kept: bool)
      requires Valid()
      modifies this, body
      ensures Valid()
      ensures kept <==> old(off) + |Sep(old(first)) + EntryText(e)| < body.Length
      ensures if kept then Written() == old(Written()) + (Sep(old(first)) + EntryText(e)) && !first
              else Written() == old(Written()) && first == old(first)
    {
      kept := false;
      if off >= body.Length {
        return;
      }
      var savedOff, savedFirst := off, first;
      ghost var before, rest := Written(), PutSessions(e.snap.sessions, true, PutEnd(""));
      ghost var goal := before + (Sep(first) + EntryText(e));
      SessionsNotEmpty(e.snap.sessions, true);
      var ok := WriteLead(e, rest, goal);
      if ok {
        ok := WriteTail(e.snap.sessions, goal);
      }
      if ok {
        first := false;
        kept := true;
        return;
      }
      off := savedOff;
      first := savedFirst;
      assert Written() == before;
      if off < body.Length {
        body[off] := '\0';
      }
      assert Written() == before;
    }

    lemma SessionsNotEmpty(list: seq<Spec.Session>, first: bool)
      ensures PutSessions(list, first, PutEnd("")) != ""
    {
      if list != [] {
        var inner := EscapeText(list[0].kind) + PutSessionClose(list[0], PutSessions(list[1..], false, PutEnd("")));
        assert (['{'] + (Key("type") + (['"'] + inner))) != "";
      }
    }
  }

  // --------------------------------------------------------- the handler

  /** The elements that are written, in order: each one that fits with a byte to spare;
      all but the first written one need a separator. */
  function Select<T>(es: seq<T>, size: T -> nat, off: nat, first: bool, cap: nat): seq<T> {
    if es == [] then []
    else
      var off' := off + |Sep(first)| + size(es[0]);
      if off' < cap then [es[0]] + Select(es[1..], size, off', false, cap)
      else Select(es[1..], size, off, first, cap)
  }

  function EntrySize(e: Entry): nat {
    |EntryText(e)|
  }

  function Kept(es: seq<Entry>, off: nat, first: bool, cap: nat): seq<Entry> {
    Select(es, EntrySize, off, first, cap)
  }

  /** The document, once the elements `es` are through, after what is written already. */
  function GoalWith<T>(written: string, es: seq<T>, put: (T, string) -> string, size: T -> nat,
                       first: bool, cap: nat): string {
    written + JoinWith(Select(es, size, |written|, first, cap), put, first, "}}")
  }

  /** What one more element, of text `text`, does to the document to come. */
  lemma GoalWithStep<T>(written: string, text: string, es: seq<T>, put: (T, string) -> string, size: T -> nat,
                        first: bool, cap: nat)
    requires es != [] && size(es[0]) == |text| && forall r :: put(es[0], r) == text + r
    ensures var whole := Sep(first) + text;
            GoalWith(written, es, put, size, first, cap) ==
            (if |written| + |whole| < cap then GoalWith(written + whole, es[1..], put, size, false, cap)
             else GoalWith(written, es[1..], put, size, first, cap))
  {
    var whole := Sep(first) + text;
    if |written| + |whole| < cap {
      var kept := Select(es[1..], size, |written| + |whole|, false, cap);
      assert Select(es, size, |written|, first, cap) == [es[0]] + kept;
      var rest := JoinWith(kept, put, false, "}}");
      assert ([es[0]] + kept)[1..] == kept;
      Assoc(Sep(first), text, rest);
      Assoc(written, whole, rest);
    }
  }

  function Goal(written: string, es: seq<Entry>, first: bool, cap: nat): string {
    GoalWith(written, es, PutEntry, EntrySize, first, cap)
  }

  lemma GoalStep(written: string, es: seq<Entry>, first: bool, cap: nat)
    requires es != []
    ensures var whole := Sep(first) + EntryText(es[0]);
            Goal(written, es, first, cap) ==
            (if |written| + |whole| < cap then Goal(written + whole, es[1..], false, cap)
             else Goal(written, es[1..], first, cap))
  {
    forall r ensures PutEntry(es[0], r) == EntryText(es[0]) + r {
      PutEntryAround(es[0], r);
    }
    GoalWithStep(written, EntryText(es[0]), es, PutEntry, EntrySize, first, cap);
  }

  /** `snapshot_store_foreach` with the writer as its callback. */
  method WriteAgents(w: AgentsWriter, es: seq<Entry>)
    requires w.Valid()
    modifies w, w.body
    ensures w.Valid() && w.Written() + "}}" == Goal(old(w.Written()), es, old(w.first), w.body.Length)
  {
    var i := 0;
    assert es[0..] == es;
    while i < |es|
      invariant 0 <= i <= |es| && w.Valid()
      invariant Goal(w.Written(), es[i..], w.first, w.body.Length)
             == Goal(old(w.Written()), es, old(w.first), w.body.Length)
    {
      WriteNext(w, es[i..]);
      assert es[i..][1..] == es[i + 1..];
      i := i + 1;
    }
    assert es[i..] == [];
  }

  method WriteNext(w: AgentsWriter, es: seq<Entry>)
    requires w.Valid() && es != []
    modifies w, w.body
    ensures w.Valid()
    ensures Goal(w.Written(), es[1..], w.first, w.body.Length)
         == Goal(old(w.Written()), es, old(w.first), w.body.Length)
  {
    GoalStep(w.Written(), es, w.first, w.body.Length);
    var kept := w.AppendAgent(es[0]);
  }

  /** The body of GET /health for the stored agents, in a buffer of `cap` bytes. */
  method Health(h: Header, es: seq<Entry>, cap: nat) returns (ok: bool, body: array<char>, length: nat)
    ensures fresh(body) && body.Length == cap && length <= cap
    ensures ok ==> body[..length] == HealthBody(h, Kept(es, |PutHeader(h, "")|, true, cap))
    ensures ok <==> |PutHeader(h, "")| < cap
                    && |HealthBody(h, Kept(es, |PutHeader(h, "")|, true, cap))| <= cap
  {
    body := new char[cap];
    BodyIsGoal(h, es, cap);
    length := Begin(body, PutHeader(h, ""));
    if length >= cap {
      return false, body, 0;
    }
    var w := new AgentsWriter(body, length);
    WriteAgents(w, es);
    ok, length := Close(w);
  }

  lemma BodyIsGoal(h: Header, es: seq<Entry>, cap: nat)
    ensures Goal(PutHeader(h, ""), es, true, cap) == HealthBody(h, Kept(es, |PutHeader(h, "")|, true, cap))
  {
    PutHeaderAround(h, Joined(Kept(es, |PutHeader(h, "")|, true, cap), true, "}}"));
  }

  /** The header, printed at the start of the buffer. */
  method Begin(body: array<char>, header: string) returns (n: nat)
    modifies body
    ensures n == |header| && (n < body.Length ==> body[..n] == header)
  {
    var w := new AgentsWriter(body, 0);
    n := w.Snprintf(header);
    assert body[..0] == "" && "" + header == header;
  }

  /** The closing braces, when two bytes are left. */
  method Close(w: AgentsWriter) returns (ok: bool, length: nat)
    requires w.Valid()
    modifies w, w.body
    ensures length <= w.body.Length
    ensures ok <==> |old(w.Written()) + "}}"| <= w.body.Length
    ensures ok ==> w.body[..length] == old(w.Written()) + "}}"
  {
    length := w.off;
    if w.off + 2 > w.body.Length {
      return false, length;
    }
    w.body[w.off] := '}';
    w.body[w.off + 1] := '}';
    w.off := w.off + 2;
    if w.off < w.body.Length {
      w.body[w.off] := '\0';
    }
    return true, w.off;
  }

  // ------------------------------------------------------- what is kept

  /** a is b with some elements left out, in the same order. */
  ghost predicate Sublist<T>(a: seq<T>, b: seq<T>) {
    if a == [] then true
    else if b == [] then false
    else (a[0] == b[0] && Sublist(a[1..], b[1..])) || Sublist(a, b[1..])
  }

  lemma {:induction false} SelectIsSublist<T>(es: seq<T>, size: T -> nat, off: nat, first: bool, cap: nat)
    ensures Sublist(Select(es, size, off, first, cap), es)
    ensures forall x :: x in Select(es, size, off, first, cap) ==> x in es
  {
    if es != [] {
      var off' := off + |Sep(first)| + size(es[0]);
      if off' < cap {
        SelectIsSublist(es[1..], size, off', false, cap);
        assert Select(es, size, off, first, cap)[1..] == Select(es[1..], size, off', false, cap);
      } else {
        SelectIsSublist(es[1..], size, off, first, cap);
      }
    }
  }

  /** Whatever was dropped, the document is the text of a JSON tree with one member per kept
      agent, and the kept agents are a sublist of the stored ones in their order. */
  lemma HealthWellFormed(h: Header, es: seq<Entry>, off: nat, cap: nat)
    requires Plainly(h.deviceId) && Plainly(h.version)
    requires forall i :: 0 <= i < |es| ==> StorableEntry(es[i])
    ensures Sublist(Kept(es, off, true, cap), es)
    ensures HealthBody(h, Kept(es, off, true, cap)) == Text(HealthTree(h, Kept(es, off, true, cap)))
    ensures Valid(HealthTree(h, Kept(es, off, true, cap)))
  {
    SelectIsSublist(es, EntrySize, off, true, cap);
    TreeOf(h, es, Kept(es, off, true, cap));
  }

  lemma TreeOf(h: Header, es: seq<Entry>, kept: seq<Entry>)
    requires Plainly(h.deviceId) && Plainly(h.version)
    requires forall i :: 0 <= i < |es| ==> StorableEntry(es[i])
    requires forall e :: e in kept ==> e in es
    ensures HealthBody(h, kept) == Text(HealthTree(h, kept)) && Valid(HealthTree(h, kept))
  {
    HealthBodyIsTree(h, kept);
    forall i | 0 <= i < |kept| ensures StorableEntry(kept[i]) {
      assert kept[i] in es;
    }
    HealthTreeValid(h, kept);
  }
}
