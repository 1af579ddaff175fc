/** Printing a command and parsing it back. */
module Wire {
  import opened Types
  import opened Decimal
  import opened Tokenizer
  import opened Parser
  import opened Responses

  // ----- commands as a client writes them ------------------------------------------------------------

  /** What stands inside a FETCH section: plain characters, quoted strings, nested brackets. */
  datatype SectionItem = Raw(c: char) | Name(value: string) | Nested(body: seq<SectionItem>)

  /** An atom is a run of characters and sections. */
  datatype AtomPart = Ch(c: char) | Section(body: seq<SectionItem>)

  datatype Arg = Word(parts: seq<AtomPart>) | Str(value: string) | Bin(data: string) | Group(items: seq<Arg>)

  function ItemText(x: SectionItem): string
    decreases x, 0
  {
    match x
    case Raw(c) => [c]
    case Name(v) => QuotedText(v)
    case Nested(body) => "[" + BodyText(body) + "]"
  }

  function BodyText(body: seq<SectionItem>): string
    decreases body, 1
  {
    if body == [] then "" else ItemText(body[0]) + BodyText(body[1..])
  }

  function PartText(p: AtomPart): string {
    match p
    case Ch(c) => [c]
    case Section(body) => "[" + BodyText(body) + "]"
  }

  function AtomText(parts: seq<AtomPart>): string {
    if parts == [] then "" else PartText(parts[0]) + AtomText(parts[1..])
  }

  predicate WfItem(x: SectionItem)
    decreases x, 0
  {
    match x
    case Raw(c) => ' ' <= c <= '~' && c != '"' && c != '[' && c != ']'
    case Name(v) => Plain(v)
    case Nested(body) => WfBody(body)
  }

  predicate WfBody(body: seq<SectionItem>)
    decreases body, 1
  {
    body == [] || (WfItem(body[0]) && WfBody(body[1..]))
  }

  predicate WfPart(p: AtomPart) {
    match p
    case Ch(c) => '!' <= c <= '~' && c != '(' && c != ')' && c != '{' && c != '"' && c != '['
    case Section(body) => WfBody(body)
  }

  predicate WfParts(parts: seq<AtomPart>) {
    parts == [] || (WfPart(parts[0]) && WfParts(parts[1..]))
  }

  predicate WfAtom(parts: seq<AtomPart>) {
    parts != [] && WfParts(parts)
  }

  predicate WfArg(a: Arg)
    decreases a, 0
  {
    match a
    case Word(parts) => WfAtom(parts)
    case Str(v) => Plain(v)
    case Bin(_) => true
    case Group(items) => WfArgs(items)
  }

  predicate WfArgs(items: seq<Arg>)
    decreases items, 1
  {
    items == [] || (WfArg(items[0]) && WfArgs(items[1..]))
  }

  function TokenOf(a: Arg): Token
    decreases a, 0
  {
    match a
    case Word(parts) => Atom(AtomText(parts))
    case Str(v) => Quoted(v)
    case Bin(d) => Literal(d)
    case Group(items) => List(TokensOf(items))
  }

  function TokensOf(items: seq<Arg>): seq<Token>
    decreases items, 1
  {
    if items == [] then [] else [TokenOf(items[0])] + TokensOf(items[1..])
  }

  function ArgText(a: Arg): string
    decreases a, 0
  {
    match a
    case Word(parts) => AtomText(parts)
    case Str(v) => QuotedText(v)
    case Bin(d) => LiteralText(d)
    case Group(items) => "(" + ArgsText(items) + ")"
  }

  /** Arguments separated by single spaces. */
  function ArgsText(items: seq<Arg>): string
    decreases items, 1
  {
    if items == [] then "" else if |items| == 1 then ArgText(items[0])
    else ArgText(items[0]) + " " + ArgsText(items[1..])
  }

  /** The octets of a command: tag, name and arguments, and CRLF. */
  function CommandText(words: seq<Arg>): string {
    ArgsText(words) + CRLF
  }

  // ----- the same as lines and literals ----------------------------------------------------------------

  /** Lines and literals alternate, beginning and ending with a line. */
  predicate Framed(k: seq<Piece>) {
    |k| > 0 && k[0].Line? && (|k| == 1 || (k[1].Lit? && Framed(k[2..])))
  }

  function Before(t: string, k: seq<Piece>): (r: seq<Piece>)
    requires Framed(k)
    ensures Framed(r)
  {
    var r := [Line(t + k[0].text)] + k[1..];
    assert |k| > 1 ==> r[2..] == k[2..];
    r
  }

  function Put(a: Arg, k: seq<Piece>): (r: seq<Piece>)
    requires Framed(k)
    ensures Framed(r)
    decreases a, 0
  {
    match a
    case Word(parts) => Before(AtomText(parts), k)
    case Str(v) => Before(QuotedText(v), k)
    case Bin(d) =>
      var r := [Line(""), Lit(d)] + k;
      assert r[2..] == k;
      r
    case Group(items) => Before("(", PutAll(items, Before(")", k)))
  }

  function PutAll(items: seq<Arg>, k: seq<Piece>): (r: seq<Piece>)
    requires Framed(k)
    ensures Framed(r)
    decreases items, 1
  {
    if items == [] then k
    else if |items| == 1 then Put(items[0], k)
    else Put(items[0], Before(" ", PutAll(items[1..], k)))
  }

  function WireText(k: seq<Piece>): string
    requires Framed(k)
  {
    if |k| == 1 then k[0].text + CRLF else k[0].text + LiteralText(k[1].data) + WireText(k[2..])
  }

  lemma WireBefore(t: string, k: seq<Piece>)
    requires Framed(k)
    ensures Framed(Before(t, k)) && WireText(Before(t, k)) == t + WireText(k)
  {
    hide LiteralText;
    var r := Before(t, k);
    if |k| > 1 {
      assert r[2..] == k[2..] && r[1] == k[1];
      Regroup(t, k[0].text, LiteralText(k[1].data), WireText(k[2..]));
    } else {
      Regroup(t, k[0].text, CRLF, "");
    }
  }

  lemma Regroup(a: string, b: string, c: string, d: string)
    ensures (a + b) + c + d == a + (b + c + d)
    ensures (a + b) + c == a + (b + c)
  {
  }

  /** Cutting a command into lines and literals does not change its octets. */
  lemma {:induction false} WirePut(a: Arg, k: seq<Piece>)
    requires Framed(k) && WfArg(a)
    ensures WireText(Put(a, k)) == ArgText(a) + WireText(k)
    decreases a, 0
  {
    hide WireText, LiteralText, AtomText, QuotedText, Before;
    match a
    case Word(parts) => WireBefore(AtomText(parts), k);
    case Str(v) => WireBefore(QuotedText(v), k);
    case Bin(d) => WireLiteral(d, k);
    case Group(items) =>
      WireBefore(")", k);
      WirePutAll(items, Before(")", k));
      WireBefore("(", PutAll(items, Before(")", k)));
      assert "(" + (ArgsText(items) + (")" + WireText(k))) == ("(" + ArgsText(items) + ")") + WireText(k);
  }

  lemma WireLiteral(d: string, k: seq<Piece>)
    requires Framed(k)
    ensures Framed([Line(""), Lit(d)] + k) && WireText([Line(""), Lit(d)] + k) == LiteralText(d) + WireText(k)
  {
    hide LiteralText;
    assert ([Line(""), Lit(d)] + k)[2..] == k;
    assert "" + LiteralText(d) + WireText(k) == LiteralText(d) + WireText(k);
  }

  lemma {:induction false} WirePutAll(items: seq<Arg>, k: seq<Piece>)
    requires Framed(k) && WfArgs(items)
    ensures WireText(PutAll(items, k)) == ArgsText(items) + WireText(k)
    decreases items, 1
  {
    hide WireText, Put, Before, ArgText;
    if items == [] {
      assert "" + WireText(k) == WireText(k);
    } else if |items| == 1 {
      WirePut(items[0], k);
    } else {
      WirePutAll(items[1..], k);
      WireBefore(" ", PutAll(items[1..], k));
      WirePut(items[0], Before(" ", PutAll(items[1..], k)));
      assert ArgText(items[0]) + (" " + (ArgsText(items[1..]) + WireText(k))) ==
          (ArgText(items[0]) + " " + ArgsText(items[1..])) + WireText(k);
    }
  }

  // ----- reading atoms back ------------------------------------------------------------------------------

  lemma FurtherTwice(m: nat, n: nat, r: Result<nat, Fault>)
    ensures Further(m, Further(n, r)) == Further(m + n, r)
  {
  }

  lemma SkipRaw(c: char, rest: string, depth: int)
    requires PlainChar(c) && c != QUOTE && c != '[' && c != ']'
    ensures SkipBracket([c] + rest, depth) == Further(1, SkipBracket(rest, depth))
  {
    assert ([c] + rest)[1..] == rest;
  }

  lemma SkipName(v: string, rest: string, depth: int)
    requires Plain(v)
    ensures SkipBracket(QuotedText(v) + rest, depth) == Further(|QuotedText(v)|, SkipBracket(rest, depth))
  {
    QuotedReadsBack(v, rest);
    QuotedIs(v);
    hide QuotedText, ReadQuoted;
    var s := QuotedText(v) + rest;
    assert s[0] == QUOTE && s[|QuotedText(v)|..] == rest;
  }

  lemma SkipOpen(rest: string, depth: int)
    ensures SkipBracket("[" + rest, depth) == Further(1, SkipBracket(rest, depth + 1))
  {
    assert ("[" + rest)[1..] == rest;
  }

  lemma SkipClose(rest: string, depth: int)
    ensures SkipBracket("]" + rest, depth) == if depth == 1 then Ok(1) else Further(1, SkipBracket(rest, depth - 1))
  {
    assert ("]" + rest)[1..] == rest;
  }

  lemma {:induction false} ItemSkips(x: SectionItem, rest: string, depth: int)
    requires WfItem(x) && depth >= 1
    ensures SkipBracket(ItemText(x) + rest, depth) == Further(|ItemText(x)|, SkipBracket(rest, depth))
    decreases x, 0
  {
    hide SkipBracket;
    match x
    case Raw(c) => SkipRaw(c, rest, depth);
    case Name(v) => SkipName(v, rest, depth);
    case Nested(body) =>
      var n := |BodyText(body)|;
      assert ItemText(x) + rest == "[" + (BodyText(body) + ("]" + rest));
      SkipOpen(BodyText(body) + ("]" + rest), depth);
      BodySkips(body, "]" + rest, depth + 1);
      SkipClose(rest, depth + 1);
      FurtherTwice(n, 1, SkipBracket(rest, depth));
      FurtherTwice(1, n + 1, SkipBracket(rest, depth));
  }

  lemma {:induction false} BodySkips(body: seq<SectionItem>, rest: string, depth: int)
    requires WfBody(body) && depth >= 1
    ensures SkipBracket(BodyText(body) + rest, depth) == Further(|BodyText(body)|, SkipBracket(rest, depth))
    decreases body, 1
  {
    hide SkipBracket;
    if body == [] {
      assert "" + rest == rest;
    } else {
      assert BodyText(body) + rest == ItemText(body[0]) + (BodyText(body[1..]) + rest);
      ItemSkips(body[0], BodyText(body[1..]) + rest, depth);
      BodySkips(body[1..], rest, depth);
      FurtherTwice(|ItemText(body[0])|, |BodyText(body[1..])|, SkipBracket(rest, depth));
    }
  }

  lemma SectionSkips(body: seq<SectionItem>, rest: string)
    requires WfBody(body)
    ensures SkipBracket(("[" + BodyText(body) + "]") + rest, 0) == Ok(|BodyText(body)| + 2)
  {
    hide SkipBracket;
    assert ("[" + BodyText(body) + "]") + rest == "[" + (BodyText(body) + ("]" + rest));
    SkipOpen(BodyText(body) + ("]" + rest), 0);
    BodySkips(body, "]" + rest, 1);
    SkipClose(rest, 1);
  }

  /** Text that ends the token before it: nothing, or a character no atom contains. */
  predicate Stops(s: string) {
    s == "" || AtomStop(s[0])
  }

  lemma PartReads(p: AtomPart, tail: string)
    requires WfPart(p)
    ensures ReadAtom(PartText(p) + tail) == Further(|PartText(p)|, ReadAtom(tail))
  {
    var s := PartText(p) + tail;
    match p
    case Ch(c) => assert s[1..] == tail;
    case Section(body) =>
      SectionSkips(body, tail);
      hide SkipBracket;
      assert s[|BodyText(body)| + 2..] == tail;
  }

  lemma {:induction false} AtomReadsBack(parts: seq<AtomPart>, rest: string)
    requires WfParts(parts) && Stops(rest)
    ensures ReadAtom(AtomText(parts) + rest) == Ok(|AtomText(parts)|)
  {
    hide ReadAtom, PartText, WfPart, Stops;
    if parts == [] {
      assert AtomText(parts) + rest == rest;
      AtomStopsAt(rest);
    } else {
      AtomReadsBack(parts[1..], rest);
      PartReads(parts[0], AtomText(parts[1..]) + rest);
      assert AtomText(parts) + rest == PartText(parts[0]) + (AtomText(parts[1..]) + rest);
    }
  }

  lemma AtomStopsAt(rest: string)
    requires Stops(rest)
    ensures ReadAtom(rest) == Ok(0)
  {
  }

  lemma AtomTextStarts(parts: seq<AtomPart>)
    requires WfAtom(parts)
    ensures AtomText(parts) != "" && PlainChar(AtomText(parts)[0]) && !AtomStop(AtomText(parts)[0])
  {
    match parts[0]
    case Ch(c) => assert AtomText(parts)[0] == c;
    case Section(_) => assert AtomText(parts)[0] == '[';
  }

  // ----- tokenizing undoes printing -------------------------------------------------------------------------

  function PushAll(stack: Stack, ts: seq<Token>): Stack
    decreases |ts|
  {
    if ts == [] then stack else PushAll(Push(stack, ts[0]), ts[1..])
  }

  lemma {:induction false} PushAllAppends(stack: Stack, ts: seq<Token>)
    ensures PushAll(stack, ts) == stack[..|stack|-1] + [stack[|stack|-1] + ts]
    decreases |ts|
  {
    if ts == [] {
      assert stack[|stack|-1] + ts == stack[|stack|-1];
    } else {
      PushAllAppends(Push(stack, ts[0]), ts[1..]);
      assert (stack[|stack|-1] + [ts[0]]) + ts[1..] == stack[|stack|-1] + ts;
      assert Push(stack, ts[0])[..|stack|-1] == stack[..|stack|-1];
    }
  }

  /** Tokenizing the first line past a prefix, when the tokenizer is known to get past that prefix. */
  lemma AfterPrefix(t: string, k: seq<Piece>, stack: Stack, next: Stack)
    requires Framed(k) && TokenizeLine(t + k[0].text, stack) == TokenizeLine(k[0].text, next)
    ensures TokenizeFrom(Before(t, k), stack) == TokenizeFrom(k, next)
  {
    hide TokenizeLine;
    assert Before(t, k)[1..] == k[1..];
  }

  lemma {:induction false} TokenizePut(a: Arg, k: seq<Piece>, stack: Stack)
    requires Framed(k) && WfArg(a) && Stops(k[0].text)
    ensures TokenizeFrom(Put(a, k), stack) == TokenizeFrom(k, Push(stack, TokenOf(a)))
    decreases a, 0
  {
    match a
    case Word(parts) => WordTokenizes(parts, k, stack);
    case Str(v) => StrTokenizes(v, k, stack);
    case Bin(d) =>
      var r := [Line(""), Lit(d)] + k;
      assert r[1..] == [Lit(d)] + k && r[1..][1..] == k;
    case Group(items) =>
      hide TokenizeFrom, Before;
      var close := Before(")", k);
      OpenTokenizes(PutAll(items, close), stack);
      assert Stops(close[0].text) by { ClosesStop(k); }
      TokenizePutAll(items, close, stack + [[]]);
      CloseTokenizes(TokensOf(items), k, stack);
  }

  lemma ClosesStop(k: seq<Piece>)
    requires Framed(k)
    ensures Stops(Before(")", k)[0].text) && Stops(Before(" ", k)[0].text)
  {
  }

  lemma StrTokenizes(v: string, k: seq<Piece>, stack: Stack)
    requires Framed(k) && Plain(v)
    ensures TokenizeFrom(Put(Str(v), k), stack) == TokenizeFrom(k, Push(stack, Quoted(v)))
  {
    QuotedReadsBack(v, k[0].text);
    QuotedIs(v);
    AfterQuoted(QuotedText(v), v, k[0].text, stack);
    AfterPrefix(QuotedText(v), k, stack, Push(stack, Quoted(v)));
  }

  lemma AfterQuoted(q: string, v: string, rest: string, stack: Stack)
    requires |q| > 1 && q[0] == QUOTE && ReadQuoted((q + rest)[1..]) == Ok(Read(v, |q| - 1))
    ensures TokenizeLine(q + rest, stack) == TokenizeLine(rest, Push(stack, Quoted(v)))
  {
    hide ReadQuoted;
    assert (q + rest)[|q|..] == rest;
  }

  lemma OpenTokenizes(k: seq<Piece>, stack: Stack)
    requires Framed(k)
    ensures TokenizeFrom(Before("(", k), stack) == TokenizeFrom(k, stack + [[]])
  {
    assert ("(" + k[0].text)[1..] == k[0].text;
    AfterPrefix("(", k, stack, stack + [[]]);
  }

  lemma CloseTokenizes(items: seq<Token>, k: seq<Piece>, stack: Stack)
    requires Framed(k)
    ensures TokenizeFrom(Before(")", k), PushAll(stack + [[]], items)) == TokenizeFrom(k, Push(stack, List(items)))
  {
    var filled := PushAll(stack + [[]], items);
    PushAllAppends(stack + [[]], items);
    assert [] + items == items && (stack + [[]])[..|stack|] == stack;
    assert filled[..|filled|-1] == stack && filled[|filled|-1] == items;
    assert (")" + k[0].text)[1..] == k[0].text;
    AfterPrefix(")", k, filled, Push(stack, List(items)));
  }

  lemma WordTokenizes(parts: seq<AtomPart>, k: seq<Piece>, stack: Stack)
    requires Framed(k) && WfAtom(parts) && Stops(k[0].text)
    ensures TokenizeFrom(Before(AtomText(parts), k), stack) == TokenizeFrom(k, Push(stack, Atom(AtomText(parts))))
  {
    AtomReadsBack(parts, k[0].text);
    AtomTextStarts(parts);
    var n, s := |AtomText(parts)|, AtomText(parts) + k[0].text;
    assert s[0] == AtomText(parts)[0] && s[..n] == AtomText(parts) && s[n..] == k[0].text;
    AfterPrefix(AtomText(parts), k, stack, Push(stack, Atom(AtomText(parts))));
  }

  lemma {:induction false} TokenizePutAll(items: seq<Arg>, k: seq<Piece>, stack: Stack)
    requires Framed(k) && WfArgs(items) && Stops(k[0].text)
    ensures TokenizeFrom(PutAll(items, k), stack) == TokenizeFrom(k, PushAll(stack, TokensOf(items)))
    decreases items, 1
  {
    if items == [] {
    } else {
      var next := Push(stack, TokenOf(items[0]));
      assert TokensOf(items)[1..] == TokensOf(items[1..]);
      if |items| == 1 {
        TokenizePut(items[0], k, stack);
        assert TokensOf(items[1..]) == [];
      } else {
        var more := PutAll(items[1..], k);
        TokenizePut(items[0], Before(" ", more), stack);
        assert (" " + more[0].text)[1..] == more[0].text;
        AfterPrefix(" ", more, next, next);
        TokenizePutAll(items[1..], k, next);
      }
    }
  }

  /** A command's lines and literals. */
  function CommandPieces(words: seq<Arg>): (r: seq<Piece>)
    ensures Framed(r)
  {
    PutAll(words, [Line("")])
  }

  lemma TokenizeUndoesPrint(words: seq<Arg>)
    requires WfArgs(words)
    ensures Tokenize(CommandPieces(words)) == Ok(TokensOf(words))
    ensures WireText(CommandPieces(words)) == CommandText(words)
  {
    TokenizePutAll(words, [Line("")], [[]]);
    PushAllAppends([[]], TokensOf(words));
    assert [] + TokensOf(words) == TokensOf(words);
    WirePutAll(words, [Line("")]);
    assert "" + CRLF == CRLF;
  }
}
