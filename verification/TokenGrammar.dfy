/** The grammar of a command's tokens, stated with its characters, and the proof that the tokenizer accepts exactly
    that: a list of tokens is read if and only if the text is a way to write it. */
module TokenGrammar {
  import opened Types
  import opened Tokenizer
  import opened Responses
  import opened Wire

  // ----- quoted strings ---------------------------------------------------------------------------------------

  lemma PlainCons(c: char, s: string)
    requires ' ' <= c <= '~' && Plain(s)
    ensures Plain([c] + s)
  {
  }

  lemma EscapeCons(c: char, s: string)
    ensures Escape([c] + s) == (if c == '"' || c == '\\' then ['\\', c] else [c]) + Escape(s)
  {
    assert ([c] + s)[1..] == s;
  }

  /** What is read after an opening quote: printable text, in the one way to escape it, up to a closing quote. */
  predicate QuotedAs(s: string, v: string, n: nat) {
    Plain(v) && n <= |s| && s[..n] == Escape(v) + "\""
  }

  /** One character, escaped if it must be, before such a text. */
  lemma QuotedCons(s: string, n: nat, c: char, v: string, m: nat)
    requires n <= |s| && ' ' <= c <= '~' && QuotedAs(s[n..], v, m)
    requires s[..n] == if c == '"' || c == '\\' then ['\\', c] else [c]
    ensures QuotedAs(s, [c] + v, n + m)
  {
    EscapeCons(c, v);
    PlainCons(c, v);
    hide Escape, Plain;
    assert s[..n+m] == s[..n] + s[n..][..m];
    assert s[..n] + (Escape(v) + "\"") == (s[..n] + Escape(v)) + "\"";
  }

  lemma QuotedNothing(s: string)
    requires s != "" && s[0] == '"'
    ensures QuotedAs(s, "", 1)
  {
  }

  lemma {:induction false} QuotedReads(s: string)
    requires ReadQuoted(s).Ok?
    ensures QuotedAs(s, ReadQuoted(s).value.value, ReadQuoted(s).value.taken)
  {
    hide QuotedAs;
    if s[0] == '"' {
      QuotedNothing(s);
    } else {
      var n := if s[0] == '\\' then 2 else 1;
      QuotedReads(s[n..]);
      var q := ReadQuoted(s[n..]).value;
      QuotedCons(s, n, s[n-1], q.value, q.taken);
    }
  }

  lemma QuotedIsRead(s: string, v: string, n: nat)
    requires QuotedAs(s, v, n)
    ensures ReadQuoted(s) == Ok(Read(v, n))
  {
    hide ReadQuoted, Escape, Plain;
    assert s == s[..n] + s[n..];
    assert (Escape(v) + "\"") + s[n..] == Escape(v) + ([QUOTE] + s[n..]);
    assert |s[..n]| == |Escape(v)| + 1;
    ReadEscaped(v, s[n..]);
  }

  lemma QuotedIffRead(s: string, v: string, n: nat)
    ensures ReadQuoted(s) == Ok(Read(v, n)) <==> QuotedAs(s, v, n)
  {
    hide ReadQuoted, QuotedAs;
    if ReadQuoted(s) == Ok(Read(v, n)) {
      QuotedReads(s);
    }
    if QuotedAs(s, v, n) {
      QuotedIsRead(s, v, n);
    }
  }

  // ----- atoms ----------------------------------------------------------------------------------------------------

  /** Where an atom ends: with the text, or before a parenthesis, a brace, a quote or a space. */
  predicate AtomEnd(s: string) {
    s == "" || s[0] == '(' || s[0] == ')' || s[0] == '{' || s[0] == '"' || s[0] == ' '
  }

  /** The first `n` characters are a section's content and its closing bracket. */
  predicate SectionAs(s: string, body: seq<SectionItem>, n: nat) {
    WfBody(body) && n <= |s| && s[..n] == BodyText(body) + "]"
  }

  lemma SectionCons(s: string, x: SectionItem, m: nat, body: seq<SectionItem>, n: nat)
    requires WfItem(x) && m <= |s| && s[..m] == ItemText(x) && SectionAs(s[m..], body, n)
    ensures SectionAs(s, [x] + body, m + n)
  {
    assert ([x] + body)[1..] == body;
    hide WfItem, ItemText;
    assert s[..m+n] == s[..m] + s[m..][..n];
  }

  lemma NestedText(s: string, body: seq<SectionItem>, n: nat)
    requires s != "" && s[0] == '[' && SectionAs(s[1..], body, n)
    ensures WfItem(Nested(body)) && s[..1+n] == ItemText(Nested(body))
  {
    assert s[..1+n] == "[" + s[1..][..n];
    assert "[" + (BodyText(body) + "]") == "[" + BodyText(body) + "]";
  }

  lemma NameText(s: string)
    requires s != "" && s[0] == '"' && ReadQuoted(s[1..]).Ok?
    ensures var q := ReadQuoted(s[1..]).value;
            WfItem(Name(q.value)) && 1 + q.taken <= |s| && s[..1 + q.taken] == ItemText(Name(q.value))
  {
    var q := ReadQuoted(s[1..]).value;
    QuotedReads(s[1..]);
    QuotedIs(q.value);
    hide ReadQuoted, Escape, QuotedText, Plain;
    assert s[..1 + q.taken] == "\"" + s[1..][..q.taken];
    assert "\"" + (Escape(q.value) + "\"") == "\"" + Escape(q.value) + "\"";
  }

  /** A section with `depth` brackets open: its innermost one is closed, and the rest goes on one level higher. */
  predicate ClosesOne(s: string, depth: int, body: seq<SectionItem>, m: nat) {
    && 0 < m && SectionAs(s, body, m)
    && SkipBracket(s, depth) == if depth == 1 then Ok(m) else Further(m, SkipBracket(s[m..], depth - 1))
  }

  /** One item before such a section. */
  lemma ItemBefore(s: string, depth: int, x: SectionItem, n: nat, body: seq<SectionItem>, m: nat)
    requires 0 < n <= |s| && WfItem(x) && s[..n] == ItemText(x) && ClosesOne(s[n..], depth, body, m)
    requires SkipBracket(s, depth) == Further(n, SkipBracket(s[n..], depth))
    ensures ClosesOne(s, depth, [x] + body, n + m)
  {
    hide SkipBracket, SectionAs, WfItem, ItemText;
    SectionCons(s, x, n, body, m);
    SectionInside(s[n..], body, m);
    assert s[n..][m..] == s[n+m..];
  }

  lemma SectionInside(s: string, body: seq<SectionItem>, n: nat)
    requires SectionAs(s, body, n)
    ensures n <= |s|
  {
  }

  lemma {:induction false} SectionReads(s: string, depth: int) returns (body: seq<SectionItem>, m: nat)
    requires depth >= 1 && SkipBracket(s, depth).Ok?
    ensures ClosesOne(s, depth, body, m)
    decreases |s|
  {
    hide ReadQuoted, SectionAs, WfItem, ItemText, ClosesOne;
    if s[0] == ']' {
      body, m := [], 1;
      ClosesSection(s, depth);
    } else if s[0] == '[' {
      var inner, n := SectionReads(s[1..], depth + 1);
      NestedSkips(s, depth, inner, n);
      var more, k := SectionReads(s[1+n..], depth);
      ItemBefore(s, depth, Nested(inner), 1 + n, more, k);
      body, m := [Nested(inner)] + more, 1 + n + k;
    } else if s[0] == '"' {
      NameText(s);
      var q := ReadQuoted(s[1..]).value;
      var more, k := SectionReads(s[1 + q.taken..], depth);
      ItemBefore(s, depth, Name(q.value), 1 + q.taken, more, k);
      body, m := [Name(q.value)] + more, 1 + q.taken + k;
    } else {
      var more, k := SectionReads(s[1..], depth);
      RawText(s);
      ItemBefore(s, depth, Raw(s[0]), 1, more, k);
      body, m := [Raw(s[0])] + more, 1 + k;
    }
  }

  /** An inner section is one item. */
  lemma NestedSkips(s: string, depth: int, body: seq<SectionItem>, n: nat)
    requires s != "" && s[0] == '[' && depth >= 1 && ClosesOne(s[1..], depth + 1, body, n)
    ensures 1 + n <= |s| && WfItem(Nested(body)) && s[..1+n] == ItemText(Nested(body))
    ensures SkipBracket(s, depth) == Further(1 + n, SkipBracket(s[1+n..], depth))
  {
    hide SectionAs, WfItem, ItemText;
    SectionInside(s[1..], body, n);
    NestedText(s, body, n);
    assert s[1..][n..] == s[1+n..];
    assert SkipBracket(s, depth) == Further(1, SkipBracket(s[1..], depth + 1));
    FurtherTwice(1, n, SkipBracket(s[1+n..], depth));
  }

  lemma ClosesSection(s: string, depth: int)
    requires s != "" && s[0] == ']'
    ensures ClosesOne(s, depth, [], 1)
  {
  }

  lemma RawText(s: string)
    requires s != "" && ' ' <= s[0] <= '~' && s[0] != '"' && s[0] != '[' && s[0] != ']'
    ensures WfItem(Raw(s[0])) && s[..1] == ItemText(Raw(s[0]))
  {
  }

  /** The first `n` characters are an atom, and nothing that follows belongs to it. */
  predicate AtomAs(s: string, parts: seq<AtomPart>, n: nat) {
    WfParts(parts) && n <= |s| && s[..n] == AtomText(parts) && AtomEnd(s[n..])
  }

  lemma AtomCons(s: string, p: AtomPart, m: nat, parts: seq<AtomPart>, n: nat)
    requires WfPart(p) && m <= |s| && s[..m] == PartText(p) && AtomAs(s[m..], parts, n)
    ensures AtomAs(s, [p] + parts, m + n)
  {
    assert ([p] + parts)[1..] == parts;
    hide WfPart, PartText;
    assert s[..m+n] == s[..m] + s[m..][..n];
    assert s[m..][n..] == s[m+n..];
  }

  lemma {:induction false} AtomReads(s: string) returns (parts: seq<AtomPart>)
    requires ReadAtom(s).Ok?
    ensures AtomAs(s, parts, ReadAtom(s).value)
    decreases |s|
  {
    hide SkipBracket, WfPart, PartText, AtomAs;
    if s == "" || AtomStop(s[0]) {
      parts := [];
      NoAtom(s);
    } else if s[0] == '[' {
      var body, n := OuterSection(s);
      var more := AtomReads(s[n..]);
      AtomCons(s, Section(body), n, more, ReadAtom(s[n..]).value);
      parts := [Section(body)] + more;
    } else {
      var more := AtomReads(s[1..]);
      CharText(s);
      AtomCons(s, Ch(s[0]), 1, more, ReadAtom(s[1..]).value);
      parts := [Ch(s[0])] + more;
    }
  }

  lemma NoAtom(s: string)
    requires s == "" || AtomStop(s[0])
    ensures AtomAs(s, [], 0)
  {
  }

  lemma CharText(s: string)
    requires s != "" && !AtomStop(s[0]) && !Control(s[0]) && !NonAscii(s[0]) && s[0] != '['
    ensures WfPart(Ch(s[0])) && s[..1] == PartText(Ch(s[0]))
  {
  }

  lemma OuterSection(s: string) returns (body: seq<SectionItem>, n: nat)
    requires s != "" && s[0] == '[' && SkipBracket(s, 0).Ok?
    ensures SkipBracket(s, 0) == Ok(n) && n <= |s| && WfPart(Section(body)) && s[..n] == PartText(Section(body))
  {
    var inner, k := SectionReads(s[1..], 1);
    SectionInside(s[1..], inner, k);
    NestedText(s, inner, k);
    body, n := inner, 1 + k;
  }

  /** An atom is read if and only if it is one, with balanced sections, and ends where it must. */
  lemma AtomIffRead(s: string, n: nat)
    ensures ReadAtom(s) == Ok(n) <==> exists parts :: AtomAs(s, parts, n)
  {
    hide ReadAtom, AtomAs;
    if ReadAtom(s) == Ok(n) {
      var parts := AtomReads(s);
    }
    if parts :| AtomAs(s, parts, n) {
      AtomIsRead(s, parts, n);
    }
  }

  lemma AtomIsRead(s: string, parts: seq<AtomPart>, n: nat)
    requires AtomAs(s, parts, n)
    ensures ReadAtom(s) == Ok(n)
  {
    hide ReadAtom, AtomText, WfParts;
    assert s == s[..n] + s[n..];
    AtomReadsBack(parts, s[n..]);
  }

  // ----- lexemes ------------------------------------------------------------------------------------------------

  type Simple = t: Token | !t.List? witness Atom("")

  datatype Lexeme = Open | Close | Leaf(t: Simple)

  function LexemesOf(t: Token): seq<Lexeme>
    decreases t, 0
  {
    match t
    case List(items) => [Open] + Lexemes(items) + [Close]
    case _ => [Leaf(t)]
  }

  /** A list of tokens, as it is written from left to right. */
  function Lexemes(ts: seq<Token>): seq<Lexeme>
    decreases ts, 1
  {
    if ts == [] then [] else LexemesOf(ts[0]) + Lexemes(ts[1..])
  }

  /** The line writes the lexemes: parentheses, quoted strings and atoms, with spaces anywhere between them. */
  ghost predicate LineWrites(s: string, ls: seq<Lexeme>)
    decreases |s|
  {
    if s == "" then ls == []
    else if s[0] == ' ' then LineWrites(s[1..], ls)
    else if ls == [] then false
    else
      match ls[0]
      case Open => s[0] == '(' && LineWrites(s[1..], ls[1..])
      case Close => s[0] == ')' && LineWrites(s[1..], ls[1..])
      case Leaf(Quoted(v)) =>
        s[0] == '"' && exists n: nat :: n < |s| && QuotedAs(s[1..], v, n) && LineWrites(s[1..][n..], ls[1..])
      case Leaf(Atom(v)) =>
        && 0 < |v| <= |s| && s[..|v|] == v && (exists parts :: AtomAs(s, parts, |v|)) && LineWrites(s[|v|..], ls[1..])
      case _ => false
  }

  /** Lines and literals write the lexemes; a literal is one of them. */
  ghost predicate Writes(pieces: seq<Piece>, ls: seq<Lexeme>)
    decreases |pieces|
  {
    if pieces == [] then ls == []
    else
      match pieces[0]
      case Lit(data) => ls != [] && ls[0] == Leaf(Literal(data)) && Writes(pieces[1..], ls[1..])
      case Line(text) => exists k: nat :: k <= |ls| && LineWrites(text, ls[..k]) && Writes(pieces[1..], ls[k..])
  }

  /** The list stack after the lexemes; a closing parenthesis without an opening one has no place on it. */
  function OnStack(ls: seq<Lexeme>, stack: Stack): Option<Stack>
    decreases |ls|
  {
    if ls == [] then Some(stack)
    else
      match ls[0]
      case Open => OnStack(ls[1..], stack + [[]])
      case Close =>
        if |stack| == 1 then None
        else OnStack(ls[1..], Push(stack[..|stack|-1], List(stack[|stack|-1])))
      case Leaf(t) => OnStack(ls[1..], Push(stack, t))
  }

  lemma OnStackFirst(l: Lexeme, ls: seq<Lexeme>, stack: Stack)
    ensures OnStack([l] + ls, stack) ==
            match l
            case Open => OnStack(ls, stack + [[]])
            case Close =>
              if |stack| == 1 then None
              else OnStack(ls, Push(stack[..|stack|-1], List(stack[|stack|-1])))
            case Leaf(t) => OnStack(ls, Push(stack, t))
  {
    assert ([l] + ls)[1..] == ls;
  }

  function Accepts(r: Result<Stack, Fault>): Option<Stack> {
    match r case Err(_) => None case Ok(s) => Some(s)
  }

  // ----- reading lexemes -----------------------------------------------------------------------------------

  lemma {:induction false} OnStackConcat(a: seq<Lexeme>, b: seq<Lexeme>, stack: Stack)
    ensures OnStack(a + b, stack) ==
            match OnStack(a, stack) case None => None case Some(next) => OnStack(b, next)
    decreases |a|
  {
    hide Push;
    if a == [] {
      assert a + b == b;
    } else {
      assert (a + b)[1..] == a[1..] + b;
      match a[0]
      case Open => OnStackConcat(a[1..], b, stack + [[]]);
      case Close =>
        if |stack| > 1 {
          OnStackConcat(a[1..], b, Push(stack[..|stack|-1], List(stack[|stack|-1])));
        }
      case Leaf(t) => OnStackConcat(a[1..], b, Push(stack, t));
    }
  }

  /** A line that writes lexemes is tokenized as they are put on the stack. */
  lemma {:induction false} LineOnStack(s: string, ls: seq<Lexeme>, stack: Stack)
    requires LineWrites(s, ls)
    ensures Accepts(TokenizeLine(s, stack)) == OnStack(ls, stack)
    decreases |s|
  {
    hide Push, ReadQuoted, ReadAtom, QuotedAs, AtomAs;
    if s == "" {
    } else if s[0] == ' ' {
      LineOnStack(s[1..], ls, stack);
    } else {
      match ls[0]
      case Open => LineOnStack(s[1..], ls[1..], stack + [[]]);
      case Close =>
        if |stack| > 1 {
          LineOnStack(s[1..], ls[1..], Push(stack[..|stack|-1], List(stack[|stack|-1])));
        }
      case Leaf(Quoted(v)) =>
        var n: nat :| n < |s| && QuotedAs(s[1..], v, n) && LineWrites(s[1..][n..], ls[1..]);
        QuotedIffRead(s[1..], v, n);
        assert s[1..][n..] == s[1+n..];
        LineOnStack(s[1+n..], ls[1..], Push(stack, Quoted(v)));
      case Leaf(Atom(v)) =>
        AtomIffRead(s, |v|);
        AtomStart(s, v);
        LineOnStack(s[|v|..], ls[1..], Push(stack, Atom(v)));
    }
  }

  /** A non-empty atom begins with none of the characters that have a meaning of their own. */
  lemma AtomStart(s: string, v: string)
    requires 0 < |v| <= |s| && ReadAtom(s) == Ok(|v|)
    ensures s[0] != ' ' && s[0] != '(' && s[0] != ')' && s[0] != '"' && s[0] != '{' && !Control(s[0])
  {
    hide SkipBracket;
  }

  /** A line that is tokenized writes some lexemes. */
  lemma {:induction false} LineLexemes(s: string, stack: Stack) returns (ls: seq<Lexeme>)
    requires TokenizeLine(s, stack).Ok?
    ensures LineWrites(s, ls)
    decreases |s|
  {
    hide Push, ReadQuoted, ReadAtom, QuotedAs, AtomAs;
    if s == "" {
      ls := [];
    } else if s[0] == ' ' {
      ls := LineLexemes(s[1..], stack);
    } else if s[0] == '(' {
      var more := LineLexemes(s[1..], stack + [[]]);
      ls := [Open] + more;
      assert ls[1..] == more;
    } else if s[0] == ')' {
      var more := LineLexemes(s[1..], Push(stack[..|stack|-1], List(stack[|stack|-1])));
      ls := [Close] + more;
      assert ls[1..] == more;
    } else if s[0] == '"' {
      var q := ReadQuoted(s[1..]).value;
      var more := LineLexemes(s[1 + q.taken..], Push(stack, Quoted(q.value)));
      ls := [Leaf(Quoted(q.value))] + more;
      assert ls[1..] == more;
      QuotedIffRead(s[1..], q.value, q.taken);
      assert s[1..][q.taken..] == s[1 + q.taken..];
    } else {
      var n := ReadAtom(s).value;
      var more := LineLexemes(s[n..], Push(stack, Atom(s[..n])));
      ls := [Leaf(Atom(s[..n]))] + more;
      assert ls[1..] == more;
      AtomIffRead(s, n);
    }
  }

  lemma {:induction false} PiecesOnStack(pieces: seq<Piece>, ls: seq<Lexeme>, stack: Stack)
    requires Writes(pieces, ls)
    ensures Accepts(TokenizeFrom(pieces, stack)) == OnStack(ls, stack)
    decreases |pieces|
  {
    hide TokenizeLine, LineWrites, Push;
    if pieces != [] {
      match pieces[0]
      case Lit(data) => PiecesOnStack(pieces[1..], ls[1..], Push(stack, Literal(data)));
      case Line(text) =>
        var k: nat :| k <= |ls| && LineWrites(text, ls[..k]) && Writes(pieces[1..], ls[k..]);
        LineOnStack(text, ls[..k], stack);
        assert ls == ls[..k] + ls[k..];
        OnStackConcat(ls[..k], ls[k..], stack);
        if TokenizeLine(text, stack).Ok? {
          PiecesOnStack(pieces[1..], ls[k..], TokenizeLine(text, stack).value);
        }
    }
  }

  lemma {:induction false} PiecesLexemes(pieces: seq<Piece>, stack: Stack) returns (ls: seq<Lexeme>)
    requires TokenizeFrom(pieces, stack).Ok?
    ensures Writes(pieces, ls)
    decreases |pieces|
  {
    hide TokenizeLine, LineWrites, Push;
    ls := [];
    if pieces != [] {
      match pieces[0] {
        case Lit(data) =>
          var more := PiecesLexemes(pieces[1..], Push(stack, Literal(data)));
          ls := [Leaf(Literal(data))] + more;
          assert ls[1..] == more;
        case Line(text) =>
          var front := LineLexemes(text, stack);
          var more := PiecesLexemes(pieces[1..], TokenizeLine(text, stack).value);
          ls := front + more;
          assert ls[..|front|] == front && ls[|front|..] == more;
      }
    }
  }

  // ----- trees ------------------------------------------------------------------------------------------------

  lemma {:induction false} TokenOnStack(t: Token, stack: Stack)
    ensures OnStack(LexemesOf(t), stack) == Some(Push(stack, t))
    decreases t, 0
  {
    hide Push;
    match t
    case List(items) =>
      var inner := stack + [[]];
      assert LexemesOf(t) == [Open] + (Lexemes(items) + [Close]);
      OnStackFirst(Open, Lexemes(items) + [Close], stack);
      TokensOnStack(items, inner);
      OnStackConcat(Lexemes(items), [Close], inner);
      PushAllAppends(inner, items);
      var full := PushAll(inner, items);
      assert full[..|full|-1] == stack && full[|full|-1] == [] + items == items;
      OnStackFirst(Close, [], full);
      assert [Close] + [] == [Close];
    case _ =>
      OnStackFirst(Leaf(t), [], stack);
      assert [Leaf(t)] + [] == [Leaf(t)];
  }

  lemma {:induction false} TokensOnStack(ts: seq<Token>, stack: Stack)
    ensures OnStack(Lexemes(ts), stack) == Some(PushAll(stack, ts))
    decreases ts, 1
  {
    hide Push;
    if ts != [] {
      TokenOnStack(ts[0], stack);
      OnStackConcat(LexemesOf(ts[0]), Lexemes(ts[1..]), stack);
      TokensOnStack(ts[1..], Push(stack, ts[0]));
    }
  }

  /** What has been read when the stack is this one. */
  function SoFar(stack: Stack): seq<Lexeme>
    decreases |stack|
  {
    if |stack| == 1 then Lexemes(stack[0]) else SoFar(stack[..|stack|-1]) + [Open] + Lexemes(stack[|stack|-1])
  }

  lemma {:induction false} LexemesSnoc(ts: seq<Token>, t: Token)
    ensures Lexemes(ts + [t]) == Lexemes(ts) + LexemesOf(t)
  {
    if ts == [] {
      assert [] + [t] == [t];
      assert Lexemes([t]) == LexemesOf(t) + Lexemes([]);
    } else {
      assert (ts + [t])[1..] == ts[1..] + [t];
      LexemesSnoc(ts[1..], t);
    }
  }

  lemma ReadPush(stack: Stack, t: Token)
    ensures SoFar(Push(stack, t)) == SoFar(stack) + LexemesOf(t)
  {
    LexemesSnoc(stack[|stack|-1], t);
    var next := Push(stack, t);
    assert next[..|next|-1] == stack[..|stack|-1];
  }

  lemma ReadOpen(stack: Stack)
    ensures SoFar(stack + [[]]) == SoFar(stack) + [Open]
  {
    var next := stack + [[]];
    assert next[..|next|-1] == stack;
  }

  lemma ReadClose(stack: Stack)
    requires |stack| > 1
    ensures SoFar(Push(stack[..|stack|-1], List(stack[|stack|-1]))) == SoFar(stack) + [Close]
  {
    hide Push;
    var front, items := stack[..|stack|-1], stack[|stack|-1];
    ReadPush(front, List(items));
    assert SoFar(front) + ([Open] + Lexemes(items) + [Close]) == (SoFar(front) + [Open] + Lexemes(items)) + [Close];
  }

  lemma {:induction false} OnStackRead(ls: seq<Lexeme>, stack: Stack)
    requires OnStack(ls, stack).Some?
    ensures SoFar(OnStack(ls, stack).value) == SoFar(stack) + ls
    decreases |ls|
  {
    hide Push, SoFar;
    if ls != [] {
      assert ls == [ls[0]] + ls[1..];
      match ls[0]
      case Open =>
        ReadOpen(stack);
        OnStackRead(ls[1..], stack + [[]]);
      case Close =>
        ReadClose(stack);
        OnStackRead(ls[1..], Push(stack[..|stack|-1], List(stack[|stack|-1])));
      case Leaf(t) =>
        ReadPush(stack, t);
        OnStackRead(ls[1..], Push(stack, t));
    }
  }

  lemma OneList(ts: seq<Token>)
    ensures SoFar([ts]) == Lexemes(ts) && PushAll([[]], ts) == [ts]
  {
    var stack: Stack := [[]];
    PushAllAppends(stack, ts);
    assert stack[0] + ts == ts && stack[..0] == [];
  }

  /** The stack after everything is one list exactly if the lexemes are that list's, balanced. */
  lemma OneListIff(ls: seq<Lexeme>, ts: seq<Token>)
    ensures OnStack(ls, [[]]) == Some([ts]) <==> ls == Lexemes(ts)
  {
    hide Push, PushAll, Lexemes, SoFar, OnStack;
    OneList(ts);
    OneList([]);
    if OnStack(ls, [[]]) == Some([ts]) {
      OnStackRead(ls, [[]]);
      NoLexemes();
      assert [] + ls == ls;
    }
    TokensOnStack(ts, [[]]);
  }

  lemma NoLexemes()
    ensures Lexemes([]) == []
  {
  }

  /** A command's segments are tokenized to a list of tokens if and only if they are a way to write it. */
  lemma TokensIff(pieces: seq<Piece>, ts: seq<Token>)
    ensures Tokenize(pieces) == Ok(ts) <==> Writes(pieces, Lexemes(ts))
  {
    hide TokenizeFrom, Writes, OnStack, Lexemes;
    if Tokenize(pieces) == Ok(ts) {
      var ls := PiecesLexemes(pieces, [[]]);
      PiecesOnStack(pieces, ls, [[]]);
      assert TokenizeFrom(pieces, [[]]).value == [ts];
      OneListIff(ls, ts);
    }
    if Writes(pieces, Lexemes(ts)) {
      PiecesOnStack(pieces, Lexemes(ts), [[]]);
      OneListIff(Lexemes(ts), ts);
    }
  }
}
