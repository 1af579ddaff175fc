/** What the parser lets through to the session and to the wire: the tags it echoes, the refusals it gives
    and the characters it delivers. Stated with the characters of the grammar themselves. */
module ParserErrors {
  import opened Types
  import opened Decimal
  import opened Tokenizer
  import opened Parser
  import opened Responses
  import Framing

  // ----- the tag that errors echo -----------------------------------------------------------------------

  /** A tag fit for the wire: one to sixty-four printable ASCII characters other than space. */
  predicate Echoable(tag: string) {
    1 <= |tag| <= 64 && forall i :: 0 <= i < |tag| ==> '!' <= tag[i] <= '~'
  }

  /** The text before the first space of the line. */
  predicate Leads(word: string, line: string) {
    word <= line && ' ' !in word && (|word| < |line| ==> line[|word|] == ' ')
  }

  lemma {:induction false} FirstWordLeads(line: string, word: string)
    ensures FirstWord(line) == word <==> Leads(word, line)
  {
    if line == [] || line[0] == ' ' {
    } else {
      var rest := line[1..];
      assert line == [line[0]] + rest;
      if word == [] || word[0] != line[0] {
        assert FirstWord(line)[0] == line[0];
      } else {
        FirstWordLeads(rest, word[1..]);
        assert word == [line[0]] + word[1..];
        if FirstWord(line) == word {
          assert FirstWord(line)[1..] == FirstWord(rest);
        }
      }
    }
  }

  /** A line's tag is its first word, if that is fit for the wire. */
  lemma TagIff(line: string, word: string)
    ensures ExtractTag(line) == Some(word) <==> Leads(word, line) && Echoable(word)
  {
    FirstWordLeads(line, word);
  }

  /** The tag a line's errors carry: that of the command it continues, or its own. */
  ghost predicate Due(before: Option<Pending>, line: string, tag: Option<string>) {
    match before
    case Some(p) => tag == p.tag
    case None => forall word :: tag == Some(word) <==> Leads(word, line) && Echoable(word)
  }

  /** The complaints that name no command. */
  predicate Nameless(message: Message) { message == EmptyCommand || message == InvalidTag }

  /** Every error over a line echoes the tag that is due, unless it names no command; none ends the
      connection; and a command that goes on keeps its tag. */
  lemma ErrorsEchoTheTag(l: Limits, before: Option<Pending>, line: string) returns (tag: Option<string>)
    ensures Due(before, line, tag)
    ensures var out := ConsumeLine(l, before, line);
            && (out.event.ParseError? ==>
                  && !out.event.fatal && out.event.message != LineTooLong
                  && out.event.echo == if Nameless(out.event.message) then None else tag)
            && (out.pending.Some? ==> out.pending.value.tag == tag)
  {
    hide LiteralTail, Tokenize;
    tag := Continued(before, line).tag;
    forall word ensures before.None? ==> (tag == Some(word) <==> Leads(word, line) && Echoable(word)) {
      TagIff(line, word);
    }
  }

  // ----- announced literals -----------------------------------------------------------------------------

  /** The line ends with `{n}`, one to twelve digits, at its start or after a space or a parenthesis. */
  predicate Announces(line: string, open: nat, n: nat) {
    && 3 <= |line| - open <= 14
    && line[open] == '{' && line[|line|-1] == '}'
    && (forall i :: open < i < |line| - 1 ==> '0' <= line[i] <= '9')
    && (open == 0 || line[open-1] == ' ' || line[open-1] == '(')
    && ParseDigits(line[open+1..|line|-1]) == n
  }

  lemma LiteralTailIff(line: string, open: nat, n: nat)
    ensures LiteralTail(line) == Some(Tail(open, n)) <==> Announces(line, open, n)
  {
    hide LiteralTail, Announces;
    if Announces(line, open, n) {
      AnnouncementIsTail(line, open, n);
    }
    if LiteralTail(line) == Some(Tail(open, n)) {
      TailIsAnnouncement(line, open, n);
    }
  }

  lemma AnnouncementIsTail(line: string, open: nat, n: nat)
    requires Announces(line, open, n)
    ensures LiteralTail(line) == Some(Tail(open, n))
  {
    var body := line[..|line|-1];
    var digits := body[open+1..];
    assert digits == line[open+1..|line|-1];
    assert body == body[..open+1] + digits;
    Framing.TrailingDigitsAre(body[..open+1], digits);
    hide TrailingDigits, ParseDigits;
  }

  lemma TailIsAnnouncement(line: string, open: nat, n: nat)
    requires LiteralTail(line) == Some(Tail(open, n))
    ensures Announces(line, open, n)
  {
    hide TrailingDigits, ParseDigits;
    var body := line[..|line|-1];
    var digits := body[open+1..];
    assert digits == line[open+1..|line|-1] == body[|body| - TrailingDigits(body)..];
    forall i | open < i < |line| - 1 ensures '0' <= line[i] <= '9' {
      assert IsDigit(digits[i - open - 1]);
    }
  }

  /** The pending command before a line, by its counters. */
  predicate Starts(before: Option<Pending>, total: nat, literals: nat) {
    match before case None => total == 0 && literals == 0 case Some(p) => total == p.total && literals == p.literals
  }

  /** When a line is refused before it is tokenized, and when the client is told to go on. */
  lemma LineErrorsIff(l: Limits, before: Option<Pending>, line: string, total: nat, literals: nat)
    requires Starts(before, total, literals)
    ensures var event, size := ConsumeLine(l, before, line).event, total + |line| + 2;
            && (event.ParseError? && event.message == NulByte <==> '\0' in line)
            && ('\0' !in line && (forall open: nat, n: nat :: !Announces(line, open, n)) ==>
                  && !event.Continuation?
                  && (event.ParseError? && event.message == CommandTooLarge <==> size > l.maxCommandBytes))
            && ('\0' !in line ==> forall open: nat, n: nat :: Announces(line, open, n) ==>
                  && (event.ParseError? && event.message == LiteralTooLarge <==> n > l.maxLiteral)
                  && (event.ParseError? && event.message == CommandTooLarge <==>
                        n <= l.maxLiteral && (literals + 1 > l.maxLiterals || size + n > l.maxCommandBytes))
                  && (event == Continuation(n) <==>
                        n <= l.maxLiteral && literals + 1 <= l.maxLiterals && size + n <= l.maxCommandBytes))
  {
    hide LiteralTail, Tokenize, ExtractTag, Announces;
    match LiteralTail(line) {
      case Some(tail) => LiteralTailIff(line, tail.open, tail.length);
      case None =>
    }
    forall open: nat, n: nat | Announces(line, open, n) ensures LiteralTail(line) == Some(Tail(open, n)) {
      LiteralTailIff(line, open, n);
    }
  }

  // ----- delivered commands ------------------------------------------------------------------------------

  /** Only literals may carry line ends, NUL or other octets outside printable ASCII. */
  predicate Clean(t: Token) {
    match t
    case Atom(v) => v != [] && Plain(v)
    case Quoted(v) => Plain(v)
    case Literal(_) => true
    case List(items) => AllClean(items)
  }

  predicate AllClean(ts: seq<Token>) { forall i :: 0 <= i < |ts| ==> Clean(ts[i]) }

  predicate CleanStack(stack: Stack) { forall i :: 0 <= i < |stack| ==> AllClean(stack[i]) }

  lemma PlainJoin(a: string, b: string)
    ensures Plain(a + b) <==> Plain(a) && Plain(b)
  {
    assert forall i :: 0 <= i < |a| ==> (a + b)[i] == a[i];
    assert forall i :: 0 <= i < |b| ==> (a + b)[|a| + i] == b[i];
  }

  lemma {:induction false} QuotedIsPlain(s: string)
    ensures var r := ReadQuoted(s); r.Ok? ==> Plain(r.value.value) && Plain(s[..r.value.taken])
  {
    var r := ReadQuoted(s);
    if r.Ok? && s[0] != QUOTE {
      var n := if s[0] == BACKSLASH then 2 else 1;
      QuotedIsPlain(s[n..]);
      var rest := ReadQuoted(s[n..]).value;
      PlainParts(s, n, rest.taken);
      PlainJoin([s[n-1]], rest.value);
    }
  }

  lemma PlainParts(s: string, n: nat, m: nat)
    requires n + m <= |s| && Plain(s[..n]) && Plain(s[n..][..m])
    ensures Plain(s[..n+m])
  {
    assert s[..n+m] == s[..n] + s[n..][..m];
    PlainJoin(s[..n], s[n..][..m]);
  }

  lemma PlainOne(s: string)
    requires s != [] && ' ' <= s[0] <= '~'
    ensures Plain(s[..1])
  {
  }

  /** The front part is one character, or a quoted string with its opening quote, and the rest goes on. */
  lemma SectionFront(s: string, depth: int) returns (n: nat, deeper: int)
    requires SkipBracket(s, depth).Ok? && !(s[0] == ']' && depth == 1)
    ensures 1 <= n <= |s| && Plain(s[..n])
    ensures SkipBracket(s, depth) == Further(n, SkipBracket(s[n..], deeper))
  {
    hide Plain, ReadQuoted;
    PlainOne(s);
    n := 1;
    deeper := if s[0] == '[' then depth + 1 else if s[0] == ']' then depth - 1 else depth;
    if s[0] == QUOTE {
      QuotedIsPlain(s[1..]);
      PlainParts(s, 1, ReadQuoted(s[1..]).value.taken);
      n := 1 + ReadQuoted(s[1..]).value.taken;
    }
  }

  lemma {:induction false} SectionIsPlain(s: string, depth: int)
    ensures var r := SkipBracket(s, depth); r.Ok? ==> Plain(s[..r.value])
    decreases |s|
  {
    hide Plain, ReadQuoted;
    if SkipBracket(s, depth).Ok? {
      if s[0] == ']' && depth == 1 {
        PlainOne(s);
      } else {
        var n, deeper := SectionFront(s, depth);
        hide SkipBracket;
        SectionIsPlain(s[n..], deeper);
        PlainParts(s, n, SkipBracket(s[n..], deeper).value);
      }
    }
  }

  lemma {:induction false} AtomIsPlain(s: string)
    ensures var r := ReadAtom(s); r.Ok? ==> Plain(s[..r.value])
    decreases |s|
  {
    var r := ReadAtom(s);
    if r.Ok? && r.value != 0 {
      var n := if s[0] == '[' then SkipBracket(s, 0).value else 1;
      if s[0] == '[' {
        SectionIsPlain(s, 0);
      }
      AtomIsPlain(s[n..]);
      PlainParts(s, n, ReadAtom(s[n..]).value);
    }
  }

  lemma PushClean(stack: Stack, t: Token)
    requires CleanStack(stack) && Clean(t)
    ensures CleanStack(Push(stack, t))
  {
  }

  lemma {:induction false} LineIsClean(s: string, stack: Stack)
    requires CleanStack(stack) && TokenizeLine(s, stack).Ok?
    ensures CleanStack(TokenizeLine(s, stack).value)
    decreases |s|
  {
    hide Push, ReadQuoted, ReadAtom, Plain, CleanStack, AllClean, Control;
    if s == [] {
    } else if s[0] == ' ' {
      LineIsClean(s[1..], stack);
    } else if s[0] == '(' {
      Opened(stack);
      LineIsClean(s[1..], stack + [[]]);
    } else if s[0] == ')' {
      Closed(stack);
      PushClean(stack[..|stack|-1], List(stack[|stack|-1]));
      LineIsClean(s[1..], Push(stack[..|stack|-1], List(stack[|stack|-1])));
    } else if s[0] == QUOTE {
      QuotedIsPlain(s[1..]);
      var q := ReadQuoted(s[1..]).value;
      PushClean(stack, Quoted(q.value));
      LineIsClean(s[1 + q.taken..], Push(stack, Quoted(q.value)));
    } else {
      AtomIsPlain(s);
      var n := ReadAtom(s).value;
      PushClean(stack, Atom(s[..n]));
      LineIsClean(s[n..], Push(stack, Atom(s[..n])));
    }
  }

  lemma Opened(stack: Stack)
    requires CleanStack(stack)
    ensures CleanStack(stack + [[]])
  {
  }

  lemma Closed(stack: Stack)
    requires CleanStack(stack) && |stack| > 1
    ensures CleanStack(stack[..|stack|-1]) && Clean(List(stack[|stack|-1]))
  {
  }

  lemma {:induction false} PiecesAreClean(pieces: seq<Piece>, stack: Stack)
    requires CleanStack(stack) && TokenizeFrom(pieces, stack).Ok?
    ensures CleanStack(TokenizeFrom(pieces, stack).value)
  {
    hide TokenizeLine, Push, CleanStack;
    if pieces != [] {
      match pieces[0]
      case Lit(data) =>
        PushClean(stack, Literal(data));
        PiecesAreClean(pieces[1..], Push(stack, Literal(data)));
      case Line(text) =>
        LineIsClean(text, stack);
        PiecesAreClean(pieces[1..], TokenizeLine(text, stack).value);
    }
  }

  lemma TokensAreClean(pieces: seq<Piece>)
    requires Tokenize(pieces).Ok?
    ensures AllClean(Tokenize(pieces).value)
  {
    hide TokenizeFrom;
    PiecesAreClean(pieces, [[]]);
  }

  /** The letter as a command name has it. */
  predicate Raised(c: char, d: char) {
    || (c == d && c !in "abcdefghijklmnopqrstuvwxyz")
    || (exists k :: 0 <= k < 26 && c == "abcdefghijklmnopqrstuvwxyz"[k] && d == "ABCDEFGHIJKLMNOPQRSTUVWXYZ"[k])
  }

  predicate InUpperCase(written: string, name: string) {
    |name| == |written| && forall i :: 0 <= i < |written| ==> Raised(written[i], name[i])
  }

  lemma RaisedIff(c: char, d: char)
    ensures UpperChar(c) == d <==> Raised(c, d)
  {
    var low, high := "abcdefghijklmnopqrstuvwxyz", "ABCDEFGHIJKLMNOPQRSTUVWXYZ";
    assert forall k :: 0 <= k < 26 ==> low[k] as int == 97 + k && high[k] as int == 65 + k;
    if 'a' <= c <= 'z' {
      var k := c as int - 97;
      assert low[k] == c && high[k] == UpperChar(c);
    }
  }

  /** A command is delivered exactly for two atoms, a tag without `+` and `*` and a name, and its arguments. */
  lemma CommandIff(tag: Option<string>, pieces: seq<Piece>, name: string, t: string, args: seq<Token>)
    ensures Built(tag, Tokenize(pieces)) == Command(t, name, args) <==>
            && '+' !in t && '*' !in t
            && exists written :: InUpperCase(written, name)
                 && Tokenize(pieces) == Ok([Atom(t), Atom(written)] + args)
  {
    hide Tokenize;
    var read := Tokenize(pieces);
    forall written ensures InUpperCase(written, name) <==> Upper(written) == name {
      UpperIff(written, name);
    }
    if Built(tag, read) == Command(t, name, args) {
      assert read.value == [Atom(t), Atom(read.value[1].value)] + args;
    }
  }

  /** Why a complete command is refused. */
  lemma RefusalsAre(tag: Option<string>, pieces: seq<Piece>, message: Message)
    ensures var event, read := Built(tag, Tokenize(pieces)), Tokenize(pieces);
            event.ParseError? && event.message == message <==>
            match message
            case Syntax(fault) => read == Err(fault)
            case EmptyCommand => read == Ok([])
            case MissingCommand => read.Ok? && |read.value| == 1
            case NotAtoms => read.Ok? && |read.value| >= 2 && (!read.value[0].Atom? || !read.value[1].Atom?)
            case InvalidTag =>
              && read.Ok? && |read.value| >= 2 && read.value[0].Atom? && read.value[1].Atom?
              && ('+' in read.value[0].value || '*' in read.value[0].value)
            case _ => false
  {
    hide Tokenize, Upper;
  }

  lemma UpperIff(written: string, name: string)
    ensures InUpperCase(written, name) <==> Upper(written) == name
  {
    hide Raised;
    if |name| == |written| {
      forall i | 0 <= i < |written| ensures Raised(written[i], name[i]) <==> Upper(written)[i] == name[i] {
        RaisedIff(written[i], name[i]);
      }
    }
  }

  /** What stands where no token can begin, or where one breaks off, and the complaint about it. */
  lemma FaultsAre(c: char, rest: string, stack: Stack)
    ensures TokenizeLine(")" + rest, [[]]) == Err(Unbalanced)
    ensures TokenizeLine("{" + rest, stack) == Err(LiteralNotLast)
    ensures c < ' ' || c == '\U{7F}' ==>
              && TokenizeLine([c] + rest, stack) == Err(ControlInCommand)
              && ReadQuoted([c] + rest) == Err(ControlInQuoted) && ReadAtom([c] + rest) == Err(ControlInAtom)
              && SkipBracket([c] + rest, 1) == Err(InvalidInSection)
    ensures c > '\U{7F}' ==>
              && TokenizeLine([c] + rest, stack) == Err(NonAsciiInAtom) && ReadAtom([c] + rest) == Err(NonAsciiInAtom)
              && ReadQuoted([c] + rest) == Err(NonAsciiInQuoted) && SkipBracket([c] + rest, 1) == Err(InvalidInSection)
    ensures c != '"' && c != '\\' ==> ReadQuoted("\\" + [c] + rest) == Err(InvalidEscape)
    ensures ReadQuoted("") == Err(UnterminatedQuoted) && ReadQuoted("\\") == Err(InvalidEscape)
    ensures SkipBracket("", 1) == Err(UnterminatedSection)
  {
  }

  // ----- every run -------------------------------------------------------------------------------------------

  /** What may leave the parser. */
  predicate Safe(l: Limits, e: Event) {
    match e
    case Command(t, name, args) => t != [] && Plain(t) && '+' !in t && '*' !in t && Plain(name) && AllClean(args)
    case Continuation(n) => n <= l.maxLiteral
    case ParseError(echo, message, fatal) =>
      && (echo.Some? ==> Echoable(echo.value))
      && (fatal <==> message == LineTooLong)
  }

  predicate AllSafe(l: Limits, events: seq<Event>) { forall i :: 0 <= i < |events| ==> Safe(l, events[i]) }

  predicate SafeTag(pending: Option<Pending>) {
    pending.Some? && pending.value.tag.Some? ==> Echoable(pending.value.tag.value)
  }

  lemma BuiltIsSafe(l: Limits, p: Pending)
    requires SafeTag(Some(p))
    ensures Safe(l, BuildCommand(p))
  {
    hide Tokenize, Echoable;
    if Tokenize(p.pieces).Ok? {
      TokensAreClean(p.pieces);
      var ts := Tokenize(p.pieces).value;
      if |ts| >= 2 && ts[1].Atom? {
        assert Clean(ts[0]) && Clean(ts[1]);
        UpperIsPlain(ts[1].value);
      }
    }
  }

  lemma UpperIsPlain(s: string)
    requires Plain(s)
    ensures Plain(Upper(s))
  {
    assert forall i :: 0 <= i < |s| ==> ' ' <= s[i] <= '~';
  }

  lemma LineIsSafe(l: Limits, before: Option<Pending>, line: string)
    requires SafeTag(before)
    ensures Safe(l, ConsumeLine(l, before, line).event) && SafeTag(ConsumeLine(l, before, line).pending)
  {
    hide LiteralTail, BuildCommand, ExtractTag, Echoable;
    var p := Continued(before, line);
    if before.None? && p.tag.Some? {
      TagIff(line, p.tag.value);
    }
    BuiltIsSafe(l, p.(pieces := p.pieces + [Line(line)]));
  }

  lemma TurnIsSafe(l: Limits, s: State)
    requires SafeTag(s.pending)
    ensures AllSafe(l, OneTurn(l, s).events) && SafeTag(OneTurn(l, s).state.pending)
  {
    hide ConsumeLine, FindLf, StripCr, Echoable;
    if s.awaiting.None? && FindLf(s.buf).Some? {
      LineIsSafe(l, s.pending, StripCr(s.buf[..FindLf(s.buf).value]));
    }
  }

  lemma SafeThen(l: Limits, a: seq<Event>, d: Drained)
    requires AllSafe(l, a) && AllSafe(l, d.events)
    ensures AllSafe(l, Then(a, d).events) && Then(a, d).state == d.state
  {
    hide Safe;
  }

  lemma NothingIsSafe(l: Limits)
    ensures AllSafe(l, [])
  {
  }

  lemma {:induction false} EventsAreSafe(l: Limits, s: State)
    requires SafeTag(s.pending)
    ensures AllSafe(l, Events(l, s).events) && SafeTag(Events(l, s).state.pending)
    decreases |s.buf|, s.awaiting.Some?
  {
    hide OneTurn, AllSafe, SafeTag, Then;
    TurnIsSafe(l, s);
    var t := OneTurn(l, s);
    if t.Go? {
      EventsAreSafe(l, t.state);
      SafeThen(l, t.events, Events(l, t.state));
    }
  }

  /** Over every stream in every chunking: only printable tags are echoed, commands carry printable ASCII
      outside their literals, no continuation invites more than the limit, and only an overlong line is
      fatal. */
  lemma {:induction false} RunIsSafe(l: Limits, s: State, chunks: seq<string>)
    requires SafeTag(s.pending)
    ensures AllSafe(l, FeedAll(l, s, chunks).events)
    decreases |chunks|
  {
    hide Events, AllSafe, SafeTag, Then;
    if chunks == [] {
      FeedNone(l, s);
      NothingIsSafe(l);
    } else {
      var first := Events(l, s.Fed(chunks[0]));
      EventsAreSafe(l, s.Fed(chunks[0]));
      RunIsSafe(l, first.state, chunks[1..]);
      SafeThen(l, first.events, FeedAll(l, first.state, chunks[1..]));
    }
  }
}
