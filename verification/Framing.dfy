/** From octets to lines and literals: the parser recovers the segments a printed command was cut into,
    asks for each literal once, and delivers exactly that command. */
module Framing {
  import opened Types
  import opened Decimal
  import opened Tokenizer
  import opened Parser
  import opened Responses
  import opened Wire

  // ----- announcements of literals ------------------------------------------------------------------------

  /** Text after which a literal may be announced. */
  predicate Ready(t: string) {
    t == "" || t[|t|-1] == ' ' || t[|t|-1] == '('
  }

  function Announce(t: string, n: nat): string {
    t + "{" + Digits(n) + "}"
  }

  lemma {:induction false} TrailingDigitsAre(pre: string, ds: string)
    requires pre != "" && !IsDigit(pre[|pre|-1]) && AllDigits(ds)
    ensures TrailingDigits(pre + ds) == |ds|
  {
    if ds == "" {
      assert pre + ds == pre;
    } else {
      var s := pre + ds;
      assert s[..|s|-1] == pre + ds[..|ds|-1];
      TrailingDigitsAre(pre, ds[..|ds|-1]);
    }
  }

  lemma AnnouncementIsRead(t: string, n: nat)
    requires Ready(t) && |Digits(n)| <= 12
    ensures LiteralTail(Announce(t, n)) == Some(Tail(|t|, n)) && Announce(t, n)[..|t|] == t
  {
    var line, ds := Announce(t, n), Digits(n);
    ParseUndoesDigits(n);
    var body := line[..|line|-1];
    assert body == (t + "{") + ds;
    TrailingDigitsAre(t + "{", ds);
    hide TrailingDigits, ParseDigits, Digits;
    assert body[|body| - |ds|..] == ds;
    assert line[|t|] == '{';
  }

  // ----- a line that tokenizes announces nothing -------------------------------------------------------------

  /** From `p` on, the text is a brace, digits and the closing brace. */
  predicate TailAt(s: string, p: int) {
    0 <= p < |s| - 1 && s[p] == '{' && s[|s|-1] == '}' && forall i :: p < i < |s| - 1 ==> IsDigit(s[i])
  }

  lemma TailShifts(s: string, p: int, n: nat)
    requires TailAt(s, p) && n <= p
    ensures TailAt(s[n..], p - n)
  {
  }

  lemma TailFound(s: string)
    requires LiteralTail(s).Some?
    ensures TailAt(s, LiteralTail(s).value.open)
    ensures LiteralTail(s).value.open == 0 || s[LiteralTail(s).value.open - 1] == ' '
            || s[LiteralTail(s).value.open - 1] == '('
  {
    hide ParseDigits;
    var body := s[..|s|-1];
    var d := TrailingDigits(body);
    var open := LiteralTail(s).value.open;
    forall i | open < i < |s| - 1 ensures IsDigit(s[i]) {
      assert s[i] == body[|body| - d..][i - (|body| - d)];
    }
  }

  /** An atom ends before such a tail, and not with a character that may precede one. */
  lemma {:induction false} AtomEndsBefore(s: string, p: int)
    requires TailAt(s, p) && ReadAtom(s).Ok?
    ensures ReadAtom(s).value <= p
    ensures ReadAtom(s).value > 0 ==> s[ReadAtom(s).value - 1] != ' ' && s[ReadAtom(s).value - 1] != '('
    decreases |s|
  {
    if s[0] == '[' {
      var m := SkipBracket(s, 0).value;
      hide SkipBracket;
      assert s[m-1] == ']';
      TailShifts(s, p, m);
      AtomEndsBefore(s[m..], p - m);
    } else if !AtomStop(s[0]) {
      TailShifts(s, p, 1);
      AtomEndsBefore(s[1..], p - 1);
    }
  }

  /** The tail begins a token: nothing, a space or a parenthesis comes before it. */
  ghost predicate Loose(s: string, p: int) {
    TailAt(s, p) && (p == 0 || s[p-1] == ' ' || s[p-1] == '(')
  }

  lemma LooseShifts(s: string, p: int, n: nat)
    requires Loose(s, p) && n <= p
    ensures Loose(s[n..], p - n)
  {
    TailShifts(s, p, n);
    hide TailAt;
    if n < p { assert s[n..][p - n - 1] == s[p-1]; }
  }

  lemma QuotedBefore(s: string, p: int)
    requires Loose(s, p) && s[0] == QUOTE && ReadQuoted(s[1..]).Ok?
    ensures var e := 1 + ReadQuoted(s[1..]).value.taken; e <= p && Loose(s[e..], p - e)
  {
    var q := ReadQuoted(s[1..]);
    hide ReadQuoted;
    var e := 1 + q.value.taken;
    assert s[e-1] == s[1..][q.value.taken - 1] == QUOTE;
    LooseShifts(s, p, e);
  }

  lemma AtomBefore(s: string, p: int)
    requires Loose(s, p) && ReadAtom(s).Ok? && ReadAtom(s).value > 0
    ensures ReadAtom(s).value <= p && Loose(s[ReadAtom(s).value..], p - ReadAtom(s).value)
  {
    AtomEndsBefore(s, p);
    hide ReadAtom;
    LooseShifts(s, p, ReadAtom(s).value);
  }

  lemma {:induction false} TailRefused(s: string, p: int, stack: Stack)
    requires Loose(s, p)
    ensures TokenizeLine(s, stack).Err?
    decreases |s|
  {
    if s[0] == QUOTE {
      var q := ReadQuoted(s[1..]);
      hide ReadQuoted, ReadAtom, Push;
      if q.Ok? {
        QuotedBefore(s, p);
        TailRefused(s[1 + q.value.taken..], p - 1 - q.value.taken, Push(stack, Quoted(q.value.value)));
      }
    } else if s[0] == ' ' || s[0] == '(' || s[0] == ')' {
      LooseShifts(s, p, 1);
      hide ReadQuoted, ReadAtom, Push, Loose;
      if s[0] == ' ' {
        TailRefused(s[1..], p - 1, stack);
      } else if s[0] == '(' {
        TailRefused(s[1..], p - 1, stack + [[]]);
      } else if |stack| > 1 {
        TailRefused(s[1..], p - 1, Push(stack[..|stack|-1], List(stack[|stack|-1])));
      }
    } else if s[0] != '{' && !Control(s[0]) {
      var r := ReadAtom(s);
      hide ReadQuoted, ReadAtom, Push;
      if r.Ok? && r.value > 0 {
        AtomBefore(s, p);
        TailRefused(s[r.value..], p - r.value, Push(stack, Atom(s[..r.value])));
      }
    }
  }

  lemma TokenizesMeansNoTail(s: string, stack: Stack)
    requires TokenizeLine(s, stack).Ok?
    ensures LiteralTail(s).None?
  {
    hide TokenizeLine, LiteralTail;
    if LiteralTail(s).Some? {
      TailFound(s);
      TailRefused(s, LiteralTail(s).value.open, stack);
    }
  }

  lemma {:induction false} LastLineTokenizes(pre: seq<Piece>, text: string, stack: Stack)
    requires TokenizeFrom(pre + [Line(text)], stack).Ok?
    ensures LiteralTail(text).None?
    decreases |pre|
  {
    hide TokenizeLine, LiteralTail;
    var all := pre + [Line(text)];
    if pre == [] {
      assert all[0] == Line(text);
      TokenizesMeansNoTail(text, stack);
    } else {
      assert all[1..] == pre[1..] + [Line(text)];
      match pre[0]
      case Lit(d) => LastLineTokenizes(pre[1..], text, Push(stack, Literal(d)));
      case Line(t) => LastLineTokenizes(pre[1..], text, TokenizeLine(t, stack).value);
    }
  }

  // ----- the rounds of one command -----------------------------------------------------------------------------

  lemma LineTurn(l: Limits, s: State, line: string, rest: string)
    requires s.awaiting.None? && s.buf == line + CRLF + rest && LF !in line && |line| <= l.maxLine
    ensures var out := ConsumeLine(l, s.pending, line);
            OneTurn(l, s) == Go([out.event], State(rest, out.pending, out.awaiting))
  {
    hide ConsumeLine;
    var head := line + [CR];
    assert s.buf == (head + [LF]) + rest;
    assert LF !in head;
    FindLfAt(head);
    FindLfPrefix(head + [LF], rest);
    hide FindLf;
    assert s.buf[..|head|] == head && s.buf[|head| + 1..] == rest;
    assert head[..|head|-1] == line;
  }

  lemma LiteralTurn(l: Limits, p: Pending, data: string, rest: string)
    ensures OneTurn(l, State(data + rest, Some(p), Some(|data|))) ==
            Go([], State(rest, Some(p.(pieces := p.pieces + [Lit(data)])), None))
  {
    assert (data + rest)[..|data|] == data && (data + rest)[|data|..] == rest;
  }

  function PiecesOf(before: Option<Pending>): seq<Piece> { if before.None? then [] else before.value.pieces }
  function TotalOf(before: Option<Pending>): nat { if before.None? then 0 else before.value.total }
  function LiteralsOf(before: Option<Pending>): nat { if before.None? then 0 else before.value.literals }

  /** One request per literal, in order. */
  function Requests(k: seq<Piece>): seq<Event>
    requires Framed(k)
  {
    if |k| == 1 then [] else [Continuation(|k[1].data|)] + Requests(k[2..])
  }

  /** Lines are printable ASCII, and literals are announced where they may be. */
  predicate Clean(k: seq<Piece>)
    requires Framed(k)
  {
    Plain(k[0].text) && (|k| == 1 || (Ready(k[0].text) && Clean(k[2..])))
  }

  /** Each line and each literal keeps its own limit, and no literal's length has more than twelve digits. */
  predicate Within(l: Limits, k: seq<Piece>)
    requires Framed(k)
  {
    if |k| == 1 then |k[0].text| <= l.maxLine
    else
      var n := |k[1].data|;
      |Announce(k[0].text, n)| <= l.maxLine && n < PowerOfTen(12) && n <= l.maxLiteral && Within(l, k[2..])
  }

  predicate ProperCommand(ts: seq<Token>) {
    |ts| >= 2 && ts[0].Atom? && ts[1].Atom? && '+' !in ts[0].value && '*' !in ts[0].value
  }

  function CommandOf(ts: seq<Token>): Event
    requires ProperCommand(ts)
  {
    Command(ts[0].value, Upper(ts[1].value), ts[2..])
  }

  lemma AnnounceConsumed(l: Limits, before: Option<Pending>, text: string, n: nat)
    requires Plain(text) && Ready(text) && |Digits(n)| <= 12 && n <= l.maxLiteral
    requires LiteralsOf(before) + 1 <= l.maxLiterals
    requires TotalOf(before) + |Announce(text, n)| + 2 + n <= l.maxCommandBytes
    ensures var line := Announce(text, n);
            var total, literals := TotalOf(before) + |line| + 2 + n, LiteralsOf(before) + 1;
            var p := Pending(Continued(before, line).tag, PiecesOf(before) + [Line(text)], total, literals);
            ConsumeLine(l, before, line) == LineOutcome(Continuation(n), Some(p), Some(n))
  {
    hide LiteralTail, ExtractTag, Digits, Tokenize;
    AnnouncementIsRead(text, n);
    ParseUndoesDigits(n);
    PlainAnnounce(text, n);
  }

  lemma PlainAnnounce(text: string, n: nat)
    requires Plain(text)
    ensures Plain(Announce(text, n)) && NUL !in Announce(text, n) && LF !in Announce(text, n)
  {
    ParseUndoesDigits(n);
    var line := Announce(text, n);
    forall i | 0 <= i < |line| ensures PlainChar(line[i]) {
      if |text| < i < |line| - 1 {
        assert line[i] == Digits(n)[i - |text| - 1];
      }
    }
  }

  lemma LastConsumed(l: Limits, before: Option<Pending>, text: string, ts: seq<Token>)
    requires Plain(text) && LiteralTail(text).None? && TotalOf(before) + |text| + 2 <= l.maxCommandBytes
    requires Tokenize(PiecesOf(before) + [Line(text)]) == Ok(ts) && ProperCommand(ts)
    ensures ConsumeLine(l, before, text) == LineOutcome(CommandOf(ts), None, None)
  {
    hide LiteralTail, ExtractTag, Tokenize, Upper;
    assert NUL !in text;
  }

  /** The parser turns the octets of a framed command into one request per literal and the command, and
      goes on with whatever follows. */
  lemma {:induction false} FramesParse(l: Limits, k: seq<Piece>, before: Option<Pending>, ts: seq<Token>, rest: string)
    requires Framed(k) && Clean(k) && Within(l, k)
    requires Tokenize(PiecesOf(before) + k) == Ok(ts) && ProperCommand(ts)
    requires TotalOf(before) + |WireText(k)| <= l.maxCommandBytes && LiteralsOf(before) + |Requests(k)| <= l.maxLiterals
    ensures Events(l, State(WireText(k) + rest, before, None)) ==
            Then(Requests(k) + [CommandOf(ts)], Events(l, State(rest, None, None)))
    decreases |k|
  {
    hide *;
    FramedLength(k);
    if |k| == 1 {
      OnlyLine(l, k);
      LastFrame(l, k[0].text, before, ts, rest);
    } else {
      FirstFrame(l, k);
      var text, data, n := k[0].text, k[1].data, |k[1].data|;
      var line := Announce(text, n);
      var total, literals := TotalOf(before) + |line| + 2 + n, LiteralsOf(before) + 1;
      var p := Pending(Continued(before, line).tag, PiecesOf(before) + [Line(text)] + [Lit(data)], total, literals);
      PendingIs(p);
      WireOfTwo(k, rest);
      DigitsFit(n, 12);
      AnnouncedFrame(l, text, data, before, WireText(k[2..]) + rest);
      assert p.pieces + k[2..] == PiecesOf(before) + k;
      FramesParse(l, k[2..], Some(p), ts, rest);
      var after := Events(l, State(rest, None, None));
      ThenTwice([Continuation(n)], Requests(k[2..]) + [CommandOf(ts)], after);
      var more := Requests(k[2..]);
      assert [Continuation(n)] + (more + [CommandOf(ts)]) == ([Continuation(n)] + more) + [CommandOf(ts)];
    }
  }

  lemma PendingIs(p: Pending)
    ensures PiecesOf(Some(p)) == p.pieces && TotalOf(Some(p)) == p.total && LiteralsOf(Some(p)) == p.literals
  {
  }

  lemma FramedLength(k: seq<Piece>)
    requires Framed(k)
    ensures |k| >= 1
  {
  }

  lemma OnlyLine(l: Limits, k: seq<Piece>)
    requires Framed(k) && Clean(k) && Within(l, k) && |k| == 1
    ensures k == [Line(k[0].text)] && WireText(k) == k[0].text + CRLF && Requests(k) == []
    ensures Plain(k[0].text) && |k[0].text| <= l.maxLine
  {
  }

  /** What the first announcement of a longer command is like. */
  lemma FirstFrame(l: Limits, k: seq<Piece>)
    requires Framed(k) && Clean(k) && Within(l, k) && |k| > 1
    ensures k[0].Line? && k[1].Lit?
    ensures var text, n := k[0].text, |k[1].data|;
            && k == [Line(text), Lit(k[1].data)] + k[2..]
            && Plain(text) && Ready(text) && n < PowerOfTen(12) && n <= l.maxLiteral && |Announce(text, n)| <= l.maxLine
            && Framed(k[2..]) && Clean(k[2..]) && Within(l, k[2..])
            && Requests(k) == [Continuation(n)] + Requests(k[2..])
  {
    hide Plain, Ready, PowerOfTen, Announce;
  }

  lemma WireOfTwo(k: seq<Piece>, rest: string)
    requires Framed(k) && |k| > 1
    ensures WireText(k) + rest == Announce(k[0].text, |k[1].data|) + CRLF + (k[1].data + (WireText(k[2..]) + rest))
    ensures |WireText(k)| == |Announce(k[0].text, |k[1].data|)| + 2 + |k[1].data| + |WireText(k[2..])|
  {
    var text, data, more := k[0].text, k[1].data, WireText(k[2..]);
    assert WireText(k) == text + LiteralText(data) + more;
    hide WireText;
    assert text + LiteralText(data) == Announce(text, |data|) + CRLF + data by { hide Digits; }
    hide *;
    var line := Announce(text, |data|) + CRLF;
    assert ((line + data) + more) + rest == line + (data + (more + rest));
  }

  /** An announced line and its literal take two rounds. */
  lemma AnnouncedFrame(l: Limits, text: string, data: string, before: Option<Pending>, rest: string)
    requires Plain(text) && Ready(text) && |Digits(|data|)| <= 12 && |data| <= l.maxLiteral
             && |Announce(text, |data|)| <= l.maxLine
    requires LiteralsOf(before) + 1 <= l.maxLiterals
    requires TotalOf(before) + |Announce(text, |data|)| + 2 + |data| <= l.maxCommandBytes
    ensures var line := Announce(text, |data|);
            var total, literals := TotalOf(before) + |line| + 2 + |data|, LiteralsOf(before) + 1;
            var pieces := PiecesOf(before) + [Line(text)] + [Lit(data)];
            var p := Pending(Continued(before, line).tag, pieces, total, literals);
            Events(l, State(line + CRLF + (data + rest), before, None)) ==
            Then([Continuation(|data|)], Events(l, State(rest, Some(p), None)))
  {
    hide *;
    var line, n := Announce(text, |data|), |data|;
    var s := State(line + CRLF + (data + rest), before, None);
    var p := Pending(Continued(before, line).tag, PiecesOf(before) + [Line(text)], TotalOf(before) + |line| + 2 + n,
        LiteralsOf(before) + 1);
    AnnounceConsumed(l, before, text, n);
    PlainAnnounce(text, n);
    LineTurn(l, s, line, data + rest);
    LiteralTurn(l, p, data, rest);
    TwoTurns(l, s, Continuation(n), State(data + rest, Some(p), Some(n)),
        State(rest, Some(p.(pieces := p.pieces + [Lit(data)])), None));
  }

  lemma TwoTurns(l: Limits, s: State, e: Event, mid: State, last: State)
    requires OneTurn(l, s) == Go([e], mid) && OneTurn(l, mid) == Go([], last)
    ensures Events(l, s) == Then([e], Events(l, last))
  {
    hide *;
    EventsGo(l, s);
    EventsGo(l, mid);
    ThenNothing(Events(l, last));
  }

  lemma LastHasNoTail(pre: seq<Piece>, text: string)
    requires Tokenize(pre + [Line(text)]).Ok?
    ensures LiteralTail(text).None?
  {
    LastLineTokenizes(pre, text, [[]]);
  }

  lemma LastFrame(l: Limits, text: string, before: Option<Pending>, ts: seq<Token>, rest: string)
    requires Plain(text) && |text| <= l.maxLine && TotalOf(before) + |text + CRLF| <= l.maxCommandBytes
    requires Tokenize(PiecesOf(before) + [Line(text)]) == Ok(ts) && ProperCommand(ts)
    ensures Events(l, State((text + CRLF) + rest, before, None)) ==
            Then([] + [CommandOf(ts)], Events(l, State(rest, None, None)))
  {
    hide OneTurn, ConsumeLine, CommandOf, LiteralTail, Events, Tokenize, Then, ProperCommand;
    var s := State(text + CRLF + rest, before, None);
    LastHasNoTail(PiecesOf(before), text);
    LastConsumed(l, before, text, ts);
    assert LF !in text;
    LineTurn(l, s, text, rest);
    EventsGo(l, s);
    assert [] + [CommandOf(ts)] == [CommandOf(ts)];
  }

  // ----- printed commands are clean ----------------------------------------------------------------------------

  lemma PlainConcat(s: string, t: string)
    requires Plain(s) && Plain(t)
    ensures Plain(s + t)
  {
  }

  lemma {:induction false} EscapePlain(s: string)
    requires Plain(s)
    ensures Plain(Escape(s))
  {
    if s != [] {
      EscapePlain(s[1..]);
      PlainConcat(if s[0] == QUOTE || s[0] == BACKSLASH then [BACKSLASH, s[0]] else [s[0]], Escape(s[1..]));
    }
  }

  lemma QuotedPlain(s: string)
    requires Plain(s)
    ensures Plain(QuotedText(s))
  {
    QuotedIs(s);
    EscapePlain(s);
  }

  lemma {:induction false} ItemPlain(x: SectionItem)
    requires WfItem(x)
    ensures Plain(ItemText(x))
    decreases x, 0
  {
    match x
    case Raw(c) =>
    case Name(v) => QuotedPlain(v);
    case Nested(body) => BodyPlain(body);
  }

  lemma {:induction false} BodyPlain(body: seq<SectionItem>)
    requires WfBody(body)
    ensures Plain(BodyText(body))
    decreases body, 1
  {
    if body != [] {
      ItemPlain(body[0]);
      BodyPlain(body[1..]);
      PlainConcat(ItemText(body[0]), BodyText(body[1..]));
    }
  }

  lemma {:induction false} AtomPlain(parts: seq<AtomPart>)
    requires WfParts(parts)
    ensures Plain(AtomText(parts))
  {
    if parts != [] {
      AtomPlain(parts[1..]);
      if parts[0].Section? {
        BodyPlain(parts[0].body);
      }
      PlainConcat(PartText(parts[0]), AtomText(parts[1..]));
    }
  }

  /** A literal does not follow directly. */
  predicate Solid(k: seq<Piece>)
    requires Framed(k)
  {
    |k| == 1 || k[0].text != ""
  }

  lemma BeforeClean(t: string, k: seq<Piece>)
    requires Framed(k) && Clean(k) && Plain(t) && (Solid(k) || Ready(t))
    ensures Clean(Before(t, k)) && (t != "" ==> Solid(Before(t, k)))
  {
    PlainConcat(t, k[0].text);
    if |k| > 1 {
      assert Before(t, k)[2..] == k[2..];
    }
  }

  lemma {:induction false} PutClean(a: Arg, k: seq<Piece>)
    requires Framed(k) && WfArg(a) && Clean(k) && Solid(k)
    ensures Clean(Put(a, k))
    decreases a, 0
  {
    match a
    case Word(parts) =>
      AtomPlain(parts);
      BeforeClean(AtomText(parts), k);
    case Str(v) =>
      QuotedPlain(v);
      BeforeClean(QuotedText(v), k);
    case Bin(d) => assert ([Line(""), Lit(d)] + k)[2..] == k;
    case Group(items) =>
      BeforeClean(")", k);
      PutAllClean(items, Before(")", k));
      BeforeClean("(", PutAll(items, Before(")", k)));
  }

  lemma {:induction false} PutAllClean(items: seq<Arg>, k: seq<Piece>)
    requires Framed(k) && WfArgs(items) && Clean(k) && Solid(k)
    ensures Clean(PutAll(items, k))
    decreases items, 1
  {
    if items == [] {
    } else if |items| == 1 {
      PutClean(items[0], k);
    } else {
      PutAllClean(items[1..], k);
      BeforeClean(" ", PutAll(items[1..], k));
      PutClean(items[0], Before(" ", PutAll(items[1..], k)));
    }
  }

  // ----- the round trip ----------------------------------------------------------------------------------------

  /** A command within the limits: tag and name are atoms, the tag has no `+` or `*`, and every line,
      every literal, their number and the whole command fit. */
  predicate Sendable(l: Limits, words: seq<Arg>) {
    && |words| >= 2 && WfArgs(words) && words[0].Word? && words[1].Word?
    && '+' !in AtomText(words[0].parts) && '*' !in AtomText(words[0].parts)
    && Within(l, CommandPieces(words)) && |CommandText(words)| <= l.maxCommandBytes
    && |Requests(CommandPieces(words))| <= l.maxLiterals
  }

  /** Parse undoes print: a fresh parser fed a printed command (and anything after it) asks once for each
      literal, in order, then delivers exactly that command, then goes on with the rest. */
  lemma ParseUndoesPrint(l: Limits, words: seq<Arg>, rest: string)
    requires Sendable(l, words)
    ensures var command := Command(AtomText(words[0].parts), Upper(AtomText(words[1].parts)), TokensOf(words[2..]));
            Events(l, FRESH.Fed(CommandText(words) + rest)) ==
            Then(Requests(CommandPieces(words)) + [command], Events(l, FRESH.Fed(rest)))
  {
    hide *;
    var k, ts := CommandPieces(words), TokensOf(words);
    SendableFits(l, words);
    TokenizeUndoesPrint(words);
    PrintedIsClean(words);
    PrintedIsProper(words);
    FirstOfAll(k, CommandText(words), rest);
    FramesParse(l, k, None, ts, rest);
  }

  lemma PrintedIsClean(words: seq<Arg>)
    requires WfArgs(words)
    ensures Framed(CommandPieces(words)) && Clean(CommandPieces(words))
  {
    PutAllClean(words, [Line("")]);
  }

  lemma FirstOfAll(k: seq<Piece>, text: string, rest: string)
    ensures FRESH.Fed(text + rest) == State(text + rest, None, None) && FRESH.Fed(rest) == State(rest, None, None)
    ensures PiecesOf(None) + k == k && TotalOf(None) == 0 && LiteralsOf(None) == 0
  {
  }

  lemma SendableFits(l: Limits, words: seq<Arg>)
    requires Sendable(l, words)
    ensures |words| >= 2 && WfArgs(words) && words[0].Word? && words[1].Word?
    ensures '+' !in AtomText(words[0].parts) && '*' !in AtomText(words[0].parts)
    ensures Within(l, CommandPieces(words)) && |CommandText(words)| <= l.maxCommandBytes
    ensures |Requests(CommandPieces(words))| <= l.maxLiterals
  {
  }

  lemma PrintedIsProper(words: seq<Arg>)
    requires |words| >= 2 && WfArgs(words) && words[0].Word? && words[1].Word?
    requires '+' !in AtomText(words[0].parts) && '*' !in AtomText(words[0].parts)
    ensures var ts := TokensOf(words);
            ProperCommand(ts) && CommandOf(ts) == Command(AtomText(words[0].parts), Upper(AtomText(words[1].parts)),
                TokensOf(words[2..]))
  {
    TokensOfTwo(words);
    hide TokensOf, Upper, WfArgs, WfParts;
    var first, rest := [TokenOf(words[0]), TokenOf(words[1])], TokensOf(words[2..]);
    assert (first + rest)[2..] == rest;
  }

  lemma TokensOfTwo(words: seq<Arg>)
    requires |words| >= 2
    ensures TokensOf(words) == [TokenOf(words[0]), TokenOf(words[1])] + TokensOf(words[2..])
  {
    hide *;
    var more := words[1..];
    assert more[1..] == words[2..] && more[0] == words[1];
    TokensOfCons(words);
    TokensOfCons(more);
    Reassociate(TokenOf(words[0]), TokenOf(more[0]), TokensOf(more[1..]));
  }

  lemma TokensOfCons(words: seq<Arg>)
    requires words != []
    ensures TokensOf(words) == [TokenOf(words[0])] + TokensOf(words[1..])
  {
  }

  lemma Reassociate<T>(x: T, y: T, s: seq<T>)
    ensures [x] + ([y] + s) == [x, y] + s
  {
  }
}
