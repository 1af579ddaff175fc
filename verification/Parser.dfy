/** The incremental command parser: a buffer, a pending command and an awaited literal. */
module Parser {
  import opened Types
  import opened Decimal
  import opened Tokenizer

  datatype Limits = Limits(maxLine: nat, maxLiteral: nat, maxCommandBytes: nat, maxLiterals: nat)

  datatype Message =
    | LineTooLong | NulByte | LiteralTooLarge | CommandTooLarge
    | Syntax(fault: Fault) | EmptyCommand | MissingCommand | NotAtoms | InvalidTag

  datatype Event =
    | Command(tag: string, name: string, args: seq<Token>)
    | Continuation(length: nat)
    | ParseError(echo: Option<string>, message: Message, fatal: bool)

  datatype Pending = Pending(tag: Option<string>, pieces: seq<Piece>, total: nat, literals: nat)

  datatype State = State(buf: string, pending: Option<Pending>, awaiting: Option<nat>)
  {
    function Fed(data: string): State { this.(buf := buf + data) }
  }

  const FRESH := State("", None, None)

  // ----- lines ----------------------------------------------------------------------------------------

  /** The announcement of a literal at the end of a line: where its brace is, and its length. */
  datatype Tail = Tail(open: nat, length: nat)

  function TrailingDigits(s: string): (r: nat)
    ensures r <= |s| && AllDigits(s[|s| - r..])
    ensures r < |s| ==> !IsDigit(s[|s| - r - 1])
  {
    if s == [] || !IsDigit(s[|s|-1]) then 0
    else
      var front := s[..|s|-1];
      var r := TrailingDigits(front);
      assert forall i :: |s| - (r + 1) <= i < |s| - 1 ==> s[i] == front[|front| - r..][i - (|front| - r)];
      r + 1
  }

  /** A literal announced at the end of a line: one to twelve digits in braces, at the start of the line or
      after a space or an opening parenthesis. */
  function LiteralTail(line: string): (r: Option<Tail>)
    ensures r.Some? ==> r.value.open < |line|
  {
    if |line| == 0 || line[|line|-1] != '}' then None
    else
      var body := line[..|line|-1];
      var d := TrailingDigits(body);
      if d == 0 || d > 12 || d == |body| then None
      else
        var open := |body| - d - 1;
        if line[open] != '{' || (open > 0 && line[open-1] != ' ' && line[open-1] != '(') then None
        else Some(Tail(open, ParseDigits(body[|body| - d..])))
  }

  predicate Printable(c: char) { '!' <= c <= '~' }

  function FirstWord(line: string): string {
    if line == [] || line[0] == ' ' then [] else [line[0]] + FirstWord(line[1..])
  }

  function ExtractTag(line: string): Option<string> {
    var head := FirstWord(line);
    if 1 <= |head| <= 64 && forall i :: 0 <= i < |head| ==> Printable(head[i]) then Some(head) else None
  }

  function UpperChar(c: char): char {
    if 'a' <= c <= 'z' then ((c as int) - 32) as char else c
  }

  function Upper(s: string): string {
    seq(|s|, i requires 0 <= i < |s| => UpperChar(s[i]))
  }

  function Built(tag: Option<string>, tokens: Result<seq<Token>, Fault>): Event {
    match tokens
    case Err(e) => ParseError(tag, Syntax(e), false)
    case Ok(ts) =>
      if ts == [] then ParseError(None, EmptyCommand, false)
      else if |ts| < 2 then ParseError(tag, MissingCommand, false)
      else if !ts[0].Atom? || !ts[1].Atom? then ParseError(tag, NotAtoms, false)
      else if '+' in ts[0].value || '*' in ts[0].value then ParseError(None, InvalidTag, false)
      else Command(ts[0].value, Upper(ts[1].value), ts[2..])
  }

  function BuildCommand(p: Pending): Event {
    Built(p.tag, Tokenize(p.pieces))
  }

  /** The outcome of a complete line: one event, and what is pending or awaited after it. */
  datatype LineOutcome = LineOutcome(event: Event, pending: Option<Pending>, awaiting: Option<nat>)

  /** What a line continues: the pending command, or a new one. */
  function Continued(before: Option<Pending>, line: string): Pending {
    match before case Some(p) => p case None => Pending(ExtractTag(line), [], 0, 0)
  }

  function ConsumeLine(l: Limits, before: Option<Pending>, line: string): LineOutcome {
    var p := Continued(before, line);
    if NUL in line then LineOutcome(ParseError(p.tag, NulByte, false), None, None)
    else
      match LiteralTail(line)
      case Some(tail) =>
        var total, literals := p.total + |line| + 2 + tail.length, p.literals + 1;
        if tail.length > l.maxLiteral then LineOutcome(ParseError(p.tag, LiteralTooLarge, false), None, None)
        else if literals > l.maxLiterals || total > l.maxCommandBytes then
          LineOutcome(ParseError(p.tag, CommandTooLarge, false), None, None)
        else
          var pieces := p.pieces + [Line(line[..tail.open])];
          LineOutcome(Continuation(tail.length), Some(Pending(p.tag, pieces, total, literals)), Some(tail.length))
      case None =>
        if p.total + |line| + 2 > l.maxCommandBytes then
          LineOutcome(ParseError(p.tag, CommandTooLarge, false), None, None)
        else LineOutcome(BuildCommand(p.(pieces := p.pieces + [Line(line)])), None, None)
  }

  // ----- the machine --------------------------------------------------------------------------------------

  function FindLf(s: string): (r: Option<nat>)
    ensures r.Some? ==> r.value < |s| && s[r.value] == LF && LF !in s[..r.value]
    ensures r.None? ==> LF !in s
  {
    if s == [] then None
    else if s[0] == LF then Some(0)
    else
      var r := FindLf(s[1..]);
      assert s == [s[0]] + s[1..];
      assert r.Some? ==> s[..r.value + 1] == [s[0]] + s[1..][..r.value];
      match r case None => None case Some(i) => Some(i + 1)
  }

  function StripCr(line: string): string {
    if line != [] && line[|line|-1] == CR then line[..|line|-1] else line
  }

  /** One round of the event loop: it either goes on or stops until more is fed. */
  datatype Turn = Stop(events: seq<Event>, state: State) | Go(events: seq<Event>, state: State)

  const TOO_LONG := ParseError(None, LineTooLong, true)

  function OneTurn(l: Limits, s: State): (r: Turn)
    ensures r.Go? ==>
              || |r.state.buf| < |s.buf|
              || (|r.state.buf| == |s.buf| && s.awaiting.Some? && r.state.awaiting.None?)
  {
    if s.awaiting.Some? then
      var n := s.awaiting.value;
      if |s.buf| < n then Stop([], s)
      else if s.pending.None? then Stop([], s) // the source asserts that this cannot happen
      else
        var p := s.pending.value;
        Go([], State(s.buf[n..], Some(p.(pieces := p.pieces + [Lit(s.buf[..n])])), None))
    else
      match FindLf(s.buf)
      case None =>
        if |s.buf| > l.maxLine then Stop([TOO_LONG], State("", None, None)) else Stop([], s)
      case Some(i) =>
        var line := StripCr(s.buf[..i]);
        if |line| > l.maxLine then Stop([TOO_LONG], State(s.buf[i+1..], None, None))
        else
          var out := ConsumeLine(l, s.pending, line);
          Go([out.event], State(s.buf[i+1..], out.pending, out.awaiting))
  }

  datatype Drained = Drained(events: seq<Event>, state: State)

  /** The same with some events before it. */
  function Then(events: seq<Event>, d: Drained): Drained {
    Drained(events + d.events, d.state)
  }

  lemma ThenTwice(a: seq<Event>, b: seq<Event>, d: Drained)
    ensures Then(a, Then(b, d)) == Then(a + b, d)
  {
  }

  lemma ThenNothing(d: Drained)
    ensures Then([], d) == d
  {
  }

  /** `events()` run to its end. */
  function Events(l: Limits, s: State): Drained
    decreases |s.buf|, s.awaiting.Some?
  {
    match OneTurn(l, s)
    case Stop(e, s') => Drained(e, s')
    case Go(e, s') => Then(e, Events(l, s'))
  }

  // ----- chunks ---------------------------------------------------------------------------------------------

  ghost predicate NoFatal(events: seq<Event>) {
    forall i :: 0 <= i < |events| ==> !(events[i].ParseError? && events[i].fatal)
  }

  function FeedAll(l: Limits, s: State, chunks: seq<string>): Drained
    decreases |chunks|
  {
    if chunks == [] then Drained([], s)
    else
      var first := Events(l, s.Fed(chunks[0]));
      Then(first.events, FeedAll(l, first.state, chunks[1..]))
  }

  function Concat(chunks: seq<string>): string {
    if chunks == [] then "" else chunks[0] + Concat(chunks[1..])
  }

  lemma {:induction false} FindLfPrefix(s: string, x: string)
    ensures FindLf(s).Some? ==> FindLf(s + x) == FindLf(s)
    ensures FindLf(s).None? && FindLf(s + x).Some? ==> FindLf(s + x).value >= |s|
  {
    if s != [] && s[0] != LF {
      assert (s + x)[1..] == s[1..] + x;
      FindLfPrefix(s[1..], x);
    }
  }

  /** A round that goes on does the same with more input behind it. */
  lemma TurnExtends(l: Limits, s: State, x: string)
    requires OneTurn(l, s).Go?
    ensures OneTurn(l, s.Fed(x)) == Go(OneTurn(l, s).events, OneTurn(l, s).state.Fed(x))
  {
    hide ConsumeLine;
    FindLfPrefix(s.buf, x);
    if s.awaiting.Some? {
      CutBefore(s.buf, x, s.awaiting.value);
    } else {
      CutBefore(s.buf, x, FindLf(s.buf).value);
      CutBefore(s.buf, x, FindLf(s.buf).value + 1);
    }
  }

  lemma CutBefore(s: string, x: string, n: nat)
    requires n <= |s|
    ensures (s + x)[..n] == s[..n] && (s + x)[n..] == s[n..] + x
  {
  }

  lemma NoFatalConcat(a: seq<Event>, b: seq<Event>)
    ensures NoFatal(a + b) <==> NoFatal(a) && NoFatal(b)
  {
    if NoFatal(a + b) {
      assert forall i :: 0 <= i < |a| ==> a[i] == (a + b)[i];
      assert forall i :: 0 <= i < |b| ==> b[i] == (a + b)[|a| + i];
    }
  }

  lemma NoFatalThen(a: seq<Event>, d: Drained)
    ensures NoFatal(Then(a, d).events) <==> NoFatal(a) && NoFatal(d.events)
  {
    hide NoFatal;
    NoFatalConcat(a, d.events);
  }

  lemma FatalLine()
    ensures !NoFatal([TOO_LONG])
  {
    assert [TOO_LONG][0].fatal;
  }

  // One round, and one chunk, at a time.

  lemma EventsGo(l: Limits, s: State)
    requires OneTurn(l, s).Go?
    ensures Events(l, s) == Then(OneTurn(l, s).events, Events(l, OneTurn(l, s).state))
  {
    hide OneTurn;
  }

  lemma EventsStop(l: Limits, s: State)
    requires OneTurn(l, s).Stop?
    ensures Events(l, s) == Drained(OneTurn(l, s).events, OneTurn(l, s).state)
  {
    hide OneTurn;
  }

  lemma FeedOne(l: Limits, s: State, chunks: seq<string>)
    requires chunks != []
    ensures var first := Events(l, s.Fed(chunks[0]));
            FeedAll(l, s, chunks) == Then(first.events, FeedAll(l, first.state, chunks[1..]))
  {
    hide Events;
  }

  lemma FeedNone(l: Limits, s: State)
    ensures FeedAll(l, s, []) == Drained([], s)
  {
  }

  lemma StopsIdle(l: Limits, s: State)
    requires OneTurn(l, s).Stop? && NoFatal(OneTurn(l, s).events)
    ensures OneTurn(l, s) == Stop([], s)
  {
    hide NoFatal, ConsumeLine, StripCr, FindLf;
    FatalLine();
  }

  /** Draining before more input arrives, and again after, is draining once. */
  lemma {:induction false} DrainTwice(l: Limits, s: State, x: string)
    requires NoFatal(Events(l, s).events)
    ensures var first := Events(l, s);
            Events(l, s.Fed(x)) == Then(first.events, Events(l, first.state.Fed(x)))
    decreases |s.buf|, s.awaiting.Some?
  {
    hide OneTurn, Events, NoFatal, Then;
    var t := OneTurn(l, s);
    if t.Go? {
      EventsGo(l, s);
      NoFatalThen(t.events, Events(l, t.state));
      DrainTwice(l, t.state, x);
      TurnExtends(l, s, x);
      EventsGo(l, s.Fed(x));
      var rest := Events(l, t.state);
      ThenTwice(t.events, rest.events, Events(l, rest.state.Fed(x)));
      ThenIs(t.events, rest);
    } else {
      EventsStop(l, s);
      StopsIdle(l, s);
      ThenNothing(Events(l, s.Fed(x)));
    }
  }

  lemma ThenIs(a: seq<Event>, d: Drained)
    ensures Then(a, d).events == a + d.events && Then(a, d).state == d.state
  {
  }

  /** Chunk independence: if no chunking point causes the fatal line-too-long error, the events and the
      final state are those of the whole stream fed at once. */
  lemma {:induction false} ChunkIndependence(l: Limits, s: State, chunks: seq<string>)
    requires chunks != [] && NoFatal(FeedAll(l, s, chunks).events)
    ensures FeedAll(l, s, chunks) == Events(l, s.Fed(Concat(chunks)))
    decreases |chunks|
  {
    hide OneTurn, Events, FeedAll, NoFatal, Then;
    var first, more := Events(l, s.Fed(chunks[0])), chunks[1..];
    FeedOne(l, s, chunks);
    NoFatalThen(first.events, FeedAll(l, first.state, more));
    if more == [] {
      FeedNone(l, first.state);
      assert chunks[0] + "" == chunks[0];
      ThenNone(first);
    } else {
      ChunkIndependence(l, first.state, more);
      DrainTwice(l, s.Fed(chunks[0]), Concat(more));
      FedTwice(s, chunks[0], Concat(more));
    }
  }

  lemma ThenNone(d: Drained)
    ensures Then(d.events, Drained([], d.state)) == d
  {
  }

  lemma FedTwice(s: State, x: string, y: string)
    ensures s.Fed(x).Fed(y) == s.Fed(x + y)
  {
    assert s.buf + (x + y) == (s.buf + x) + y;
  }

  /** The length of the line the next round would look at, counted with its CR. */
  function RawLength(s: State): nat {
    if s.awaiting.Some? then 0 else match FindLf(s.buf) case None => |s.buf| case Some(i) => i
  }

  predicate RawFits(l: Limits, s: State) {
    RawLength(s) <= l.maxLine
  }

  /** Every line of the stream, counted with its CR, and the unfinished rest fit the line limit. */
  predicate RawLinesFit(l: Limits, s: State)
    decreases |s.buf|, s.awaiting.Some?
  {
    RawFits(l, s) && match OneTurn(l, s) case Stop(_, _) => true case Go(_, s') => RawLinesFit(l, s')
  }

  lemma FitGo(l: Limits, s: State)
    requires OneTurn(l, s).Go?
    ensures RawLinesFit(l, s) <==> RawFits(l, s) && RawLinesFit(l, OneTurn(l, s).state)
  {
    hide OneTurn, RawFits;
  }

  lemma {:induction false} FitSplits(l: Limits, s: State, x: string)
    requires RawLinesFit(l, s.Fed(x))
    ensures NoFatal(Events(l, s).events) && RawLinesFit(l, Events(l, s).state.Fed(x))
    decreases |s.buf|, s.awaiting.Some?
  {
    hide OneTurn, Events, NoFatal, RawLinesFit, Then;
    var t := OneTurn(l, s);
    if t.Go? {
      TurnExtends(l, s, x);
      FitGo(l, s.Fed(x));
      FitSplits(l, t.state, x);
      NotFatalTurn(l, s);
      EventsGo(l, s);
      NoFatalThen(t.events, Events(l, t.state));
      ThenIs(t.events, Events(l, t.state));
    } else {
      FitFits(l, s.Fed(x));
      StopFits(l, s, x);
      EventsStop(l, s);
      NoEventNoFatal();
    }
  }

  lemma FitFits(l: Limits, s: State)
    requires RawLinesFit(l, s)
    ensures RawFits(l, s)
  {
    hide OneTurn, RawFits;
  }

  lemma NoEventNoFatal()
    ensures NoFatal([])
  {
  }

  /** A round that stops although the line in sight fits has nothing to say. */
  lemma StopFits(l: Limits, s: State, x: string)
    requires OneTurn(l, s).Stop? && RawFits(l, s.Fed(x))
    ensures OneTurn(l, s) == Stop([], s)
  {
    hide ConsumeLine, FindLf;
    FindLfPrefix(s.buf, x);
  }

  lemma NotFatalTurn(l: Limits, s: State)
    requires OneTurn(l, s).Go?
    ensures NoFatal(OneTurn(l, s).events)
  {
    hide FindLf, StripCr;
  }

  lemma {:induction false} FitMeansNoFatal(l: Limits, s: State, chunks: seq<string>)
    requires RawLinesFit(l, s.Fed(Concat(chunks)))
    ensures NoFatal(FeedAll(l, s, chunks).events)
    decreases |chunks|
  {
    hide OneTurn, Events, FeedAll, NoFatal, RawLinesFit, Then;
    if chunks == [] {
      FeedNone(l, s);
      NoEventNoFatal();
    } else {
      var first, more := Events(l, s.Fed(chunks[0])), chunks[1..];
      FedTwice(s, chunks[0], Concat(more));
      FitSplits(l, s.Fed(chunks[0]), Concat(more));
      FitMeansNoFatal(l, first.state, more);
      FeedOne(l, s, chunks);
      NoFatalThen(first.events, FeedAll(l, first.state, more));
    }
  }

  /** Cut after `k` characters, the stream is refused. */
  ghost predicate RefusedAt(l: Limits, s: State, k: nat) {
    k <= |s.buf| && !NoFatal(Events(l, s.(buf := s.buf[..k])).events)
  }

  /** A stream whose lines do not fit can be cut so that the first part alone is refused. */
  lemma {:induction false} MisfitCut(l: Limits, s: State) returns (k: nat)
    requires !RawLinesFit(l, s)
    ensures RefusedAt(l, s, k)
    decreases |s.buf|, s.awaiting.Some?
  {
    hide *;
    if !RawFits(l, s) {
      CutRaw(l, s);
      k := RawLength(s);
    } else {
      MisfitGoesOn(l, s);
      var m := MisfitCut(l, OneTurn(l, s).state);
      k := CutLater(l, s, m);
    }
  }

  lemma MisfitGoesOn(l: Limits, s: State)
    requires RawFits(l, s) && !RawLinesFit(l, s)
    ensures OneTurn(l, s).Go? && !RawLinesFit(l, OneTurn(l, s).state)
  {
    hide OneTurn, RawFits;
  }

  lemma CutLater(l: Limits, s: State, m: nat) returns (k: nat)
    requires OneTurn(l, s).Go? && RefusedAt(l, OneTurn(l, s).state, m)
    ensures RefusedAt(l, s, k)
  {
    hide OneTurn, NoFatal, Events, Then;
    var t := OneTurn(l, s);
    k := |s.buf| - |t.state.buf| + m;
    CutTurn(l, s, m);
    EventsGo(l, s.(buf := s.buf[..k]));
    NoFatalThen(t.events, Events(l, t.state.(buf := t.state.buf[..m])));
  }

  /** A line over the limit, cut before its LF, is refused as it stands. */
  lemma CutRaw(l: Limits, s: State)
    requires !RawFits(l, s)
    ensures RefusedAt(l, s, RawLength(s))
  {
    hide NoFatal, Events, ConsumeLine, StripCr, FindLf;
    var cut := s.(buf := s.buf[..RawLength(s)]);
    assert LF !in cut.buf;
    assert FindLf(cut.buf).None?;
    EventsStop(l, cut);
    FatalLine();
  }

  /** Cutting the stream inside what a round leaves does not change that round. */
  lemma CutTurn(l: Limits, s: State, m: nat)
    requires OneTurn(l, s).Go? && m <= |OneTurn(l, s).state.buf|
    ensures var t := OneTurn(l, s);
            OneTurn(l, s.(buf := s.buf[..|s.buf| - |t.state.buf| + m])) ==
                Go(t.events, t.state.(buf := t.state.buf[..m]))
  {
    hide OneTurn;
    var t := OneTurn(l, s);
    var used := |s.buf| - |t.state.buf|;
    HeadTurn(l, s);
    TurnExtends(l, s.(buf := s.buf[..used]), t.state.buf[..m]);
    assert s.buf[..used + m] == s.buf[..used] + t.state.buf[..m];
    assert "" + t.state.buf[..m] == t.state.buf[..m];
  }

  /** A round that goes on uses a front part of the buffer, and would do the same with that part alone. */
  lemma HeadTurn(l: Limits, s: State)
    requires OneTurn(l, s).Go?
    ensures var used := |s.buf| - |OneTurn(l, s).state.buf|;
            && OneTurn(l, s).state.buf == s.buf[used..]
            && OneTurn(l, s.(buf := s.buf[..used])) == Go(OneTurn(l, s).events, OneTurn(l, s).state.(buf := ""))
  {
    if s.awaiting.Some? {
      var n := s.awaiting.value;
      assert s.buf[..n][..n] == s.buf[..n] && s.buf[..n][n..] == "";
    } else {
      var i := FindLf(s.buf).value;
      var head := s.buf[..i+1];
      assert head == s.buf[..i] + [LF];
      FindLfAt(s.buf[..i]);
      hide FindLf, ConsumeLine, StripCr;
      assert head[..i] == s.buf[..i] && head[i+1..] == "";
      assert |s.buf| - |OneTurn(l, s).state.buf| == i + 1;
    }
  }

  lemma {:induction false} FindLfAt(s: string)
    requires LF !in s
    ensures FindLf(s + [LF]) == Some(|s|)
  {
    if s != [] {
      assert (s + [LF])[1..] == s[1..] + [LF];
      FindLfAt(s[1..]);
    }
  }

  /** For a parser with an empty buffer, every chunking of a stream avoids the fatal error exactly when
      the stream's raw lines fit; and then every chunking gives the same events and the same state. */
  lemma EveryChunkingAgreesIff(l: Limits, s: State, stream: string)
    requires s.buf == ""
    ensures RawLinesFit(l, s.Fed(stream)) <==> forall chunks :: Concat(chunks) == stream ==>
            NoFatal(FeedAll(l, s, chunks).events)
    ensures RawLinesFit(l, s.Fed(stream)) ==>
              forall chunks :: Concat(chunks) == stream && chunks != [] ==>
                  FeedAll(l, s, chunks) == Events(l, s.Fed(stream))
  {
    hide OneTurn, FeedAll, RawLinesFit, Events, NoFatal;
    if RawLinesFit(l, s.Fed(stream)) {
      forall chunks | Concat(chunks) == stream ensures NoFatal(FeedAll(l, s, chunks).events) {
        FitMeansNoFatal(l, s, chunks);
      }
      forall chunks | Concat(chunks) == stream && chunks != [] ensures FeedAll(l, s, chunks) ==
          Events(l, s.Fed(stream)) {
        FitMeansNoFatal(l, s, chunks);
        ChunkIndependence(l, s, chunks);
      }
    } else {
      var chunks := MisfitChunking(l, s, stream);
    }
  }

  lemma MisfitChunking(l: Limits, s: State, stream: string) returns (chunks: seq<string>)
    requires s.buf == "" && !RawLinesFit(l, s.Fed(stream))
    ensures Concat(chunks) == stream && !NoFatal(FeedAll(l, s, chunks).events)
  {
    hide OneTurn, RawLinesFit, Events, FeedAll, NoFatal, Then;
    var k := MisfitCut(l, s.Fed(stream));
    assert s.Fed(stream).buf == stream;
    chunks := [stream[..k], stream[k..]];
    assert chunks[1..] == [stream[k..]] && chunks[1..][1..] == [];
    assert Concat(chunks[1..]) == stream[k..];
    assert s.Fed(stream[..k]) == s.Fed(stream).(buf := stream[..k]);
    var first := Events(l, s.Fed(stream[..k]));
    FeedOne(l, s, chunks);
    NoFatalThen(first.events, FeedAll(l, first.state, chunks[1..]));
  }

  /** Chunking can matter by one octet: a line of exactly the permitted length is refused when it is
      cut between its CR and its LF, and accepted when it arrives whole. */
  lemma CutBeforeLfMatters()
    ensures var l := Limits(1, 0, 100, 0);
            !NoFatal(FeedAll(l, FRESH, ["a\r", "\n"]).events) && NoFatal(Events(l, FRESH.Fed("a\r\n")).events)
  {
    hide Events, FeedAll, NoFatal, Then, OneTurn;
    var l := Limits(1, 0, 100, 0);
    CutLine(l);
    WholeLine(l);
    var half := FRESH.Fed("a\r");
    EventsStop(l, half);
    FeedOne(l, FRESH, ["a\r", "\n"]);
    FatalLine();
    NoFatalThen([TOO_LONG], FeedAll(l, State("", None, None), ["a\r", "\n"][1..]));
    var whole := FRESH.Fed("a\r\n");
    EventsGo(l, whole);
    NotFatalTurn(l, whole);
    EmptyIsQuiet(l, OneTurn(l, whole).state);
    NoFatalThen(OneTurn(l, whole).events, Events(l, OneTurn(l, whole).state));
  }

  lemma CutLine(l: Limits)
    requires l.maxLine == 1
    ensures OneTurn(l, FRESH.Fed("a\r")) == Stop([TOO_LONG], State("", None, None))
  {
    hide ConsumeLine, StripCr;
    assert "" + "a\r" == "a\r";
    assert FindLf("a\r").None?;
  }

  lemma WholeLine(l: Limits)
    requires l.maxLine == 1 && l.maxCommandBytes == 100
    ensures var t := OneTurn(l, FRESH.Fed("a\r\n")); t.Go? && t.state.buf == "" && t.state.awaiting.None?
  {
    hide Tokenize, FindLf;
    assert "" + "a\r\n" == "a\r" + [LF];
    FindLfAt("a\r");
    assert ("a\r" + [LF])[..2] == "a\r" && StripCr("a\r") == "a";
  }

  lemma EmptyIsQuiet(l: Limits, s: State)
    requires s.buf == "" && s.awaiting.None?
    ensures NoFatal(Events(l, s).events)
  {
  }

  // ----- bounds ----------------------------------------------------------------------------------------------

  function Size(p: Piece): nat {
    match p case Line(t) => |t| case Lit(d) => |d|
  }

  function Stored(pieces: seq<Piece>): nat {
    if pieces == [] then 0 else Stored(pieces[..|pieces|-1]) + Size(pieces[|pieces|-1])
  }

  function LiteralCount(pieces: seq<Piece>): nat {
    if pieces == [] then 0 else LiteralCount(pieces[..|pieces|-1]) + if pieces[|pieces|-1].Lit? then 1 else 0
  }

  /** What the pending command stores, together with the literal announced for it, keeps every limit;
      and a literal is only awaited for a pending command. */
  ghost predicate Bounded(l: Limits, s: State) {
    && (s.awaiting.Some? ==> s.pending.Some? && s.awaiting.value <= l.maxLiteral)
    && (s.pending.Some? ==>
          var p, due := s.pending.value, if s.awaiting.Some? then s.awaiting.value else 0;
          && Stored(p.pieces) + due <= p.total <= l.maxCommandBytes
          && LiteralCount(p.pieces) + (if s.awaiting.Some? then 1 else 0) == p.literals <= l.maxLiterals
          && forall i :: 0 <= i < |p.pieces| && p.pieces[i].Lit? ==> |p.pieces[i].data| <= l.maxLiteral)
  }

  lemma StoredSnoc(pieces: seq<Piece>, p: Piece)
    ensures Stored(pieces + [p]) == Stored(pieces) + Size(p)
    ensures LiteralCount(pieces + [p]) == LiteralCount(pieces) + if p.Lit? then 1 else 0
  {
    assert (pieces + [p])[..|pieces|] == pieces;
  }

  /** The pending command with an announced literal. */
  function Awaiting(p: Pending, line: string, open: nat, n: nat): Pending
    requires open <= |line|
  {
    Pending(p.tag, p.pieces + [Line(line[..open])], p.total + |line| + 2 + n, p.literals + 1)
  }

  /** A line either leaves no command pending, or announces a literal that keeps the limits. */
  lemma LineOutcomes(l: Limits, before: Option<Pending>, line: string) returns (open: nat, n: nat)
    ensures open <= |line|
    ensures var p, out := Continued(before, line), ConsumeLine(l, before, line);
            if out.pending.None? then out.awaiting.None?
            else
              && n <= l.maxLiteral && p.literals + 1 <= l.maxLiterals && p.total + |line| + 2 + n <= l.maxCommandBytes
              && out.pending == Some(Awaiting(p, line, open, n)) && out.awaiting == Some(n)
  {
    hide LiteralTail, ExtractTag, Tokenize, Built;
    var tail := LiteralTail(line);
    open, n := if tail.Some? then tail.value.open else 0, if tail.Some? then tail.value.length else 0;
  }

  /** An announced literal is counted before it is accepted. */
  lemma AnnouncedKeepsBounds(l: Limits, p: Pending, line: string, open: nat, n: nat)
    requires Bounded(l, State("", Some(p), None)) && open <= |line| && n <= l.maxLiteral
    requires p.literals + 1 <= l.maxLiterals && p.total + |line| + 2 + n <= l.maxCommandBytes
    ensures Bounded(l, State("", Some(Awaiting(p, line, open, n)), Some(n)))
  {
    hide Stored, LiteralCount;
    StoredSnoc(p.pieces, Line(line[..open]));
  }

  /** What a line starts from is within the limits. */
  lemma StartBounded(l: Limits, s: State, line: string)
    requires Bounded(l, s) && s.awaiting.None?
    ensures Bounded(l, State("", Some(Continued(s.pending, line)), None))
  {
    hide ExtractTag;
  }

  lemma IdleBounded(l: Limits)
    ensures Bounded(l, State("", None, None))
  {
  }

  lemma LineKeepsBounds(l: Limits, s: State, line: string)
    requires Bounded(l, s) && s.awaiting.None?
    ensures var out := ConsumeLine(l, s.pending, line); Bounded(l, State("", out.pending, out.awaiting))
  {
    hide *;
    var open, n := LineOutcomes(l, s.pending, line);
    StartBounded(l, s, line);
    IdleBounded(l);
    if ConsumeLine(l, s.pending, line).pending.Some? {
      AnnouncedKeepsBounds(l, Continued(s.pending, line), line, open, n);
    }
  }

  lemma TurnKeepsBounds(l: Limits, s: State)
    requires Bounded(l, s)
    ensures Bounded(l, OneTurn(l, s).state)
  {
    hide ConsumeLine, Bounded, FindLf, StripCr;
    IdleBounded(l);
    if s.awaiting.Some? {
      LiteralHasCommand(l, s);
      if |s.buf| >= s.awaiting.value {
        LiteralKeepsBounds(l, s);
      }
    } else if FindLf(s.buf).Some? {
      var line := StripCr(s.buf[..FindLf(s.buf).value]);
      LineKeepsBounds(l, s, line);
      var out := ConsumeLine(l, s.pending, line);
      BoundedAnyBuffer(l, State("", out.pending, out.awaiting), s.buf[FindLf(s.buf).value + 1..]);
    }
    BoundedAnyBuffer(l, State("", None, None), if FindLf(s.buf).Some? then s.buf[FindLf(s.buf).value + 1..] else "");
  }

  lemma BoundedAnyBuffer(l: Limits, s: State, buf: string)
    requires Bounded(l, s)
    ensures Bounded(l, s.(buf := buf))
  {
    hide Stored, LiteralCount;
  }

  lemma LiteralKeepsBounds(l: Limits, s: State)
    requires Bounded(l, s) && s.awaiting.Some? && |s.buf| >= s.awaiting.value && s.pending.Some?
    ensures var n, p := s.awaiting.value, s.pending.value;
            Bounded(l, State(s.buf[n..], Some(p.(pieces := p.pieces + [Lit(s.buf[..n])])), None))
  {
    hide Stored, LiteralCount;
    StoredSnoc(s.pending.value.pieces, Lit(s.buf[..s.awaiting.value]));
  }

  /** The bounds hold in every state the parser can reach, also between two events of one drain. */
  lemma {:induction false} EventsKeepBounds(l: Limits, s: State)
    requires Bounded(l, s)
    ensures Bounded(l, Events(l, s).state)
    decreases |s.buf|, s.awaiting.Some?
  {
    hide OneTurn, Events, Bounded;
    TurnKeepsBounds(l, s);
    var t := OneTurn(l, s);
    if t.Go? {
      EventsGo(l, s);
      EventsKeepBounds(l, t.state);
    } else {
      EventsStop(l, s);
    }
  }

  lemma {:induction false} FeedingKeepsBounds(l: Limits, s: State, chunks: seq<string>)
    requires Bounded(l, s)
    ensures Bounded(l, FeedAll(l, s, chunks).state)
    decreases |chunks|
  {
    hide Events, FeedAll, Bounded;
    if chunks == [] {
      FeedNone(l, s);
    } else {
      BoundedAnyBuffer(l, s, s.buf + chunks[0]);
      EventsKeepBounds(l, s.Fed(chunks[0]));
      FeedingKeepsBounds(l, Events(l, s.Fed(chunks[0])).state, chunks[1..]);
      FeedOne(l, s, chunks);
    }
  }

  /** After a drain without a fatal error the buffer holds less than the awaited literal, or an
      unfinished line within the limit. */
  lemma {:induction false} DrainedBufferIsSmall(l: Limits, s: State)
    requires Bounded(l, s) && NoFatal(Events(l, s).events)
    ensures var r := Events(l, s).state;
            if r.awaiting.Some? then |r.buf| < r.awaiting.value else LF !in r.buf && |r.buf| <= l.maxLine
    decreases |s.buf|, s.awaiting.Some?
  {
    hide OneTurn, Events, NoFatal, Bounded;
    var t := OneTurn(l, s);
    if t.Go? {
      TurnKeepsBounds(l, s);
      EventsGo(l, s);
      NoFatalThen(t.events, Events(l, t.state));
      DrainedBufferIsSmall(l, t.state);
    } else {
      EventsStop(l, s);
      StopsIdle(l, s);
      StopIsShort(l, s);
    }
  }

  lemma StopIsShort(l: Limits, s: State)
    requires Bounded(l, s) && OneTurn(l, s) == Stop([], s)
    ensures if s.awaiting.Some? then |s.buf| < s.awaiting.value else LF !in s.buf && |s.buf| <= l.maxLine
  {
    hide ConsumeLine, FindLf, StripCr;
    if s.awaiting.Some? {
      LiteralHasCommand(l, s);
    }
  }

  /** An awaited literal belongs to a pending command. */
  lemma LiteralHasCommand(l: Limits, s: State)
    requires Bounded(l, s) && s.awaiting.Some?
    ensures s.pending.Some?
  {
  }

  /** One more round of a drain. */
  lemma DrainStep(l: Limits, s: State, events: seq<Event>, all: Drained)
    requires Bounded(l, s) && all == Then(events, Events(l, s))
    ensures var t := OneTurn(l, s);
            && Bounded(l, t.state)
            && all == if t.Go? then Then(events + t.events, Events(l, t.state)) else Drained(events + t.events, t.state)
  {
    hide Events, Bounded, OneTurn, Then;
    var t := OneTurn(l, s);
    TurnKeepsBounds(l, s);
    if t.Go? {
      EventsGo(l, s);
      ThenTwice(events, t.events, Events(l, t.state));
    } else {
      EventsStop(l, s);
      StopThen(events, t.events, t.state);
    }
  }

  lemma StopThen(a: seq<Event>, b: seq<Event>, s: State)
    ensures Then(a, Drained(b, s)) == Drained(a + b, s)
  {
  }

  // ----- the class -----------------------------------------------------------------------------------------------

  class CommandParser {
    const limits: Limits
    var buf: string
    var pending: Option<Pending>
    var awaiting: Option<nat>

    ghost function Now(): State
      reads this
    {
      State(buf, pending, awaiting)
    }

    ghost predicate Valid()
      reads this
    {
      Bounded(limits, Now())
    }

    constructor (limits: Limits)
      ensures Now() == FRESH && this.limits == limits && Valid()
    {
      this.limits := limits;
      buf, pending, awaiting := "", None, None;
    }

    method Feed(data: string)
      requires Valid()
      modifies this`buf
      ensures Now() == old(Now()).Fed(data) && Valid()
    {
      buf := buf + data;
    }

    /** Drains the buffer; the assertion of the source is the one below. */
    method Drain() returns (events: seq<Event>)
      requires Valid()
      modifies this
      ensures Valid() && Drained(events, Now()) == Events(limits, old(Now()))
    {
      hide Events, Bounded, ConsumeLine, LiteralTail, Then, FindLf, StripCr, Stored, LiteralCount;
      events := [];
      ThenNothing(Events(limits, Now()));
      while true
        invariant Valid()
        invariant Events(limits, old(Now())) == Then(events, Events(limits, Now()))
        decreases |buf|, awaiting.Some?
      {
        DrainStep(limits, Now(), events, Events(limits, old(Now())));
        NothingMore(events);
        if awaiting.Some? {
          var n := awaiting.value;
          if |buf| < n {
            return;
          }
          LiteralHasCommand(limits, Now());
          assert pending.Some?;
          var literal := buf[..n];
          buf := buf[n..];
          awaiting := None;
          pending := Some(pending.value.(pieces := pending.value.pieces + [Lit(literal)]));
          continue;
        }
        var at := FindLf(buf);
        if at.None? {
          if |buf| > limits.maxLine {
            buf, pending := "", None;
            events := events + [TOO_LONG];
          }
          return;
        }
        var line := StripCr(buf[..at.value]);
        buf := buf[at.value + 1..];
        if |line| > limits.maxLine {
          pending := None;
          events := events + [TOO_LONG];
          return;
        }
        var event := Consume(line);
        events := events + [event];
      }
    }

    /** `_consume_line`. */
    method Consume(line: string) returns (event: Event)
      requires awaiting.None?
      modifies this`pending, this`awaiting
      ensures LineOutcome(event, pending, awaiting) == ConsumeLine(limits, old(pending), line)
    {
      var p := Continued(pending, line);
      pending := None;
      if NUL in line {
        return ParseError(p.tag, NulByte, false);
      }
      p := p.(total := p.total + |line| + 2);
      var tail := LiteralTail(line);
      if tail.Some? {
        var n := tail.value.length;
        if n > limits.maxLiteral {
          return ParseError(p.tag, LiteralTooLarge, false);
        }
        p := p.(literals := p.literals + 1, total := p.total + n);
        if p.literals > limits.maxLiterals || p.total > limits.maxCommandBytes {
          return ParseError(p.tag, CommandTooLarge, false);
        }
        pending := Some(p.(pieces := p.pieces + [Line(line[..tail.value.open])]));
        awaiting := Some(n);
        return Continuation(n);
      }
      if p.total > limits.maxCommandBytes {
        return ParseError(p.tag, CommandTooLarge, false);
      }
      p := p.(pieces := p.pieces + [Line(line)]);
      var tokens := TokenizePieces(p.pieces);
      event := Built(p.tag, tokens);
    }
  }

  lemma NothingMore(events: seq<Event>)
    ensures events + [] == events
  {
  }
}
