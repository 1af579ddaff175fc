/** Tokens of a client command, and the tokenizer over assembled lines and literals. An octet is
    modelled as the character with its code; every test in the source treats codes above 0x7F alike. */
module Tokenizer {
  import opened Types

  datatype Token = Atom(value: string) | Quoted(value: string) | Literal(value: string) | List(items: seq<Token>)

  /** A command's segments: line text without terminators or literal announcements, and literals. */
  datatype Piece = Line(text: string) | Lit(data: string)

  /** The tokenizer's complaints, one per error message of the source. */
  datatype Fault =
    | UnterminatedQuoted | InvalidEscape | ControlInQuoted | NonAsciiInQuoted
    | UnterminatedSection | InvalidInSection
    | ControlInAtom | NonAsciiInAtom | ExpectedAtom
    | Unbalanced | LiteralNotLast | ControlInCommand

  const LF: char := '\n'
  const CR: char := '\r'
  const NUL: char := '\0'
  const DEL: char := '\U{7F}'
  const BACKSLASH: char := '\\'
  const QUOTE: char := '"'

  predicate Control(c: char) { c < ' ' || c == DEL }
  predicate NonAscii(c: char) { c > DEL }

  predicate AtomStop(c: char) {
    c == '(' || c == ')' || c == '{' || c == QUOTE || c == ' '
  }

  /** A value read from the front of a text, with the number of characters it took. */
  datatype Read = Read(value: string, taken: nat)

  // ----- the grammar as functions of the remaining text -------------------------------------------

  /** A quoted string after its opening quote. */
  function ReadQuoted(s: string): (r: Result<Read, Fault>)
    ensures r.Ok? ==> 0 < r.value.taken <= |s| && s[r.value.taken - 1] == QUOTE
  {
    if s == [] then Err(UnterminatedQuoted)
    else if s[0] == BACKSLASH then
      if |s| < 2 || (s[1] != QUOTE && s[1] != BACKSLASH) then Err(InvalidEscape)
      else Prefixed([s[1]], 2, ReadQuoted(s[2..]))
    else if s[0] == QUOTE then Ok(Read("", 1))
    else if Control(s[0]) then Err(ControlInQuoted)
    else if NonAscii(s[0]) then Err(NonAsciiInQuoted)
    else Prefixed([s[0]], 1, ReadQuoted(s[1..]))
  }

  function Prefixed(text: string, taken: nat, r: Result<Read, Fault>): Result<Read, Fault> {
    match r
    case Ok(x) => Ok(Read(text + x.value, taken + x.taken))
    case Err(e) => Err(e)
  }

  lemma PrefixedTwice(a: string, m: nat, b: string, n: nat, r: Result<Read, Fault>)
    ensures Prefixed(a, m, Prefixed(b, n, r)) == Prefixed(a + b, m + n, r)
    ensures Prefixed("", 0, r) == r
  {
    if r.Ok? {
      assert a + (b + r.value.value) == (a + b) + r.value.value;
      assert "" + r.value.value == r.value.value;
    }
  }

  function Further(taken: nat, r: Result<nat, Fault>): Result<nat, Fault> {
    match r
    case Ok(n) => Ok(taken + n)
    case Err(e) => Err(e)
  }

  /** A FETCH section from `[` through its matching `]`, with `depth` brackets already open. */
  function SkipBracket(s: string, depth: int): (r: Result<nat, Fault>)
    ensures r.Ok? ==> 0 < r.value <= |s| && s[r.value - 1] == ']'
    decreases |s|
  {
    if s == [] then Err(UnterminatedSection)
    else if s[0] == QUOTE then
      match ReadQuoted(s[1..])
      case Err(e) => Err(e)
      case Ok(q) => Further(1 + q.taken, SkipBracket(s[1 + q.taken..], depth))
    else if s[0] == '[' then Further(1, SkipBracket(s[1..], depth + 1))
    else if s[0] == ']' then
      if depth == 1 then Ok(1) else Further(1, SkipBracket(s[1..], depth - 1))
    else if Control(s[0]) || NonAscii(s[0]) then Err(InvalidInSection)
    else Further(1, SkipBracket(s[1..], depth))
  }

  /** The length of the atom at the front of the text; sections belong to the atom. */
  function ReadAtom(s: string): (r: Result<nat, Fault>)
    ensures r.Ok? ==> r.value <= |s|
    decreases |s|
  {
    if s == [] then Ok(0)
    else if s[0] == '[' then
      match SkipBracket(s, 0)
      case Err(e) => Err(e)
      case Ok(n) => Further(n, ReadAtom(s[n..]))
    else if AtomStop(s[0]) then Ok(0)
    else if Control(s[0]) then Err(ControlInAtom)
    else if NonAscii(s[0]) then Err(NonAsciiInAtom)
    else Further(1, ReadAtom(s[1..]))
  }

  /** The open lists, innermost last. The first is the command itself. */
  type Stack = s: seq<seq<Token>> | |s| > 0 witness [[]]

  function Push(stack: Stack, t: Token): Stack {
    stack[..|stack|-1] + [stack[|stack|-1] + [t]]
  }

  function TokenizeLine(s: string, stack: Stack): Result<Stack, Fault>
    decreases |s|
  {
    if s == [] then Ok(stack)
    else if s[0] == ' ' then TokenizeLine(s[1..], stack)
    else if s[0] == '(' then TokenizeLine(s[1..], stack + [[]])
    else if s[0] == ')' then
      if |stack| == 1 then Err(Unbalanced)
      else TokenizeLine(s[1..], Push(stack[..|stack|-1], List(stack[|stack|-1])))
    else if s[0] == QUOTE then
      match ReadQuoted(s[1..])
      case Err(e) => Err(e)
      case Ok(q) => TokenizeLine(s[1 + q.taken..], Push(stack, Quoted(q.value)))
    else if s[0] == '{' then Err(LiteralNotLast)
    else if Control(s[0]) then Err(ControlInCommand)
    else
      match ReadAtom(s)
      case Err(e) => Err(e)
      case Ok(n) =>
        if n == 0 then Err(ExpectedAtom)
        else TokenizeLine(s[n..], Push(stack, Atom(s[..n])))
  }

  function TokenizeFrom(pieces: seq<Piece>, stack: Stack): Result<Stack, Fault> {
    if pieces == [] then Ok(stack)
    else
      match pieces[0]
      case Lit(data) => TokenizeFrom(pieces[1..], Push(stack, Literal(data)))
      case Line(text) =>
        match TokenizeLine(text, stack)
        case Err(e) => Err(e)
        case Ok(next) => TokenizeFrom(pieces[1..], next)
  }

  function Tokenize(pieces: seq<Piece>): Result<seq<Token>, Fault> {
    match TokenizeFrom(pieces, [[]])
    case Err(e) => Err(e)
    case Ok(stack) => if |stack| != 1 then Err(Unbalanced) else Ok(stack[0])
  }

  // ----- the same, from a position in a line ----------------------------------------------------------

  function QuotedAt(line: string, i: nat): Result<Read, Fault>
    requires i <= |line|
  {
    ReadQuoted(line[i..])
  }

  lemma QuotedStep(line: string, i: nat)
    requires i < |line|
    ensures QuotedAt(line, i) ==
            if line[i] == BACKSLASH then
              if i + 1 >= |line| || (line[i+1] != QUOTE && line[i+1] != BACKSLASH) then Err(InvalidEscape)
              else Prefixed([line[i+1]], 2, QuotedAt(line, i + 2))
            else if line[i] == QUOTE then Ok(Read("", 1))
            else if Control(line[i]) then Err(ControlInQuoted)
            else if NonAscii(line[i]) then Err(NonAsciiInQuoted)
            else Prefixed([line[i]], 1, QuotedAt(line, i + 1))
  {
    var s := line[i..];
    assert s[1..] == line[i+1..];
    if i + 1 < |line| {
      assert s[2..] == line[i+2..];
    }
  }

  /** The position after the matching `]`, for a section that continues at `i`. */
  function BracketEnd(line: string, i: nat, depth: int): Result<nat, Fault>
    requires i <= |line|
  {
    Further(i, SkipBracket(line[i..], depth))
  }

  lemma BracketQuoteStep(line: string, i: nat, depth: int)
    requires i < |line| && line[i] == QUOTE
    ensures match QuotedAt(line, i + 1)
            case Err(e) => BracketEnd(line, i, depth) == Err(e)
            case Ok(q) =>
              && i + 1 + q.taken <= |line|
              && BracketEnd(line, i, depth) == BracketEnd(line, i + 1 + q.taken, depth)
  {
    var s := line[i..];
    assert s[1..] == line[i+1..];
    if QuotedAt(line, i + 1).Ok? {
      var n := QuotedAt(line, i + 1).value.taken;
      assert s[1 + n..] == line[i + 1 + n..];
    }
  }

  lemma BracketStep(line: string, i: nat, depth: int)
    requires i < |line| && line[i] != QUOTE
    ensures BracketEnd(line, i, depth) ==
            if line[i] == ']' && depth == 1 then Ok(i + 1)
            else if line[i] != '[' && line[i] != ']' && (Control(line[i]) || NonAscii(line[i]))
                then Err(InvalidInSection)
            else BracketEnd(line, i + 1, if line[i] == '[' then depth + 1 else if line[i] == ']' then depth - 1
                else depth)
  {
    assert line[i..][1..] == line[i+1..];
  }

  function AtomAt(line: string, i: nat): Result<nat, Fault>
    requires i <= |line|
  {
    ReadAtom(line[i..])
  }

  lemma AtomStep(line: string, i: nat)
    requires i < |line|
    ensures BracketEnd(line, i, 0).Ok? ==> i <= BracketEnd(line, i, 0).value <= |line|
    ensures AtomAt(line, i) ==
            if line[i] == '[' then
              match BracketEnd(line, i, 0)
              case Err(e) => Err(e)
              case Ok(n) => Further(n - i, AtomAt(line, n))
            else if AtomStop(line[i]) then Ok(0)
            else if Control(line[i]) then Err(ControlInAtom)
            else if NonAscii(line[i]) then Err(NonAsciiInAtom)
            else Further(1, AtomAt(line, i + 1))
  {
    var s := line[i..];
    assert s[1..] == line[i+1..];
    if SkipBracket(s, 0).Ok? {
      var n := SkipBracket(s, 0).value;
      assert s[n..] == line[i + n..];
    }
  }

  /** A result that counts from `i`, as a position. */
  function From(i: nat, r: Result<nat, Fault>): Result<nat, Fault> {
    Further(i, r)
  }

  lemma QuotedEnds(line: string)
    ensures QuotedAt(line, |line|) == Err(UnterminatedQuoted)
    ensures forall out, n: nat, e :: Prefixed(out, n, Err(e)) == Err(e)
    ensures forall out, n: nat :: Prefixed(out, n, Ok(Read("", 1))) == Ok(Read(out, n + 1))
  {
    forall out, n: nat ensures Prefixed(out, n, Ok(Read("", 1))) == Ok(Read(out, n + 1)) {
      assert out + "" == out;
    }
  }

  lemma BracketForward(line: string, i: nat)
    requires i < |line| && line[i] == '['
    ensures BracketEnd(line, i, 0).Ok? ==> i < BracketEnd(line, i, 0).value
  {
    hide SkipBracket;
    BracketStep(line, i, 0);
    assert BracketEnd(line, i + 1, 1).Ok? ==> i + 1 <= BracketEnd(line, i + 1, 1).value;
  }

  lemma BracketEnds(line: string)
    ensures forall d :: BracketEnd(line, |line|, d) == Err(UnterminatedSection)
  {
  }

  lemma LineEnds(line: string)
    ensures forall s: Stack :: LineFrom(line, 0, s) == TokenizeLine(line, s)
    ensures forall s: Stack :: LineFrom(line, |line|, s) == Ok(s)
  {
    assert line[0..] == line;
  }

  lemma AtomEnds(line: string)
    ensures AtomAt(line, |line|) == Ok(0)
  {
  }

  lemma FromFurther(i: nat, n: nat, r: Result<nat, Fault>)
    ensures From(i, Further(n, r)) == From(i + n, r)
  {
  }

  // ----- the loops ----------------------------------------------------------------------------------

  /** `_read_quoted`: the value and the number of characters through the closing quote. */
  method ReadQuotedAt(line: string, start: nat) returns (r: Result<Read, Fault>)
    requires start <= |line|
    ensures r == QuotedAt(line, start)
  {
    hide QuotedAt, Prefixed;
    var out, i := "", start;
    PrefixedTwice("", 0, "", 0, QuotedAt(line, start));
    QuotedEnds(line);
    while i < |line|
      invariant start <= i <= |line|
      invariant QuotedAt(line, start) == Prefixed(out, i - start, QuotedAt(line, i))
    {
      var ch := line[i];
      QuotedStep(line, i);
      if ch == BACKSLASH {
        if i + 1 >= |line| || (line[i+1] != QUOTE && line[i+1] != BACKSLASH) {
          return Err(InvalidEscape);
        }
        PrefixedTwice(out, i - start, [line[i+1]], 2, QuotedAt(line, i + 2));
        out := out + [line[i+1]];
        i := i + 2;
        continue;
      }
      if ch == QUOTE {
        assert out + "" == out;
        return Ok(Read(out, i + 1 - start));
      }
      if Control(ch) {
        return Err(ControlInQuoted);
      }
      if NonAscii(ch) {
        return Err(NonAsciiInQuoted);
      }
      PrefixedTwice(out, i - start, [ch], 1, QuotedAt(line, i + 1));
      out := out + [ch];
      i := i + 1;
    }
    r := Err(UnterminatedQuoted);
  }

  /** `_skip_bracket`: the position after the matching `]`. */
  method SkipBracketAt(line: string, start: nat) returns (r: Result<nat, Fault>)
    requires start <= |line|
    ensures r == BracketEnd(line, start, 0)
  {
    hide BracketEnd, QuotedAt;
    var depth, i := 0, start;
    BracketEnds(line);
    while i < |line|
      invariant start <= i <= |line|
      invariant BracketEnd(line, start, 0) == BracketEnd(line, i, depth)
      decreases |line| - i
    {
      if line[i] == QUOTE {
        BracketQuoteStep(line, i, depth);
        var q := ReadQuotedAt(line, i + 1);
        if q.Err? {
          return Err(q.error);
        }
        i := i + 1 + q.value.taken;
      } else {
        BracketStep(line, i, depth);
        if line[i] == '[' {
          depth := depth + 1;
        } else if line[i] == ']' {
          depth := depth - 1;
          if depth == 0 {
            return Ok(i + 1);
          }
        } else if Control(line[i]) || NonAscii(line[i]) {
          return Err(InvalidInSection);
        }
        i := i + 1;
      }
    }
    r := Err(UnterminatedSection);
  }

  /** `_read_atom`: the position after the atom, which must not be empty. */
  method ReadAtomAt(line: string, start: nat) returns (r: Result<nat, Fault>)
    requires start <= |line|
    ensures r == if AtomAt(line, start) == Ok(0) then Err(ExpectedAtom) else From(start, AtomAt(line, start))
  {
    hide AtomAt, BracketEnd;
    var i := start;
    AtomEnds(line);
    while i < |line|
      invariant start <= i <= |line|
      invariant From(start, AtomAt(line, start)) == From(i, AtomAt(line, i))
      decreases |line| - i
    {
      var ch := line[i];
      AtomStep(line, i);
      if ch == '[' {
        BracketForward(line, i);
        var b := SkipBracketAt(line, i);
        if b.Err? {
          return Err(b.error);
        }
        FromFurther(i, b.value - i, AtomAt(line, b.value));
        i := b.value;
        continue;
      }
      if AtomStop(ch) {
        break;
      }
      if Control(ch) {
        return Err(ControlInAtom);
      }
      if NonAscii(ch) {
        return Err(NonAsciiInAtom);
      }
      FromFurther(i, 1, AtomAt(line, i + 1));
      i := i + 1;
    }
    if i == start {
      return Err(ExpectedAtom);
    }
    r := Ok(i);
  }

  /** The rest of a line from position `i`. */
  function LineFrom(line: string, i: nat, stack: Stack): Result<Stack, Fault>
    requires i <= |line|
  {
    TokenizeLine(line[i..], stack)
  }

  lemma TokenStep(line: string, i: nat, stack: Stack)
    requires i < |line|
    ensures AtomAt(line, i).Ok? ==> i + AtomAt(line, i).value <= |line|
    ensures QuotedAt(line, i + 1).Ok? ==> i + 1 + QuotedAt(line, i + 1).value.taken <= |line|
    ensures LineFrom(line, i, stack) ==
            if line[i] == ' ' then LineFrom(line, i + 1, stack)
            else if line[i] == '(' then LineFrom(line, i + 1, stack + [[]])
            else if line[i] == ')' then
              if |stack| == 1 then Err(Unbalanced)
              else LineFrom(line, i + 1, Push(stack[..|stack|-1], List(stack[|stack|-1])))
            else if line[i] == QUOTE then
              (match QuotedAt(line, i + 1)
               case Err(e) => Err(e)
               case Ok(q) => LineFrom(line, i + 1 + q.taken, Push(stack, Quoted(q.value))))
            else if line[i] == '{' then Err(LiteralNotLast)
            else if Control(line[i]) then Err(ControlInCommand)
            else
              match AtomAt(line, i)
              case Err(e) => Err(e)
              case Ok(n) => if n == 0 then Err(ExpectedAtom) else LineFrom(line, i + n, Push(stack, Atom(line[i..i+n])))
  {
    hide ReadQuoted, ReadAtom, Push, Control;
    var s := line[i..];
    Tails(line, i, 1);
    if s[0] == QUOTE && ReadQuoted(s[1..]).Ok? {
      Tails(line, i, 1 + ReadQuoted(s[1..]).value.taken);
    }
    if ReadAtom(s).Ok? {
      Tails(line, i, ReadAtom(s).value);
    }
  }

  lemma Tails(line: string, i: nat, n: nat)
    requires i + n <= |line|
    ensures line[i..][n..] == line[i+n..] && line[i..][..n] == line[i..i+n]
  {
  }

  /** `_tokenize_line`: consumes a line, pushing and closing lists on the stack. */
  method TokenizeLineInto(line: string, before: Stack) returns (r: Result<Stack, Fault>)
    ensures r == TokenizeLine(line, before)
  {
    hide LineFrom, TokenizeLine, QuotedAt, AtomAt, Push;
    var stack: Stack, i: nat := before, 0;
    LineEnds(line);
    while i < |line|
      invariant i <= |line|
      invariant TokenizeLine(line, before) == LineFrom(line, i, stack)
      decreases |line| - i
    {
      var ch := line[i];
      TokenStep(line, i, stack);
      if ch == ' ' {
        i := i + 1;
      } else if ch == '(' {
        stack := stack + [[]];
        i := i + 1;
      } else if ch == ')' {
        if |stack| == 1 {
          return Err(Unbalanced);
        }
        var items := stack[|stack|-1];
        stack := Push(stack[..|stack|-1], List(items));
        i := i + 1;
      } else if ch == QUOTE {
        var q := ReadQuotedAt(line, i + 1);
        if q.Err? {
          return Err(q.error);
        }
        stack := Push(stack, Quoted(q.value.value));
        i := i + 1 + q.value.taken;
      } else if ch == '{' {
        return Err(LiteralNotLast);
      } else if Control(ch) {
        return Err(ControlInCommand);
      } else {
        var a := ReadAtomAt(line, i);
        if a.Err? {
          return Err(a.error);
        }
        stack := Push(stack, Atom(line[i..a.value]));
        i := a.value;
      }
    }
    r := Ok(stack);
  }

  /** `_tokenize_pieces`. */
  method TokenizePieces(pieces: seq<Piece>) returns (r: Result<seq<Token>, Fault>)
    ensures r == Tokenize(pieces)
  {
    var stack: Stack := [[]];
    assert pieces[0..] == pieces;
    for i := 0 to |pieces|
      invariant TokenizeFrom(pieces, [[]]) == TokenizeFrom(pieces[i..], stack)
    {
      assert pieces[i..][1..] == pieces[i+1..];
      match pieces[i]
      case Lit(data) => stack := Push(stack, Literal(data));
      case Line(text) =>
        var next := TokenizeLineInto(text, stack);
        if next.Err? {
          return Err(next.error);
        }
        stack := next.value;
    }
    if |stack| != 1 {
      return Err(Unbalanced);
    }
    r := Ok(stack[0]);
  }
}
