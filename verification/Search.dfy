/** SEARCH: the prefix form of criteria, and their evaluation. */
module Search {
  import opened Types
  import opened Decimal
  import opened Tokenizer
  import opened SequenceSets
  import opened Parser

  /** Where a TEXT criterion looks. From, to and subject are known from the listing; the others need
      the message content. */
  datatype Area = From | To | Subject | Cc | Bcc | Body | Anywhere

  datatype When = Earlier | On | Since

  datatype Crit =
    | All | Nothing
    | HasFlag(flag: Flag, wanted: bool)
    | Keyword(tag: string, wanted: bool)
    | UidIn(ranges: seq<Range>)
    | SeqIn(ranges: seq<Range>)
    | Dated(sent: bool, at: When, day: int)
    | Size(larger: bool, n: nat)
    | Contains(area: Area, needle: string)
    | Header(field: string, needle: string)
    | Not(c: Crit)
    | Or(a: Crit, b: Crit)
    | And(cs: seq<Crit>)

  datatype Refusal =
    | Incomplete | EmptyGroup | NotAnAtom | Unsupported | ExpectedString | BadCharset
    | BadSet | InvalidDate | NeedsNumber | NoKeys | CharsetNeedsValue

  /** Library calls: UTF-8 decoding, Unicode case folding, and reading a date. */
  datatype Lib = Lib(decode: string -> Option<string>, fold: string -> string, readDate: string -> Option<int>)

  // ----- search keys --------------------------------------------------------------------------------

  datatype Key =
    | KAll | KNothing | KFlag(flag: Flag, wanted: bool) | KKeyword(wanted: bool) | KUid | KNot | KOr
    | KDate(sent: bool, at: When) | KSize(larger: bool) | KText(area: Area) | KHeader | KSet | KUnknown

  predicate SetChar(c: char) { IsDigit(c) || c == '*' || c == ':' || c == ',' }

  predicate LooksLikeSet(s: string) {
    s != "" && (forall i :: 0 <= i < |s| ==> SetChar(s[i])) && (IsDigit(s[0]) || s[0] == '*')
  }

  const WORD_KEYS: map<string, Key> := map[
    "ALL" := KAll, "OLD" := KAll, "NEW" := KNothing, "RECENT" := KNothing,
    "KEYWORD" := KKeyword(true), "UNKEYWORD" := KKeyword(false), "UID" := KUid, "NOT" := KNot, "OR" := KOr,
    "LARGER" := KSize(true), "SMALLER" := KSize(false), "HEADER" := KHeader
  ]

  const FLAG_KEYS: map<string, Key> := map[
    "ANSWERED" := KFlag(Answered, true), "UNANSWERED" := KFlag(Answered, false),
    "DELETED" := KFlag(Deleted, true), "UNDELETED" := KFlag(Deleted, false),
    "DRAFT" := KFlag(Draft, true), "UNDRAFT" := KFlag(Draft, false),
    "FLAGGED" := KFlag(Flagged, true), "UNFLAGGED" := KFlag(Flagged, false),
    "SEEN" := KFlag(Seen, true), "UNSEEN" := KFlag(Seen, false)
  ]

  const DATE_KEYS: map<string, Key> := map[
    "BEFORE" := KDate(false, Earlier), "ON" := KDate(false, On), "SINCE" := KDate(false, Since),
    "SENTBEFORE" := KDate(true, Earlier), "SENTON" := KDate(true, On), "SENTSINCE" := KDate(true, Since)
  ]

  const TEXT_KEYS: map<string, Key> := map[
    "FROM" := KText(From), "TO" := KText(To), "SUBJECT" := KText(Subject),
    "CC" := KText(Cc), "BCC" := KText(Bcc), "BODY" := KText(Body), "TEXT" := KText(Anywhere)
  ]

  /** The tables have no name in common, so their order does not matter. */
  function KeyOf(name: string): Key {
    if name in FLAG_KEYS then FLAG_KEYS[name]
    else if name in WORD_KEYS then WORD_KEYS[name]
    else if name in DATE_KEYS then DATE_KEYS[name]
    else if name in TEXT_KEYS then TEXT_KEYS[name]
    else if LooksLikeSet(name) then KSet
    else KUnknown
  }

  // ----- parsing --------------------------------------------------------------------------------------

  function TextOf(lib: Lib, t: Token): Result<string, Refusal> {
    if t.List? then Err(ExpectedString)
    else match lib.decode(t.value) case None => Err(BadCharset) case Some(s) => Ok(s)
  }

  function SetOf(t: Token): Result<seq<Range>, Refusal> {
    if !t.Atom? then Err(BadSet)
    else match ParseSequenceSet(t.value) case Err(_) => Err(BadSet) case Ok(r) => Ok(r)
  }

  function DateOf(lib: Lib, t: Token): Result<int, Refusal> {
    match TextOf(lib, t)
    case Err(e) => Err(e)
    case Ok(s) => match lib.readDate(s) case None => Err(InvalidDate) case Some(d) => Ok(d)
  }

  function NumberOf(t: Token): Result<nat, Refusal> {
    if !t.Atom? || t.value == "" || !AllDigits(t.value) then Err(NeedsNumber) else Ok(ParseDigits(t.value))
  }

  /** A criterion and the tokens after it. */
  datatype Parsed = Parsed(crit: Crit, rest: seq<Token>)

  function Leaf<T>(r: Result<T, Refusal>, f: T -> Crit, rest: seq<Token>): Result<Parsed, Refusal> {
    match r case Err(e) => Err(e) case Ok(x) => Ok(Parsed(f(x), rest))
  }

  /** A key with one argument token, or none; `ts` are the tokens after the key. */
  function ParseLeaf(lib: Lib, key: Key, tok: Token, ts: seq<Token>): (r: Result<Parsed, Refusal>)
    ensures r.Ok? ==> |r.value.rest| <= |ts| && r.value.rest == ts[|ts| - |r.value.rest|..]
  {
    match key
    case KAll => Ok(Parsed(All, ts))
    case KNothing => Ok(Parsed(Nothing, ts))
    case KFlag(f, wanted) => Ok(Parsed(HasFlag(f, wanted), ts))
    case KSet => Leaf(SetOf(tok), r => SeqIn(r), ts)
    case KUnknown => Err(Unsupported)
    case KNot => Err(Unsupported)
    case KOr => Err(Unsupported)
    case KHeader =>
      if |ts| == 0 then Err(Incomplete)
      else
        (match TextOf(lib, ts[0])
         case Err(e) => Err(e)
         case Ok(field) =>
           if |ts| == 1 then Err(Incomplete)
           else Leaf(TextOf(lib, ts[1]), s => Header(field, lib.fold(s)), ts[2..]))
    case KKeyword(wanted) =>
      if |ts| == 0 then Err(Incomplete) else Leaf(TextOf(lib, ts[0]), s => Keyword(s, wanted), ts[1..])
    case KUid =>
      if |ts| == 0 then Err(Incomplete) else Leaf(SetOf(ts[0]), r => UidIn(r), ts[1..])
    case KDate(sent, at) =>
      if |ts| == 0 then Err(Incomplete) else Leaf(DateOf(lib, ts[0]), d => Dated(sent, at, d), ts[1..])
    case KSize(larger) =>
      if |ts| == 0 then Err(Incomplete) else Leaf(NumberOf(ts[0]), n => Size(larger, n), ts[1..])
    case KText(area) =>
      if |ts| == 0 then Err(Incomplete) else Leaf(TextOf(lib, ts[0]), s => Contains(area, lib.fold(s)), ts[1..])
  }

  function ParseKey(lib: Lib, ts: seq<Token>): (r: Result<Parsed, Refusal>)
    ensures r.Ok? ==> |r.value.rest| < |ts| && r.value.rest == ts[|ts| - |r.value.rest|..]
    decreases ts, 0
  {
    if ts == [] then Err(Incomplete)
    else
      match ts[0]
      case List(items) =>
        (match ParseKeys(lib, items)
         case Err(e) => Err(e)
         case Ok(cs) => if cs == [] then Err(EmptyGroup) else Ok(Parsed(And(cs), ts[1..])))
      case Quoted(_) => Err(NotAnAtom)
      case Literal(_) => Err(NotAnAtom)
      case Atom(value) =>
        var key := KeyOf(Upper(value));
        if key.KNot? then
          match ParseKey(lib, ts[1..])
          case Err(e) => Err(e)
          case Ok(x) => Ok(Parsed(Not(x.crit), x.rest))
        else if key.KOr? then
          match ParseKey(lib, ts[1..])
          case Err(e) => Err(e)
          case Ok(x) =>
            match ParseKey(lib, x.rest)
            case Err(e) => Err(e)
            case Ok(y) => Ok(Parsed(Or(x.crit, y.crit), y.rest))
        else ParseLeaf(lib, key, ts[0], ts[1..])
  }

  function ParseKeys(lib: Lib, ts: seq<Token>): Result<seq<Crit>, Refusal>
    decreases ts, 1
  {
    if ts == [] then Ok([])
    else
      match ParseKey(lib, ts)
      case Err(e) => Err(e)
      case Ok(x) =>
        match ParseKeys(lib, x.rest)
        case Err(e) => Err(e)
        case Ok(more) => Ok([x.crit] + more)
  }

  /** `parse_search`: an optional CHARSET, then one or more keys. */
  function ParseSearch(lib: Lib, tokens: seq<Token>): Result<Crit, Refusal> {
    if tokens != [] && tokens[0].Atom? && Upper(tokens[0].value) == "CHARSET" then
      if |tokens| < 2 then Err(CharsetNeedsValue)
      else
        match TextOf(lib, tokens[1])
        case Err(e) => Err(e)
        case Ok(name) =>
          if Upper(name) != "UTF-8" && Upper(name) != "US-ASCII" then Err(BadCharset) else ParseAll(lib, tokens[2..])
    else ParseAll(lib, tokens)
  }

  function ParseAll(lib: Lib, ts: seq<Token>): Result<Crit, Refusal> {
    if ts == [] then Err(NoKeys)
    else match ParseKeys(lib, ts) case Err(e) => Err(e) case Ok(cs) => Ok(And(cs))
  }

  // ----- the cursor --------------------------------------------------------------------------------------

  class KeyParser {
    const lib: Lib
    const items: seq<Token>
    var i: nat

    ghost predicate Valid()
      reads this
    {
      i <= |items|
    }

    constructor (lib: Lib, items: seq<Token>)
      ensures this.lib == lib && this.items == items && i == 0
    {
      this.lib, this.items, i := lib, items, 0;
    }

    method Next() returns (r: Result<Token, Refusal>)
      requires Valid()
      modifies this`i
      ensures Valid()
      ensures if old(i) == |items| then r == Err(Incomplete) && i == old(i)
              else r == Ok(items[old(i)]) && i == old(i) + 1
    {
      if i >= |items| {
        return Err(Incomplete);
      }
      r := Ok(items[i]);
      i := i + 1;
    }

    /** One key and, recursively, its operands. */
    method ReadKey() returns (r: Result<Crit, Refusal>)
      requires Valid()
      modifies this`i
      ensures Valid()
      ensures match ParseKey(lib, items[old(i)..])
              case Err(e) => r == Err(e)
              case Ok(x) => r == Ok(x.crit) && items[i..] == x.rest && old(i) < i
      decreases items[i..], 0
    {
      hide ParseLeaf, KeyOf, Upper;
      ghost var ts := items[i..];
      var tok := Next();
      if tok.Err? {
        return Err(tok.error);
      }
      assert ts[0] == tok.value && items[i..] == ts[1..];
      match tok.value
      case List(inner) =>
        var sub := new KeyParser(lib, inner);
        assert inner[0..] == inner;
        var cs := sub.ReadAll();
        if cs.Err? {
          return Err(cs.error);
        }
        if cs.value == [] {
          return Err(EmptyGroup);
        }
        return Ok(And(cs.value));
      case Quoted(_) => return Err(NotAnAtom);
      case Literal(_) => return Err(NotAnAtom);
      case Atom(value) =>
        var key := KeyOf(Upper(value));
        if key.KNot? {
          var c := ReadKey();
          if c.Err? {
            return Err(c.error);
          }
          return Ok(Not(c.value));
        }
        if key.KOr? {
          var a := ReadKey();
          if a.Err? {
            return Err(a.error);
          }
          var b := ReadKey();
          if b.Err? {
            return Err(b.error);
          }
          return Ok(Or(a.value, b.value));
        }
        r := ReadLeaf(key, tok.value);
    }

    method ReadLeaf(key: Key, tok: Token) returns (r: Result<Crit, Refusal>)
      requires Valid()
      modifies this`i
      ensures Valid()
      ensures match ParseLeaf(lib, key, tok, items[old(i)..])
              case Err(e) => r == Err(e)
              case Ok(x) => r == Ok(x.crit) && items[i..] == x.rest && old(i) <= i
    {
      var ts := items[i..];
      var x := ParseLeaf(lib, key, tok, ts);
      if x.Err? {
        return Err(x.error);
      }
      assert items[|items| - |x.value.rest|..] == x.value.rest;
      i := |items| - |x.value.rest|;
      r := Ok(x.value.crit);
    }

    /** Reads keys until no token is left. */
    method ReadAll() returns (r: Result<seq<Crit>, Refusal>)
      requires Valid()
      modifies this`i
      ensures Valid() && r == ParseKeys(lib, items[old(i)..])
      decreases items[i..], 1
    {
      var out: seq<Crit> := [];
      ghost var ts := items[i..];
      OntoStep([], All, ParseKeys(lib, ts));
      while i < |items|
        invariant Valid() && old(i) <= i
        invariant ParseKeys(lib, ts) == Onto(out, ParseKeys(lib, items[i..]))
        decreases |items| - i
      {
        ghost var here := items[i..];
        assert i > old(i) ==> here == ts[i - old(i)..];
        assert i == old(i) ==> here == ts;
        var c := ReadKey();
        if c.Err? {
          return Err(c.error);
        }
        OntoStep(out, c.value, ParseKeys(lib, items[i..]));
        out := out + [c.value];
      }
      assert items[i..] == [];
      assert out + [] == out;
      r := Ok(out);
    }
  }

  function Onto(out: seq<Crit>, r: Result<seq<Crit>, Refusal>): Result<seq<Crit>, Refusal> {
    match r case Err(e) => Err(e) case Ok(cs) => Ok(out + cs)
  }

  lemma OntoStep(out: seq<Crit>, c: Crit, r: Result<seq<Crit>, Refusal>)
    ensures Onto(out, Onto([c], r)) == Onto(out + [c], r)
    ensures Onto([], r) == r
  {
    if r.Ok? {
      assert out + ([c] + r.value) == (out + [c]) + r.value;
      assert [] + r.value == r.value;
    }
  }
}
