/** Printing criteria in prefix form and parsing them back; short-circuit evaluation and its meaning. */
module SearchMeaning {
  import opened Types
  import opened Decimal
  import opened Tokenizer
  import opened SequenceSets
  import opened Parser
  import opened Search

  // ----- canonical criteria ----------------------------------------------------------------------------

  function NameOf(k: Key): string {
    match k
    case KAll => "ALL"
    case KNothing => "NEW"
    case KFlag(Answered, wanted) => if wanted then "ANSWERED" else "UNANSWERED"
    case KFlag(Deleted, wanted) => if wanted then "DELETED" else "UNDELETED"
    case KFlag(Draft, wanted) => if wanted then "DRAFT" else "UNDRAFT"
    case KFlag(Flagged, wanted) => if wanted then "FLAGGED" else "UNFLAGGED"
    case KFlag(Seen, wanted) => if wanted then "SEEN" else "UNSEEN"
    case KKeyword(wanted) => if wanted then "KEYWORD" else "UNKEYWORD"
    case KUid => "UID"
    case KNot => "NOT"
    case KOr => "OR"
    case KDate(sent, Earlier) => if sent then "SENTBEFORE" else "BEFORE"
    case KDate(sent, On) => if sent then "SENTON" else "ON"
    case KDate(sent, Since) => if sent then "SENTSINCE" else "SINCE"
    case KSize(larger) => if larger then "LARGER" else "SMALLER"
    case KText(From) => "FROM"
    case KText(To) => "TO"
    case KText(Subject) => "SUBJECT"
    case KText(Cc) => "CC"
    case KText(Bcc) => "BCC"
    case KText(Body) => "BODY"
    case KText(Anywhere) => "TEXT"
    case KHeader => "HEADER"
    case KSet => ""
    case KUnknown => ""
  }

  predicate UpperCase(s: string) {
    forall i :: 0 <= i < |s| ==> !('a' <= s[i] <= 'z')
  }

  lemma UpperKeeps(s: string)
    requires UpperCase(s)
    ensures Upper(s) == s
  {
  }

  lemma NamesReadBack(k: Key)
    requires !k.KSet? && !k.KUnknown?
    ensures KeyOf(Upper(NameOf(k))) == k
  {
    NameIsKnown(k);
    NameIsUpperCase(k);
    hide *;
    UpperKeeps(NameOf(k));
  }

  lemma NameIsUpperCase(k: Key)
    ensures UpperCase(NameOf(k))
  {
    match k
    case KFlag(f, wanted) => FlagIsUpperCase(f, wanted);
    case KDate(sent, at) => DateIsUpperCase(sent, at);
    case KText(area) => AreaIsUpperCase(area);
    case _ =>
  }

  lemma FlagIsUpperCase(f: Flag, wanted: bool)
    ensures UpperCase(NameOf(KFlag(f, wanted)))
  {
  }

  lemma DateIsUpperCase(sent: bool, at: When)
    ensures UpperCase(NameOf(KDate(sent, at)))
  {
  }

  lemma AreaIsUpperCase(area: Area)
    ensures UpperCase(NameOf(KText(area)))
  {
  }

  lemma NameIsKnown(k: Key)
    requires !k.KSet? && !k.KUnknown?
    ensures KeyOf(NameOf(k)) == k
  {
    match k
    case KFlag(f, wanted) => FlagIsKnown(f, wanted);
    case KDate(sent, at) => DateIsKnown(sent, at);
    case KText(area) => AreaIsKnown(area);
    case _ => WordIsKnown(k);
  }

  lemma FlagIsKnown(f: Flag, wanted: bool)
    ensures KeyOf(NameOf(KFlag(f, wanted))) == KFlag(f, wanted)
  {
    hide NameOf;
    if wanted { SetFlagIsKnown(f); } else { ClearFlagIsKnown(f); }
  }

  lemma SetFlagIsKnown(f: Flag)
    ensures var s := NameOf(KFlag(f, true)); s in FLAG_KEYS && FLAG_KEYS[s] == KFlag(f, true)
  {
  }

  lemma ClearFlagIsKnown(f: Flag)
    ensures var s := NameOf(KFlag(f, false)); s in FLAG_KEYS && FLAG_KEYS[s] == KFlag(f, false)
  {
  }

  lemma WordIsKnown(k: Key)
    requires k.KKeyword? || k.KSize? || k in {KAll, KNothing, KUid, KNot, KOr, KHeader}
    ensures KeyOf(NameOf(k)) == k
  {
    assert NameOf(k) in WORD_KEYS && WORD_KEYS[NameOf(k)] == k;
    NoFlagKey(NameOf(k));
  }

  lemma DateIsKnown(sent: bool, at: When)
    ensures KeyOf(NameOf(KDate(sent, at))) == KDate(sent, at)
  {
    var s := NameOf(KDate(sent, at));
    assert s in DATE_KEYS && DATE_KEYS[s] == KDate(sent, at);
    hide NameOf;
    NoFlagKey(s);
    NoWordKey(s);
  }

  lemma AreaIsKnown(area: Area)
    ensures KeyOf(NameOf(KText(area))) == KText(area)
  {
    var s := NameOf(KText(area));
    assert s in TEXT_KEYS && TEXT_KEYS[s] == KText(area);
    hide NameOf;
    NoFlagKey(s);
    NoWordKey(s);
    NoDateKey(s);
  }

  lemma NoFlagKey(s: string)
    requires s in WORD_KEYS || s in DATE_KEYS || s in TEXT_KEYS
    ensures s !in FLAG_KEYS
  {
    if s in WORD_KEYS {
      FlagNoWord(s);
    } else if s in DATE_KEYS {
      FlagNoDate(s);
    } else {
      FlagNoText(s);
    }
  }

  lemma FlagNoWord(s: string)
    ensures s in WORD_KEYS ==> s !in FLAG_KEYS
  {
  }

  lemma FlagNoDate(s: string)
    ensures s in DATE_KEYS ==> s !in FLAG_KEYS
  {
  }

  lemma FlagNoText(s: string)
    ensures s in TEXT_KEYS ==> s !in FLAG_KEYS
  {
  }

  lemma NoWordKey(s: string)
    requires s in DATE_KEYS || s in TEXT_KEYS
    ensures s !in WORD_KEYS
  {
  }

  lemma NoDateKey(s: string)
    requires s in TEXT_KEYS
    ensures s !in DATE_KEYS
  {
  }

  function ElemOf(r: Range): Elem {
    var lo, hi := if r.lo == STAR then Largest else N(r.lo), if r.hi == STAR then Largest else N(r.hi);
    if r.lo == r.hi then One(lo) else Span(lo, hi)
  }

  function ElemsOf(ranges: seq<Range>): (r: seq<Elem>)
    ensures |r| == |ranges|
  {
    seq(|ranges|, i requires 0 <= i < |ranges| => ElemOf(ranges[i]))
  }

  /** A set as the parser leaves it: at least one range, each from 1 upwards and in order. */
  predicate CanonicalSet(ranges: seq<Range>) {
    ranges != [] && forall i :: 0 <= i < |ranges| ==> 1 <= ranges[i].lo <= ranges[i].hi
  }

  function RangesText(ranges: seq<Range>): string {
    SetText(ElemsOf(ranges))
  }

  lemma RangesReadBack(ranges: seq<Range>)
    requires CanonicalSet(ranges)
    ensures ParseSequenceSet(RangesText(ranges)) == Ok(ranges) && WfSet(ElemsOf(ranges))
  {
    SetReadsBack(ElemsOf(ranges));
    hide ParseSequenceSet, SetText;
    assert RangesOf(ElemsOf(ranges)) == ranges;
  }

  lemma {:induction false} JoinChars(parts: seq<string>)
    requires parts != [] && forall i :: 0 <= i < |parts| ==> LooksLikeSet(parts[i])
    ensures LooksLikeSet(Join(parts, ','))
    decreases |parts|
  {
    if |parts| > 1 {
      JoinChars(parts[1..]);
      var s, t := parts[0], Join(parts[1..], ',');
      forall i | 0 <= i < |Join(parts, ',')| ensures SetChar(Join(parts, ',')[i]) {
        assert Join(parts, ',')[i] == if i < |s| then s[i] else if i == |s| then ',' else t[i - |s| - 1];
      }
    }
  }

  lemma NumLooks(x: Num)
    requires WfNum(x)
    ensures LooksLikeSet(NumText(x))
  {
    if x.N? {
      ParseUndoesDigits(x.value);
      hide Digits;
      var s := NumText(x);
      assert IsDigit(s[0]);
    }
  }

  lemma ElemLooks(e: Elem)
    requires WfElem(e)
    ensures LooksLikeSet(ElemText(e))
  {
    match e
    case One(n) => NumLooks(n);
    case Span(a, b) =>
      NumLooks(a);
      NumLooks(b);
      hide NumText;
      var s, t := NumText(a), NumText(b);
      forall i | 0 <= i < |ElemText(e)| ensures SetChar(ElemText(e)[i]) {
        assert ElemText(e)[i] == if i < |s| then s[i] else if i == |s| then ':' else t[i - |s| - 1];
      }
  }

  /** A written set is recognised as one: no key starts with a digit or a star. */
  lemma SetIsRecognised(ranges: seq<Range>)
    requires CanonicalSet(ranges)
    ensures KeyOf(Upper(RangesText(ranges))) == KSet
  {
    RangesReadBack(ranges);
    var elems := ElemsOf(ranges);
    forall i | 0 <= i < |elems| ensures LooksLikeSet(ElemTexts(elems)[i]) {
      ElemLooks(elems[i]);
    }
    JoinChars(ElemTexts(elems));
    var s := RangesText(ranges);
    NoKeyLooksLikeSet(s);
  }

  lemma NoKeyLooksLikeSet(s: string)
    requires LooksLikeSet(s)
    ensures KeyOf(Upper(s)) == KSet
  {
    hide Upper;
    forall i | 0 <= i < |s| ensures !('a' <= s[i] <= 'z') {
      assert SetChar(s[i]);
    }
    UpperKeeps(s);
    NamesAreNoSets(s);
  }

  lemma NamesAreNoSets(s: string)
    requires LooksLikeSet(s)
    ensures KeyOf(s) == KSet
  {
    var c := s[0];
    assert !('A' <= c <= 'Z');
    hide LooksLikeSet;
    NamesAreWords(s);
  }

  /** Every key starts with a letter. */
  lemma NamesAreWords(s: string)
    ensures s in FLAG_KEYS ==> s != "" && 'A' <= s[0] <= 'Z'
    ensures s in WORD_KEYS ==> s != "" && 'A' <= s[0] <= 'Z'
    ensures s in DATE_KEYS || s in TEXT_KEYS ==> s != "" && 'A' <= s[0] <= 'Z'
  {
  }

  predicate Decodes(lib: Lib, s: string) { lib.decode(s) == Some(s) }

  /** A criterion tree that has a prefix form: strings survive decoding and folding, dates can be shown,
      groups are not empty. */
  predicate Canonical(lib: Lib, show: int -> string, c: Crit)
    decreases c, 0
  {
    match c
    case All => true
    case Nothing => true
    case HasFlag(_, _) => true
    case Keyword(s, _) => Decodes(lib, s)
    case UidIn(ranges) => CanonicalSet(ranges)
    case SeqIn(ranges) => CanonicalSet(ranges)
    case Dated(_, _, d) => Decodes(lib, show(d)) && lib.readDate(show(d)) == Some(d)
    case Size(_, _) => true
    case Contains(_, s) => Decodes(lib, s) && lib.fold(s) == s
    case Header(f, s) => Decodes(lib, f) && Decodes(lib, s) && lib.fold(s) == s
    case Not(x) => Canonical(lib, show, x)
    case Or(a, b) => Canonical(lib, show, a) && Canonical(lib, show, b)
    case And(cs) => cs != [] && AllCanonical(lib, show, cs)
  }

  predicate AllCanonical(lib: Lib, show: int -> string, cs: seq<Crit>)
    decreases cs, 1
  {
    cs == [] || (Canonical(lib, show, cs[0]) && AllCanonical(lib, show, cs[1..]))
  }

  function Word(k: Key): Token { Atom(NameOf(k)) }

  /** The prefix form. */
  function Print(show: int -> string, c: Crit): (r: seq<Token>)
    ensures r != []
    decreases c, 0
  {
    match c
    case All => [Word(KAll)]
    case Nothing => [Word(KNothing)]
    case HasFlag(f, wanted) => [Word(KFlag(f, wanted))]
    case Keyword(s, wanted) => [Word(KKeyword(wanted)), Quoted(s)]
    case UidIn(ranges) => [Word(KUid), Atom(RangesText(ranges))]
    case SeqIn(ranges) => [Atom(RangesText(ranges))]
    case Dated(sent, at, d) => [Word(KDate(sent, at)), Quoted(show(d))]
    case Size(larger, n) => [Word(KSize(larger)), Atom(Digits(n))]
    case Contains(area, s) => [Word(KText(area)), Quoted(s)]
    case Header(f, s) => [Word(KHeader), Quoted(f), Quoted(s)]
    case Not(x) => [Word(KNot)] + Print(show, x)
    case Or(a, b) => [Word(KOr)] + (Print(show, a) + Print(show, b))
    case And(cs) => [List(PrintAll(show, cs))]
  }

  function PrintAll(show: int -> string, cs: seq<Crit>): (r: seq<Token>)
    decreases cs, 1
  {
    if cs == [] then [] else Print(show, cs[0]) + PrintAll(show, cs[1..])
  }

  // ----- parsing undoes printing ----------------------------------------------------------------------------

  lemma KeyStep(lib: Lib, value: string, ts: seq<Token>)
    requires !KeyOf(Upper(value)).KNot? && !KeyOf(Upper(value)).KOr?
    ensures ParseKey(lib, [Atom(value)] + ts) == ParseLeaf(lib, KeyOf(Upper(value)), Atom(value), ts)
  {
    hide KeyOf, Upper, ParseLeaf;
    assert ([Atom(value)] + ts)[1..] == ts;
  }

  lemma NotStep(lib: Lib, ts: seq<Token>)
    ensures ParseKey(lib, [Word(KNot)] + ts) ==
            match ParseKey(lib, ts) case Err(e) => Err(e) case Ok(x) => Ok(Parsed(Not(x.crit), x.rest))
  {
    NamesReadBack(KNot);
    hide KeyOf, Upper, ParseLeaf, NameOf;
    assert ([Word(KNot)] + ts)[1..] == ts;
  }

  lemma OrStep(lib: Lib, ts: seq<Token>, a: Crit, mid: seq<Token>, b: Crit, rest: seq<Token>)
    requires ParseKey(lib, ts) == Ok(Parsed(a, mid)) && ParseKey(lib, mid) == Ok(Parsed(b, rest))
    ensures ParseKey(lib, [Word(KOr)] + ts) == Ok(Parsed(Or(a, b), rest))
  {
    NamesReadBack(KOr);
    hide KeyOf, Upper, ParseLeaf, NameOf;
    assert ([Word(KOr)] + ts)[1..] == ts;
  }

  lemma GroupStep(lib: Lib, items: seq<Token>, cs: seq<Crit>, rest: seq<Token>)
    requires ParseKeys(lib, items) == Ok(cs) && cs != []
    ensures ParseKey(lib, [List(items)] + rest) == Ok(Parsed(And(cs), rest))
  {
    hide KeyOf, Upper, ParseLeaf;
    assert ([List(items)] + rest)[1..] == rest;
  }

  lemma LeafReadsBack(lib: Lib, show: int -> string, c: Crit, rest: seq<Token>)
    requires Canonical(lib, show, c) && !c.Not? && !c.Or? && !c.And?
    ensures ParseKey(lib, Print(show, c) + rest) == Ok(Parsed(c, rest))
  {
    if c.SeqIn? {
      SetReadsAsLeaf(lib, c.ranges, rest);
      hide ParseKey, RangesText, Canonical, ParseLeaf, KeyOf;
    } else {
      WordReadsAsLeaf(lib, show, c, rest);
    }
  }

  lemma SetReadsAsLeaf(lib: Lib, ranges: seq<Range>, rest: seq<Token>)
    requires CanonicalSet(ranges)
    ensures ParseKey(lib, [Atom(RangesText(ranges))] + rest) == Ok(Parsed(SeqIn(ranges), rest))
  {
    var text := RangesText(ranges);
    RangesReadBack(ranges);
    SetIsRecognised(ranges);
    SetLeaf(lib, text, ranges, rest);
    hide *;
    KeyStep(lib, text, rest);
  }

  lemma SetLeaf(lib: Lib, text: string, ranges: seq<Range>, ts: seq<Token>)
    requires ParseSequenceSet(text) == Ok(ranges)
    ensures ParseLeaf(lib, KSet, Atom(text), ts) == Ok(Parsed(SeqIn(ranges), ts))
  {
    hide ParseSequenceSet;
  }

  lemma LeafWritten(show: int -> string, c: Crit)
    requires !c.Not? && !c.Or? && !c.And? && !c.SeqIn?
    ensures Print(show, c)[0] == Atom(NameOf(KeyFor(c)))
    ensures !KeyFor(c).KSet? && !KeyFor(c).KUnknown? && !KeyFor(c).KNot? && !KeyFor(c).KOr?
  {
    hide NameOf, RangesText, Digits;
  }

  lemma WordReadsAsLeaf(lib: Lib, show: int -> string, c: Crit, rest: seq<Token>)
    requires Canonical(lib, show, c) && !c.Not? && !c.Or? && !c.And? && !c.SeqIn?
    ensures ParseKey(lib, Print(show, c) + rest) == Ok(Parsed(c, rest))
  {
    hide *;
    var key, more := KeyFor(c), Print(show, c)[1..] + rest;
    LeafWritten(show, c);
    NamesReadBack(key);
    ArgumentsRead(lib, show, c, rest);
    KeyStep(lib, NameOf(key), more);
    assert Print(show, c) + rest == [Atom(NameOf(key))] + more;
  }

  lemma Cons<T>(x: T, rest: seq<T>)
    ensures ([x] + rest)[0] == x && ([x] + rest)[1..] == rest && |[x] + rest| == |rest| + 1
  {
  }

  /** The tokens after a key word. */
  function Arguments(show: int -> string, c: Crit, rest: seq<Token>): seq<Token>
    requires !c.Not? && !c.Or? && !c.And? && !c.SeqIn?
  {
    match c
    case Keyword(s, _) => [Quoted(s)] + rest
    case UidIn(ranges) => [Atom(RangesText(ranges))] + rest
    case Dated(_, _, d) => [Quoted(show(d))] + rest
    case Size(_, n) => [Atom(Digits(n))] + rest
    case Contains(_, s) => [Quoted(s)] + rest
    case Header(f, s) => [Quoted(f)] + ([Quoted(s)] + rest)
    case _ => rest
  }

  lemma ArgumentsAre(show: int -> string, c: Crit, rest: seq<Token>)
    requires !c.Not? && !c.Or? && !c.And? && !c.SeqIn?
    ensures Print(show, c)[1..] + rest == Arguments(show, c, rest)
  {
    hide NameOf, RangesText, Digits;
  }

  /** The arguments after a key word are read back. */
  lemma ArgumentsRead(lib: Lib, show: int -> string, c: Crit, rest: seq<Token>)
    requires Canonical(lib, show, c) && !c.Not? && !c.Or? && !c.And? && !c.SeqIn?
    ensures ParseLeaf(lib, KeyFor(c), Atom(NameOf(KeyFor(c))), Print(show, c)[1..] + rest) == Ok(Parsed(c, rest))
  {
    hide NameOf, RangesText, ParseSequenceSet, Digits, ParseDigits, Print;
    ArgumentsAre(show, c, rest);
    match c
    case Keyword(s, _) => Cons(Quoted(s), rest);
    case UidIn(ranges) =>
      RangesReadBack(ranges);
      Cons(Atom(RangesText(ranges)), rest);
    case Dated(_, _, d) => Cons(Quoted(show(d)), rest);
    case Size(_, n) =>
      ParseUndoesDigits(n);
      Cons(Atom(Digits(n)), rest);
    case Contains(_, s) => Cons(Quoted(s), rest);
    case Header(f, s) =>
      Cons(Quoted(f), [Quoted(s)] + rest);
      Cons(Quoted(s), rest);
    case _ =>
  }

  function KeyFor(c: Crit): Key {
    match c
    case All => KAll
    case Nothing => KNothing
    case HasFlag(f, wanted) => KFlag(f, wanted)
    case Keyword(_, wanted) => KKeyword(wanted)
    case UidIn(_) => KUid
    case SeqIn(_) => KSet
    case Dated(sent, at, _) => KDate(sent, at)
    case Size(larger, _) => KSize(larger)
    case Contains(area, _) => KText(area)
    case Header(_, _) => KHeader
    case Not(_) => KNot
    case Or(_, _) => KOr
    case And(_) => KUnknown
  }

  lemma NotWritten(show: int -> string, c: Crit, rest: seq<Token>)
    requires c.Not?
    ensures Print(show, c) + rest == [Word(KNot)] + (Print(show, c.c) + rest)
  {
    hide NameOf;
  }

  lemma OrWritten(show: int -> string, c: Crit, rest: seq<Token>)
    requires c.Or?
    ensures Print(show, c) + rest == [Word(KOr)] + (Print(show, c.a) + (Print(show, c.b) + rest))
  {
    hide NameOf;
    var s, t := Print(show, c.a), Print(show, c.b);
    assert Print(show, c) == [Word(KOr)] + (s + t);
    hide Print;
    assert (s + t) + rest == s + (t + rest);
  }

  /** Every canonical tree is recovered from its prefix form, and nothing after it is touched. */
  lemma {:induction false} ParseUndoesPrint(lib: Lib, show: int -> string, c: Crit, rest: seq<Token>)
    requires Canonical(lib, show, c)
    ensures ParseKey(lib, Print(show, c) + rest) == Ok(Parsed(c, rest))
    decreases c, 0
  {
    hide ParseKey, ParseKeys, Word, Decodes, CanonicalSet;
    if c.Not? {
      hide Print;
      NotWritten(show, c, rest);
      ParseUndoesPrint(lib, show, c.c, rest);
      NotStep(lib, Print(show, c.c) + rest);
    } else if c.Or? {
      hide Print;
      OrWritten(show, c, rest);
      var second := Print(show, c.b) + rest;
      ParseUndoesPrint(lib, show, c.b, rest);
      ParseUndoesPrint(lib, show, c.a, second);
      OrStep(lib, Print(show, c.a) + second, c.a, second, c.b, rest);
    } else if c.And? {
      ParseAllUndoesPrint(lib, show, c.cs);
      GroupStep(lib, PrintAll(show, c.cs), c.cs, rest);
    } else {
      hide Print, Canonical;
      LeafReadsBack(lib, show, c, rest);
    }
  }

  lemma {:induction false} ParseAllUndoesPrint(lib: Lib, show: int -> string, cs: seq<Crit>)
    requires AllCanonical(lib, show, cs)
    ensures ParseKeys(lib, PrintAll(show, cs)) == Ok(cs)
    decreases cs, 1
  {
    if cs != [] {
      ParseUndoesPrint(lib, show, cs[0], PrintAll(show, cs[1..]));
      ParseAllUndoesPrint(lib, show, cs[1..]);
      hide ParseKey;
      assert cs == [cs[0]] + cs[1..];
    }
  }

  /** A whole search command: its keys are recovered as one conjunction. */
  lemma SearchUndoesPrint(lib: Lib, show: int -> string, cs: seq<Crit>)
    requires cs != [] && AllCanonical(lib, show, cs)
    ensures ParseSearch(lib, PrintAll(show, cs)) == Ok(And(cs))
  {
    ParseAllUndoesPrint(lib, show, cs);
    var ts := PrintAll(show, cs);
    assert ts[0] == Print(show, cs[0])[0];
    if ts[0].Atom? && Upper(ts[0].value) == "CHARSET" {
      CharsetIsNoKey(show, cs[0]);
    }
  }

  lemma NoCharsetKey()
    ensures KeyOf("CHARSET") == KUnknown
  {
    assert !SetChar("CHARSET"[0]);
  }

  lemma CharsetIsNoKey(show: int -> string, c: Crit)
    requires Print(show, c)[0].Atom? && (c.SeqIn? ==> CanonicalSet(c.ranges))
    ensures Upper(Print(show, c)[0].value) != "CHARSET"
  {
    hide Upper, NameOf, RangesText, KeyOf;
    if c.SeqIn? {
      SetIsRecognised(c.ranges);
    } else {
      NamesReadBack(KeyFor(c));
    }
    NoCharsetKey();
  }

  // ----- evaluation -----------------------------------------------------------------------------------------

  /** Message content, once fetched: the sent date, and what its headers and text contain. */
  datatype Content = Content(sent: Option<int>, has: (Area, string) -> bool, header: (string, string) -> bool,
      named: string -> bool)

  /** An item with its session position. `size` and `content` are lookups that may fail. */
  datatype Context = Context(flags: set<Flag>, labels: set<string>, uid: nat, position: nat,
                             uids: seq<nat>, positions: seq<nat>,
                             day: int, near: (Area, string) -> bool, size: Option<nat>, content: Option<Content>)

  predicate Compare(at: When, when: int, day: int) {
    match at case Earlier => when < day case On => when == day case Since => when >= day
  }

  predicate IsNear(a: Area) { a == From || a == To || a == Subject }

  /** `evaluate`: stops at the first operand that decides, and fails if a needed lookup fails. */
  function Evaluate(c: Crit, x: Context): Option<bool>
    decreases c, 0
  {
    match c
    case All => Some(true)
    case Nothing => Some(false)
    case And(cs) => EvaluateAll(cs, x)
    case Or(a, b) =>
      (match Evaluate(a, x)
       case None => None
       case Some(v) => if v then Some(true) else Evaluate(b, x))
    case Not(y) => (match Evaluate(y, x) case None => None case Some(v) => Some(!v))
    case HasFlag(f, wanted) => Some((f in x.flags) == wanted)
    case Keyword(s, wanted) => Some((s in x.labels) == wanted)
    case UidIn(ranges) => Some(x.uid in Select(ranges, x.uids))
    case SeqIn(ranges) => Some(x.position in Select(ranges, x.positions))
    case Size(larger, n) => (match x.size case None => None case Some(s) => Some(if larger then s > n else s < n))
    case Dated(sent, at, d) =>
      if !sent then Some(Compare(at, x.day, d))
      else
        (match x.content
         case None => None
         case Some(t) => (match t.sent case None => Some(false) case Some(when) => Some(Compare(at, when, d))))
    case Contains(area, s) =>
      if IsNear(area) then Some(x.near(area, s))
      else (match x.content case None => None case Some(t) => Some(t.has(area, s)))
    case Header(f, s) =>
      (match x.content
       case None => None
       case Some(t) => Some(if s != "" then t.header(f, s) else t.named(f)))
  }

  function EvaluateAll(cs: seq<Crit>, x: Context): Option<bool>
    decreases cs, 1
  {
    if cs == [] then Some(true)
    else
      match Evaluate(cs[0], x)
      case None => None
      case Some(v) => if v then EvaluateAll(cs[1..], x) else Some(false)
  }

  /** What a tree means of an item whose size and content are `size` and `t`. */
  predicate Means(c: Crit, x: Context, size: nat, t: Content)
    decreases c, 0
  {
    match c
    case All => true
    case Nothing => false
    case And(cs) => forall i :: 0 <= i < |cs| ==> Means(cs[i], x, size, t)
    case Or(a, b) => Means(a, x, size, t) || Means(b, x, size, t)
    case Not(y) => !Means(y, x, size, t)
    case HasFlag(f, wanted) => (f in x.flags) == wanted
    case Keyword(s, wanted) => (s in x.labels) == wanted
    case UidIn(ranges) => x.uid in x.uids && InRanges(ranges, x.uids[|x.uids|-1], x.uid)
    case SeqIn(ranges) => x.position in x.positions && InRanges(ranges, x.positions[|x.positions|-1], x.position)
    case Size(larger, n) => if larger then size > n else size < n
    case Dated(sent, Earlier, d) => if sent then t.sent.Some? && t.sent.value < d else x.day < d
    case Dated(sent, On, d) => if sent then t.sent.Some? && t.sent.value == d else x.day == d
    case Dated(sent, Since, d) => if sent then t.sent.Some? && d <= t.sent.value else d <= x.day
    case Contains(From, s) => x.near(From, s)
    case Contains(To, s) => x.near(To, s)
    case Contains(Subject, s) => x.near(Subject, s)
    case Contains(area, s) => t.has(area, s)
    case Header(f, s) => if s != "" then t.header(f, s) else t.named(f)
  }

  /** Lookups that succeed return the item's size and content. */
  ghost predicate Agrees(x: Context, size: nat, t: Content) {
    (x.size.Some? ==> x.size.value == size) && (x.content.Some? ==> x.content.value == t)
  }

  /** Whenever evaluation gives an answer it is the tree's Boolean meaning, also when short-circuiting
      skipped a lookup that would have failed; and it gives an answer if no lookup fails. */
  lemma {:induction false} EvaluateMeans(c: Crit, x: Context, size: nat, t: Content)
    requires Agrees(x, size, t)
    ensures Evaluate(c, x).Some? ==> Evaluate(c, x).value == Means(c, x, size, t)
    ensures x.size.Some? && x.content.Some? ==> Evaluate(c, x).Some?
    decreases c, 0
  {
    match c
    case And(cs) => EvaluateAllMeans(cs, x, size, t);
    case Or(a, b) =>
      EvaluateMeans(a, x, size, t);
      EvaluateMeans(b, x, size, t);
    case Not(y) => EvaluateMeans(y, x, size, t);
    case UidIn(ranges) => InKeep(x.uids, Chosen(ranges, x.uids), x.uid);
    case SeqIn(ranges) => InKeep(x.positions, Chosen(ranges, x.positions), x.position);
    case _ =>
  }

  lemma {:induction false} EvaluateAllMeans(cs: seq<Crit>, x: Context, size: nat, t: Content)
    requires Agrees(x, size, t)
    ensures EvaluateAll(cs, x).Some? ==> (EvaluateAll(cs, x).value <==> forall i :: 0 <= i < |cs| ==>
            Means(cs[i], x, size, t))
    ensures x.size.Some? && x.content.Some? ==> EvaluateAll(cs, x).Some?
    decreases cs, 1
  {
    if cs != [] {
      EvaluateMeans(cs[0], x, size, t);
      EvaluateAllMeans(cs[1..], x, size, t);
      assert forall i :: 0 < i < |cs| ==> cs[i] == cs[1..][i-1];
      assert forall i :: 0 <= i < |cs| - 1 ==> cs[1..][i] == cs[i+1];
    }
  }
}
