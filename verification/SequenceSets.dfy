/** Sequence sets: parsing, selecting, and the compressed form used in COPYUID. */
module SequenceSets {
  import opened Types
  import opened Decimal
  import opened Sorting

  /** The sentinel the source uses for `*`. */
  const STAR: nat := 0x1_0000_0000

  datatype Range = Range(lo: nat, hi: nat)

  datatype Fault = EmptySet | EmptyItem | InvalidRange | InvalidNumber | ZeroNumber

  // ----- text ------------------------------------------------------------------------------------

  /** `str.split` on one character: always at least one part. */
  function Split(s: string, c: char): (r: seq<string>)
    ensures |r| > 0
  {
    if s == [] then [""]
    else
      var rest := Split(s[1..], c);
      if s[0] == c then [""] + rest else [[s[0]] + rest[0]] + rest[1..]
  }

  function Join(parts: seq<string>, c: char): string {
    if parts == [] then "" else if |parts| == 1 then parts[0] else parts[0] + [c] + Join(parts[1..], c)
  }

  datatype Halves = Halves(left: string, found: bool, right: string)

  /** `str.partition` on one character. */
  function Partition(s: string, c: char): Halves {
    if s == [] then Halves("", false, "")
    else if s[0] == c then Halves("", true, s[1..])
    else var h := Partition(s[1..], c); Halves([s[0]] + h.left, h.found, h.right)
  }

  lemma {:induction false} SplitJoined(parts: seq<string>, c: char)
    requires parts != [] && forall i :: 0 <= i < |parts| ==> c !in parts[i]
    ensures Split(Join(parts, c), c) == parts
    decreases |parts|
  {
    if |parts| == 1 {
      SplitWhole(parts[0], c);
    } else {
      SplitJoined(parts[1..], c);
      SplitFirst(parts[0], Join(parts[1..], c), c);
      assert parts == [parts[0]] + parts[1..];
      assert parts[0] + [c] + Join(parts[1..], c) == parts[0] + ([c] + Join(parts[1..], c));
    }
  }

  lemma {:induction false} SplitWhole(s: string, c: char)
    requires c !in s
    ensures Split(s, c) == [s]
  {
    if s != [] {
      SplitWhole(s[1..], c);
      assert s == [s[0]] + s[1..];
    }
  }

  lemma {:induction false} SplitFirst(s: string, rest: string, c: char)
    requires c !in s
    ensures Split(s + ([c] + rest), c) == [s] + Split(rest, c)
  {
    var all := s + ([c] + rest);
    if s == [] {
      assert all == [c] + rest && all[1..] == rest;
    } else {
      assert all[1..] == s[1..] + ([c] + rest);
      SplitFirst(s[1..], rest, c);
      assert s == [s[0]] + s[1..];
    }
  }

  lemma {:induction false} PartitionIs(s: string, rest: string, c: char)
    requires c !in s
    ensures Partition(s, c) == Halves(s, false, "") && Partition(s + ([c] + rest), c) == Halves(s, true, rest)
  {
    var all := s + ([c] + rest);
    if s == [] {
      assert all == [c] + rest && all[1..] == rest;
    } else {
      assert all[1..] == s[1..] + ([c] + rest);
      PartitionIs(s[1..], rest, c);
      assert s == [s[0]] + s[1..];
    }
  }

  // ----- parsing -----------------------------------------------------------------------------------

  function SeqNumber(text: string): Result<nat, Fault> {
    if text == "*" then Ok(STAR)
    else if text == "" || !AllDigits(text) then Err(InvalidNumber)
    else if ParseDigits(text) == 0 then Err(ZeroNumber)
    else Ok(ParseDigits(text))
  }

  function Ordered(a: nat, b: nat): Range {
    if a > b then Range(b, a) else Range(a, b)
  }

  function ParsePart(part: string): Result<Range, Fault> {
    if part == "" then Err(EmptyItem)
    else
      var h := Partition(part, ':');
      if h.found && h.right == "" then Err(InvalidRange)
      else
        match SeqNumber(h.left)
        case Err(e) => Err(e)
        case Ok(lo) =>
          if h.right == "" then Ok(Range(lo, lo))
          else
            match SeqNumber(h.right)
            case Err(e) => Err(e)
            case Ok(hi) => Ok(Ordered(lo, hi))
  }

  function ParseParts(parts: seq<string>): Result<seq<Range>, Fault> {
    if parts == [] then Ok([])
    else
      match ParseParts(parts[..|parts|-1])
      case Err(e) => Err(e)
      case Ok(front) =>
        match ParsePart(parts[|parts|-1])
        case Err(e) => Err(e)
        case Ok(r) => Ok(front + [r])
  }

  function ParseSequenceSet(text: string): Result<seq<Range>, Fault> {
    if text == "" then Err(EmptySet) else ParseParts(Split(text, ','))
  }

  method Parse(text: string) returns (r: Result<seq<Range>, Fault>)
    ensures r == ParseSequenceSet(text)
  {
    if text == "" {
      return Err(EmptySet);
    }
    var parts := Split(text, ',');
    var ranges: seq<Range> := [];
    for i := 0 to |parts|
      invariant ParseParts(parts[..i]) == Ok(ranges)
    {
      assert parts[..i+1][..i] == parts[..i];
      var part := ParsePart(parts[i]);
      if part.Err? {
        FaultStays(parts, i + 1);
        return Err(part.error);
      }
      ranges := ranges + [part.value];
    }
    assert parts[..|parts|] == parts;
    r := Ok(ranges);
  }

  lemma {:induction false} FaultStays(parts: seq<string>, n: nat)
    requires n <= |parts| && ParseParts(parts[..n]).Err?
    ensures ParseParts(parts) == ParseParts(parts[..n])
    decreases |parts| - n
  {
    if n == |parts| {
      assert parts[..n] == parts;
    } else {
      assert parts[..n+1][..n] == parts[..n];
      FaultStays(parts, n + 1);
    }
  }

  // ----- selecting ---------------------------------------------------------------------------------------

  predicate InRange(r: Range, largest: nat, n: nat) {
    var lo, hi := if r.lo == STAR then largest else r.lo, if r.hi == STAR then largest else r.hi;
    if lo > hi then hi <= n <= lo else lo <= n <= hi
  }

  predicate InRanges(ranges: seq<Range>, largest: nat, n: nat) {
    exists i :: 0 <= i < |ranges| && InRange(ranges[i], largest, n)
  }

  /** The candidates that belong to a set, in order. */
  function Keep(candidates: seq<nat>, chosen: set<nat>): seq<nat> {
    if candidates == [] then []
    else
      var last := candidates[|candidates|-1];
      Keep(candidates[..|candidates|-1], chosen) + if last in chosen then [last] else []
  }

  function Chosen(ranges: seq<Range>, candidates: seq<nat>): set<nat> {
    set n | n in candidates && InRanges(ranges, candidates[|candidates|-1], n)
  }

  function Select(ranges: seq<Range>, candidates: seq<nat>): seq<nat> {
    Keep(candidates, Chosen(ranges, candidates))
  }

  /** Only the candidates themselves matter. */
  lemma {:induction false} KeepSame(candidates: seq<nat>, a: set<nat>, b: set<nat>)
    requires forall n :: n in candidates ==> (n in a <==> n in b)
    ensures Keep(candidates, a) == Keep(candidates, b)
  {
    if candidates != [] {
      KeepSame(candidates[..|candidates|-1], a, b);
    }
  }

  /** `select_numbers`. */
  method SelectNumbers(ranges: seq<Range>, candidates: seq<nat>) returns (out: seq<nat>)
    ensures out == Select(ranges, candidates)
  {
    if candidates == [] {
      return [];
    }
    var largest := candidates[|candidates|-1];
    ghost var chosen := Chosen(ranges, candidates);
    out := [];
    for i := 0 to |candidates|
      invariant out == Keep(candidates[..i], chosen)
    {
      assert candidates[..i+1][..i] == candidates[..i];
      var n := candidates[i];
      assert n in candidates;
      var hit := false;
      for j := 0 to |ranges|
        invariant hit <==> exists k :: 0 <= k < j && InRange(ranges[k], largest, n)
      {
        var lo := if ranges[j].lo == STAR then largest else ranges[j].lo;
        var hi := if ranges[j].hi == STAR then largest else ranges[j].hi;
        if lo > hi {
          lo, hi := hi, lo;
        }
        if lo <= n <= hi {
          assert InRange(ranges[j], largest, n);
          hit := true;
        }
      }
      if hit {
        out := out + [n];
      }
    }
    assert candidates[..|candidates|] == candidates;
  }

  // ----- what a sequence set means -----------------------------------------------------------------------------

  datatype Num = N(value: nat) | Largest

  datatype Elem = One(n: Num) | Span(a: Num, b: Num)

  function NumText(x: Num): string { if x.Largest? then "*" else Digits(x.value) }

  function ElemText(e: Elem): string {
    match e
    case One(n) => NumText(n)
    case Span(a, b) => NumText(a) + ([':'] + NumText(b))
  }

  function ElemTexts(elems: seq<Elem>): (r: seq<string>)
    ensures |r| == |elems|
  {
    seq(|elems|, i requires 0 <= i < |elems| => ElemText(elems[i]))
  }

  function SetText(elems: seq<Elem>): string {
    Join(ElemTexts(elems), ',')
  }

  function Resolve(x: Num, largest: nat): nat { if x.Largest? then largest else x.value }

  predicate Between(a: nat, b: nat, n: nat) { a <= n <= b || b <= n <= a }

  predicate InElem(e: Elem, largest: nat, n: nat) {
    match e
    case One(x) => n == Resolve(x, largest)
    case Span(a, b) => Between(Resolve(a, largest), Resolve(b, largest), n)
  }

  predicate InSet(elems: seq<Elem>, largest: nat, n: nat) {
    exists i :: 0 <= i < |elems| && InElem(elems[i], largest, n)
  }

  /** The candidates a written set denotes, with `*` read as the last candidate. */
  function Denoted(elems: seq<Elem>, candidates: seq<nat>): set<nat> {
    set n | n in candidates && InSet(elems, candidates[|candidates|-1], n)
  }

  predicate WfNum(x: Num) { x.N? ==> 1 <= x.value }

  predicate WfElem(e: Elem) {
    match e
    case One(n) => WfNum(n)
    case Span(a, b) => WfNum(a) && WfNum(b)
  }

  predicate WfSet(elems: seq<Elem>) {
    elems != [] && forall i :: 0 <= i < |elems| ==> WfElem(elems[i])
  }

  function NumOf(x: Num): nat { if x.Largest? then STAR else x.value }

  function RangeOf(e: Elem): Range {
    match e
    case One(n) => Range(NumOf(n), NumOf(n))
    case Span(a, b) => Ordered(NumOf(a), NumOf(b))
  }

  function RangesOf(elems: seq<Elem>): (r: seq<Range>)
    ensures |r| == |elems|
  {
    seq(|elems|, i requires 0 <= i < |elems| => RangeOf(elems[i]))
  }

  lemma NumReadsBack(x: Num)
    requires WfNum(x)
    ensures SeqNumber(NumText(x)) == Ok(NumOf(x)) && NumText(x) != "" && ':' !in NumText(x) && ',' !in NumText(x)
  {
    if x.N? {
      ParseUndoesDigits(x.value);
      hide Digits, ParseDigits;
      var s := NumText(x);
      assert IsDigit(s[0]);
      assert s != "*";
    }
  }

  lemma ElemReadsBack(e: Elem)
    requires WfElem(e)
    ensures ParsePart(ElemText(e)) == Ok(RangeOf(e)) && ',' !in ElemText(e)
  {
    match e
    case One(n) =>
      NumReadsBack(n);
      PartitionIs(NumText(n), "", ':');
    case Span(a, b) =>
      NumReadsBack(a);
      NumReadsBack(b);
      hide NumText, SeqNumber, Partition;
      PartitionIs(NumText(a), NumText(b), ':');
  }

  lemma {:induction false} PartsReadBack(elems: seq<Elem>)
    requires forall i :: 0 <= i < |elems| ==> WfElem(elems[i])
    ensures ParseParts(ElemTexts(elems)) == Ok(RangesOf(elems))
    ensures forall i :: 0 <= i < |elems| ==> ',' !in ElemTexts(elems)[i]
  {
    hide ParsePart, ElemText, RangeOf;
    if elems != [] {
      var front := elems[..|elems|-1];
      PartsReadBack(front);
      ElemReadsBack(elems[|elems|-1]);
      assert ElemTexts(elems)[..|elems|-1] == ElemTexts(front);
      assert RangesOf(elems) == RangesOf(front) + [RangeOf(elems[|elems|-1])];
      assert forall i :: 0 <= i < |front| ==> ElemTexts(elems)[i] == ElemTexts(front)[i];
    } else {
      assert ElemTexts(elems) == [];
      assert RangesOf(elems) == [];
    }
  }

  lemma SetReadsBack(elems: seq<Elem>)
    requires WfSet(elems)
    ensures ParseSequenceSet(SetText(elems)) == Ok(RangesOf(elems))
  {
    PartsReadBack(elems);
    SplitJoined(ElemTexts(elems), ',');
    assert SetText(elems) != "" by {
      if SetText(elems) == "" {
        assert Split(SetText(elems), ',') == [""];
        assert ElemTexts(elems)[0] == "";
        ElemReadsBack(elems[0]);
      }
    }
  }

  /** The set does not write out the number 2^32. */
  predicate Plain(e: Elem) {
    match e
    case One(x) => x != N(0x1_0000_0000)
    case Span(a, b) => a != N(0x1_0000_0000) && b != N(0x1_0000_0000)
  }

  predicate PlainSet(elems: seq<Elem>) { forall i :: 0 <= i < |elems| ==> Plain(elems[i]) }

  lemma RangeMeansElem(e: Elem, largest: nat, n: nat)
    requires Plain(e)
    ensures InRange(RangeOf(e), largest, n) <==> InElem(e, largest, n)
  {
  }

  lemma RangesMeanElems(elems: seq<Elem>, largest: nat, n: nat)
    requires PlainSet(elems)
    ensures InRanges(RangesOf(elems), largest, n) <==> InSet(elems, largest, n)
  {
    hide InRange, InElem, RangeOf, Plain;
    forall i | 0 <= i < |elems| ensures InRange(RangesOf(elems)[i], largest, n) <==> InElem(elems[i], largest, n) {
      RangeMeansElem(elems[i], largest, n);
    }
  }

  /** Selecting from a written sequence set gives, in order, exactly the candidates it denotes: `*` is the
      largest candidate, and the bounds of a range come in either order. */
  lemma SelectMeans(elems: seq<Elem>, candidates: seq<nat>)
    requires WfSet(elems) && PlainSet(elems)
    ensures ParseSequenceSet(SetText(elems)).Ok?
    ensures Select(ParseSequenceSet(SetText(elems)).value, candidates) == Keep(candidates, Denoted(elems, candidates))
  {
    SetReadsBack(elems);
    hide ParseSequenceSet, SetText, InRanges, InSet, RangesOf, PlainSet, WfSet;
    forall n | n in candidates ensures n in Chosen(RangesOf(elems), candidates) <==> n in Denoted(elems, candidates) {
      RangesMeanElems(elems, candidates[|candidates|-1], n);
    }
    KeepSame(candidates, Chosen(RangesOf(elems), candidates), Denoted(elems, candidates));
  }

  // ----- the number 2^32 --------------------------------------------------------------------------------

  /** Elements that stand for no message but are read as the last one: 2^32 alone, or as a bound of a
      range that lies above the last candidate. */
  predicate Misread(e: Elem, largest: nat) {
    match e
    case One(x) => x == N(0x1_0000_0000)
    case Span(a, b) =>
      && (a == N(0x1_0000_0000) || b == N(0x1_0000_0000))
      && Resolve(a, largest) > largest && Resolve(b, largest) > largest
  }

  predicate SomeMisread(elems: seq<Elem>, largest: nat) {
    exists i :: 0 <= i < |elems| && Misread(elems[i], largest)
  }

  lemma RangeReads(e: Elem, largest: nat, n: nat)
    requires WfElem(e) && n <= largest < 0x1_0000_0000
    ensures InRange(RangeOf(e), largest, n) <==> InElem(e, largest, n) || (Misread(e, largest) && n == largest)
  {
  }

  lemma RangesRead(elems: seq<Elem>, largest: nat, n: nat)
    requires WfSet(elems) && n <= largest < 0x1_0000_0000
    ensures InRanges(RangesOf(elems), largest, n) <==>
            InSet(elems, largest, n) || (SomeMisread(elems, largest) && n == largest)
  {
    hide InRange, InElem, RangeOf, Misread;
    forall i | 0 <= i < |elems|
      ensures InRange(RangesOf(elems)[i], largest, n) <==>
              InElem(elems[i], largest, n) || (Misread(elems[i], largest) && n == largest) {
      RangeReads(elems[i], largest, n);
    }
  }

  lemma {:induction false} InKeep(candidates: seq<nat>, chosen: set<nat>, n: nat)
    ensures n in Keep(candidates, chosen) <==> n in candidates && n in chosen
  {
    if candidates != [] {
      InKeep(candidates[..|candidates|-1], chosen, n);
      assert candidates == candidates[..|candidates|-1] + [candidates[|candidates|-1]];
    }
  }

  /** Exactly when a written set is read as it is meant: no element is misread, or the set contains the
      last candidate anyway. */
  lemma SelectMeansIff(elems: seq<Elem>, candidates: seq<nat>)
    requires WfSet(elems) && candidates != [] && Ascending(candidates)
    requires forall n :: n in candidates ==> n < 0x1_0000_0000
    ensures ParseSequenceSet(SetText(elems)) == Ok(RangesOf(elems))
    ensures var largest := candidates[|candidates|-1];
            Select(RangesOf(elems), candidates) == Keep(candidates, Denoted(elems, candidates)) <==>
            InSet(elems, largest, largest) || !SomeMisread(elems, largest)
  {
    hide InRanges, InSet, RangesOf, SomeMisread, WfSet, ParseSequenceSet, SetText, Keep;
    SetReadsBack(elems);
    var largest, ranges := candidates[|candidates|-1], RangesOf(elems);
    assert largest in candidates;
    forall n | n in candidates
      ensures n <= largest
      ensures InRanges(ranges, largest, n) <==>
              InSet(elems, largest, n) || (SomeMisread(elems, largest) && n == largest) {
      assert n <= largest;
      RangesRead(elems, largest, n);
    }
    InKeep(candidates, Chosen(ranges, candidates), largest);
    InKeep(candidates, Denoted(elems, candidates), largest);
    if InSet(elems, largest, largest) || !SomeMisread(elems, largest) {
      KeepSame(candidates, Chosen(ranges, candidates), Denoted(elems, candidates));
    }
  }

  /** The smallest misreading: written out alone, 2^32 selects the last candidate although it names
      none. */
  lemma SentinelIsMisread(candidates: seq<nat>)
    requires candidates != [] && Ascending(candidates) && forall n :: n in candidates ==> n < 0x1_0000_0000
    ensures ParseSequenceSet(SetText([One(N(0x1_0000_0000))])) == Ok([Range(0x1_0000_0000, 0x1_0000_0000)])
    ensures Select([Range(0x1_0000_0000, 0x1_0000_0000)], candidates) == [candidates[|candidates|-1]]
    ensures Denoted([One(N(0x1_0000_0000))], candidates) == {}
  {
    hide ParseSequenceSet, SetText, Keep;
    SetReadsBack([One(N(STAR))]);
    assert RangesOf([One(N(STAR))]) == [Range(STAR, STAR)];
    var largest, front, ranges := candidates[|candidates|-1], candidates[..|candidates|-1], [Range(STAR, STAR)];
    assert largest in candidates;
    hide Digits, Split;
    forall n | n in candidates ensures n in Chosen(ranges, candidates) <==> n == largest {
      assert InRange(ranges[0], largest, n) <==> n == largest;
    }
    forall n | n in front ensures n != largest && n in candidates {
    }
    KeepNone(front, Chosen(ranges, candidates));
    KeepLast(candidates, Chosen(ranges, candidates));
  }

  lemma KeepLast(candidates: seq<nat>, chosen: set<nat>)
    requires candidates != []
    ensures var front, last := candidates[..|candidates|-1], candidates[|candidates|-1];
            Keep(candidates, chosen) == Keep(front, chosen) + if last in chosen then [last] else []
  {
  }

  lemma {:induction false} KeepNone(candidates: seq<nat>, chosen: set<nat>)
    requires forall n :: n in candidates ==> n !in chosen
    ensures Keep(candidates, chosen) == []
  {
    if candidates != [] {
      KeepNone(candidates[..|candidates|-1], chosen);
    }
  }

  // ----- the compressed form ---------------------------------------------------------------------------------------

  function RunElem(first: nat, last: nat): Elem {
    if first == last then One(N(first)) else Span(N(first), N(last))
  }

  function RunText(first: nat, last: nat): string {
    if first == last then Digits(first) else Digits(first) + ":" + Digits(last)
  }

  lemma RunTextIs(first: nat, last: nat)
    ensures RunText(first, last) == ElemText(RunElem(first, last))
  {
    hide Digits;
    if first != last {
      assert Digits(first) + ":" + Digits(last) == Digits(first) + ([':'] + Digits(last));
    }
  }

  /** The runs denote exactly the given numbers. */
  ghost predicate Covers(elems: seq<Elem>, s: seq<nat>) {
    forall largest: nat, n: nat :: InSet(elems, largest, n) <==> n in s
  }

  /** `_uid_set`: whatever list is offered, the text selects exactly the original members of it. */
  method UidSet(uids: seq<nat>) returns (text: string)
    requires forall u :: u in uids ==> 1 <= u < 0x1_0000_0000
    ensures uids == [] ==> text == ""
    ensures uids != [] ==> ParseSequenceSet(text).Ok? &&
                           forall candidates :: Select(ParseSequenceSet(text).value, candidates) ==
                               Keep(candidates, set u | u in uids)
  {
    var sorted := Sort(NatLeq, uids);
    SortPermutes(NatLeq, uids);
    SortSorts(NatLeq, uids);
    if sorted == [] {
      return "";
    }
    hide Sort;
    assert forall j :: 0 < j < |sorted| ==> sorted[j-1] <= sorted[j] by {
      forall j | 0 < j < |sorted| ensures sorted[j-1] <= sorted[j] { assert NatLeq(sorted[j-1], sorted[j]); }
    }
    text := Compress(sorted);
    assert AsSet(sorted) == AsSet(uids);
  }

  /** The loop of `_uid_set` over the sorted list. */
  method Compress(sorted: seq<nat>) returns (text: string)
    requires sorted != [] && (forall u :: u in sorted ==> 1 <= u < 0x1_0000_0000) && forall j :: 0 < j < |sorted| ==>
             sorted[j-1] <= sorted[j]
    ensures ParseSequenceSet(text).Ok?
    ensures forall candidates :: Select(ParseSequenceSet(text).value, candidates) == Keep(candidates, AsSet(sorted))
  {
    hide *;
    var out: seq<string> := [];
    ghost var elems: seq<Elem> := [];
    var start, prev := sorted[0], sorted[0];
    CoversStart(sorted);
    NoTexts();
    var i := 1;
    while i < |sorted|
      invariant 1 <= i <= |sorted| && out == ElemTexts(elems)
      invariant start <= prev == sorted[i-1] && start in sorted && prev in sorted
      invariant Covers(elems + [RunElem(start, prev)], sorted[..i])
      invariant (elems == [] || WfSet(elems)) && PlainSet(elems)
    {
      var u := sorted[i];
      assert sorted[..i+1] == sorted[..i] + [u];
      if u == prev + 1 {
        CoversGrow(elems, start, prev, sorted[..i], u);
        prev := u;
      } else {
        RunTextIs(start, prev);
        WfSnoc(elems, start, prev);
        CoversNext(elems + [RunElem(start, prev)], sorted[..i], u);
        ElemTextsSnoc(elems, RunElem(start, prev));
        out := out + [RunText(start, prev)];
        elems := elems + [RunElem(start, prev)];
        start, prev := u, u;
      }
      i := i + 1;
    }
    assert sorted[..|sorted|] == sorted;
    RunTextIs(start, prev);
    ElemTextsSnoc(elems, RunElem(start, prev));
    WfSnoc(elems, start, prev);
    var parts := out + [RunText(start, prev)];
    text := Join(parts, ',');
    Recovered(elems + [RunElem(start, prev)], sorted);
  }

  lemma NoTexts()
    ensures ElemTexts([]) == [] && PlainSet([])
  {
  }

  lemma WfSnoc(elems: seq<Elem>, first: nat, last: nat)
    requires (elems == [] || WfSet(elems)) && PlainSet(elems) && 1 <= first < 0x1_0000_0000 && 1 <= last < 0x1_0000_0000
    ensures WfSet(elems + [RunElem(first, last)]) && PlainSet(elems + [RunElem(first, last)])
    ensures SetText(elems + [RunElem(first, last)]) == Join(ElemTexts(elems + [RunElem(first, last)]), ',')
  {
  }

  lemma ElemTextsSnoc(elems: seq<Elem>, e: Elem)
    ensures ElemTexts(elems + [e]) == ElemTexts(elems) + [ElemText(e)]
  {
  }

  lemma CoversStart(s: seq<nat>)
    requires s != []
    ensures Covers([] + [RunElem(s[0], s[0])], s[..1])
  {
    forall largest: nat, n: nat ensures InSet([RunElem(s[0], s[0])], largest, n) <==> n in s[..1] {
      assert InElem([RunElem(s[0], s[0])][0], largest, n) <==> n == s[0];
    }
    assert [] + [RunElem(s[0], s[0])] == [RunElem(s[0], s[0])];
  }

  lemma InSetSnoc(elems: seq<Elem>, e: Elem, largest: nat, n: nat)
    ensures InSet(elems + [e], largest, n) <==> InSet(elems, largest, n) || InElem(e, largest, n)
  {
    if InSet(elems, largest, n) {
      var i :| 0 <= i < |elems| && InElem(elems[i], largest, n);
      assert InElem((elems + [e])[i], largest, n);
    }
    if InElem(e, largest, n) {
      assert InElem((elems + [e])[|elems|], largest, n);
    }
  }

  lemma CoversGrow(elems: seq<Elem>, start: nat, prev: nat, s: seq<nat>, u: nat)
    requires start <= prev && u == prev + 1 && Covers(elems + [RunElem(start, prev)], s)
    ensures Covers(elems + [RunElem(start, u)], s + [u])
  {
    forall largest: nat, n: nat ensures InSet(elems + [RunElem(start, u)], largest, n) <==> n in s + [u] {
      InSetSnoc(elems, RunElem(start, prev), largest, n);
      InSetSnoc(elems, RunElem(start, u), largest, n);
      assert InElem(RunElem(start, prev), largest, n) <==> start <= n <= prev;
      assert InElem(RunElem(start, u), largest, n) <==> start <= n <= u;
      assert InSet(elems + [RunElem(start, prev)], largest, n) <==> n in s;
    }
  }

  lemma CoversNext(elems: seq<Elem>, s: seq<nat>, u: nat)
    requires Covers(elems, s)
    ensures Covers(elems + [RunElem(u, u)], s + [u])
  {
    forall largest: nat, n: nat ensures InSet(elems + [RunElem(u, u)], largest, n) <==> n in s + [u] {
      InSetSnoc(elems, RunElem(u, u), largest, n);
      assert InSet(elems, largest, n) <==> n in s;
    }
  }

  lemma Recovered(elems: seq<Elem>, sorted: seq<nat>)
    requires WfSet(elems) && PlainSet(elems) && Covers(elems, sorted)
    ensures ParseSequenceSet(SetText(elems)).Ok?
    ensures var ranges := ParseSequenceSet(SetText(elems)).value;
            forall candidates :: Select(ranges, candidates) == Keep(candidates, AsSet(sorted))
  {
    SetReadsBack(elems);
    hide ParseSequenceSet, SetText, InSet, WfSet, PlainSet, RangesOf;
    forall candidates ensures Select(RangesOf(elems), candidates) == Keep(candidates, AsSet(sorted)) {
      SelectMeans(elems, candidates);
      KeepSame(candidates, Denoted(elems, candidates), AsSet(sorted));
    }
  }
}
