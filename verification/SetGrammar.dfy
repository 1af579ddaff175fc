/** Which texts are sequence sets: the parser accepts exactly the grammar, and every accepted text, leading zeros
    included, selects what it says. */
module SetGrammar {
  import opened Types
  import opened Decimal
  import opened SequenceSets

  /** `*`, or digits that do not come to zero. */
  predicate NumWritten(t: string, x: Num) {
    match x
    case Largest => t == "*"
    case N(v) => t != "" && AllDigits(t) && ParseDigits(t) == v && 1 <= v
  }

  /** The two numbers of a range, with the colon between them. */
  predicate SpanWritten(t: string, l: string, r: string, a: Num, b: Num) {
    t == l + ":" + r && NumWritten(l, a) && NumWritten(r, b)
  }

  ghost predicate ElemWritten(t: string, e: Elem) {
    match e
    case One(x) => NumWritten(t, x)
    case Span(a, b) => exists l, r :: SpanWritten(t, l, r, a, b)
  }

  ghost predicate PartsWritten(parts: seq<string>, elems: seq<Elem>) {
    |parts| == |elems| && forall i :: 0 <= i < |parts| ==> ElemWritten(parts[i], elems[i])
  }

  /** Elements separated by commas, at least one. */
  ghost predicate SetWritten(text: string, elems: seq<Elem>) {
    elems != [] && exists parts :: PartsWritten(parts, elems) && text == Join(parts, ',')
  }

  // ----- numbers and elements -----------------------------------------------------------------------------

  lemma NumRead(t: string, x: Num)
    requires NumWritten(t, x)
    ensures SeqNumber(t) == Ok(NumOf(x)) && t != "" && ':' !in t && ',' !in t && WfNum(x)
  {
    if x.N? {
      hide ParseDigits;
      assert IsDigit(t[0]);
      assert t != "*";
    }
  }

  lemma NumMeant(t: string) returns (x: Num)
    requires SeqNumber(t).Ok?
    ensures NumWritten(t, x)
  {
    x := if t == "*" then Largest else N(ParseDigits(t));
  }

  lemma ElemRead(t: string, e: Elem)
    requires ElemWritten(t, e)
    ensures ParsePart(t) == Ok(RangeOf(e)) && ',' !in t && WfElem(e)
  {
    hide SeqNumber, Partition, NumWritten;
    match e
    case One(x) =>
      NumRead(t, x);
      PartitionIs(t, "", ':');
    case Span(a, b) =>
      var l, r :| SpanWritten(t, l, r, a, b);
      NumRead(l, a);
      NumRead(r, b);
      PartitionIs(l, r, ':');
      assert t == l + ([':'] + r);
  }

  lemma {:induction false} PartitionJoins(s: string, c: char)
    ensures var h := Partition(s, c);
            s == h.left + if h.found then [c] + h.right else ""
    ensures !Partition(s, c).found ==> Partition(s, c).right == ""
  {
    if s != [] && s[0] != c {
      PartitionJoins(s[1..], c);
      assert s == [s[0]] + s[1..];
    }
  }

  lemma ElemMeant(t: string) returns (e: Elem)
    requires ParsePart(t).Ok?
    ensures ElemWritten(t, e)
  {
    hide SeqNumber, Partition, NumWritten;
    PartitionJoins(t, ':');
    var h := Partition(t, ':');
    var x := NumMeant(h.left);
    if h.right == "" {
      assert t == h.left;
      e := One(x);
    } else {
      var y := NumMeant(h.right);
      assert SpanWritten(t, h.left, h.right, x, y);
      e := Span(x, y);
    }
  }

  // ----- sets --------------------------------------------------------------------------------------------------

  lemma {:induction false} PartsRead(parts: seq<string>, elems: seq<Elem>)
    requires PartsWritten(parts, elems)
    ensures ParseParts(parts) == Ok(RangesOf(elems))
    ensures forall i :: 0 <= i < |parts| ==> ',' !in parts[i] && WfElem(elems[i])
  {
    hide ParsePart, RangeOf, ElemWritten, WfElem;
    if parts != [] {
      var n := |parts| - 1;
      PartsRead(parts[..n], elems[..n]);
      ElemRead(parts[n], elems[n]);
      assert RangesOf(elems) == RangesOf(elems[..n]) + [RangeOf(elems[n])];
      assert forall i :: 0 <= i < n ==> parts[i] == parts[..n][i] && elems[i] == elems[..n][i];
    }
  }

  /** A text of the grammar is read as the ranges of its elements. */
  lemma SetRead(text: string, elems: seq<Elem>)
    requires SetWritten(text, elems)
    ensures ParseSequenceSet(text) == Ok(RangesOf(elems)) && WfSet(elems)
  {
    hide ParseParts, Split, Join, ElemWritten, WfElem;
    var parts :| PartsWritten(parts, elems) && text == Join(parts, ',');
    PartsRead(parts, elems);
    SplitJoined(parts, ',');
    NotEmpty(parts, elems);
  }

  lemma NotEmpty(parts: seq<string>, elems: seq<Elem>)
    requires PartsWritten(parts, elems) && elems != []
    ensures Join(parts, ',') != ""
  {
    hide ElemWritten;
    FirstNotEmpty(parts[0], elems[0]);
  }

  lemma FirstNotEmpty(t: string, e: Elem)
    requires ElemWritten(t, e)
    ensures t != ""
  {
  }

  lemma {:induction false} JoinSplit(s: string, c: char)
    ensures Join(Split(s, c), c) == s
  {
    if s != [] {
      JoinSplit(s[1..], c);
      var rest := Split(s[1..], c);
      assert s == [s[0]] + s[1..];
      JoinFirst(rest, s[0], c);
    }
  }

  lemma JoinFirst(rest: seq<string>, d: char, c: char)
    requires rest != []
    ensures Join([[d] + rest[0]] + rest[1..], c) == [d] + Join(rest, c)
    ensures Join([""] + rest, c) == [c] + Join(rest, c)
  {
    var more := [[d] + rest[0]] + rest[1..];
    assert more[1..] == rest[1..];
    assert ([""] + rest)[1..] == rest;
    assert [] + [c] == [c];
  }

  lemma {:induction false} PartsMeant(parts: seq<string>) returns (elems: seq<Elem>)
    requires ParseParts(parts).Ok?
    ensures PartsWritten(parts, elems)
  {
    hide ParsePart, ElemWritten;
    elems := [];
    if parts != [] {
      var n := |parts| - 1;
      elems := PartsMeant(parts[..n]);
      var e := ElemMeant(parts[n]);
      assert forall i :: 0 <= i < n ==> parts[i] == parts[..n][i];
      elems := elems + [e];
    }
  }

  /** The parser accepts exactly the texts of the grammar. */
  lemma AcceptedIff(text: string)
    ensures ParseSequenceSet(text).Ok? <==> exists elems :: SetWritten(text, elems)
  {
    hide ParseParts, Split, Join, PartsWritten;
    if ParseSequenceSet(text).Ok? {
      var parts := Split(text, ',');
      var elems := PartsMeant(parts);
      JoinSplit(text, ',');
      PartsNotEmpty(parts, elems);
      assert SetWritten(text, elems);
    }
    if elems :| SetWritten(text, elems) {
      SetRead(text, elems);
    }
  }

  lemma PartsNotEmpty(parts: seq<string>, elems: seq<Elem>)
    requires PartsWritten(parts, elems) && parts != []
    ensures elems != []
  {
  }

  /** However it is written, a set that does not name 2^32 selects, in order, the candidates it denotes. */
  lemma WrittenSetSelects(text: string, elems: seq<Elem>, candidates: seq<nat>)
    requires SetWritten(text, elems) && PlainSet(elems)
    ensures ParseSequenceSet(text).Ok?
    ensures Select(ParseSequenceSet(text).value, candidates) == Keep(candidates, Denoted(elems, candidates))
  {
    hide ParseSequenceSet, SetWritten, PlainSet, WfSet, RangesOf;
    SetRead(text, elems);
    SetReadsBack(elems);
    SelectMeans(elems, candidates);
  }
}
