/** Python's stable `list.sort`, and the order on the sort keys the gateway uses. */
module Sorting {

  ghost predicate TotalPreorder<T(!new)>(leq: (T, T) -> bool) {
    && (forall x, y :: leq(x, y) || leq(y, x))
    && (forall x, y, z :: leq(x, y) && leq(y, z) ==> leq(x, z))
  }

  ghost predicate Sorted<T>(leq: (T, T) -> bool, s: seq<T>) {
    forall i, j :: 0 <= i < j < |s| ==> leq(s[i], s[j])
  }

  function Insert<T>(leq: (T, T) -> bool, x: T, s: seq<T>): seq<T> {
    if s == [] || leq(x, s[0]) then [x] + s else [s[0]] + Insert(leq, x, s[1..])
  }

  /** Each element goes in front of the later elements that compare equal, so ties keep their order. */
  function Sort<T>(leq: (T, T) -> bool, s: seq<T>): seq<T> {
    if s == [] then [] else Insert(leq, s[0], Sort(leq, s[1..]))
  }

  lemma {:induction false} InsertPermutes<T>(leq: (T, T) -> bool, x: T, s: seq<T>)
    ensures multiset(Insert(leq, x, s)) == multiset(s) + multiset{x}
  {
    if s == [] || leq(x, s[0]) {
    } else {
      InsertPermutes(leq, x, s[1..]);
      assert s == [s[0]] + s[1..];
    }
  }

  lemma {:induction false} SortPermutes<T>(leq: (T, T) -> bool, s: seq<T>)
    ensures multiset(Sort(leq, s)) == multiset(s)
    ensures |Sort(leq, s)| == |s|
    ensures forall x :: x in Sort(leq, s) <==> x in s
  {
    SortKeepsBag(leq, s);
    hide *;
    var r := Sort(leq, s);
    assert |multiset(r)| == |multiset(s)|;
    forall x ensures x in r <==> x in s {
      assert x in r <==> x in multiset(r);
      assert x in s <==> x in multiset(s);
    }
  }

  lemma {:induction false} SortKeepsBag<T>(leq: (T, T) -> bool, s: seq<T>)
    ensures multiset(Sort(leq, s)) == multiset(s)
  {
    if s != [] {
      SortKeepsBag(leq, s[1..]);
      InsertPermutes(leq, s[0], Sort(leq, s[1..]));
      hide Insert;
      assert s == [s[0]] + s[1..];
    }
  }

  lemma {:induction false} InsertSorted<T(!new)>(leq: (T, T) -> bool, x: T, s: seq<T>)
    requires TotalPreorder(leq) && Sorted(leq, s)
    ensures Sorted(leq, Insert(leq, x, s))
  {
    if s == [] || leq(x, s[0]) {
    } else {
      InsertSorted(leq, x, s[1..]);
      var t := Insert(leq, x, s[1..]);
      InsertPermutes(leq, x, s[1..]);
      forall j | 0 <= j < |t| ensures leq(s[0], t[j]) {
        assert t[j] in multiset(t);
        assert t[j] == x || t[j] in s[1..];
      }
    }
  }

  lemma {:induction false} SortSorts<T(!new)>(leq: (T, T) -> bool, s: seq<T>)
    requires TotalPreorder(leq)
    ensures Sorted(leq, Sort(leq, s))
  {
    if s != [] {
      SortSorts(leq, s[1..]);
      InsertSorted(leq, s[0], Sort(leq, s[1..]));
    }
  }

  /** Elements at different positions stay related by `sep`, whatever the order. */
  ghost predicate Pairwise<T>(sep: (T, T) -> bool, s: seq<T>) {
    forall i, j :: 0 <= i < |s| && 0 <= j < |s| && i != j ==> sep(s[i], s[j])
  }

  lemma {:induction false} InsertPairwise<T>(leq: (T, T) -> bool, sep: (T, T) -> bool, x: T, s: seq<T>)
    requires Pairwise(sep, s) && forall i :: 0 <= i < |s| ==> sep(x, s[i]) && sep(s[i], x)
    ensures Pairwise(sep, Insert(leq, x, s))
  {
    if s == [] || leq(x, s[0]) {
    } else {
      InsertPairwise(leq, sep, x, s[1..]);
      var t := Insert(leq, x, s[1..]);
      InsertPermutes(leq, x, s[1..]);
      forall j | 0 <= j < |t| ensures sep(s[0], t[j]) && sep(t[j], s[0]) {
        assert t[j] in multiset(t);
        assert t[j] == x || t[j] in s[1..];
      }
    }
  }

  lemma {:induction false} SortPairwise<T>(leq: (T, T) -> bool, sep: (T, T) -> bool, s: seq<T>)
    requires Pairwise(sep, s)
    ensures Pairwise(sep, Sort(leq, s))
  {
    if s != [] {
      SortPairwise(leq, sep, s[1..]);
      SortPermutes(leq, s[1..]);
      var t := Sort(leq, s[1..]);
      forall i | 0 <= i < |t| ensures sep(s[0], t[i]) && sep(t[i], s[0]) {
        assert t[i] in multiset(t);
        var k :| 0 <= k < |s[1..]| && s[1..][k] == t[i];
      }
      InsertPairwise(leq, sep, s[0], t);
    }
  }

  // ----- independence of the input order ------------------------------------------------------

  ghost predicate Apart<T>(leq: (T, T) -> bool, x: T, y: T) {
    !(leq(x, y) && leq(y, x))
  }

  lemma {:induction false} InsertCommutes<T(!new)>(leq: (T, T) -> bool, x: T, y: T, s: seq<T>)
    requires TotalPreorder(leq) && Apart(leq, x, y)
    ensures Insert(leq, x, Insert(leq, y, s)) == Insert(leq, y, Insert(leq, x, s))
  {
    if s != [] && !leq(x, s[0]) && !leq(y, s[0]) {
      InsertCommutes(leq, x, y, s[1..]);
    }
  }

  lemma {:induction false} SortMovesToFront<T(!new)>(leq: (T, T) -> bool, pre: seq<T>, x: T, post: seq<T>)
    requires TotalPreorder(leq)
    requires forall i :: 0 <= i < |pre| ==> Apart(leq, pre[i], x)
    ensures Sort(leq, pre + [x] + post) == Insert(leq, x, Sort(leq, pre + post))
  {
    if pre == [] {
      assert pre + [x] + post == [x] + post && pre + post == post;
    } else {
      assert (pre + [x] + post)[1..] == pre[1..] + [x] + post;
      assert (pre + post)[1..] == pre[1..] + post;
      SortMovesToFront(leq, pre[1..], x, post);
      InsertCommutes(leq, pre[0], x, Sort(leq, pre[1..] + post));
    }
  }

  lemma RemoveOne<T>(s: seq<T>, t: seq<T>, k: nat)
    requires s != [] && k < |t| && t[k] == s[0] && multiset(s) == multiset(t)
    ensures multiset(s[1..]) == multiset(t[..k] + t[k+1..])
  {
    assert s == [s[0]] + s[1..];
    assert t == t[..k] + [s[0]] + t[k+1..];
    assert multiset(s[1..]) == multiset(s) - multiset{s[0]};
    assert multiset(t[..k] + t[k+1..]) == multiset(t) - multiset{s[0]};
  }

  ghost predicate PairwiseApart<T>(leq: (T, T) -> bool, s: seq<T>) {
    forall i, j :: 0 <= i < j < |s| ==> Apart(leq, s[i], s[j])
  }

  lemma ApartWithout<T>(leq: (T, T) -> bool, s: seq<T>, k: nat)
    requires k < |s| && PairwiseApart(leq, s)
    ensures PairwiseApart(leq, s[..k] + s[k+1..])
    ensures forall i :: 0 <= i < |s[..k]| ==> Apart(leq, s[..k][i], s[k])
  {
  }

  /** Two orders of the same pairwise distinguishable elements sort alike, even in front of a common
      tail whose elements may tie with them. */
  lemma {:induction false} SortIgnoresOrder<T(!new)>(leq: (T, T) -> bool, s: seq<T>, t: seq<T>, tail: seq<T>)
    requires TotalPreorder(leq)
    requires multiset(s) == multiset(t) && PairwiseApart(leq, t)
    ensures Sort(leq, s + tail) == Sort(leq, t + tail)
    decreases |s|
  {
    if s == [] {
      assert |multiset(t)| == 0;
      assert s == t;
    } else {
      var k := Locate(s, t);
      var pre, post := t[..k], t[k+1..];
      ApartWithout(leq, t, k);
      SortIgnoresOrder(leq, s[1..], pre + post, tail);
      SortMovesToFront(leq, pre, s[0], post + tail);
      SortMovesToFront(leq, [], s[0], s[1..] + tail);
      hide *;
      Rearranged(s, t, k, tail);
    }
  }

  lemma Locate<T>(s: seq<T>, t: seq<T>) returns (k: nat)
    requires s != [] && multiset(s) == multiset(t)
    ensures k < |t| && t[k] == s[0] && multiset(s[1..]) == multiset(t[..k] + t[k+1..])
  {
    assert s[0] in multiset(t);
    k :| 0 <= k < |t| && t[k] == s[0];
    RemoveOne(s, t, k);
  }

  lemma Rearranged<T>(s: seq<T>, t: seq<T>, k: nat, tail: seq<T>)
    requires s != [] && k < |t| && t[k] == s[0]
    ensures t + tail == t[..k] + [s[0]] + (t[k+1..] + tail)
    ensures t[..k] + t[k+1..] + tail == t[..k] + (t[k+1..] + tail)
    ensures s + tail == [] + [s[0]] + (s[1..] + tail) && [] + (s[1..] + tail) == s[1..] + tail
  {
  }

  predicate NatLeq(x: nat, y: nat) { x <= y }

  // ----- string order --------------------------------------------------------------------------

  /** Python's `<=` on strings: code point by code point, a prefix before its extensions. */
  predicate StrLeq(s: string, t: string) {
    s == [] || (t != [] && (s[0] < t[0] || (s[0] == t[0] && StrLeq(s[1..], t[1..]))))
  }

  /** Python's order on strings: the shorter comes first if it begins the longer, and otherwise the first character
      that differs decides. */
  lemma {:induction false} StrLeqIs(s: string, t: string)
    ensures StrLeq(s, t) <==>
            s <= t || exists k :: 0 <= k < |s| && k < |t| && s[..k] == t[..k] && s[k] < t[k]
  {
    if s != [] && t != [] {
      StrLeqIs(s[1..], t[1..]);
      if s[0] == t[0] {
        SameHead(s, t);
      } else {
        assert s[..0] == t[..0];
        forall k | 0 <= k < |s| && k < |t| && s[..k] == t[..k] ensures k == 0 {
          FirstDiffers(s, t, k);
        }
      }
    }
  }

  lemma FirstDiffers(s: string, t: string, k: nat)
    requires k < |s| && k < |t| && s[..k] == t[..k]
    ensures k == 0 || s[0] == t[0]
  {
    assert k != 0 ==> s[0] == s[..k][0] && t[0] == t[..k][0];
  }

  lemma SameHead(s: string, t: string)
    requires s != [] && t != [] && s[0] == t[0]
    ensures s <= t <==> s[1..] <= t[1..]
    ensures (exists k :: 0 <= k < |s| && k < |t| && s[..k] == t[..k] && s[k] < t[k]) <==>
            exists k :: 0 <= k < |s[1..]| && k < |t[1..]| && s[1..][..k] == t[1..][..k] && s[1..][k] < t[1..][k]
  {
    assert s == [s[0]] + s[1..] && t == [t[0]] + t[1..];
    if k :| 0 <= k < |s| && k < |t| && s[..k] == t[..k] && s[k] < t[k] {
      assert s[1..][..k-1] == s[..k][1..] && t[1..][..k-1] == t[..k][1..];
      assert s[1..][k-1] < t[1..][k-1];
    }
    if k :| 0 <= k < |s[1..]| && k < |t[1..]| && s[1..][..k] == t[1..][..k] && s[1..][k] < t[1..][k] {
      assert s[..k+1] == [s[0]] + s[1..][..k] && t[..k+1] == [t[0]] + t[1..][..k];
      assert s[k+1] < t[k+1];
    }
  }

  lemma StrLeqTotal(s: string, t: string)
    ensures StrLeq(s, t) || StrLeq(t, s)
  {
  }

  lemma {:induction false} StrLeqTransitive(s: string, t: string, u: string)
    requires StrLeq(s, t) && StrLeq(t, u)
    ensures StrLeq(s, u)
  {
    if s != [] && s[0] == t[0] && t[0] == u[0] {
      StrLeqTransitive(s[1..], t[1..], u[1..]);
    }
  }

  lemma {:induction false} StrLeqAntisymmetric(s: string, t: string)
    requires StrLeq(s, t) && StrLeq(t, s)
    ensures s == t
  {
    if s != [] && t != [] {
      StrLeqAntisymmetric(s[1..], t[1..]);
      assert s == [s[0]] + s[1..] && t == [t[0]] + t[1..];
    }
  }
}
