/** The order of an upstream listing does not matter. */
module Listings {
  import opened Types
  import opened Sorting
  import opened UidStores
  import opened Mailboxes
  import opened Reconciling

  /** A listed element and the time at which it is taken in. */
  datatype Sighting = Sighting(m: Listed, now: real)

  function Sightings(listing: seq<Listed>, times: seq<real>): (r: seq<Sighting>)
    requires |times| == |listing|
    ensures |r| == |listing|
  {
    seq(|listing|, i requires 0 <= i < |listing| => Sighting(listing[i], times[i]))
  }

  /** Each id appears once. */
  ghost predicate DistinctListed(s: seq<Sighting>) {
    forall i, j :: 0 <= i < j < |s| ==> s[i].m.id != s[j].m.id
  }

  /** The entry an element gives, if it is shown. */
  function EntryOf(b: Box, holds: map<Msg, Hold>, x: Sighting): seq<Entry> {
    Consume(b, Collected({}, []), holds, x.m, x.now).0.entries
  }

  /** The element ends the hold of its message. */
  predicate Drops(b: Box, holds: map<Msg, Hold>, x: Sighting) {
    var m := Msg(b.inbox, x.m.id);
    KindOf(b.view) == Messages && m in holds && (x.m.labels == holds[m].labels || holds[m].expires < x.now)
  }

  function Entries(b: Box, holds: map<Msg, Hold>, s: seq<Sighting>): seq<Entry> {
    if s == [] then [] else Entries(b, holds, s[..|s|-1]) + EntryOf(b, holds, s[|s|-1])
  }

  function Ended(b: Box, holds: map<Msg, Hold>, s: seq<Sighting>): set<Msg> {
    set x | x in s && Drops(b, holds, x) :: Msg(b.inbox, x.m.id)
  }

  function Ids(s: seq<Sighting>): set<string> {
    set x | x in s :: x.m.id
  }

  // ----- elements with different ids do not meet ----------------------------------------------------------

  /** Taking an element in depends on the hold of its own message only, and ends at most that one. */
  lemma ConsumeApart(b: Box, c: Collected, holds: map<Msg, Hold>, now: map<Msg, Hold>, x: Sighting)
    requires x.m.id !in c.seen
    requires var m := Msg(b.inbox, x.m.id); (m in holds <==> m in now) && (m in holds ==> holds[m] == now[m])
    ensures Consume(b, c, now, x.m, x.now) ==
            (Collected(c.seen + {x.m.id}, c.entries + EntryOf(b, holds, x)),
             if Drops(b, holds, x) then now - {Msg(b.inbox, x.m.id)} else now)
  {
    hide MessageFlags, ContentKey, Excluded;
    assert c.entries + [] == c.entries;
    forall e: Entry ensures [] + [e] == [e] {
    }
  }

  lemma NewestApart(b: Box, holds: map<Msg, Hold>, s: seq<Sighting>)
    requires s != [] && DistinctListed(s)
    ensures var front, x := s[..|s|-1], s[|s|-1];
            x.m.id !in Ids(front) && Msg(b.inbox, x.m.id) !in Ended(b, holds, front) && DistinctListed(front)
  {
    hide Drops;
  }

  lemma OneMore(b: Box, holds: map<Msg, Hold>, s: seq<Sighting>)
    requires s != []
    ensures var front, x := s[..|s|-1], s[|s|-1];
            && Ids(s) == Ids(front) + {x.m.id}
            && Entries(b, holds, s) == Entries(b, holds, front) + EntryOf(b, holds, x)
            && holds - Ended(b, holds, s) ==
               if Drops(b, holds, x) then (holds - Ended(b, holds, front)) - {Msg(b.inbox, x.m.id)}
               else holds - Ended(b, holds, front)
  {
    hide Drops, EntryOf;
    var front, x := s[..|s|-1], s[|s|-1];
    assert s == front + [x];
    assert Ended(b, holds, s) == Ended(b, holds, front) + if Drops(b, holds, x) then {Msg(b.inbox, x.m.id)} else {};
  }

  lemma {:induction false} ConsumeAllIs(b: Box, holds: map<Msg, Hold>, listing: seq<Listed>, times: seq<real>)
    requires |times| == |listing| && DistinctListed(Sightings(listing, times))
    ensures var s := Sightings(listing, times);
            ConsumeAll(b, holds, listing, times) ==
            (Collected(Ids(s), Entries(b, holds, s)), holds - Ended(b, holds, s))
    decreases |listing|
  {
    hide Consume, EntryOf, Drops, Ids, Ended, Entries, DistinctListed;
    var s := Sightings(listing, times);
    if listing == [] {
      NothingConsumed(b, holds, s);
    } else {
      var n := |listing| - 1;
      assert Sightings(listing[..n], times[..n]) == s[..n];
      NewestApart(b, holds, s);
      ConsumeAllIs(b, holds, listing[..n], times[..n]);
      OneMore(b, holds, s);
      var front, now := Collected(Ids(s[..n]), Entries(b, holds, s[..n])), holds - Ended(b, holds, s[..n]);
      ConsumeApart(b, front, holds, now, s[n]);
    }
  }

  lemma NothingConsumed(b: Box, holds: map<Msg, Hold>, s: seq<Sighting>)
    requires s == []
    ensures Ids(s) == {} && Entries(b, holds, s) == [] && holds - Ended(b, holds, s) == holds
  {
  }

  // ----- permutations ------------------------------------------------------------------------------------

  lemma {:induction false} EntriesConcat(b: Box, holds: map<Msg, Hold>, s: seq<Sighting>, t: seq<Sighting>)
    ensures Entries(b, holds, s + t) == Entries(b, holds, s) + Entries(b, holds, t)
    decreases |t|
  {
    hide EntryOf;
    if t == [] {
      assert s + t == s;
    } else {
      EntriesConcat(b, holds, s, t[..|t|-1]);
      assert (s + t)[..|s + t|-1] == s + t[..|t|-1];
    }
  }

  lemma EntriesSplit(b: Box, holds: map<Msg, Hold>, pre: seq<Sighting>, x: Sighting, post: seq<Sighting>)
    ensures multiset(Entries(b, holds, pre + [x] + post)) ==
            multiset(EntryOf(b, holds, x)) + multiset(Entries(b, holds, pre + post))
  {
    OneEntry(b, holds, x);
    hide Entries, EntryOf;
    EntriesConcat(b, holds, pre + [x], post);
    EntriesConcat(b, holds, pre, [x]);
    EntriesConcat(b, holds, pre, post);
  }

  lemma OneEntry(b: Box, holds: map<Msg, Hold>, x: Sighting)
    ensures Entries(b, holds, [x]) == EntryOf(b, holds, x)
  {
    hide EntryOf;
    assert [x][..0] == [] && [] + EntryOf(b, holds, x) == EntryOf(b, holds, x);
  }

  function Elements(s: seq<Sighting>): (r: seq<Listed>)
    ensures |r| == |s|
  {
    seq(|s|, i requires 0 <= i < |s| => s[i].m)
  }

  /** The two sightings of an element find the hold of its message equally expired or not. */
  predicate Judged(b: Box, holds: map<Msg, Hold>, x: Sighting, y: Sighting) {
    var m := Msg(b.inbox, x.m.id);
    x.m == y.m && (m in holds ==> (holds[m].expires < x.now <==> holds[m].expires < y.now))
  }

  ghost predicate JudgedAlike(b: Box, holds: map<Msg, Hold>, s: seq<Sighting>, t: seq<Sighting>) {
    forall i, j :: 0 <= i < |s| && 0 <= j < |t| && s[i].m == t[j].m ==> Judged(b, holds, s[i], t[j])
  }

  lemma JudgedEntry(b: Box, holds: map<Msg, Hold>, x: Sighting, y: Sighting)
    requires Judged(b, holds, x, y)
    ensures EntryOf(b, holds, x) == EntryOf(b, holds, y) && (Drops(b, holds, x) <==> Drops(b, holds, y))
  {
    hide MessageFlags, ContentKey, Excluded;
  }

  lemma {:induction false} EntriesPermute(b: Box, holds: map<Msg, Hold>, s: seq<Sighting>, t: seq<Sighting>)
    requires multiset(Elements(s)) == multiset(Elements(t)) && JudgedAlike(b, holds, s, t)
    ensures multiset(Entries(b, holds, s)) == multiset(Entries(b, holds, t))
    decreases |s|
  {
    hide Entries, EntryOf, Judged;
    if s == [] {
      assert |multiset(Elements(t))| == 0;
      assert s == t;
    } else {
      var k := Locate(Elements(s), Elements(t));
      var others := t[..k] + t[k+1..];
      assert Elements(s)[1..] == Elements(s[1..]);
      assert Elements(t)[..k] + Elements(t)[k+1..] == Elements(others);
      EntriesPermute(b, holds, s[1..], others);
      EntriesSplit(b, holds, [], s[0], s[1..]);
      EntriesSplit(b, holds, t[..k], t[k], t[k+1..]);
      JudgedEntry(b, holds, s[0], t[k]);
      assert [] + [s[0]] + s[1..] == s && [] + s[1..] == s[1..] && t[..k] + [t[k]] + t[k+1..] == t;
    }
  }

  lemma EndedAlike(b: Box, holds: map<Msg, Hold>, s: seq<Sighting>, t: seq<Sighting>)
    requires multiset(Elements(s)) == multiset(Elements(t)) && JudgedAlike(b, holds, s, t)
    ensures Ended(b, holds, s) <= Ended(b, holds, t) && Ids(s) <= Ids(t)
  {
    hide Drops, Judged;
    forall x | x in s ensures exists y :: y in t && y.m == x.m && (Drops(b, holds, x) <==> Drops(b, holds, y)) {
      var i :| 0 <= i < |s| && s[i] == x;
      assert Elements(s)[i] in multiset(Elements(t));
      var j :| 0 <= j < |t| && Elements(t)[j] == x.m;
      JudgedEntry(b, holds, s[i], t[j]);
      assert t[j] in t && t[j].m == x.m;
    }
  }

  /** Whatever order the pages arrive in, a listing that names each id once collects the same entries and
      leaves the same holds, as long as each message's hold is expired in both orders or in neither. */
  lemma ListingOrderIrrelevant(b: Box, holds: map<Msg, Hold>, listing: seq<Listed>, times: seq<real>,
                               other: seq<Listed>, otherTimes: seq<real>)
    requires |times| == |listing| && |otherTimes| == |other| && multiset(listing) == multiset(other)
    requires DistinctListed(Sightings(listing, times)) && DistinctListed(Sightings(other, otherTimes))
    requires JudgedAlike(b, holds, Sightings(listing, times), Sightings(other, otherTimes))
    ensures var (c, h) := ConsumeAll(b, holds, listing, times);
            var (c', h') := ConsumeAll(b, holds, other, otherTimes);
            multiset(c.entries) == multiset(c'.entries) && c.seen == c'.seen && h == h'
  {
    hide Entries, Drops, DistinctListed, ConsumeAll, Judged, Ended, Ids;
    var s, t := Sightings(listing, times), Sightings(other, otherTimes);
    ConsumeAllIs(b, holds, listing, times);
    ConsumeAllIs(b, holds, other, otherTimes);
    assert Elements(s) == listing && Elements(t) == other;
    EntriesPermute(b, holds, s, t);
    EndedAlike(b, holds, s, t);
    assert JudgedAlike(b, holds, t, s) by { JudgedBack(b, holds, s, t); }
    EndedAlike(b, holds, t, s);
  }

  lemma JudgedBack(b: Box, holds: map<Msg, Hold>, s: seq<Sighting>, t: seq<Sighting>)
    requires JudgedAlike(b, holds, s, t)
    ensures JudgedAlike(b, holds, t, s)
  {
  }

  lemma {:induction false} EntriesDistinct(b: Box, holds: map<Msg, Hold>, s: seq<Sighting>)
    requires DistinctListed(s)
    ensures DistinctIds(Entries(b, holds, s))
    ensures forall e :: e in Entries(b, holds, s) ==> e.id in Ids(s)
  {
    hide EntryOf, Drops;
    if s != [] {
      var front, x := s[..|s|-1], s[|s|-1];
      NewestApart(b, holds, s);
      EntriesDistinct(b, holds, front);
      assert s == front + [x];
      EntryNamed(b, holds, x);
    }
  }

  lemma EntryNamed(b: Box, holds: map<Msg, Hold>, x: Sighting)
    ensures |EntryOf(b, holds, x)| <= 1 && forall e :: e in EntryOf(b, holds, x) ==> e.id == x.m.id
  {
  }

  /** So the reconcile of such a listing does not depend on the order of its pages either. */
  lemma PagesReconcileAlike(d: Disk, s: Service, b: Box, listing: seq<Listed>, times: seq<real>,
                            other: seq<Listed>, otherTimes: seq<real>, now: real, at: real, t: Tick)
    requires |times| == |listing| && |otherTimes| == |other| && multiset(listing) == multiset(other)
    requires DistinctListed(Sightings(listing, times)) && DistinctListed(Sightings(other, otherTimes))
    requires JudgedAlike(b, s.holds, Sightings(listing, times), Sightings(other, otherTimes))
    ensures var (c, h) := ConsumeAll(b, s.holds, listing, times);
            var (c', h') := ConsumeAll(b, s.holds, other, otherTimes);
            && ReconcileDisk(d, s.(holds := h), b, c.entries, now, t) ==
                ReconcileDisk(d, s.(holds := h'), b, c'.entries, now, t)
            && ReconcileService(d, s.(holds := h), b, c.entries, now, at, t) ==
               ReconcileService(d, s.(holds := h'), b, c'.entries, now, at, t)
  {
    hide *;
    ListingOrderIrrelevant(b, s.holds, listing, times, other, otherTimes);
    ConsumeAllIs(b, s.holds, other, otherTimes);
    EntriesDistinct(b, s.holds, Sightings(other, otherTimes));
    var (c, h) := ConsumeAll(b, s.holds, listing, times);
    var (c', h') := ConsumeAll(b, s.holds, other, otherTimes);
    PageOrderIrrelevant(d, s.(holds := h), b, c.entries, c'.entries, now, at, t);
  }
}
