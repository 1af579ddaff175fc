/** What one reconcile does to the tables and publishes. */
module Reconciling {
  import opened Types
  import opened Sorting
  import opened UidStores
  import opened Mailboxes

  ghost predicate DistinctKeys(entries: seq<Entry>) {
    forall i, j :: 0 <= i < |entries| && 0 <= j < |entries| && i != j ==> entries[i].key != entries[j].key
  }

  ghost predicate DistinctIds(entries: seq<Entry>) {
    forall i, j :: 0 <= i < |entries| && 0 <= j < |entries| && i != j ==> entries[i].id != entries[j].id
  }

  ghost predicate DistinctPins(pins: seq<Pin>) {
    DistinctKeys(PinEntries(pins))
  }

  predicate OtherKey(e: Entry, f: Entry) { e.key != f.key }
  predicate OtherUid(i: Item, j: Item) { i.uid != j.uid }

  lemma EntryOrder()
    ensures TotalPreorder(EntryLeq)
  {
    forall e, f ensures EntryLeq(e, f) || EntryLeq(f, e) {
      StrLeqTotal(e.id, f.id);
    }
    forall e, f, g | EntryLeq(e, f) && EntryLeq(f, g) ensures EntryLeq(e, g) {
      if e.date == f.date == g.date {
        StrLeqTransitive(e.id, f.id, g.id);
      }
    }
  }

  lemma KeptAre(pins: seq<Pin>, listed: set<string>, now: real)
    ensures forall p :: p in KeptPins(pins, listed, now) <==> p in pins && Kept(p, listed, now)
    ensures DistinctPins(pins) ==> DistinctPins(KeptPins(pins, listed, now))
  {
    KeptMembers(pins, listed, now);
    if DistinctPins(pins) {
      KeptDistinct(pins, listed, now);
    }
  }

  lemma {:induction false} KeptMembers(pins: seq<Pin>, listed: set<string>, now: real)
    ensures forall p :: p in KeptPins(pins, listed, now) <==> p in pins && Kept(p, listed, now)
  {
    if pins != [] {
      KeptMembers(pins[..|pins|-1], listed, now);
      hide Kept;
      assert pins == pins[..|pins|-1] + [pins[|pins|-1]];
    }
  }

  lemma {:induction false} KeptDistinct(pins: seq<Pin>, listed: set<string>, now: real)
    requires DistinctPins(pins)
    ensures DistinctPins(KeptPins(pins, listed, now))
  {
    if pins != [] {
      var front, last := pins[..|pins|-1], pins[|pins|-1];
      var kept := KeptPins(front, listed, now);
      DistinctPrefix(pins);
      KeptDistinct(front, listed, now);
      KeptMembers(front, listed, now);
      hide DistinctPins, Kept;
      forall i | 0 <= i < |kept| ensures kept[i].entry.key != last.entry.key {
        assert kept[i] in kept;
        var k :| 0 <= k < |front| && front[k] == kept[i];
        LastApart(pins, k);
      }
      DistinctSnoc(kept, last);
    }
  }

  lemma LastApart(pins: seq<Pin>, k: nat)
    requires DistinctPins(pins) && k < |pins| - 1
    ensures pins[k].entry.key != pins[|pins|-1].entry.key
  {
    assert PinEntries(pins)[k] == pins[k].entry && PinEntries(pins)[|pins|-1] == pins[|pins|-1].entry;
  }

  lemma DistinctPrefix(pins: seq<Pin>)
    requires pins != [] && DistinctPins(pins)
    ensures DistinctPins(pins[..|pins|-1])
  {
    var f := pins[..|pins|-1];
    forall i, j | 0 <= i < |f| && 0 <= j < |f| && i != j ensures PinEntries(f)[i].key != PinEntries(f)[j].key {
      assert PinEntries(pins)[i] == PinEntries(f)[i] && PinEntries(pins)[j] == PinEntries(f)[j];
    }
  }

  lemma DistinctSnoc(pins: seq<Pin>, p: Pin)
    requires DistinctPins(pins) && forall i :: 0 <= i < |pins| ==> pins[i].entry.key != p.entry.key
    ensures DistinctPins(pins + [p])
  {
    assert PinEntries(pins + [p]) == PinEntries(pins) + [p.entry];
  }

  /** The entry of a pin that survives the listing. */
  ghost predicate FromPin(pins: seq<Pin>, listed: seq<Entry>, now: real, e: Entry) {
    exists p :: p in pins && Kept(p, KeySet(listed), now) && p.entry == e
  }

  /** The entries of a reconcile: exactly the listing and the surviving pins, each key once, sorted. */
  lemma OrderedIs(pins: seq<Pin>, listed: seq<Entry>, now: real)
    ensures var r := Ordered(pins, listed, now);
            && Sorted(EntryLeq, r)
            && (forall i, j :: 0 <= i < j < |r| ==>
                  r[i].date < r[j].date || (r[i].date == r[j].date && StrLeq(r[i].id, r[j].id)))
            && (forall e :: e in r <==> e in listed || FromPin(pins, listed, now, e))
            && (DistinctKeys(listed) && DistinctPins(pins) ==> DistinctKeys(r))
  {
    var kept := KeptPins(pins, KeySet(listed), now);
    var all := listed + PinEntries(kept);
    EntryOrder();
    SortSorts(EntryLeq, all);
    SortPermutes(EntryLeq, all);
    KeptAre(pins, KeySet(listed), now);
    forall e ensures e in all <==> e in listed || FromPin(pins, listed, now, e) {
      if e in PinEntries(kept) {
        var k :| 0 <= k < |kept| && kept[k].entry == e;
        assert kept[k] in kept;
      }
      if FromPin(pins, listed, now, e) {
        var p :| p in pins && Kept(p, KeySet(listed), now) && p.entry == e;
        assert p in kept;
        var k :| 0 <= k < |kept| && kept[k] == p;
        assert PinEntries(kept)[k] == e;
      }
    }
    if DistinctKeys(listed) && DistinctPins(pins) {
      forall i, j | 0 <= i < |all| && 0 <= j < |all| && i != j ensures OtherKey(all[i], all[j]) {
        if i < |listed| <= j {
          ListedApart(pins, listed, now, i, j - |listed|);
        } else if j < |listed| <= i {
          ListedApart(pins, listed, now, j, i - |listed|);
        }
      }
      SortPairwise(EntryLeq, OtherKey, all);
      var r := Sort(EntryLeq, all);
      forall i, j | 0 <= i < |r| && 0 <= j < |r| && i != j ensures r[i].key != r[j].key {
        assert OtherKey(r[i], r[j]);
      }
    }
  }

  lemma OrderedSound(pins: seq<Pin>, listed: seq<Entry>, now: real)
    requires DistinctKeys(listed) && DistinctPins(pins)
    ensures DistinctKeys(Ordered(pins, listed, now)) && Sorted(EntryLeq, Ordered(pins, listed, now))
  {
    OrderedIs(pins, listed, now);
  }

  lemma ListedApart(pins: seq<Pin>, listed: seq<Entry>, now: real, i: nat, j: nat)
    requires i < |listed| && j < |KeptPins(pins, KeySet(listed), now)|
    ensures listed[i].key != KeptPins(pins, KeySet(listed), now)[j].entry.key
  {
    KeptAre(pins, KeySet(listed), now);
    assert KeptPins(pins, KeySet(listed), now)[j] in KeptPins(pins, KeySet(listed), now);
    assert Keys(listed)[i] == listed[i].key;
  }

  // ----- the published items ---------------------------------------------------------------------

  /** Building and sorting the items of distinct keys under an injective map loses and merges nothing. */
  lemma ItemsAre(entries: seq<Entry>, live: map<string, nat>)
    requires DistinctKeys(entries)
    requires forall i :: 0 <= i < |entries| ==> entries[i].key in live
    requires forall k, l :: k in live && l in live && live[k] == live[l] ==> k == l
    ensures var items := SortItems(Built(entries, live));
            && |items| == |entries|
            && (forall i, j :: 0 <= i < j < |items| ==> items[i].uid < items[j].uid)
            && (forall x :: x in items <==> exists e :: e in entries && x == e.Build(live[e.key]))
  {
    hide Sort, Sorted, Built, DistinctKeys;
    var built := Built(entries, live);
    BuiltAre(entries, live);
    SortPermutes(UidLeq, built);
    SortSorts(UidLeq, built);
    SortPairwise(UidLeq, OtherUid, built);
    Ascends(Sort(UidLeq, built));
  }

  lemma Ascends(items: seq<Item>)
    requires Sorted(UidLeq, items)
    requires forall i, j :: 0 <= i < |items| && 0 <= j < |items| && i != j ==> OtherUid(items[i], items[j])
    ensures forall i, j :: 0 <= i < j < |items| ==> items[i].uid < items[j].uid
  {
    forall i, j | 0 <= i < j < |items| ensures items[i].uid < items[j].uid {
      assert UidLeq(items[i], items[j]) && OtherUid(items[i], items[j]);
    }
  }

  /** The items before they are sorted. */
  lemma BuiltAre(entries: seq<Entry>, live: map<string, nat>)
    requires DistinctKeys(entries)
    requires forall i :: 0 <= i < |entries| ==> entries[i].key in live
    requires forall k, l :: k in live && l in live && live[k] == live[l] ==> k == l
    ensures var built := Built(entries, live);
            && (forall i, j :: 0 <= i < |built| && 0 <= j < |built| && i != j ==> OtherUid(built[i], built[j]))
            && (forall x :: x in built <==> exists e :: e in entries && x == e.Build(live[e.key]))
  {
    var built := Built(entries, live);
    forall i, j | 0 <= i < |built| && 0 <= j < |built| && i != j ensures OtherUid(built[i], built[j]) {
      assert built[i].uid == live[entries[i].key] && built[j].uid == live[entries[j].key];
    }
    forall x ensures x in built <==> exists e :: e in entries && x == e.Build(live[e.key]) {
      if x in built {
        var i :| 0 <= i < |built| && built[i] == x;
        assert entries[i] in entries;
      }
      if exists e :: e in entries && x == e.Build(live[e.key]) {
        var e :| e in entries && x == e.Build(live[e.key]);
        var i :| 0 <= i < |entries| && entries[i] == e;
        assert built[i] == x;
      }
    }
  }

  /** The mailbox's rows as a reconcile finds them, and as it leaves them. */
  ghost function Before(d: Disk, b: Box, t: Tick): Mailbox {
    EnsureMailbox(d, b, t).boxes[b]
  }

  ghost function After(m: Mailbox, entries: seq<Entry>): Mailbox {
    Bury(AllocateAll(m, Keys(entries)), KeySet(entries))
  }

  /** The snapshot and the rows agree, key by key and UID by UID, in ascending UID order. */
  ghost predicate Agrees(snap: Snapshot, m: Mailbox) {
    && snap.uidvalidity == m.uidvalidity && snap.uidnext == m.nextUid
    && (forall uid, key :: snap.Names(uid, key) <==> key in m.live && m.live[key] == uid)
    && Ascending(snap.Uids())
    && (forall i :: 0 <= i < |snap.items| ==> 1 <= snap.items[i].uid < snap.uidnext)
  }

  /** Exactly the entries are live: known keys keep their UIDs, and new keys are numbered
      consecutively from the old frontier in (date, id) order. */
  ghost predicate Numbered(m: Mailbox, m': Mailbox, entries: seq<Entry>) {
    && m'.uidvalidity == m.uidvalidity
    && (forall k :: k in m'.live <==> k in Keys(entries))
    && (forall k :: k in m.live && k in m'.live ==> m'.live[k] == m.live[k])
    && (var added := NewKeys(Keys(entries), m.live);
        && m'.nextUid == m.nextUid + |added|
        && forall i :: 0 <= i < |added| ==> added[i] in m'.live && m'.live[added[i]] == m.nextUid + i)
    && Sorted(EntryLeq, entries)
    && InOrder(m, entries, m'.live)
  }

  /** The UIDs whose keys are gone become tombstones and lose their marks. */
  ghost predicate Buried(m: Mailbox, m': Mailbox, keys: seq<string>, b: Box, marks: set<Name>, marks': set<Name>) {
    && m'.dead == m.dead + (set k | k in m.live && k !in keys :: Row(m.live[k], k))
    && (forall n :: n in marks' <==> n in marks && !(n.box == b && Gone(m, keys, n.uid)))
  }

  /** The UID of a live key that is not among the given ones. */
  ghost predicate Gone(m: Mailbox, keys: seq<string>, uid: nat) {
    exists k :: k in m.live && k !in keys && m.live[k] == uid
  }

  /** Reconcile exactness, for every listing that names each key once. */
  lemma ReconcileExact(d: Disk, s: Service, b: Box, listed: seq<Entry>, now: real, at: real, t: Tick)
    requires d.Valid() && DistinctKeys(listed) && DistinctPins(s.Pins(b))
    ensures ReconcileDisk(d, s, b, listed, now, t).Valid() && b in ReconcileDisk(d, s, b, listed, now, t).boxes
    ensures Agrees(ReconcileSnapshot(d, s, b, listed, now, at, t), ReconcileDisk(d, s, b, listed, now, t).boxes[b])
    ensures Numbered(Before(d, b, t), ReconcileDisk(d, s, b, listed, now, t).boxes[b], Ordered(s.Pins(b), listed, now))
    ensures Buried(Before(d, b, t), ReconcileDisk(d, s, b, listed, now, t).boxes[b],
            Keys(Ordered(s.Pins(b), listed, now)),
                   b, d.marks, ReconcileDisk(d, s, b, listed, now, t).marks)
    ensures OthersKept(d, ReconcileDisk(d, s, b, listed, now, t), b)
  {
    var entries := Ordered(s.Pins(b), listed, now);
    hide *;
    AssignedValid(d, b, entries, t);
    AssignedMarks(d, b, entries, t);
    OrderedSound(s.Pins(b), listed, now);
    NumbersNewKeys(Before(d, b, t), entries);
    BuriesMissing(Before(d, b, t), entries, b, d.marks);
    AssignedFrame(d, b, entries, t);
    PublishesAgreeing(d, b, entries, s.Version(b) + 1, at, t);
    ReconcileIs(d, s, b, listed, now, at, t);
  }

  /** A reconcile is the assignment for, and the snapshot of, the ordered entries. */
  lemma ReconcileIs(d: Disk, s: Service, b: Box, listed: seq<Entry>, now: real, at: real, t: Tick)
    ensures var entries := Ordered(s.Pins(b), listed, now);
            && ReconcileDisk(d, s, b, listed, now, t) == Assigned(d, b, entries, t)
            && ReconcileSnapshot(d, s, b, listed, now, at, t) == SnapshotOf(d, b, entries, s.Version(b) + 1, at, t)
  {
    hide Ordered, Assigned, SnapshotOf;
  }

  lemma AssignedValid(d: Disk, b: Box, entries: seq<Entry>, t: Tick)
    requires d.Valid()
    ensures Assigned(d, b, entries, t).Valid() && Before(d, b, t).Valid()
  {
    hide EnsureUids, TombstoneMissing;
  }

  lemma AssignedMarks(d: Disk, b: Box, entries: seq<Entry>, t: Tick)
    ensures var all := AllocateAll(Before(d, b, t), Keys(entries));
            Assigned(d, b, entries, t).marks == Unmarked(d.marks, b, GoneUids(all.live, KeySet(entries)))
  {
    hide AllocateAll, GoneUids, KeySet, Unmarked, Bury;
  }

  lemma PublishesAgreeing(d: Disk, b: Box, entries: seq<Entry>, version: nat, at: real, t: Tick)
    requires d.Valid() && DistinctKeys(entries)
    ensures Agrees(SnapshotOf(d, b, entries, version, at, t), After(Before(d, b, t), entries))
  {
    hide Agrees, DistinctKeys, AllocateAll;
    AllKeysLive(d, b, entries, t);
    SnapshotAgrees(AllocateAll(Before(d, b, t), Keys(entries)), entries, SnapshotOf(d, b, entries, version, at, t));
  }

  ghost predicate OthersKept(d: Disk, d': Disk, b: Box) {
    forall c :: c != b ==> (c in d'.boxes <==> c in d.boxes) && (c in d.boxes ==> d'.boxes[c] == d.boxes[c])
  }

  lemma AssignedFrame(d: Disk, b: Box, entries: seq<Entry>, t: Tick)
    ensures OthersKept(d, Assigned(d, b, entries, t), b)
    ensures b in Assigned(d, b, entries, t).boxes && Assigned(d, b, entries, t).boxes[b] ==
            After(Before(d, b, t), entries)
  {
  }

  lemma NumbersNewKeys(m: Mailbox, entries: seq<Entry>)
    requires m.Valid() && DistinctKeys(entries) && Sorted(EntryLeq, entries)
    ensures Numbered(m, After(m, entries), entries)
  {
    hide AllocateAll, NewKeys, DistinctKeys, Sorted, After, InOrder, Allocated, Numbered;
    AllocateAllExact(m, Keys(entries));
    AfterIs(m, entries);
    NewKeysInList(Keys(entries), m.live);
    AllNumberedInOrder(m, entries);
    OrderKept(m, entries, AllocateAll(m, Keys(entries)).live, After(m, entries).live);
    KeptNumbered(m, AllocateAll(m, Keys(entries)), After(m, entries), entries);
  }

  lemma KeptNumbered(m: Mailbox, all: Mailbox, m': Mailbox, entries: seq<Entry>)
    requires Allocated(m, all, Keys(entries), NewKeys(Keys(entries), m.live))
    requires forall k :: k in NewKeys(Keys(entries), m.live) ==> k in Keys(entries)
    requires m'.uidvalidity == all.uidvalidity && m'.nextUid == all.nextUid
    requires forall k :: k in m'.live <==> k in all.live && k in Keys(entries)
    requires forall k :: k in m'.live ==> m'.live[k] == all.live[k]
    requires Sorted(EntryLeq, entries) && InOrder(m, entries, m'.live)
    ensures Numbered(m, m', entries)
  {
    hide NewKeys, Sorted, InOrder;
  }

  /** Among the entries without a UID, UIDs ascend in list order. */
  ghost predicate InOrder(m: Mailbox, entries: seq<Entry>, live: map<string, nat>) {
    forall i, j :: 0 <= i < j < |entries| && entries[i].key !in m.live && entries[j].key !in m.live
                   && entries[i].key in live && entries[j].key in live ==>
      live[entries[i].key] < live[entries[j].key]
  }

  lemma AllNumberedInOrder(m: Mailbox, entries: seq<Entry>)
    requires DistinctKeys(entries)
    ensures InOrder(m, entries, AllocateAll(m, Keys(entries)).live)
  {
    hide AllocateAll, DistinctKeys;
    forall i, j | 0 <= i < j < |entries| && entries[i].key !in m.live && entries[j].key !in m.live
      ensures var all := AllocateAll(m, Keys(entries));
              entries[i].key in all.live && entries[j].key in all.live
                  && all.live[entries[i].key] < all.live[entries[j].key] {
      NumberedInOrder(m, entries, i, j);
    }
  }

  lemma OrderKept(m: Mailbox, entries: seq<Entry>, all: map<string, nat>, live: map<string, nat>)
    requires InOrder(m, entries, all) && forall k :: k in live ==> k in all && live[k] == all[k]
    ensures InOrder(m, entries, live)
  {
  }

  lemma AfterIs(m: Mailbox, entries: seq<Entry>)
    ensures var all, r := AllocateAll(m, Keys(entries)), After(m, entries);
            && r.uidvalidity == all.uidvalidity && r.nextUid == all.nextUid
            && (forall k :: k in r.live <==> k in all.live && k in Keys(entries))
            && (forall k :: k in r.live ==> r.live[k] == all.live[k])
  {
    hide AllocateAll;
  }

  lemma NumberedInOrder(m: Mailbox, entries: seq<Entry>, i: nat, j: nat)
    requires DistinctKeys(entries) && i < j < |entries| && entries[i].key !in m.live && entries[j].key !in m.live
    ensures var all := AllocateAll(m, Keys(entries));
            entries[i].key in all.live && entries[j].key in all.live
                && all.live[entries[i].key] < all.live[entries[j].key]
  {
    hide AllocateAll, NewKeys;
    var keys := Keys(entries);
    AllocateAllExact(m, keys);
    assert keys[i] == entries[i].key && keys[j] == entries[j].key;
    NewKeysInOrder(keys, m.live, i, j);
  }

  lemma BuriesMissing(m: Mailbox, entries: seq<Entry>, b: Box, marks: set<Name>)
    ensures var all := AllocateAll(m, Keys(entries));
            Buried(m, After(m, entries), Keys(entries), b, marks,
                   Unmarked(marks, b, GoneUids(all.live, KeySet(entries))))
  {
    var keys := Keys(entries);
    var all := AllocateAll(m, keys);
    AllocateAllExact(m, keys);
    assert forall k :: k in all.live && k !in keys <==> k in m.live && k !in keys;
    assert (set k | k in all.live && k !in KeySet(entries) :: Row(all.live[k], k)) ==
        (set k | k in m.live && k !in keys :: Row(m.live[k], k));
    forall u ensures u in GoneUids(all.live, KeySet(entries)) <==> Gone(m, keys, u) {
      if k :| k in m.live && k !in keys && m.live[k] == u {
        assert k in all.live && all.live[k] == u;
      }
    }
  }

  lemma {:induction false} NewKeysInList(keys: seq<string>, live: map<string, nat>)
    ensures forall k :: k in NewKeys(keys, live) ==> k in keys
  {
    if keys != [] {
      NewKeysInList(keys[..|keys|-1], live);
    }
  }

  /** `x` comes before `y`. */
  ghost predicate Precedes(s: seq<string>, x: string, y: string) {
    exists p, q :: 0 <= p < q < |s| && s[p] == x && s[q] == y
  }

  lemma PrecedesInFront(s: seq<string>, more: seq<string>, x: string, y: string)
    requires Precedes(s, x, y)
    ensures Precedes(s + more, x, y)
  {
    var p, q :| 0 <= p < q < |s| && s[p] == x && s[q] == y;
    assert (s + more)[p] == x && (s + more)[q] == y;
  }

  lemma PrecedesLast(s: seq<string>, x: string, y: string)
    requires x in s
    ensures Precedes(s + [y], x, y)
  {
    var p :| 0 <= p < |s| && s[p] == x;
    assert (s + [y])[p] == x && (s + [y])[|s|] == y;
  }

  lemma NewKeysSnoc(keys: seq<string>, live: map<string, nat>)
    requires keys != []
    ensures var r, k := NewKeys(keys[..|keys|-1], live), keys[|keys|-1];
            NewKeys(keys, live) == if k in live || k in r then r else r + [k]
  {
  }

  /** Among distinct keys the numbering follows the list. */
  lemma {:induction false} NewKeysInOrder(keys: seq<string>, live: map<string, nat>, i: nat, j: nat)
    requires i < j < |keys| && keys[i] !in live && keys[j] !in live
    requires forall x, y :: 0 <= x < |keys| && 0 <= y < |keys| && x != y ==> keys[x] != keys[y]
    ensures Precedes(NewKeys(keys, live), keys[i], keys[j])
  {
    hide NewKeys, Precedes;
    var front, last := keys[..|keys|-1], keys[|keys|-1];
    var r := NewKeys(front, live);
    assert forall x :: 0 <= x < |front| ==> front[x] == keys[x];
    NewKeysSnoc(keys, live);
    if j == |keys| - 1 {
      NewKeysInList(front, live);
      NewKeysHas(front, live, i);
      PrecedesLast(r, keys[i], last);
    } else {
      NewKeysInOrder(front, live, i, j);
      PrecedesInFront(r, [last], keys[i], keys[j]);
    }
  }

  lemma {:induction false} NewKeysHas(keys: seq<string>, live: map<string, nat>, i: nat)
    requires i < |keys| && keys[i] !in live
    ensures keys[i] in NewKeys(keys, live)
  {
    if i < |keys| - 1 {
      NewKeysHas(keys[..|keys|-1], live, i);
    }
  }

  lemma SnapshotAgrees(m: Mailbox, entries: seq<Entry>, snap: Snapshot)
    requires m.Valid() && DistinctKeys(entries) && forall i :: 0 <= i < |entries| ==> entries[i].key in m.live
    requires snap.uidvalidity == m.uidvalidity && snap.uidnext == m.nextUid
    requires snap.items == SortItems(Built(entries, m.live))
    ensures Agrees(snap, Bury(m, KeySet(entries)))
  {
    ItemsAre(entries, m.live);
    forall uid, key ensures snap.Names(uid, key) <==> key in Keys(entries) && m.live[key] == uid {
      NamesBuilt(entries, m.live, snap, uid, key);
    }
    forall i | 0 <= i < |snap.items| ensures 1 <= snap.items[i].uid < snap.uidnext {
      assert snap.items[i] in snap.items;
      var e :| e in entries && snap.items[i] == e.Build(m.live[e.key]);
    }
  }

  lemma NamesBuilt(entries: seq<Entry>, live: map<string, nat>, snap: Snapshot, uid: nat, key: string)
    requires forall i :: 0 <= i < |entries| ==> entries[i].key in live
    requires forall x :: x in snap.items <==> exists e :: e in entries && x == e.Build(live[e.key])
    ensures snap.Names(uid, key) <==> key in Keys(entries) && live[key] == uid
  {
    if snap.Names(uid, key) {
      var i :| 0 <= i < |snap.items| && snap.items[i].uid == uid && snap.items[i].key == key;
      assert snap.items[i] in snap.items;
      var e :| e in entries && snap.items[i] == e.Build(live[e.key]);
      var k :| 0 <= k < |entries| && entries[k] == e;
      assert Keys(entries)[k] == key;
    }
    if key in Keys(entries) && live[key] == uid {
      var k :| 0 <= k < |Keys(entries)| && Keys(entries)[k] == key;
      assert entries[k] in entries;
      assert entries[k].Build(uid) in snap.items;
      var i :| 0 <= i < |snap.items| && snap.items[i] == entries[k].Build(uid);
    }
  }

  /** An entry of the reconcile is published under its key's live UID. */
  lemma EntryPublished(d: Disk, s: Service, b: Box, listed: seq<Entry>, now: real, at: real, t: Tick, e: Entry)
    requires d.Valid() && DistinctKeys(listed) && DistinctPins(s.Pins(b))
    requires e in Ordered(s.Pins(b), listed, now)
    ensures var m := ReconcileDisk(d, s, b, listed, now, t).boxes[b];
            e.key in m.live && e.Build(m.live[e.key]) in ReconcileSnapshot(d, s, b, listed, now, at, t).items
  {
    var entries := Ordered(s.Pins(b), listed, now);
    OrderedIs(s.Pins(b), listed, now);
    AllKeysLive(d, b, entries, t);
    ItemsAre(entries, EnsureUids(d, b, Keys(entries), t).boxes[b].live);
    var k :| 0 <= k < |entries| && entries[k] == e;
    assert Keys(entries)[k] == e.key;
  }

  // ----- page order does not matter ----------------------------------------------------------------

  /** Two page orders of the same listing, without duplicate ids, reconcile to the same tables and
      the same snapshot. */
  lemma PageOrderIrrelevant(d: Disk, s: Service, b: Box, listed: seq<Entry>, other: seq<Entry>, now: real, at: real,
      t: Tick)
    requires multiset(listed) == multiset(other) && DistinctIds(other)
    ensures ReconcileDisk(d, s, b, listed, now, t) == ReconcileDisk(d, s, b, other, now, t)
    ensures ReconcileSnapshot(d, s, b, listed, now, at, t) == ReconcileSnapshot(d, s, b, other, now, at, t)
    ensures ReconcileService(d, s, b, listed, now, at, t) == ReconcileService(d, s, b, other, now, at, t)
  {
    EntryOrder();
    assert KeySet(listed) == KeySet(other) by {
      KeysOfMultiset(listed, other);
      KeysOfMultiset(other, listed);
    }
    forall i, j | 0 <= i < j < |other| ensures Apart(EntryLeq, other[i], other[j]) {
      if EntryLeq(other[i], other[j]) && EntryLeq(other[j], other[i]) {
        StrLeqAntisymmetric(other[i].id, other[j].id);
      }
    }
    SortIgnoresOrder(EntryLeq, listed, other, PinEntries(KeptPins(s.Pins(b), KeySet(other), now)));
  }

  lemma KeysOfMultiset(s: seq<Entry>, t: seq<Entry>)
    requires multiset(s) == multiset(t)
    ensures KeySet(s) <= KeySet(t)
  {
    forall k | k in KeySet(s) ensures k in KeySet(t) {
      var i :| 0 <= i < |s| && Keys(s)[i] == k;
      assert s[i] in multiset(t);
      var j :| 0 <= j < |t| && t[j] == s[i];
      assert Keys(t)[j] == k;
    }
  }
}
