/** Permanent naming: (mailbox, UIDVALIDITY, UID) stands for one remote key, over every run. */
module GatewayNaming {
  import opened Types
  import opened UidStores
  import opened Mailboxes
  import opened Reconciling
  import opened Gateway
  import opened GatewayStore

  /** The UIDVALIDITY that a new mailbox row would get has not been issued for that mailbox. */
  ghost predicate Unissued(issued: set<Binding>, b: Box, value: nat) {
    forall x :: x in issued && x.box == b ==> x.uidvalidity != value
  }

  ghost predicate FreshAt(w: World, b: Box, t: Tick) {
    b !in w.disk.boxes ==> Unissued(w.hist.issued, b, NextUidvalidity(w.disk.watermark, t.clock))
  }

  ghost predicate Fresh(w: World, a: Action)
    requires Enabled(w, a)
  {
    match Touches(w, a)
    case Rows(b, t) => FreshAt(w, b, t)
    case Nothing => true
  }

  ghost predicate FreshRun(ws: seq<World>, acts: seq<Action>) {
    Run(ws, acts) && forall i :: 0 <= i < |acts| ==> Fresh(ws[i], acts[i])
  }

  ghost predicate Functional(issued: set<Binding>) {
    forall x, y :: x in issued && y in issued && x.box == y.box && x.uidvalidity == y.uidvalidity && x.uid == y.uid ==>
        x.key == y.key
  }

  /** The rows of a mailbox and the bindings issued under its current UIDVALIDITY are the same. */
  ghost predicate RecordedAt(m: Mailbox, b: Box, issued: set<Binding>) {
    forall uid, key :: m.Binds(uid, key) <==> Binding(b, m.uidvalidity, uid, key) in issued
  }

  ghost predicate Named(d: Disk, issued: set<Binding>) {
    d.Valid() && Functional(issued) && forall b :: b in d.boxes ==> RecordedAt(d.boxes[b], b, issued)
  }

  /** The row a mailbox starts from agrees with what was issued, whether it existed or is created. */
  lemma RecordedBefore(d: Disk, issued: set<Binding>, b: Box, t: Tick)
    requires Named(d, issued)
    requires b !in d.boxes ==> Unissued(issued, b, NextUidvalidity(d.watermark, t.clock))
    ensures RecordedAt(Before(d, b, t), b, issued) && Before(d, b, t).Valid()
  {
  }

  lemma InBindings(d: Disk, b: Box, x: Binding)
    requires b in d.boxes
    ensures x in Bindings(d, b) <==>
            x.box == b && x.uidvalidity == d.boxes[b].uidvalidity && x.key in d.boxes[b].live
                && d.boxes[b].live[x.key] == x.uid
  {
  }

  /** A row below the old frontier was issued before; a row above it clashes with nothing. */
  lemma NewBindingsFunctional(m: Mailbox, d': Disk, b: Box, issued: set<Binding>)
    requires m.Valid() && Functional(issued) && RecordedAt(m, b, issued)
    requires b in d'.boxes && d'.boxes[b].Valid() && Extends(m, d'.boxes[b])
    ensures Functional(issued + Bindings(d', b))
  {
    var m' := d'.boxes[b];
    forall x, y | x in issued && y in Bindings(d', b) && x.box == y.box && x.uidvalidity == y.uidvalidity
        && x.uid == y.uid
      ensures x.key == y.key {
      InBindings(d', b, y);
      assert x == Binding(b, m.uidvalidity, x.uid, x.key);
      assert m.Binds(x.uid, x.key);
      assert m'.Binds(x.uid, x.key);
    }
    forall x, y | x in Bindings(d', b) && y in Bindings(d', b) && x.uid == y.uid
      ensures x.key == y.key {
      InBindings(d', b, x);
      InBindings(d', b, y);
    }
  }

  lemma NewBindingsRecorded(m: Mailbox, d': Disk, b: Box, issued: set<Binding>)
    requires RecordedAt(m, b, issued) && b in d'.boxes && Extends(m, d'.boxes[b])
    ensures RecordedAt(d'.boxes[b], b, issued + Bindings(d', b))
  {
    var m' := d'.boxes[b];
    forall uid, key ensures m'.Binds(uid, key) <==> Binding(b, m'.uidvalidity, uid, key) in issued + Bindings(d', b) {
      InBindings(d', b, Binding(b, m'.uidvalidity, uid, key));
      if m'.Binds(uid, key) && Binding(b, m'.uidvalidity, uid, key) !in Bindings(d', b) {
        assert Row(uid, key) in m'.dead;
        assert m.Binds(uid, key);
      }
      if Binding(b, m'.uidvalidity, uid, key) in issued {
        assert m.Binds(uid, key);
      }
    }
  }

  lemma GrowKeepsNamed(d: Disk, d': Disk, b: Box, t: Tick, issued: set<Binding>)
    requires Named(d, issued) && GrowsAt(d, d', b, t)
    requires b !in d.boxes ==> Unissued(issued, b, NextUidvalidity(d.watermark, t.clock))
    ensures Named(d', issued + Bindings(d', b))
  {
    hide Bindings, Functional, RecordedAt, Extends, Before, EnsureMailbox, Unissued, NextUidvalidity;
    var m := Before(d, b, t);
    RecordedBefore(d, issued, b, t);
    NewBindingsFunctional(m, d', b, issued);
    forall c | c in d'.boxes ensures RecordedAt(d'.boxes[c], c, issued + Bindings(d', b)) {
      if c == b {
        NewBindingsRecorded(m, d', b, issued);
      } else {
        OtherRecorded(d, d', b, c, issued);
      }
    }
  }

  lemma OtherRecorded(d: Disk, d': Disk, b: Box, c: Box, issued: set<Binding>)
    requires c != b && c in d.boxes && c in d'.boxes && d'.boxes[c] == d.boxes[c] && b in d'.boxes
    requires RecordedAt(d.boxes[c], c, issued)
    ensures RecordedAt(d'.boxes[c], c, issued + Bindings(d', b))
  {
    forall uid, key ensures Binding(c, d.boxes[c].uidvalidity, uid, key) !in Bindings(d', b) {
      InBindings(d', b, Binding(c, d.boxes[c].uidvalidity, uid, key));
    }
  }

  lemma SameRowsNamed(d: Disk, d': Disk, issued: set<Binding>)
    requires Named(d, issued) && (d'.boxes == map[] || d'.boxes == d.boxes)
    ensures Named(d', issued)
  {
  }

  // ----- what clients are told ---------------------------------------------------------------------------

  /** Every UID that a published snapshot shows has been issued for the item's key. */
  ghost predicate Shown(pub: Publication, issued: set<Binding>) {
    forall uid, key :: pub.snap.Names(uid, key) ==> Binding(pub.snap.box, pub.snap.uidvalidity, uid, key) in issued
  }

  ghost predicate AllShown(h: History) {
    forall k :: 0 <= k < |h.published| ==> Shown(h.published[k], h.issued)
  }

  lemma FinishShown(w: World, t: nat, now: real, at: real, tick: Tick)
    requires Basic(w) && w.sync.IsListing(t) && AllShown(w.hist)
    ensures AllShown(FinishSync(w, t, now, at, tick).hist)
  {
    hide ReconcileDisk, ReconcileSnapshot, ReconcileService, Agrees, Bindings, Shown, Numbered, Buried, Ordered,
         DistinctKeys, DistinctPins, Basic;
    var b, listed := w.sync.tasks[t].box, w.sync.tasks[t].phase.got.entries;
    var d' := ReconcileDisk(w.disk, w.svc, b, listed, now, tick);
    var snap := ReconcileSnapshot(w.disk, w.svc, b, listed, now, at, tick);
    BasicIsValid(w);
    ListedDistinct(w, t);
    ReconcileExact(w.disk, w.svc, b, listed, now, at, tick);
    SnapshotBox(w.disk, w.svc, b, listed, now, at, tick);
    var h, pub := FinishSync(w, t, now, at, tick).hist, Publication(snap, w.hist.epoch);
    AgreesShown(pub, d', b);
    StillShown(pub, Bindings(d', b), h.issued);
    OneMoreShown(w.hist, h, pub);
  }

  lemma OneMoreShown(h: History, h': History, pub: Publication)
    requires AllShown(h) && h'.published == h.published + [pub] && h.issued <= h'.issued && Shown(pub, h'.issued)
    ensures AllShown(h')
  {
    hide Shown;
    forall k | 0 <= k < |h'.published| ensures Shown(h'.published[k], h'.issued) {
      if k < |h.published| { StillShown(h.published[k], h.issued, h'.issued); }
    }
  }

  lemma SnapshotBox(d: Disk, s: Service, b: Box, listed: seq<Entry>, now: real, at: real, t: Tick)
    ensures ReconcileSnapshot(d, s, b, listed, now, at, t).box == b
  {
    hide Ordered, EnsureUids, SortItems, Built;
  }

  lemma AgreesShown(pub: Publication, d: Disk, b: Box)
    requires b in d.boxes && pub.snap.box == b && Agrees(pub.snap, d.boxes[b])
    ensures Shown(pub, Bindings(d, b))
  {
    hide Bindings;
    forall uid, key | pub.snap.Names(uid, key)
      ensures Binding(b, pub.snap.uidvalidity, uid, key) in Bindings(d, b) {
      InBindings(d, b, Binding(b, pub.snap.uidvalidity, uid, key));
    }
  }

  lemma StillShown(pub: Publication, issued: set<Binding>, later: set<Binding>)
    requires Shown(pub, issued) && issued <= later
    ensures Shown(pub, later)
  {
  }

  lemma NamedStep(w: World, a: Action)
    requires Enabled(w, a) && Named(w.disk, w.hist.issued) && Fresh(w, a)
    ensures Named(Next(w, a).disk, Next(w, a).hist.issued)
  {
    hide Next, GrowsAt, Unissued, Functional, RecordedAt;
    DiskStep(w, a);
    match Touches(w, a)
    case Rows(b, t) => GrowKeepsNamed(w.disk, Next(w, a).disk, b, t, w.hist.issued);
    case Nothing => SameRowsNamed(w.disk, Next(w, a).disk, w.hist.issued);
  }

  lemma ShownStep(w: World, a: Action)
    requires Enabled(w, a) && Basic(w) && AllShown(w.hist)
    ensures AllShown(Next(w, a).hist)
  {
    if a.Finish? {
      FinishShown(w, a.t, a.now, a.at, a.tick);
    }
  }

  lemma {:induction false} NamedAlways(ws: seq<World>, acts: seq<Action>, i: nat)
    requires FreshRun(ws, acts) && i < |ws|
    ensures Named(ws[i].disk, ws[i].hist.issued) && AllShown(ws[i].hist)
  {
    hide Next, Enabled;
    if i > 0 {
      RunStep(ws, acts, i - 1);
      NamedAlways(ws, acts, i - 1);
      BasicAlways(ws, acts, i - 1);
      NamedStep(ws[i-1], acts[i-1]);
      ShownStep(ws[i-1], acts[i-1]);
    }
  }

  /** Two published snapshots, however far apart in the run, never show different items under the same
      mailbox, UIDVALIDITY and UID. */
  lemma PermanentNaming(ws: seq<World>, acts: seq<Action>, p: nat, q: nat, uid: nat, key: string, other: string)
    requires FreshRun(ws, acts)
    requires var pubs := ws[|acts|].hist.published;
             && p < |pubs| && q < |pubs|
             && pubs[p].snap.box == pubs[q].snap.box && pubs[p].snap.uidvalidity == pubs[q].snap.uidvalidity
             && pubs[p].snap.Names(uid, key) && pubs[q].snap.Names(uid, other)
    ensures key == other
  {
    NamedAlways(ws, acts, |acts|);
    var h := ws[|acts|].hist;
    assert Shown(h.published[p], h.issued) && Shown(h.published[q], h.issued);
    var x := Binding(h.published[p].snap.box, h.published[p].snap.uidvalidity, uid, key);
    assert x in h.issued && x.(key := other) in h.issued;
  }

  lemma {:induction false} IssuedGrows(ws: seq<World>, acts: seq<Action>, i: nat, j: nat)
    requires Run(ws, acts) && i <= j < |ws|
    ensures ws[i].hist.issued <= ws[j].hist.issued
  {
    hide Next, Enabled, Bindings;
    if i < j {
      RunStep(ws, acts, j - 1);
      IssuedGrows(ws, acts, i, j - 1);
      BasicAlways(ws, acts, j - 1);
      DiskStep(ws[j-1], acts[j-1]);
    }
  }

  /** The UID answered to APPEND or COPY names that item's key for good: no snapshot published before
      or after shows another key under it. */
  lemma AnsweredUidNamesItsKey(ws: seq<World>, acts: seq<Action>, i: nat, p: nat, other: string)
    requires FreshRun(ws, acts) && i < |acts| && acts[i].PinNew?
    requires var b, after := acts[i].box, ws[i+1].disk;
             && acts[i].e.key in after.Live(b)
             && var pubs := ws[|acts|].hist.published;
             && p < |pubs| && pubs[p].snap.box == b && pubs[p].snap.uidvalidity == after.boxes[b].uidvalidity
             && pubs[p].snap.Names(after.Live(b)[acts[i].e.key], other)
    ensures other == acts[i].e.key
  {
    var b, after, key := acts[i].box, ws[i+1].disk, acts[i].e.key;
    NamedAlways(ws, acts, i + 1);
    NamedAlways(ws, acts, |acts|);
    IssuedGrows(ws, acts, i + 1, |acts|);
    var h := ws[|acts|].hist;
    assert RecordedAt(after.boxes[b], b, ws[i+1].hist.issued);
    assert after.boxes[b].Binds(after.Live(b)[key], key);
    var x := Binding(b, after.boxes[b].uidvalidity, after.Live(b)[key], key);
    assert x in h.issued;
    assert Shown(h.published[p], h.issued);
    assert x.(key := other) in h.issued;
  }

  /** Rows are never rewritten while the database lives, so a `\Deleted` mark, which is kept by UID,
      never moves to another message. */
  lemma {:induction false} RowsAreForever(ws: seq<World>, acts: seq<Action>, i: nat, j: nat, b: Box, uid: nat,
      key: string)
    requires Run(ws, acts) && i <= j < |ws|
    requires forall k :: i <= k < j ==> acts[k] != Restart(true)
    requires b in ws[i].disk.boxes && ws[i].disk.boxes[b].Binds(uid, key)
    ensures b in ws[j].disk.boxes && ws[j].disk.boxes[b].uidvalidity == ws[i].disk.boxes[b].uidvalidity
    ensures ws[j].disk.boxes[b].Binds(uid, key)
    ensures forall other :: ws[j].disk.boxes[b].Binds(uid, other) ==> other == key
  {
    hide Next, Enabled, Extends, Mailbox.Binds, Mailbox.Valid, Disk.Valid;
    if i < j {
      RunStep(ws, acts, j - 1);
      RowsAreForever(ws, acts, i, j - 1, b, uid, key);
      BasicAlways(ws, acts, j - 1);
      RowStays(ws[j-1], acts[j-1], b, uid, key);
    }
    BasicAlways(ws, acts, j);
    ValidRow(ws[j].disk, b);
    OneRow(ws[j].disk.boxes[b], uid, key);
  }

  lemma RowStays(w: World, a: Action, b: Box, uid: nat, key: string)
    requires Enabled(w, a) && a != Restart(true) && w.disk.Valid()
    requires b in w.disk.boxes && w.disk.boxes[b].Binds(uid, key)
    ensures b in Next(w, a).disk.boxes && Next(w, a).disk.boxes[b].uidvalidity == w.disk.boxes[b].uidvalidity
    ensures Next(w, a).disk.boxes[b].Binds(uid, key)
  {
    hide Next;
    DiskStep(w, a);
  }

  lemma ValidRow(d: Disk, b: Box)
    requires d.Valid() && b in d.boxes
    ensures d.boxes[b].Valid()
  {
  }

  lemma OneRow(m: Mailbox, uid: nat, key: string)
    requires m.Valid() && m.Binds(uid, key)
    ensures forall other :: m.Binds(uid, other) ==> other == key
  {
  }

  // ----- when a value is fresh --------------------------------------------------------------------------

  /** A new value exceeds `h` exactly when `h` is below the ceiling and the clock or the sidecar has
      reached past it. */
  lemma AboveIff(watermark: nat, clock: int, h: nat)
    requires 1 <= h
    ensures NextUidvalidity(watermark, clock) > h <==> h < 0xFFFF_FFFF && (clock > h || watermark >= h)
  {
  }

  /** `h` is the largest value issued for the mailbox so far, or 0. */
  ghost predicate Largest(issued: set<Binding>, b: Box, h: nat) {
    && (forall x :: x in issued && x.box == b ==> x.uidvalidity <= h)
    && (h == 0 || exists x :: x in issued && x.box == b && x.uidvalidity == h)
  }

  lemma {:induction false} LargestExists(issued: set<Binding>, b: Box) returns (h: nat)
    ensures Largest(issued, b, h)
  {
    if issued == {} { return 0; }
    var x :| x in issued;
    h := LargestExists(issued - {x}, b);
    if x.box == b && x.uidvalidity > h {
      h := x.uidvalidity;
    }
  }

  /** What can be checked before a row is created: the clock has passed the largest value issued for the
      mailbox, or the sidecar knows it, and it is below the ceiling. */
  ghost predicate Guarded(w: World, a: Action)
    requires Enabled(w, a)
  {
    match Touches(w, a)
    case Rows(b, t) =>
      b !in w.disk.boxes ==>
        forall h: nat :: h > 0 && Largest(w.hist.issued, b, h) ==>
          h < 0xFFFF_FFFF && (t.clock > h || w.disk.watermark >= h)
    case Nothing => true
  }

  ghost predicate GuardedRun(ws: seq<World>, acts: seq<Action>) {
    Run(ws, acts) && forall i :: 0 <= i < |acts| ==> Guarded(ws[i], acts[i])
  }

  lemma GuardIsFresh(w: World, a: Action)
    requires Enabled(w, a) && Guarded(w, a)
    ensures Fresh(w, a)
  {
    match Touches(w, a)
    case Rows(b, t) =>
      if b !in w.disk.boxes {
        var h := LargestExists(w.hist.issued, b);
        if h > 0 { AboveIff(w.disk.watermark, t.clock, h); }
      }
    case Nothing =>
  }

  /** Names are permanent on every run whose new rows meet the guard, sidecar writes failing or not. */
  lemma GuardedRunsAreFresh(ws: seq<World>, acts: seq<Action>)
    requires GuardedRun(ws, acts)
    ensures FreshRun(ws, acts)
  {
    forall i | 0 <= i < |acts| ensures Fresh(ws[i], acts[i]) {
      GuardIsFresh(ws[i], acts[i]);
    }
  }

  /** The sidecar write at the creation of a row succeeds, below the ceiling. */
  ghost predicate Durable(w: World, a: Action)
    requires Enabled(w, a)
  {
    match Touches(w, a)
    case Rows(b, t) => b !in w.disk.boxes ==> t.sidecarWritten && w.disk.watermark < 0xFFFF_FFFF
    case Nothing => true
  }

  ghost predicate DurableRun(ws: seq<World>, acts: seq<Action>) {
    Run(ws, acts) && forall i :: 0 <= i < |acts| ==> Durable(ws[i], acts[i])
  }

  /** The sidecar knows every value issued and every value in use. */
  ghost predicate Remembered(d: Disk, issued: set<Binding>) {
    && d.watermark <= MAX_UIDVALIDITY
    && (forall x :: x in issued ==> x.uidvalidity <= d.watermark)
    && (forall b :: b in d.boxes ==> d.boxes[b].uidvalidity <= d.watermark)
  }

  lemma GrowRemembered(d: Disk, d': Disk, b: Box, t: Tick, issued: set<Binding>)
    requires Remembered(d, issued) && GrowsAt(d, d', b, t)
    requires b !in d.boxes ==> t.sidecarWritten && d.watermark < MAX_UIDVALIDITY
    ensures Remembered(d', issued + Bindings(d', b))
  {
    hide Bindings, Extends, NextUidvalidity, EnsureMailbox, Before, Disk.Valid;
    BeforeBelow(d, b, t);
    ExtendsKeeps(Before(d, b, t), d'.boxes[b]);
    forall x | x in issued + Bindings(d', b) ensures x.uidvalidity <= d'.watermark {
      InBindings(d', b, x);
    }
  }

  lemma ExtendsKeeps(m: Mailbox, m': Mailbox)
    requires Extends(m, m')
    ensures m'.uidvalidity == m.uidvalidity
  {
  }

  lemma BeforeBelow(d: Disk, b: Box, t: Tick)
    requires d.watermark <= MAX_UIDVALIDITY && (b in d.boxes ==> d.boxes[b].uidvalidity <= d.watermark)
    requires b !in d.boxes ==> t.sidecarWritten && d.watermark < MAX_UIDVALIDITY
    ensures Before(d, b, t).uidvalidity <= EnsureMailbox(d, b, t).watermark <= MAX_UIDVALIDITY
    ensures d.watermark <= EnsureMailbox(d, b, t).watermark
  {
  }

  lemma {:induction false} RememberedAlways(ws: seq<World>, acts: seq<Action>, i: nat)
    requires DurableRun(ws, acts) && i < |ws|
    ensures Remembered(ws[i].disk, ws[i].hist.issued)
  {
    hide Next, Enabled;
    if i > 0 {
      RunStep(ws, acts, i - 1);
      RememberedAlways(ws, acts, i - 1);
      BasicAlways(ws, acts, i - 1);
      var w, a := ws[i-1], acts[i-1];
      DiskStep(w, a);
      match Touches(w, a)
      case Rows(b, t) => GrowRemembered(w.disk, ws[i].disk, b, t, w.hist.issued);
      case Nothing =>
    }
  }

  lemma RememberedIsFresh(w: World, a: Action)
    requires Enabled(w, a) && Remembered(w.disk, w.hist.issued) && Durable(w, a)
    ensures Fresh(w, a)
  {
    match Touches(w, a)
    case Rows(b, t) => FreshValidityIff(w.disk.watermark, t.clock);
    case Nothing =>
  }

  /** In particular names are permanent while sidecar writes succeed below the ceiling. */
  lemma DurableRunsAreFresh(ws: seq<World>, acts: seq<Action>)
    requires DurableRun(ws, acts)
    ensures FreshRun(ws, acts)
  {
    forall i | 0 <= i < |acts| ensures Fresh(ws[i], acts[i]) {
      RememberedAlways(ws, acts, i);
      RememberedIsFresh(ws[i], acts[i]);
    }
  }

  // ----- where the promise ends ------------------------------------------------------------------------------

  ghost predicate Used(m: Mailbox, uid: nat) {
    exists key :: m.Binds(uid, key)
  }

  /** The first UID allocated is UID 1, and its row stays. */
  ghost predicate Started(m: Mailbox) {
    1 <= m.nextUid && (1 < m.nextUid ==> Used(m, 1))
  }

  lemma AllocateStarted(m: Mailbox, key: string)
    requires Started(m)
    ensures Started(Allocate(m, key))
  {
    var r := Allocate(m, key);
    if 1 < m.nextUid {
      var k :| m.Binds(1, k);
      assert r.Binds(1, k);
    } else if key !in m.live {
      assert r.Binds(1, key);
    }
  }

  lemma {:induction false} AllocateAllStarted(m: Mailbox, keys: seq<string>)
    requires Started(m)
    ensures Started(AllocateAll(m, keys))
  {
    if keys != [] {
      AllocateAllStarted(m, keys[..|keys|-1]);
      AllocateStarted(AllocateAll(m, keys[..|keys|-1]), keys[|keys|-1]);
    }
  }

  lemma BuryStarted(m: Mailbox, present: set<string>)
    requires Started(m)
    ensures Started(Bury(m, present))
  {
    var r := Bury(m, present);
    if 1 < m.nextUid {
      var k :| m.Binds(1, k);
      if k in m.live && m.live[k] == 1 && k !in present {
        assert Row(1, k) in r.dead;
      }
      assert r.Binds(1, k);
    }
  }

  ghost predicate AllStarted(d: Disk) {
    forall b :: b in d.boxes ==> Started(d.boxes[b])
  }

  lemma StartedStep(w: World, a: Action)
    requires Enabled(w, a) && AllStarted(w.disk)
    ensures AllStarted(Next(w, a).disk)
  {
    hide Started, Assigned, Ordered, PinnedDisk, ReconcileSnapshot, ReconcileService, Consume, ViewNext, Bindings;
    if a.Finish? {
      var b := w.sync.tasks[a.t].box;
      var entries := Ordered(w.svc.Pins(b), w.sync.tasks[a.t].phase.got.entries, a.now);
      FinishStarted(w.disk, b, entries, a.tick);
    } else if a.PinNew? {
      PinStarted(w.disk, a.box, a.e, a.tick);
    }
  }

  lemma FinishStarted(d: Disk, b: Box, entries: seq<Entry>, t: Tick)
    requires AllStarted(d)
    ensures AllStarted(Assigned(d, b, entries, t))
  {
    hide Started, AllocateAll, Bury, Assigned;
    AssignedFrame(d, b, entries, t);
    BeforeStarted(d, b, t);
    AfterStarted(Before(d, b, t), entries);
  }

  lemma BeforeStarted(d: Disk, b: Box, t: Tick)
    requires AllStarted(d)
    ensures Started(Before(d, b, t))
  {
  }

  lemma AfterStarted(m: Mailbox, entries: seq<Entry>)
    requires Started(m)
    ensures Started(After(m, entries))
  {
    hide Started, AllocateAll, Bury;
    AllocateAllStarted(m, Keys(entries));
    BuryStarted(AllocateAll(m, Keys(entries)), KeySet(entries));
  }

  lemma PinStarted(d: Disk, b: Box, e: Entry, t: Tick)
    requires AllStarted(d)
    ensures AllStarted(PinnedDisk(d, b, e, t))
  {
    hide Started, AllocateAll, PinnedDisk;
    BeforeStarted(d, b, t);
    AllocateAllStarted(Before(d, b, t), [e.key]);
    PinFrame(d, b, e, t);
  }

  /** Under every UIDVALIDITY ever issued for a mailbox, UID 1 was issued. */
  ghost predicate FirstIssued(issued: set<Binding>) {
    forall x :: x in issued ==> HasFirst(issued, x.box, x.uidvalidity)
  }

  ghost predicate HasFirst(issued: set<Binding>, b: Box, uidvalidity: nat) {
    exists key :: Binding(b, uidvalidity, 1, key) in issued
  }

  lemma FirstIssuedGrows(d: Disk, b: Box, issued: set<Binding>)
    requires FirstIssued(issued) && b in d.boxes && d.boxes[b].Valid() && Started(d.boxes[b])
    requires RecordedAt(d.boxes[b], b, issued + Bindings(d, b))
    ensures FirstIssued(issued + Bindings(d, b))
  {
    hide Bindings;
    var all := issued + Bindings(d, b);
    forall x | x in all ensures HasFirst(all, x.box, x.uidvalidity) {
      if x in issued {
        assert HasFirst(issued, x.box, x.uidvalidity);
        var key :| Binding(x.box, x.uidvalidity, 1, key) in issued;
        assert Binding(x.box, x.uidvalidity, 1, key) in all;
      } else {
        InBindings(d, b, x);
        var key :| d.boxes[b].Binds(1, key);
        assert Binding(b, d.boxes[b].uidvalidity, 1, key) in all;
      }
    }
  }

  lemma {:induction false} FirstIssuedAlways(ws: seq<World>, acts: seq<Action>, i: nat)
    requires FreshRun(ws, acts) && i < |ws|
    ensures AllStarted(ws[i].disk) && FirstIssued(ws[i].hist.issued)
  {
    hide Next, Enabled;
    if i > 0 {
      RunStep(ws, acts, i - 1);
      var w, a := ws[i-1], acts[i-1];
      FirstIssuedAlways(ws, acts, i - 1);
      NamedAlways(ws, acts, i);
      NamedAlways(ws, acts, i - 1);
      StartedStep(w, a);
      DiskStep(w, a);
      assert ws[i] == Next(w, a);
      match Touches(w, a)
      case Rows(b, t) => FirstIssuedGrows(ws[i].disk, b, w.hist.issued);
      case Nothing =>
    }
  }

  // ----- rows come from listings --------------------------------------------------------------------------

  /** A mailbox with a snapshot has a row. */
  ghost predicate Rowed(w: World) {
    forall b :: b in w.svc.latest ==> b in w.disk.boxes
  }

  lemma RowedStep(w: World, a: Action)
    requires Enabled(w, a) && w.disk.Valid() && Rowed(w)
    ensures Rowed(Next(w, a))
  {
    hide ReconcileSnapshot, PinnedDisk, ReconcileDisk, GrowsAt, Bindings, Consume, SyncNext, ViewNext, KeptPins,
         RemovePin, SetPin;
    DiskStep(w, a);
    if a.Finish? || a.PinNew? {
      GrownRows(w.disk, Next(w, a).disk, Touches(w, a).box, Touches(w, a).tick);
    }
  }

  lemma GrownRows(d: Disk, d': Disk, b: Box, t: Tick)
    requires GrowsAt(d, d', b, t)
    ensures d'.boxes.Keys == d.boxes.Keys + {b}
  {
    hide Extends;
  }

  lemma {:induction false} RowedAlways(ws: seq<World>, acts: seq<Action>, i: nat)
    requires Run(ws, acts) && i < |ws|
    ensures Rowed(ws[i])
  {
    hide Next, Enabled, Rowed;
    if i == 0 {
      NoRows();
    } else {
      RunStep(ws, acts, i - 1);
      RowedAlways(ws, acts, i - 1);
      BasicAlways(ws, acts, i - 1);
      RowedStep(ws[i-1], acts[i-1]);
    }
  }

  lemma NoRows()
    ensures Rowed(START)
  {
  }

  /** A mailbox row, and with it a UIDVALIDITY, is only ever created by a reconcile: never by APPEND or COPY. */
  lemma OnlyListingsCreateRows(ws: seq<World>, acts: seq<Action>, i: nat, b: Box)
    requires Run(ws, acts) && i < |acts| && b !in ws[i].disk.boxes && b in ws[i+1].disk.boxes
    ensures acts[i].Finish? && ws[i].sync.IsListing(acts[i].t) && ws[i].sync.tasks[acts[i].t].box == b
  {
    hide Next, Extends;
    RunStep(ws, acts, i);
    BasicAlways(ws, acts, i);
    RowedAlways(ws, acts, i);
    DiskStep(ws[i], acts[i]);
  }

  // ----- a reconcile that creates a row ---------------------------------------------------------------------

  lemma {:induction false} FirstNewKey(keys: seq<string>)
    requires keys != []
    ensures var added := NewKeys(keys, map[]); added != [] && added[0] == keys[0]
  {
    if |keys| > 1 {
      FirstNewKey(keys[..|keys|-1]);
    }
  }

  /** In a new row UID 1 goes to the first entry in (date, id) order. */
  lemma FirstEntryBound(w: World, t: nat, now: real, at: real, tick: Tick)
    requires Basic(w) && w.sync.IsListing(t) && w.sync.tasks[t].box !in w.disk.boxes
    requires Ordered(w.svc.Pins(w.sync.tasks[t].box), w.sync.tasks[t].phase.got.entries, now) != []
    ensures var b := w.sync.tasks[t].box;
            var first := Ordered(w.svc.Pins(b), w.sync.tasks[t].phase.got.entries, now)[0];
            Binding(b, NextUidvalidity(w.disk.watermark, tick.clock), 1, first.key)
              in FinishSync(w, t, now, at, tick).hist.issued
  {
    hide Ordered, ReconcileDisk, ReconcileSnapshot, ReconcileService, Bindings, NextUidvalidity, NewKeys, Basic,
         DistinctKeys, DistinctPins, Agrees;
    var b, listed := w.sync.tasks[t].box, w.sync.tasks[t].phase.got.entries;
    var d', entries := ReconcileDisk(w.disk, w.svc, b, listed, now, tick), Ordered(w.svc.Pins(b), listed, now);
    BasicIsValid(w);
    ListedDistinct(w, t);
    ReconcileExact(w.disk, w.svc, b, listed, now, at, tick);
    NewRow(w.disk, b, tick);
    FirstNewKey(Keys(entries));
    InBindings(d', b, Binding(b, d'.boxes[b].uidvalidity, 1, entries[0].key));
  }

  lemma BasicIsValid(w: World)
    requires Basic(w)
    ensures w.disk.Valid() && ListingsTidy(w.sync) && PinsSound(w.disk, w.svc)
  {
  }

  lemma NewRow(d: Disk, b: Box, t: Tick)
    requires b !in d.boxes
    ensures Before(d, b, t) == Mailbox(NextUidvalidity(d.watermark, t.clock), 1, map[], {})
  {
  }

  /** A number above the length of every string of the set. */
  lemma {:induction false} LongerThan(s: set<string>) returns (n: nat)
    ensures forall x :: x in s ==> |x| < n
  {
    if s == {} { return 0; }
    var x :| x in s;
    n := LongerThan(s - {x});
    n := if |x| < n then n else |x| + 1;
  }

  lemma {:induction false} EarlierThan(entries: seq<Entry>) returns (date: int)
    ensures forall e :: e in entries ==> date < e.date
  {
    if entries == [] { return 0; }
    var last := entries[|entries|-1];
    date := EarlierThan(entries[..|entries|-1]);
    date := if date < last.date then date else last.date - 1;
    assert entries == entries[..|entries|-1] + [last];
  }

  /** An element that any listing may still bring, that comes before all others, and whose key is not the
      given one. */
  lemma EarlyElement(b: Box, got: Collected, holds: map<Msg, Hold>, now: real, key: string)
      returns (m: Listed, e: Entry)
    ensures m.id != "" && WellFormedListed(KindOf(b.view), m)
    ensures Consume(b, got, holds, m, now) == (Collected(got.seen + {m.id}, got.entries + [e]), holds)
    ensures e.key != key && forall x :: x in got.entries ==> e.date < x.date
  {
    var n := LongerThan(got.seen + (set h | h in holds :: h.id) + {key});
    var date := EarlierThan(got.entries);
    var id := seq(n, _ => 'x');
    assert |id| == n;
    m := Listed(id, date, {}, Some("0123456789abcdef"), Envelope(None, "", [], ""));
    assert Msg(b.inbox, id) !in holds && id !in got.seen && id != key && id != "";
    assert m.labels * Excluded(b.view) == {};
    var r := Consume(b, got, holds, m, now).0;
    e := r.entries[|r.entries|-1];
  }

  /** The early element comes first, and there are no pins in a mailbox without a row. */
  lemma EarlyIsFirst(pins: seq<Pin>, listed: seq<Entry>, e: Entry, now: real)
    requires pins == [] && forall x :: x in listed ==> e.date < x.date
    ensures Ordered(pins, listed + [e], now) != [] && Ordered(pins, listed + [e], now)[0] == e
  {
    hide Ordered;
    var r := Ordered(pins, listed + [e], now);
    OrderedIs(pins, listed + [e], now);
    assert e in listed + [e];
    assert e in r;
    assert r[0] in r && r[0] in listed + [e];
    var i :| 0 <= i < |r| && r[i] == e;
    assert i > 0 ==> EntryLeq(r[0], r[i]);
  }

  ghost predicate FinishKeepsNames(w: World, t: nat, now: real, at: real, tick: Tick) {
    w.sync.IsListing(t) && Functional(FinishSync(w, t, now, at, tick).hist.issued)
  }

  lemma FinishNamed(w: World, t: nat, now: real, at: real, tick: Tick)
    requires w.sync.IsListing(t) && Named(w.disk, w.hist.issued) && FreshAt(w, w.sync.tasks[t].box, tick)
    ensures Functional(FinishSync(w, t, now, at, tick).hist.issued)
  {
    hide GrowsAt, Unissued, ReconcileDisk, ReconcileSnapshot, ReconcileService, Bindings;
    var b, listed := w.sync.tasks[t].box, w.sync.tasks[t].phase.got.entries;
    ReconcileGrows(w.disk, w.svc, b, listed, now, tick);
    GrowKeepsNamed(w.disk, ReconcileDisk(w.disk, w.svc, b, listed, now, tick), b, tick, w.hist.issued);
  }

  lemma TakenStays(w: World, t: nat, m: Listed, now: real)
    requires w.sync.IsListing(t) && m.id != ""
    ensures var v := TakeListed(w, t, m, now);
            && v.disk == w.disk && v.hist == w.hist && v.svc.pinned == w.svc.pinned && v.sync.IsListing(t)
            && v.sync.tasks[t].box == w.sync.tasks[t].box
            && v.sync.tasks[t].phase.got ==
               Consume(w.sync.tasks[t].box, w.sync.tasks[t].phase.got, w.svc.holds, m, now).0
  {
    hide Consume;
  }

  lemma NoPins(w: World, b: Box)
    requires Basic(w) && b !in w.disk.boxes
    ensures w.svc.Pins(b) == []
  {
    assert PinsSoundAt(w.disk.Live(b), b, w.svc.Pins(b));
    if w.svc.Pins(b) != [] { HasMember(w.svc.Pins(b)); }
  }

  lemma HasMember<T>(s: seq<T>)
    requires s != []
    ensures exists x :: x in s
  {
    assert s[0] in s;
  }

  lemma TakenBasic(w: World, t: nat, m: Listed, now: real)
    requires Basic(w) && w.sync.IsListing(t) && m.id != ""
    requires WellFormedListed(KindOf(w.sync.tasks[t].box.view), m)
    ensures Basic(TakeListed(w, t, m, now))
  {
    hide Consume, Tidy, PinsSoundAt;
    assert Enabled(w, Take(t, m, now));
    TidyStep(w, Take(t, m, now));
    TakenStays(w, t, m, now);
    var v := TakeListed(w, t, m, now);
    forall b ensures PinsSoundAt(v.disk.Live(b), b, v.svc.Pins(b)) {
      assert PinsSoundAt(w.disk.Live(b), b, w.svc.Pins(b)) && v.svc.Pins(b) == w.svc.Pins(b);
    }
  }

  /** A listing under which a value issued before gives UID 1 of the mailbox a second key. */
  lemma StaleRebinds(w: World, t: nat, now: real, at: real, tick: Tick) returns (m: Listed)
    requires Basic(w) && FirstIssued(w.hist.issued) && w.sync.IsListing(t)
    requires !FreshAt(w, w.sync.tasks[t].box, tick)
    ensures m.id != "" && WellFormedListed(KindOf(w.sync.tasks[t].box.view), m)
    ensures !FinishKeepsNames(TakeListed(w, t, m, now), t, now, at, tick)
  {
    hide NextUidvalidity, Consume, FinishSync, Basic, TakeListed, Ordered, WellFormedListed;
    var b, got := w.sync.tasks[t].box, w.sync.tasks[t].phase.got;
    var v := NextUidvalidity(w.disk.watermark, tick.clock);
    var x :| x in w.hist.issued && x.box == b && x.uidvalidity == v;
    assert HasFirst(w.hist.issued, x.box, x.uidvalidity);
    var key :| Binding(b, v, 1, key) in w.hist.issued;
    var e;
    m, e := EarlyElement(b, got, w.svc.holds, now, key);
    var w' := TakeListed(w, t, m, now);
    TakenStays(w, t, m, now);
    TakenBasic(w, t, m, now);
    NoPins(w', b);
    EarlyIsFirst(w'.svc.Pins(b), got.entries, e, now);
    FirstEntryBound(w', t, now, at, tick);
    FinishIssues(w', t, now, at, tick);
    assert Binding(b, v, 1, e.key).uid == Binding(b, v, 1, key).uid;
  }

  lemma FinishIssues(w: World, t: nat, now: real, at: real, tick: Tick)
    requires w.sync.IsListing(t)
    ensures w.hist.issued <= FinishSync(w, t, now, at, tick).hist.issued
  {
    hide ReconcileDisk, ReconcileSnapshot, ReconcileService, Bindings;
  }

  /** Exactly when creating a row can redefine a name. In a state of a run that has kept names permanent, a
      listing of a mailbox without a row is about to end. Whatever it has collected, and whatever element it
      may still bring, its reconcile keeps names permanent if and only if the row's UIDVALIDITY was not issued
      for the mailbox before. */
  lemma NewRowKeepsNamesIff(ws: seq<World>, acts: seq<Action>, t: nat, now: real, at: real, tick: Tick)
    requires FreshRun(ws, acts) && |ws| == |acts| + 1 && ws[|acts|].sync.IsListing(t)
    requires ws[|acts|].sync.tasks[t].box !in ws[|acts|].disk.boxes
    ensures var w := ws[|acts|];
            FreshAt(w, w.sync.tasks[t].box, tick) ==> Functional(FinishSync(w, t, now, at, tick).hist.issued)
    ensures var w := ws[|acts|];
            FreshAt(w, w.sync.tasks[t].box, tick) <==>
            forall m: Listed :: m.id != "" && WellFormedListed(KindOf(w.sync.tasks[t].box.view), m) ==>
              FinishKeepsNames(TakeListed(w, t, m, now), t, now, at, tick)
  {
    hide FreshRun, FinishSync, TakeListed, Named, Functional, FirstIssued, Basic, WellFormedListed, Unissued;
    var w := ws[|acts|];
    assert Run(ws, acts) by { FreshIsRun(ws, acts); }
    NamedAlways(ws, acts, |acts|);
    FirstIssuedAlways(ws, acts, |acts|);
    BasicAlways(ws, acts, |acts|);
    if FreshAt(w, w.sync.tasks[t].box, tick) {
      FinishNamed(w, t, now, at, tick);
      forall m: Listed | m.id != ""
        ensures FinishKeepsNames(TakeListed(w, t, m, now), t, now, at, tick) {
        TakenStays(w, t, m, now);
        FinishNamed(TakeListed(w, t, m, now), t, now, at, tick);
      }
    } else {
      var m := StaleRebinds(w, t, now, at, tick);
    }
  }

  lemma FreshIsRun(ws: seq<World>, acts: seq<Action>)
    requires FreshRun(ws, acts)
    ensures Run(ws, acts)
  {
  }
}
