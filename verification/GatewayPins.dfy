/** Pins hold: what we created stays visible under its UID until a listing shows it. */
module GatewayPins {
  import opened Types
  import opened UidStores
  import opened Mailboxes
  import opened Reconciling
  import opened Gateway
  import opened GatewayStore

  ghost predicate HasPin(s: Service, b: Box, key: string) {
    exists p :: p in s.Pins(b) && p.entry.key == key
  }

  /** The key is pinned, and `uid` is its live UID. */
  ghost predicate Anchored(w: World, b: Box, key: string, uid: nat) {
    HasPin(w.svc, b, key) && key in w.disk.Live(b) && w.disk.Live(b)[key] == uid
  }

  /** What ends a pin: a listing that shows the key, its expiry at a reconcile, an unpin, a restart. */
  ghost predicate Releases(w: World, a: Action, b: Box, key: string)
    requires Enabled(w, a)
  {
    match a
    case Finish(t, now, _, _) =>
      && w.sync.tasks[t].box == b
      && (|| key in KeySet(w.sync.tasks[t].phase.got.entries)
          || exists p :: p in w.svc.Pins(b) && p.entry.key == key && p.expires < now)
    case Unpin(c, k) => c == b && k == key
    case Restart(_) => true
    case _ => false
  }

  /** APPEND to Drafts and COPY to Trash can pin whatever they created as soon as the mailbox has a snapshot, and
      leave it anchored under the UID they answer, for two minutes. */
  lemma PinAnchors(w: World, b: Box, e: Entry, now: real, tick: Tick)
    requires Basic(w) && (b.view == DraftsView || b.view == TrashView)
    ensures b in w.svc.latest ==> Enabled(w, PinNew(b, e, now, tick))
    ensures e.key in PinSync(w, b, e, now, tick).disk.Live(b)
    ensures Anchored(PinSync(w, b, e, now, tick), b, e.key, PinSync(w, b, e, now, tick).disk.Live(b)[e.key])
    ensures Pin(e, now + 120.0) in PinSync(w, b, e, now, tick).svc.Pins(b)
    ensures forall p :: p in PinSync(w, b, e, now, tick).svc.Pins(b) && p.entry.key == e.key ==>
              p == Pin(e, now + 120.0)
  {
    PinLive(w.disk, b, e, tick);
    assert PinsSoundAt(w.disk.Live(b), b, w.svc.Pins(b));
    SetPinIs(w.svc.Pins(b), Pin(e, now + PIN_TTL));
    assert Pin(e, now + PIN_TTL) in PinSync(w, b, e, now, tick).svc.Pins(b);
  }

  /** A reconcile that does not release the pin publishes the item under the same UID. */
  lemma FinishAnchors(w: World, t: nat, now: real, at: real, tick: Tick, key: string, uid: nat)
    requires Basic(w) && w.sync.IsListing(t) && Anchored(w, w.sync.tasks[t].box, key, uid)
    requires !Releases(w, Finish(t, now, at, tick), w.sync.tasks[t].box, key)
    ensures Anchored(FinishSync(w, t, now, at, tick), w.sync.tasks[t].box, key, uid)
    ensures ReconcileSnapshot(w.disk, w.svc, w.sync.tasks[t].box, w.sync.tasks[t].phase.got.entries, now, at,
            tick).Names(uid, key)
  {
    var b, listed := w.sync.tasks[t].box, w.sync.tasks[t].phase.got.entries;
    var p :| p in w.svc.Pins(b) && p.entry.key == key;
    PinPublished(w, t, now, at, tick, p);
    KeptAre(w.svc.Pins(b), KeySet(listed), now);
    assert p in KeptPins(w.svc.Pins(b), KeySet(listed), now);
    ReconcileKeepsUid(w, t, now, at, tick, key);
    var snap := ReconcileSnapshot(w.disk, w.svc, b, listed, now, at, tick);
    var i :| 0 <= i < |snap.items| && snap.items[i] == p.entry.Build(uid);
    assert snap.items[i].uid == uid && snap.items[i].key == key;
  }

  lemma ReconcileKeepsUid(w: World, t: nat, now: real, at: real, tick: Tick, key: string)
    requires Basic(w) && w.sync.IsListing(t) && key in w.disk.Live(w.sync.tasks[t].box)
    requires key in FinishSync(w, t, now, at, tick).disk.Live(w.sync.tasks[t].box)
    ensures FinishSync(w, t, now, at, tick).disk.Live(w.sync.tasks[t].box)[key] == w.disk.Live(w.sync.tasks[t].box)[key]
  {
    ListedDistinct(w, t);
    ReconcileExact(w.disk, w.svc, w.sync.tasks[t].box, w.sync.tasks[t].phase.got.entries, now, at, tick);
  }

  lemma FinishKeepsPins(w: World, t: nat, now: real, at: real, tick: Tick, b: Box)
    requires w.sync.IsListing(t) && w.sync.tasks[t].box != b
    ensures FinishSync(w, t, now, at, tick).svc.Pins(b) == w.svc.Pins(b)
  {
    hide ReconcileDisk, ReconcileSnapshot, KeptPins, Bindings;
  }

  lemma FinishElsewhere(w: World, t: nat, now: real, at: real, tick: Tick, b: Box, key: string, uid: nat)
    requires w.disk.Valid() && w.sync.IsListing(t) && w.sync.tasks[t].box != b && Anchored(w, b, key, uid)
    ensures Anchored(FinishSync(w, t, now, at, tick), b, key, uid)
  {
    hide ReconcileSnapshot, ReconcileService;
    var c := w.sync.tasks[t].box;
    AssignedFrame(w.disk, c, Ordered(w.svc.Pins(c), w.sync.tasks[t].phase.got.entries, now), tick);
    hide Assigned, Ordered;
    FinishKeepsPins(w, t, now, at, tick, b);
  }

  lemma PinKeepsAnchor(w: World, c: Box, e: Entry, now: real, tick: Tick, b: Box, key: string, uid: nat)
    requires Basic(w) && Anchored(w, b, key, uid)
    ensures Anchored(PinSync(w, c, e, now, tick), b, key, uid)
  {
    hide Basic, PinnedDisk, SetPin, Bindings, OthersKept, HasPin, DistinctPins;
    BasicPins(w, b);
    PinLive(w.disk, c, e, tick);
    if c == b {
      SetPinKeeps(w.svc, b, e, now, key);
    } else {
      LiveElsewhere(w.disk, PinnedDisk(w.disk, c, e, tick), c, b);
      assert Pinned(w.svc, c, e, now).Pins(b) == w.svc.Pins(b);
      SamePins(w.svc, Pinned(w.svc, c, e, now), b, key);
    }
  }

  lemma BasicPins(w: World, b: Box)
    requires Basic(w)
    ensures w.disk.Valid() && DistinctPins(w.svc.Pins(b))
  {
    assert PinsSoundAt(w.disk.Live(b), b, w.svc.Pins(b));
  }

  lemma LiveElsewhere(d: Disk, d': Disk, c: Box, b: Box)
    requires OthersKept(d, d', c) && b != c
    ensures d'.Live(b) == d.Live(b)
  {
  }

  lemma SamePins(s: Service, s': Service, b: Box, key: string)
    requires HasPin(s, b, key) && s'.Pins(b) == s.Pins(b)
    ensures HasPin(s', b, key)
  {
  }

  lemma SetPinKeeps(s: Service, b: Box, e: Entry, now: real, key: string)
    requires HasPin(s, b, key) && DistinctPins(s.Pins(b))
    ensures HasPin(Pinned(s, b, e, now), b, key)
  {
    hide SetPin, DistinctPins;
    var p :| p in s.Pins(b) && p.entry.key == key;
    var q := Pin(e, now + PIN_TTL);
    SetPinIs(s.Pins(b), q);
    assert (if e.key == key then q else p) in SetPin(s.Pins(b), q);
  }

  lemma UnpinKeepsAnchor(s: Service, c: Box, k: string, b: Box, key: string)
    requires DistinctPins(s.Pins(c)) && HasPin(s, b, key) && !(c == b && k == key)
    ensures HasPin(s.WithPins(c, RemovePin(s.Pins(c), k)), b, key)
  {
    var p :| p in s.Pins(b) && p.entry.key == key;
    RemovePinIs(s.Pins(c), k);
    assert p in s.WithPins(c, RemovePin(s.Pins(c), k)).Pins(b);
  }

  lemma AnchorStep(w: World, a: Action, b: Box, key: string, uid: nat)
    requires Basic(w) && Enabled(w, a) && Anchored(w, b, key, uid) && !Releases(w, a, b, key)
    ensures Anchored(Next(w, a), b, key, uid)
  {
    if a.Finish? {
      if w.sync.tasks[a.t].box == b {
        FinishAnchors(w, a.t, a.now, a.at, a.tick, key, uid);
      } else {
        FinishElsewhere(w, a.t, a.now, a.at, a.tick, b, key, uid);
      }
    } else if a.PinNew? {
      PinKeepsAnchor(w, a.box, a.e, a.now, a.tick, b, key, uid);
    } else if a.Unpin? {
      assert PinsSoundAt(w.disk.Live(a.box), a.box, w.svc.Pins(a.box));
      UnpinKeepsAnchor(w.svc, a.box, a.key, b, key);
    } else {
      OtherAnchor(w, a, b);
    }
  }

  lemma OtherAnchor(w: World, a: Action, b: Box)
    requires Enabled(w, a) && !a.Finish? && !a.PinNew? && !a.Unpin? && !a.Restart?
    ensures Next(w, a).svc.Pins(b) == w.svc.Pins(b) && Next(w, a).disk.Live(b) == w.disk.Live(b)
  {
  }

  lemma {:induction false} AnchoredAlong(ws: seq<World>, acts: seq<Action>, i: nat, j: nat, b: Box, key: string,
      uid: nat)
    requires Run(ws, acts) && i <= j < |ws| && Anchored(ws[i], b, key, uid)
    requires forall k :: i <= k < j ==> !Releases(ws[k], acts[k], b, key)
    ensures Anchored(ws[j], b, key, uid)
  {
    hide Next, Enabled, Anchored, Releases;
    if i < j {
      RunStep(ws, acts, j - 1);
      AnchoredAlong(ws, acts, i, j - 1, b, key, uid);
      BasicAlways(ws, acts, j - 1);
      AnchorStep(ws[j-1], acts[j-1], b, key, uid);
    }
  }

  /** From the state after step `i` pinned an item until a step that releases the pin, every reconcile
      of its mailbox publishes the item under the UID that was answered, whatever its listing omits and
      whenever that listing began. */
  lemma PinsHold(ws: seq<World>, acts: seq<Action>, i: nat, j: nat)
    requires Run(ws, acts) && i < j < |acts| && acts[i].PinNew?
    requires acts[j].Finish? && ws[j].sync.tasks[acts[j].t].box == acts[i].box
    requires forall k :: i < k <= j ==> !Releases(ws[k], acts[k], acts[i].box, acts[i].e.key)
    ensures var b, key := acts[i].box, acts[i].e.key;
            && key in ws[i+1].disk.Live(b)
            && Anchored(ws[j+1], b, key, ws[i+1].disk.Live(b)[key])
            && |ws[j+1].hist.published| == |ws[j].hist.published| + 1
            && ws[j+1].hist.published[|ws[j].hist.published|].snap.Names(ws[i+1].disk.Live(b)[key], key)
  {
    var b, e := acts[i].box, acts[i].e;
    BasicAlways(ws, acts, i);
    PinAnchors(ws[i], b, e, acts[i].now, acts[i].tick);
    var uid := ws[i+1].disk.Live(b)[e.key];
    AnchoredAlong(ws, acts, i + 1, j, b, e.key, uid);
    BasicAlways(ws, acts, j);
    FinishAnchors(ws[j], acts[j].t, acts[j].now, acts[j].at, acts[j].tick, e.key, uid);
  }

  // ----- for two minutes ------------------------------------------------------------------------------------

  /** Every pin of the key lasts until `limit` at least. */
  ghost predicate LastsUntil(s: Service, b: Box, key: string, limit: real) {
    forall p :: p in s.Pins(b) && p.entry.key == key ==> limit <= p.expires
  }

  /** What ends a pin before its time: a listing that shows the key, an unpin, a restart, and a second pin of the key
      set by a clock that was put back. */
  ghost predicate Cuts(w: World, a: Action, b: Box, key: string, limit: real)
    requires Enabled(w, a)
  {
    match a
    case Finish(t, _, _, _) => w.sync.tasks[t].box == b && key in KeySet(w.sync.tasks[t].phase.got.entries)
    case Unpin(c, k) => c == b && k == key
    case PinNew(c, e, now, _) => c == b && e.key == key && now + 120.0 < limit
    case Restart(_) => true
    case _ => false
  }

  lemma LastsStep(w: World, a: Action, b: Box, key: string, limit: real)
    requires Basic(w) && Enabled(w, a) && LastsUntil(w.svc, b, key, limit) && !Cuts(w, a, b, key, limit)
    ensures LastsUntil(Next(w, a).svc, b, key, limit)
  {
    hide Basic, SetPin, RemovePin, KeptPins;
    if a.Finish? {
      if w.sync.tasks[a.t].box == b {
        FinishLasts(w, a, b, key, limit);
      } else {
        FinishKeepsPins(w, a.t, a.now, a.at, a.tick, b);
      }
    } else if a.PinNew? {
      PinLasts(w, a, b, key, limit);
    } else if a.Unpin? {
      UnpinLasts(w, a, b, key, limit);
    } else {
      OtherAnchor(w, a, b);
    }
  }

  lemma FinishLasts(w: World, a: Action, b: Box, key: string, limit: real)
    requires Enabled(w, a) && a.Finish? && w.sync.tasks[a.t].box == b && LastsUntil(w.svc, b, key, limit)
    ensures LastsUntil(Next(w, a).svc, b, key, limit)
  {
    hide KeptPins, ReconcileDisk, ReconcileSnapshot, Bindings;
    KeptAre(w.svc.Pins(b), KeySet(w.sync.tasks[a.t].phase.got.entries), a.now);
    assert Next(w, a).svc.Pins(b) == KeptPins(w.svc.Pins(b), KeySet(w.sync.tasks[a.t].phase.got.entries), a.now);
  }

  lemma PinLasts(w: World, a: Action, b: Box, key: string, limit: real)
    requires Basic(w) && Enabled(w, a) && a.PinNew? && LastsUntil(w.svc, b, key, limit)
    requires !(a.box == b && a.e.key == key && a.now + 120.0 < limit)
    ensures LastsUntil(Next(w, a).svc, b, key, limit)
  {
    hide Basic, SetPin, PinnedDisk, Bindings, DistinctPins;
    BasicPins(w, b);
    SetPinIs(w.svc.Pins(b), Pin(a.e, a.now + PIN_TTL));
  }

  lemma UnpinLasts(w: World, a: Action, b: Box, key: string, limit: real)
    requires Basic(w) && Enabled(w, a) && a.Unpin? && LastsUntil(w.svc, b, key, limit)
    ensures LastsUntil(Next(w, a).svc, b, key, limit)
  {
    hide Basic, RemovePin, DistinctPins;
    BasicPins(w, b);
    RemovePinIs(w.svc.Pins(b), a.key);
  }

  lemma {:induction false} LastsAlong(ws: seq<World>, acts: seq<Action>, i: nat, j: nat, b: Box, key: string,
      limit: real)
    requires Run(ws, acts) && i <= j < |ws| && LastsUntil(ws[i].svc, b, key, limit)
    requires forall k :: i <= k < j ==> !Cuts(ws[k], acts[k], b, key, limit)
    ensures LastsUntil(ws[j].svc, b, key, limit)
  {
    hide Next, Enabled, LastsUntil, Cuts;
    if i < j {
      RunStep(ws, acts, j - 1);
      LastsAlong(ws, acts, i, j - 1, b, key, limit);
      BasicAlways(ws, acts, j - 1);
      LastsStep(ws[j-1], acts[j-1], b, key, limit);
    }
  }

  /** For two minutes after an item was pinned, every reconcile of its mailbox publishes it under the UID that was
      answered, until a listing shows it, it is unpinned, or the server is restarted. */
  lemma PinsHoldTwoMinutes(ws: seq<World>, acts: seq<Action>, i: nat, j: nat)
    requires Run(ws, acts) && i < j < |acts| && acts[i].PinNew?
    requires acts[j].Finish? && ws[j].sync.tasks[acts[j].t].box == acts[i].box
    requires forall k :: i < k <= j ==> !Cuts(ws[k], acts[k], acts[i].box, acts[i].e.key, acts[i].now + 120.0)
    requires forall k :: i < k <= j && acts[k].Finish? ==> acts[k].now <= acts[i].now + 120.0
    ensures var b, key := acts[i].box, acts[i].e.key;
            && key in ws[i+1].disk.Live(b)
            && |ws[j].hist.published| < |ws[j+1].hist.published|
            && ws[j+1].hist.published[|ws[j].hist.published|].snap.Names(ws[i+1].disk.Live(b)[key], key)
  {
    var b, key, limit := acts[i].box, acts[i].e.key, acts[i].now + 120.0;
    BasicAlways(ws, acts, i);
    PinAnchors(ws[i], b, acts[i].e, acts[i].now, acts[i].tick);
    forall k | i < k <= j ensures !Releases(ws[k], acts[k], b, key) {
      LastsAlong(ws, acts, i + 1, k, b, key, limit);
      NotReleased(ws[k], acts[k], b, key, limit);
    }
    PinsHold(ws, acts, i, j);
  }

  lemma NotReleased(w: World, a: Action, b: Box, key: string, limit: real)
    requires Enabled(w, a) && LastsUntil(w.svc, b, key, limit) && !Cuts(w, a, b, key, limit)
    requires a.Finish? ==> a.now <= limit
    ensures !Releases(w, a, b, key)
  {
  }

  /** An unpin releases exactly the pin of its key. */
  lemma UnpinReleases(ws: seq<World>, acts: seq<Action>, i: nat)
    requires Run(ws, acts) && i < |acts| && acts[i].Unpin?
    ensures var b, key := acts[i].box, acts[i].key;
            && (forall p :: p in ws[i+1].svc.Pins(b) <==> p in ws[i].svc.Pins(b) && p.entry.key != key)
            && forall c :: c != b ==> ws[i+1].svc.Pins(c) == ws[i].svc.Pins(c)
  {
    hide Next, Enabled, Basic;
    RunStep(ws, acts, i);
    BasicAlways(ws, acts, i);
    Unpins(ws[i], acts[i].box, acts[i].key);
  }

  lemma Unpins(w: World, b: Box, key: string)
    requires Basic(w)
    ensures var v := Next(w, Unpin(b, key));
            && (forall p :: p in v.svc.Pins(b) <==> p in w.svc.Pins(b) && p.entry.key != key)
            && forall c :: c != b ==> v.svc.Pins(c) == w.svc.Pins(c)
  {
    assert PinsSoundAt(w.disk.Live(b), b, w.svc.Pins(b));
    hide Basic, RemovePin;
    RemovePinIs(w.svc.Pins(b), key);
  }
}
