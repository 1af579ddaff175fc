/** What every action keeps about the store, the listings in progress and the pins. */
module GatewayStore {
  import opened Types
  import opened Sorting
  import opened UidStores
  import opened Mailboxes
  import opened Reconciling
  import opened Gateway

  // ----- one mailbox only ever grows -----------------------------------------------------------------

  /** Later rows of a mailbox: rows below the old frontier are the old rows, in place or tombstoned. */
  ghost predicate Extends(m: Mailbox, m': Mailbox) {
    && m'.uidvalidity == m.uidvalidity && m.nextUid <= m'.nextUid
    && (forall k :: k in m'.live ==> (k in m.live && m'.live[k] == m.live[k]) || m.nextUid <= m'.live[k])
    && (forall uid, key :: m.Binds(uid, key) ==> m'.Binds(uid, key))
    && (forall r :: r in m'.dead ==> m.Binds(r.uid, r.key))
  }

  lemma {:induction false} AllocateExtends(m: Mailbox, keys: seq<string>)
    requires m.Valid()
    ensures Extends(m, AllocateAll(m, keys)) && AllocateAll(m, keys).dead == m.dead
    ensures forall k :: k in m.live ==> k in AllocateAll(m, keys).live && AllocateAll(m, keys).live[k] == m.live[k]
  {
    hide Extends, Allocate;
    if keys == [] {
      ExtendsItself(m);
    } else {
      var front := AllocateAll(m, keys[..|keys|-1]);
      AllocateExtends(m, keys[..|keys|-1]);
      AllocateOneExtends(m, front, keys[|keys|-1]);
      AllocateKeeps(front, keys[|keys|-1]);
    }
  }

  lemma ExtendsItself(m: Mailbox)
    requires m.Valid()
    ensures Extends(m, m)
  {
  }

  lemma AllocateKeeps(m: Mailbox, key: string)
    ensures Allocate(m, key).dead == m.dead
    ensures forall k :: k in m.live ==> k in Allocate(m, key).live && Allocate(m, key).live[k] == m.live[k]
  {
  }

  lemma AllocateOneExtends(m: Mailbox, mid: Mailbox, key: string)
    requires Extends(m, mid)
    ensures Extends(m, Allocate(mid, key))
  {
    assert forall uid, k :: mid.Binds(uid, k) ==> Allocate(mid, key).Binds(uid, k);
  }

  lemma BuryExtends(m: Mailbox, all: Mailbox, present: set<string>)
    requires Extends(m, all) && all.dead == m.dead
    requires forall k :: k in all.live && k !in m.live ==> k in present
    requires forall k :: k in m.live ==> k in all.live && all.live[k] == m.live[k]
    ensures Extends(m, Bury(all, present))
  {
    var r := Bury(all, present);
    forall uid, key | m.Binds(uid, key) ensures r.Binds(uid, key) {
      if key in m.live && m.live[key] == uid && key !in present {
        assert Row(uid, key) in r.dead;
      }
    }
    forall x | x in r.dead ensures m.Binds(x.uid, x.key) {
      if x !in m.dead {
        assert x.key in all.live && x.key !in present;
      }
    }
  }

  lemma ReconcileExtends(m: Mailbox, entries: seq<Entry>)
    requires m.Valid()
    ensures Extends(m, After(m, entries)) && After(m, entries).Valid()
  {
    AllocateExtends(m, Keys(entries));
    AllocateAllExact(m, Keys(entries));
    BuryExtends(m, AllocateAll(m, Keys(entries)), KeySet(entries));
  }

  // ----- the effect of an action on the tables ----------------------------------------------------------

  /** The mailbox whose rows an action may change, and the environment of that change. */
  datatype Touch = Nothing | Rows(box: Box, tick: Tick)

  ghost function Touches(w: World, a: Action): Touch
    requires Enabled(w, a)
  {
    match a
    case Finish(t, _, _, tick) => Rows(w.sync.tasks[t].box, tick)
    case PinNew(b, _, _, tick) => Rows(b, tick)
    case _ => Nothing
  }

  /** From `d` to `d'` only the mailbox `b` changed, and it grew from its row as first created. */
  ghost predicate GrowsAt(d: Disk, d': Disk, b: Box, t: Tick) {
    && b in d'.boxes && d'.Valid() && OthersKept(d, d', b)
    && Extends(Before(d, b, t), d'.boxes[b])
    && d'.watermark == EnsureMailbox(d, b, t).watermark
  }

  lemma PinGrows(d: Disk, b: Box, e: Entry, t: Tick)
    requires d.Valid()
    ensures GrowsAt(d, PinnedDisk(d, b, e, t), b, t)
    ensures e.key in PinnedDisk(d, b, e, t).boxes[b].live
  {
    var m := Before(d, b, t);
    PinnedIsLive(d, b, e, t);
    AllocateExtends(m, [e.key]);
    hide AllocateAll, Extends;
    PinFrame(d, b, e, t);
  }

  lemma PinFrame(d: Disk, b: Box, e: Entry, t: Tick)
    ensures var d' := PinnedDisk(d, b, e, t);
            && OthersKept(d, d', b) && b in d'.boxes && d'.boxes[b] == AllocateAll(Before(d, b, t), [e.key])
            && d'.watermark == EnsureMailbox(d, b, t).watermark && (d.Valid() ==> d'.Valid())
  {
    hide AllocateAll, EnsureMailbox, Disk.Valid;
    EnsureFrame(d, b, t);
  }

  lemma EnsureFrame(d: Disk, b: Box, t: Tick)
    ensures OthersKept(d, EnsureMailbox(d, b, t), b)
  {
  }

  lemma ReconcileGrows(d: Disk, s: Service, b: Box, listed: seq<Entry>, now: real, t: Tick)
    requires d.Valid()
    ensures GrowsAt(d, ReconcileDisk(d, s, b, listed, now, t), b, t)
  {
    var entries := Ordered(s.Pins(b), listed, now);
    AssignedFrame(d, b, entries, t);
    ReconcileExtends(Before(d, b, t), entries);
  }

  /** Rows change only as `Touches` says, and otherwise only by losing the whole database. */
  lemma DiskStep(w: World, a: Action)
    requires Enabled(w, a) && w.disk.Valid()
    ensures Next(w, a).disk.Valid()
    ensures match Touches(w, a)
            case Rows(b, t) => GrowsAt(w.disk, Next(w, a).disk, b, t)
                && Next(w, a).hist.issued == w.hist.issued + Bindings(Next(w, a).disk, b)
            case Nothing =>
              && Next(w, a).hist.issued == w.hist.issued && Next(w, a).disk.watermark == w.disk.watermark
              && Next(w, a).disk.boxes == (if a == Restart(true) then map[] else w.disk.boxes)
  {
    if a.Finish? {
      ReconcileGrows(w.disk, w.svc, w.sync.tasks[a.t].box, w.sync.tasks[a.t].phase.got.entries, a.now, a.tick);
    } else if a.PinNew? {
      PinGrows(w.disk, a.box, a.e, a.tick);
    }
  }

  // ----- listings name each key once -----------------------------------------------------------------

  /** An entry's key determines its id: the id itself, or the id with seventeen characters appended. */
  ghost predicate KeyedBy(kind: Kind, e: Entry) {
    match kind
    case Messages => e.key == e.id
    case Drafts => |e.key| == |e.id| + 17 && e.key[..|e.id|] == e.id
  }

  ghost predicate Tidy(kind: Kind, got: Collected) {
    && DistinctIds(got.entries)
    && forall i :: 0 <= i < |got.entries| ==> got.entries[i].id in got.seen && KeyedBy(kind, got.entries[i])
  }

  lemma TidyKeys(kind: Kind, got: Collected)
    requires Tidy(kind, got)
    ensures DistinctKeys(got.entries)
  {
    forall i, j | 0 <= i < |got.entries| && 0 <= j < |got.entries| && i != j
      ensures got.entries[i].key != got.entries[j].key {
      assert KeyedBy(kind, got.entries[i]) && KeyedBy(kind, got.entries[j]);
    }
  }

  lemma ConsumeTidy(b: Box, c: Collected, holds: map<Msg, Hold>, m: Listed, now: real)
    requires Tidy(KindOf(b.view), c) && WellFormedListed(KindOf(b.view), m)
    ensures Tidy(KindOf(b.view), Consume(b, c, holds, m, now).0)
  {
    if m.id !in c.seen && KindOf(b.view) == Drafts && m.content.Some? {
      assert ContentKey(m.id, m.content.value)[..|m.id|] == m.id;
    }
  }

  // ----- pins ------------------------------------------------------------------------------------------

  lemma {:induction false} SetPinIs(pins: seq<Pin>, p: Pin)
    requires DistinctPins(pins)
    ensures DistinctPins(SetPin(pins, p))
    ensures forall q :: q in SetPin(pins, p) <==> q == p || (q in pins && q.entry.key != p.entry.key)
  {
    if pins == [] {
    } else {
      DistinctTail(pins);
      assert pins == [pins[0]] + pins[1..];
      if pins[0].entry.key == p.entry.key {
        DistinctCons(p, pins[1..]);
      } else {
        SetPinIs(pins[1..], p);
        DistinctCons(pins[0], SetPin(pins[1..], p));
      }
    }
  }

  lemma {:induction false} RemovePinIs(pins: seq<Pin>, key: string)
    requires DistinctPins(pins)
    ensures DistinctPins(RemovePin(pins, key))
    ensures forall q :: q in RemovePin(pins, key) <==> q in pins && q.entry.key != key
  {
    if pins != [] {
      DistinctTail(pins);
      assert pins == [pins[0]] + pins[1..];
      if pins[0].entry.key != key {
        RemovePinIs(pins[1..], key);
        DistinctCons(pins[0], RemovePin(pins[1..], key));
      }
    }
  }

  lemma DistinctTail(pins: seq<Pin>)
    requires pins != [] && DistinctPins(pins)
    ensures DistinctPins(pins[1..])
    ensures forall q :: q in pins[1..] ==> q.entry.key != pins[0].entry.key
  {
    var f := pins[1..];
    assert forall i :: 0 <= i < |f| ==> PinEntries(f)[i] == PinEntries(pins)[i + 1];
    forall q | q in f ensures q.entry.key != pins[0].entry.key {
      var i :| 0 <= i < |f| && f[i] == q;
      assert PinEntries(pins)[i + 1].key != PinEntries(pins)[0].key;
    }
  }

  lemma DistinctCons(p: Pin, pins: seq<Pin>)
    requires DistinctPins(pins) && forall q :: q in pins ==> q.entry.key != p.entry.key
    ensures DistinctPins([p] + pins)
  {
    assert PinEntries([p] + pins) == [p.entry] + PinEntries(pins);
    assert forall i :: 0 <= i < |pins| ==> pins[i] in pins;
  }

  /** Each pinned key of a mailbox is pinned once and has a live UID; only Drafts and Trash have pins. */
  ghost predicate PinsSoundAt(live: map<string, nat>, b: Box, pins: seq<Pin>) {
    && DistinctPins(pins)
    && (forall p :: p in pins ==> p.entry.key in live)
    && (pins != [] ==> Pinnable(b))
  }

  ghost predicate PinsSound(d: Disk, s: Service) {
    forall b :: PinsSoundAt(d.Live(b), b, s.Pins(b))
  }

  ghost predicate ListingsTidy(y: Syncs) {
    forall t :: y.IsListing(t) ==> Tidy(KindOf(y.tasks[t].box.view), y.tasks[t].phase.got)
  }

  ghost predicate Basic(w: World) {
    w.disk.Valid() && ListingsTidy(w.sync) && PinsSound(w.disk, w.svc)
  }

  lemma ListedDistinct(w: World, t: nat)
    requires Basic(w) && w.sync.IsListing(t)
    ensures DistinctKeys(w.sync.tasks[t].phase.got.entries) && DistinctPins(w.svc.Pins(w.sync.tasks[t].box))
  {
    TidyKeys(KindOf(w.sync.tasks[t].box.view), w.sync.tasks[t].phase.got);
    assert PinsSoundAt(w.disk.Live(w.sync.tasks[t].box), w.sync.tasks[t].box, w.svc.Pins(w.sync.tasks[t].box));
  }

  lemma TidySync(y: Syncs, s: Service, lastPub: map<Box, nat>, x: SyncAction)
    requires ListingsTidy(y) && SyncEnabled(y, x)
    ensures ListingsTidy(SyncNext(y, s, lastPub, x))
  {
    var y' := SyncNext(y, s, lastPub, x);
    forall t | y'.IsListing(t) ensures Tidy(KindOf(y'.tasks[t].box.view), y'.tasks[t].phase.got) {
      assert (y.IsListing(t) && y'.tasks[t] == y.tasks[t]) || y'.tasks[t].phase.got == Collected({}, []);
    }
  }

  lemma TidyPhase(y: Syncs, t: nat, p: Phase)
    requires ListingsTidy(y) && t in y.tasks && (p.Listing? ==> Tidy(KindOf(y.tasks[t].box.view), p.got))
    ensures ListingsTidy(y.SetPhase(t, p))
  {
    var y' := y.SetPhase(t, p);
    forall u | y'.IsListing(u) ensures Tidy(KindOf(y'.tasks[u].box.view), y'.tasks[u].phase.got) {
      assert u != t ==> y.IsListing(u);
    }
  }

  lemma TidyStep(w: World, a: Action)
    requires ListingsTidy(w.sync) && Enabled(w, a)
    ensures ListingsTidy(Next(w, a).sync)
  {
    match a {
      case Sync(x) => TidySync(w.sync, w.svc, w.hist.lastPub, x);
      case Take(t, m, now) =>
        var task := w.sync.tasks[t];
        assert Tidy(KindOf(task.box.view), task.phase.got);
        ConsumeTidy(task.box, task.phase.got, w.svc.holds, m, now);
        TidyPhase(w.sync, t, Next(w, a).sync.tasks[t].phase);
      case Finish(t, _, _, _) => TidyPhase(w.sync, t, Next(w, a).sync.tasks[t].phase);
      case _ =>
    }
  }

  /** A change at one mailbox leaves the pins of the others sound. */
  lemma PinsElsewhere(d: Disk, d': Disk, s: Service, s': Service, b: Box)
    requires PinsSound(d, s) && OthersKept(d, d', b)
    requires forall c :: c != b ==> s'.Pins(c) == s.Pins(c)
    requires PinsSoundAt(d'.Live(b), b, s'.Pins(b))
    ensures PinsSound(d', s')
  {
    forall c ensures PinsSoundAt(d'.Live(c), c, s'.Pins(c)) {
      if c != b {
        assert PinsSoundAt(d.Live(c), c, s.Pins(c)) && d'.Live(c) == d.Live(c);
      }
    }
  }

  lemma PinLive(d: Disk, b: Box, e: Entry, t: Tick)
    requires d.Valid()
    ensures OthersKept(d, PinnedDisk(d, b, e, t), b) && e.key in PinnedDisk(d, b, e, t).Live(b)
    ensures var live := PinnedDisk(d, b, e, t).Live(b);
            forall k :: k in d.Live(b) ==> k in live && live[k] == d.Live(b)[k]
  {
    hide AllocateAll, PinnedDisk, Extends;
    PinnedIsLive(d, b, e, t);
    PinFrame(d, b, e, t);
    AllocateExtends(Before(d, b, t), [e.key]);
  }

  lemma PinKeepsSound(d: Disk, s: Service, b: Box, e: Entry, now: real, tick: Tick)
    requires d.Valid() && PinsSound(d, s) && Pinnable(b)
    ensures PinsSound(PinnedDisk(d, b, e, tick), Pinned(s, b, e, now))
  {
    assert PinsSoundAt(d.Live(b), b, s.Pins(b));
    PinLive(d, b, e, tick);
    var d', s' := PinnedDisk(d, b, e, tick), Pinned(s, b, e, now);
    assert PinsSoundAt(d'.Live(b), b, s'.Pins(b)) by {
      SetPinIs(s.Pins(b), Pin(e, now + PIN_TTL));
    }
    PinsElsewhere(d, d', s, s', b);
  }

  lemma FinishKeepsSound(w: World, t: nat, now: real, at: real, tick: Tick)
    requires Basic(w) && w.sync.IsListing(t)
    ensures PinsSound(FinishSync(w, t, now, at, tick).disk, FinishSync(w, t, now, at, tick).svc)
  {
    var b, listed := w.sync.tasks[t].box, w.sync.tasks[t].phase.got.entries;
    var d', s' := ReconcileDisk(w.disk, w.svc, b, listed, now, tick),
        ReconcileService(w.disk, w.svc, b, listed, now, at, tick);
    var kept := KeptPins(w.svc.Pins(b), KeySet(listed), now);
    assert s'.Pins(b) == kept && forall c :: c != b ==> s'.Pins(c) == w.svc.Pins(c);
    assert OthersKept(w.disk, d', b) by { AssignedFrame(w.disk, b, Ordered(w.svc.Pins(b), listed, now), tick); }
    assert PinsSoundAt(d'.Live(b), b, kept) by { KeptSound(w, t, now, at, tick); }
    PinsElsewhere(w.disk, d', w.svc, s', b);
  }

  lemma KeptSound(w: World, t: nat, now: real, at: real, tick: Tick)
    requires Basic(w) && w.sync.IsListing(t)
    ensures var b, listed := w.sync.tasks[t].box, w.sync.tasks[t].phase.got.entries;
            PinsSoundAt(ReconcileDisk(w.disk, w.svc, b, listed, now, tick).Live(b), b,
                KeptPins(w.svc.Pins(b), KeySet(listed), now))
  {
    var b, listed := w.sync.tasks[t].box, w.sync.tasks[t].phase.got.entries;
    var kept := KeptPins(w.svc.Pins(b), KeySet(listed), now);
    assert PinsSoundAt(w.disk.Live(b), b, w.svc.Pins(b));
    KeptAre(w.svc.Pins(b), KeySet(listed), now);
    assert kept != [] ==> kept[0] in kept;
    forall p | p in kept ensures p.entry.key in ReconcileDisk(w.disk, w.svc, b, listed, now, tick).Live(b) {
      PinPublished(w, t, now, at, tick, p);
    }
  }

  /** A surviving pin takes part in the reconcile: its item is published under its live UID. */
  lemma PinPublished(w: World, t: nat, now: real, at: real, tick: Tick, p: Pin)
    requires Basic(w) && w.sync.IsListing(t)
    requires p in w.svc.Pins(w.sync.tasks[t].box) && Kept(p, KeySet(w.sync.tasks[t].phase.got.entries), now)
    ensures var b, listed := w.sync.tasks[t].box, w.sync.tasks[t].phase.got.entries;
            var live := ReconcileDisk(w.disk, w.svc, b, listed, now, tick).Live(b);
            && p.entry.key in live
            && p.entry.Build(live[p.entry.key]) in ReconcileSnapshot(w.disk, w.svc, b, listed, now, at, tick).items
  {
    var b, listed := w.sync.tasks[t].box, w.sync.tasks[t].phase.got.entries;
    ListedDistinct(w, t);
    OrderedIs(w.svc.Pins(b), listed, now);
    EntryPublished(w.disk, w.svc, b, listed, now, at, tick, p.entry);
  }

  lemma UnpinKeepsSound(d: Disk, s: Service, b: Box, key: string)
    requires PinsSound(d, s)
    ensures PinsSound(d, s.WithPins(b, RemovePin(s.Pins(b), key)))
  {
    assert PinsSoundAt(d.Live(b), b, s.Pins(b));
    RemovePinIs(s.Pins(b), key);
    var rest := RemovePin(s.Pins(b), key);
    assert rest != [] ==> rest[0] in rest;
    PinsElsewhere(d, d, s, s.WithPins(b, rest), b);
  }

  lemma PinsStep(w: World, a: Action)
    requires Basic(w) && Enabled(w, a)
    ensures PinsSound(Next(w, a).disk, Next(w, a).svc)
  {
    match a {
      case Finish(t, now, at, tick) => FinishKeepsSound(w, t, now, at, tick);
      case PinNew(b, e, now, tick) => PinKeepsSound(w.disk, w.svc, b, e, now, tick);
      case Unpin(b, key) => UnpinKeepsSound(w.disk, w.svc, b, key);
      case _ => OtherPinsStep(w, a);
    }
  }

  lemma OtherPinsStep(w: World, a: Action)
    requires Basic(w) && Enabled(w, a) && !a.Finish? && !a.PinNew? && !a.Unpin?
    ensures PinsSound(Next(w, a).disk, Next(w, a).svc)
  {
    var w' := Next(w, a);
    forall b ensures PinsSoundAt(w'.disk.Live(b), b, w'.svc.Pins(b)) {
      assert PinsSoundAt(w.disk.Live(b), b, w.svc.Pins(b));
      hide PinsSoundAt, Consume, ViewNext, SyncNext, ViewEnabled, SyncEnabled;
    }
  }

  /** Basic facts hold in every state of every run. */
  lemma {:induction false} BasicAlways(ws: seq<World>, acts: seq<Action>, i: nat)
    requires Run(ws, acts) && i < |ws|
    ensures Basic(ws[i])
  {
    hide Next, Enabled;
    if i > 0 {
      RunStep(ws, acts, i - 1);
      BasicAlways(ws, acts, i - 1);
      DiskStep(ws[i-1], acts[i-1]);
      TidyStep(ws[i-1], acts[i-1]);
      PinsStep(ws[i-1], acts[i-1]);
    }
  }

  /** A restart forgets what the process knew. The tables stay, unless the database was lost: then no mailbox and no
      mark is left, and only the watermark beside it. */
  lemma RestartForgets(w: World, lose: bool)
    ensures var v := Next(w, Restart(lose));
            && v.svc.latest == map[] && v.svc.holds == map[] && v.sessions == map[]
            && v.sync.tasks == map[] && v.sync.callers == map[] && v.sync.inflight == map[]
            && (forall b :: v.svc.Pins(b) == [] && v.svc.Generation(b) == 0)
            && (!lose ==> v.disk == w.disk)
            && (lose ==> v.disk.boxes == map[] && v.disk.marks == {} && v.disk.watermark == w.disk.watermark)
  {
  }

  /** A change of marks sets or clears those of the UIDs given, in their mailbox, and nothing else. */
  lemma MarksAre(w: World, b: Box, uids: set<nat>, value: bool)
    ensures var v := Next(w, MarkDeleted(b, uids, value));
            && (forall u :: u in v.disk.Marked(b) <==> if value then u in w.disk.Marked(b) || u in uids
                                                        else u in w.disk.Marked(b) && u !in uids)
            && (forall c :: c != b ==> v.disk.Marked(c) == w.disk.Marked(c))
            && v.disk.boxes == w.disk.boxes && v.svc == w.svc && v.sessions == w.sessions
  {
    var v := Next(w, MarkDeleted(b, uids, value));
    forall u, c ensures u in v.disk.Marked(c) <==> Name(c, u) in v.disk.marks {
    }
    forall c | c != b ensures v.disk.Marked(c) == w.disk.Marked(c) {
      assert forall u :: u in v.disk.Marked(c) <==> u in w.disk.Marked(c);
    }
  }
}
