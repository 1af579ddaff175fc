/** Snapshot order and the client mirror, over every run. */
module GatewayViews {
  import opened Types
  import opened UidStores
  import opened Mailboxes
  import opened Reconciling
  import opened Sessions
  import opened Gateway
  import opened GatewayStore

  // ----- snapshot order ------------------------------------------------------------------------------------

  ghost predicate WellNumbered(s: Snapshot) {
    Ascending(s.Uids()) && forall u :: u in s.Uids() ==> u < s.uidnext
  }

  /** What a later list may contain: UIDs of the earlier snapshot, and UIDs at or above its UIDNEXT. */
  ghost predicate Follows(earlier: Snapshot, uids: set<nat>) {
    forall u :: u in uids ==> u in earlier.Uids() || earlier.uidnext <= u
  }

  /** A snapshot of the current database is not contradicted by its mailbox's rows. */
  ghost predicate Current(d: Disk, s: Snapshot) {
    && s.box in d.boxes && s.uidvalidity == d.boxes[s.box].uidvalidity && s.uidnext <= d.boxes[s.box].nextUid
    && Follows(s, d.boxes[s.box].live.Values)
  }

  ghost predicate Comparable(p: Publication, q: Publication) {
    p.epoch == q.epoch && p.snap.box == q.snap.box
  }

  ghost predicate InOrder(p: Publication, q: Publication) {
    && p.snap.uidvalidity == q.snap.uidvalidity && p.snap.uidnext <= q.snap.uidnext
    && Follows(p.snap, AsSet(q.snap.Uids()))
  }

  ghost predicate HistoryOrdered(d: Disk, h: History) {
    && (forall k :: 0 <= k < |h.published| ==> WellNumbered(h.published[k].snap) && h.published[k].epoch <= h.epoch)
    && (forall k :: 0 <= k < |h.published| && h.published[k].epoch == h.epoch ==> Current(d, h.published[k].snap))
    && (forall i, j :: 0 <= i < j < |h.published| && Comparable(h.published[i], h.published[j]) ==>
        InOrder(h.published[i], h.published[j]))
  }

  lemma CurrentGrows(d: Disk, d': Disk, b: Box, t: Tick, s: Snapshot)
    requires Current(d, s) && GrowsAt(d, d', b, t)
    ensures Current(d', s)
  {
    if s.box == b {
      var m, m' := d.boxes[b], d'.boxes[b];
      assert Extends(m, m');
      forall u | u in m'.live.Values ensures u in s.Uids() || s.uidnext <= u {
        var k :| k in m'.live && m'.live[k] == u;
        if k in m.live && m'.live[k] == m.live[k] {
          assert u in m.live.Values;
        }
      }
    } else {
      assert d'.boxes[s.box] == d.boxes[s.box];
    }
  }

  /** The published UIDs are the live UIDs. */
  lemma AgreedUids(snap: Snapshot, m: Mailbox)
    requires Agrees(snap, m)
    ensures AsSet(snap.Uids()) == m.live.Values && WellNumbered(snap)
  {
    forall u ensures u in snap.Uids() <==> u in m.live.Values {
      if u in snap.Uids() {
        var i :| 0 <= i < |snap.items| && snap.Uids()[i] == u;
        assert snap.Names(u, snap.items[i].key);
      }
      if u in m.live.Values {
        var k :| k in m.live && m.live[k] == u;
        assert snap.Names(u, k);
        var i :| 0 <= i < |snap.items| && snap.items[i].uid == u && snap.items[i].key == k;
        assert snap.Uids()[i] == u;
      }
    }
    forall u | u in snap.Uids() ensures u < snap.uidnext {
      var i :| 0 <= i < |snap.items| && snap.Uids()[i] == u;
    }
  }

  lemma OrderStep(w: World, a: Action)
    requires Enabled(w, a) && Basic(w) && HistoryOrdered(w.disk, w.hist)
    ensures HistoryOrdered(Next(w, a).disk, Next(w, a).hist)
  {
    hide Next, HistoryOrdered;
    if a.Finish? {
      FinishStep(w, a);
    } else if a.PinNew? {
      PinOrdered(w, a);
    } else {
      OthersOrdered(w, a);
    }
  }

  lemma FinishStep(w: World, a: Action)
    requires Enabled(w, a) && Basic(w) && HistoryOrdered(w.disk, w.hist) && a.Finish?
    ensures HistoryOrdered(Next(w, a).disk, Next(w, a).hist)
  {
    hide HistoryOrdered, FinishSync, Basic;
    FinishOrdered(w, a.t, a.now, a.at, a.tick);
  }

  lemma PinOrdered(w: World, a: Action)
    requires Enabled(w, a) && Basic(w) && HistoryOrdered(w.disk, w.hist) && a.PinNew?
    ensures HistoryOrdered(Next(w, a).disk, Next(w, a).hist)
  {
    hide PinnedDisk, GrowsAt, Current, WellNumbered, InOrder, Bindings;
    var w' := Next(w, a);
    DiskStep(w, a);
    forall k | 0 <= k < |w.hist.published| && w.hist.published[k].epoch == w.hist.epoch
      ensures Current(w'.disk, w.hist.published[k].snap) {
      CurrentGrows(w.disk, w'.disk, a.box, a.tick, w.hist.published[k].snap);
    }
  }

  lemma OthersOrdered(w: World, a: Action)
    requires Enabled(w, a) && Basic(w) && HistoryOrdered(w.disk, w.hist) && !a.Finish? && !a.PinNew?
    ensures HistoryOrdered(Next(w, a).disk, Next(w, a).hist)
  {
    hide Next, HistoryOrdered;
    if a.Restart? {
      RestartOrdered(w, a.lose);
      IsRestarted(w, a);
    } else {
      HistoryStays(w, a);
      SameOrdered(w.disk, Next(w, a).disk, w.hist);
    }
  }

  lemma IsRestarted(w: World, a: Action)
    requires a.Restart?
    ensures Next(w, a) == Restarted(w, a.lose)
  {
    hide Restarted;
  }

  lemma HistoryStays(w: World, a: Action)
    requires Enabled(w, a) && !a.Finish? && !a.PinNew? && !a.Restart?
    ensures Next(w, a).hist == w.hist && Next(w, a).disk.boxes == w.disk.boxes
  {
    hide Consume, ViewNext, ViewEnabled, SyncNext, SyncEnabled, ReplaceItem;
  }

  lemma SameOrdered(d: Disk, d': Disk, h: History)
    requires HistoryOrdered(d, h) && d'.boxes == d.boxes
    ensures HistoryOrdered(d', h)
  {
    hide WellNumbered, InOrder, Follows;
  }

  lemma RestartOrdered(w: World, lose: bool)
    requires HistoryOrdered(w.disk, w.hist)
    ensures HistoryOrdered(Restarted(w, lose).disk, Restarted(w, lose).hist)
  {
    hide WellNumbered, InOrder, Follows;
  }

  lemma PublishOrdered(d: Disk, d': Disk, b: Box, t: Tick, h: History, h': History, snap: Snapshot)
    requires HistoryOrdered(d, h) && GrowsAt(d, d', b, t) && snap.box == b && Agrees(snap, d'.boxes[b])
    requires h'.published == h.published + [Publication(snap, h.epoch)] && h'.epoch == h.epoch
    ensures HistoryOrdered(d', h')
  {
    hide GrowsAt, Agrees, Current, InOrder, WellNumbered;
    var pubs' := h'.published;
    GrownBox(d, d', b, t);
    NewestCurrent(d', b, snap);
    forall k | 0 <= k < |h.published| && h.published[k].epoch == h.epoch ensures Current(d', h.published[k].snap) {
      CurrentGrows(d, d', b, t, h.published[k].snap);
    }
    forall i, j | 0 <= i < j < |pubs'| && Comparable(pubs'[i], pubs'[j]) ensures InOrder(pubs'[i], pubs'[j]) {
      assert pubs'[i] == h.published[i];
      if j < |h.published| {
        assert pubs'[j] == h.published[j];
      } else {
        CurrentFollowed(d', b, snap, pubs'[i], pubs'[j]);
      }
    }
  }

  lemma GrownBox(d: Disk, d': Disk, b: Box, t: Tick)
    requires GrowsAt(d, d', b, t)
    ensures b in d'.boxes
  {
  }

  /** A snapshot that agrees with its rows is current, and follows every current one. */
  lemma NewestCurrent(d: Disk, b: Box, snap: Snapshot)
    requires b in d.boxes && snap.box == b && Agrees(snap, d.boxes[b])
    ensures Current(d, snap) && WellNumbered(snap)
  {
    hide Agrees;
    AgreedUids(snap, d.boxes[b]);
    AgreedBox(snap, d.boxes[b]);
    assert forall u :: u in snap.Uids() <==> u in AsSet(snap.Uids());
  }

  lemma AgreedBox(snap: Snapshot, m: Mailbox)
    requires Agrees(snap, m)
    ensures snap.uidvalidity == m.uidvalidity && snap.uidnext == m.nextUid
  {
  }

  lemma CurrentFollowed(d: Disk, b: Box, snap: Snapshot, p: Publication, q: Publication)
    requires b in d.boxes && snap.box == b && Agrees(snap, d.boxes[b]) && q.snap == snap && p.snap.box == b
    requires Current(d, p.snap)
    ensures InOrder(p, q)
  {
    hide Agrees;
    AgreedUids(snap, d.boxes[b]);
    AgreedBox(snap, d.boxes[b]);
  }

  lemma FinishOrdered(w: World, t: nat, now: real, at: real, tick: Tick)
    requires w.sync.IsListing(t) && Basic(w) && HistoryOrdered(w.disk, w.hist)
    ensures HistoryOrdered(FinishSync(w, t, now, at, tick).disk, FinishSync(w, t, now, at, tick).hist)
  {
    var b, listed := w.sync.tasks[t].box, w.sync.tasks[t].phase.got.entries;
    var w', snap := FinishSync(w, t, now, at, tick), ReconcileSnapshot(w.disk, w.svc, b, listed, now, at, tick);
    assert GrowsAt(w.disk, w'.disk, b, tick) by { ReconcileGrows(w.disk, w.svc, b, listed, now, tick); }
    assert Agrees(snap, w'.disk.boxes[b]) by {
      ListedDistinct(w, t);
      ReconcileExact(w.disk, w.svc, b, listed, now, at, tick);
    }
    PublishOrdered(w.disk, w'.disk, b, tick, w.hist, w'.hist, snap);
  }

  lemma {:induction false} OrderAlways(ws: seq<World>, acts: seq<Action>, i: nat)
    requires Run(ws, acts) && i < |ws|
    ensures HistoryOrdered(ws[i].disk, ws[i].hist)
  {
    hide Next, Enabled;
    if i > 0 {
      RunStep(ws, acts, i - 1);
      OrderAlways(ws, acts, i - 1);
      BasicAlways(ws, acts, i - 1);
      OrderStep(ws[i-1], acts[i-1]);
    }
  }

  /** Of two snapshots of a mailbox published from the same database, the later shows only UIDs of the
      earlier one and UIDs at or above its UIDNEXT, under the same UIDVALIDITY. */
  lemma SnapshotOrder(ws: seq<World>, acts: seq<Action>, p: nat, q: nat)
    requires Run(ws, acts)
    requires p < q < |ws[|acts|].hist.published| && Comparable(ws[|acts|].hist.published[p],
             ws[|acts|].hist.published[q])
    ensures InOrder(ws[|acts|].hist.published[p], ws[|acts|].hist.published[q])
  {
    OrderAlways(ws, acts, |acts|);
  }

  /** A UID that left never returns. */
  lemma DepartedStaysAway(ws: seq<World>, acts: seq<Action>, p: nat, q: nat, r: nat, uid: nat)
    requires Run(ws, acts)
    requires var pubs := ws[|acts|].hist.published;
             && p < q < r < |pubs| && Comparable(pubs[p], pubs[q]) && Comparable(pubs[q], pubs[r])
             && uid in pubs[p].snap.Uids() && uid !in pubs[q].snap.Uids()
    ensures uid !in ws[|acts|].hist.published[r].snap.Uids()
  {
    OrderAlways(ws, acts, |acts|);
    var pubs := ws[|acts|].hist.published;
    assert InOrder(pubs[p], pubs[q]) && InOrder(pubs[q], pubs[r]) && WellNumbered(pubs[p].snap);
    assert uid < pubs[p].snap.uidnext <= pubs[q].snap.uidnext;
    assert forall u :: u in pubs[r].snap.Uids() ==> u in AsSet(pubs[r].snap.Uids());
  }

  // ----- the client mirror --------------------------------------------------------------------------------------

  /** The latest snapshot is the last published one, up to patched flags. */
  ghost predicate LatestIs(latest: Snapshot, h: History, b: Box) {
    && b in h.lastPub && h.lastPub[b] < |h.published|
    && h.published[h.lastPub[b]].snap.box == b && h.published[h.lastPub[b]].epoch == h.epoch
    && latest.Uids() == h.published[h.lastPub[b]].snap.Uids()
  }

  ghost predicate LatestSound(s: Service, h: History) {
    && s.latest.Keys == h.lastPub.Keys
    && forall b :: b in s.latest ==> LatestIs(s.latest[b], h, b)
  }

  /** The session shows an initial part of the snapshot it was last brought to. */
  ghost predicate Shows(sel: Selected, p: Snapshot) {
    && Ascending(sel.uids) && (forall u :: u in sel.uids ==> u in p.Uids()) && ArriveAbove(sel.uids, p.Uids())
  }

  ghost predicate WindowSound(v: Window, h: History) {
    && v.sel.box in h.lastPub && v.basis <= h.lastPub[v.sel.box] < |h.published|
    && h.published[v.basis].snap.box == v.sel.box && h.published[v.basis].epoch == h.epoch
    && Shows(v.sel, h.published[v.basis].snap) && Inverse(v.sel)
    && (v.intact ==> v.client.Some? && Aligned(v.client.value, v.sel.uids))
  }

  ghost predicate WindowsSound(sessions: map<nat, Window>, h: History) {
    forall s :: s in sessions ==> WindowSound(sessions[s], h)
  }

  /** A forced sync's result is a snapshot of this process's database. */
  ghost predicate ResultsSound(y: Syncs, h: History) {
    && (forall t :: y.IsDone(t) && y.tasks[t].phase.outcome.Publishes? ==>
        ResultIs(y.tasks[t].box, y.tasks[t].phase.outcome.index, h))
    && (forall c :: c in y.callers && y.callers[c].at.Returned? ==>
        ResultIs(y.callers[c].box, y.callers[c].at.index, h))
    && (forall c :: c in y.callers && y.callers[c].at.Waiting() && y.callers[c].at.task in y.tasks ==>
        y.tasks[y.callers[c].at.task].box == y.callers[c].box)
    && (forall b :: b in y.inflight ==> y.inflight[b].task in y.tasks && y.tasks[y.inflight[b].task].box == b)
    && (forall c :: c in y.callers && y.callers[c].at.Waiting() ==> y.callers[c].at.task in y.tasks)
  }

  ghost predicate ResultIs(b: Box, index: nat, h: History) {
    && index < |h.published| && h.published[index].snap.box == b && h.published[index].epoch == h.epoch
    && b in h.lastPub && index <= h.lastPub[b] < |h.published|
  }

  ghost predicate Seen(w: World) {
    LatestSound(w.svc, w.hist) && WindowsSound(w.sessions, w.hist) && ResultsSound(w.sync, w.hist)
  }

  /** Between a session's snapshot and any later one of its mailbox, arrivals come above what it shows. */
  lemma ArrivalsAbove(d: Disk, h: History, v: Window, latest: Snapshot)
    requires HistoryOrdered(d, h) && WindowSound(v, h) && LatestIs(latest, h, v.sel.box)
    ensures Ascending(v.sel.uids) && Ascending(latest.Uids()) && ArriveAbove(v.sel.uids, latest.Uids())
  {
    var p, q := h.published[v.basis].snap, h.published[h.lastPub[v.sel.box]].snap;
    assert WellNumbered(p) && WellNumbered(q);
    assert v.basis < h.lastPub[v.sel.box] ==> InOrder(h.published[v.basis], h.published[h.lastPub[v.sel.box]]);
    forall u, x | u in v.sel.uids && u in latest.Uids() && x in latest.Uids() && x !in v.sel.uids ensures u < x {
      assert x in AsSet(q.Uids());
      if x in p.Uids() {
        assert ArriveAbove(v.sel.uids, p.Uids());
      }
    }
  }

  lemma FlushSound(d: Disk, h: History, v: Window, latest: Snapshot, deleted: set<nat>)
    requires HistoryOrdered(d, h) && WindowSound(v, h) && LatestIs(latest, h, v.sel.box)
    ensures WindowSound(FlushView(v, latest, h.lastPub[v.sel.box], deleted), h)
    ensures FlushView(v, latest, h.lastPub[v.sel.box], deleted).sel.uids == latest.Uids()
    ensures Inverse(FlushView(v, latest, h.lastPub[v.sel.box], deleted).sel)
  {
    ArrivalsAbove(d, h, v, latest);
    RenumberedIs(v.sel.uids, latest.Uids());
    FlushKeepsMirror(v.sel, latest, deleted, if v.intact then v.client.value else Unknown(|v.sel.uids|));
  }

  lemma CloseSound(d: Disk, h: History, v: Window, latest: Snapshot)
    requires HistoryOrdered(d, h) && WindowSound(v, h) && LatestIs(latest, h, v.sel.box)
    ensures WindowSound(CloseView(v, latest, h.lastPub[v.sel.box]), h)
  {
    hide HistoryOrdered, SeqOf, Only, Inverse;
    ArrivalsAbove(d, h, v, latest);
    DropShows(v.sel, latest, h.published[h.lastPub[v.sel.box]].snap);
    DropAligned(v, latest);
  }

  /** What a silent drop leaves is still an initial part of the snapshot. */
  lemma DropShows(sel: Selected, latest: Snapshot, p: Snapshot)
    requires Ascending(sel.uids) && ArriveAbove(sel.uids, latest.Uids()) && latest.Uids() == p.Uids()
    ensures Shows(SilentDrop(sel, latest), p) && Inverse(SilentDrop(sel, latest))
  {
    hide SeqOf, Only;
    OnlyIs(sel.uids, AsSet(latest.Uids()));
    InverseOf(Only(sel.uids, AsSet(latest.Uids())));
  }

  lemma DropAligned(v: Window, latest: Snapshot)
    requires v.intact ==> v.client.Some? && Aligned(v.client.value, v.sel.uids)
    ensures var r := CloseView(v, latest, 0);
            r.intact ==> r.client.Some? && Aligned(r.client.value, r.sel.uids)
  {
    hide SeqOf, Only;
  }

  lemma SelectSound(d: Disk, h: History, b: Box, index: nat, readOnly: bool, marked: set<nat>)
    requires HistoryOrdered(d, h) && ResultIs(b, index, h)
    ensures WindowSound(Selects(h.published[index], index, readOnly, marked), h)
  {
    assert WellNumbered(h.published[index].snap);
    InverseOf(h.published[index].snap.Uids());
  }

  lemma SetWindow(sessions: map<nat, Window>, h: History, s: nat, v: Window)
    requires WindowsSound(sessions, h) && WindowSound(v, h)
    ensures WindowsSound(sessions[s := v], h)
  {
  }

  lemma LearnSound(v: Window, h: History, uid: nat)
    requires WindowSound(v, h) && uid in v.sel.seqOf
    ensures WindowSound(Learned(v, uid), h)
  {
    var i :| 0 <= i < |v.sel.uids| && v.sel.uids[i] == uid;
  }

  lemma ViewsStep(w: World, x: ViewAction)
    requires ViewEnabled(w, x) && HistoryOrdered(w.disk, w.hist) && Seen(w)
    ensures WindowsSound(ViewNext(w, x), w.hist)
  {
    if x.Select? {
      var index := w.sync.callers[x.c].at.index;
      var marked := w.disk.Marked(w.hist.published[index].snap.box);
      SelectSound(w.disk, w.hist, w.sync.callers[x.c].box, index, x.readOnly, marked);
      SetWindow(w.sessions, w.hist, x.s, Selects(w.hist.published[index], index, x.readOnly, marked));
    } else if !x.Deselect? {
      var v := w.sessions[x.s];
      var b := v.sel.box;
      assert WindowSound(v, w.hist);
      if x.Flush? {
        FlushSound(w.disk, w.hist, v, w.svc.latest[b], w.disk.Marked(b));
        SetWindow(w.sessions, w.hist, x.s, FlushView(v, w.svc.latest[b], w.hist.lastPub[b], w.disk.Marked(b)));
      } else if x.CloseFails? {
        CloseSound(w.disk, w.hist, v, w.svc.latest[b]);
        SetWindow(w.sessions, w.hist, x.s, CloseView(v, w.svc.latest[b], w.hist.lastPub[b]));
      } else {
        LearnSound(v, w.hist, x.uid);
        SetWindow(w.sessions, w.hist, x.s, Learned(v, x.uid));
      }
    }
  }

  /** Publishing a snapshot at the end of the history keeps every earlier result and view sound. */
  ghost predicate Later(h: History, h': History) {
    && h.published <= h'.published && h'.epoch == h.epoch
    && (forall b :: b in h.lastPub ==> b in h'.lastPub && h.lastPub[b] <= h'.lastPub[b] < |h'.published|)
  }

  lemma LaterKeeps(h: History, h': History, y: Syncs, sessions: map<nat, Window>)
    requires Later(h, h')
    requires ResultsSound(y, h) && WindowsSound(sessions, h)
    ensures ResultsSound(y, h') && WindowsSound(sessions, h')
  {
    forall b, index: nat | ResultIs(b, index, h) ensures ResultIs(b, index, h') {
      assert h'.published[index] == h.published[index];
    }
    forall s | s in sessions ensures WindowSound(sessions[s], h') {
      assert h'.published[sessions[s].basis] == h.published[sessions[s].basis];
    }
  }

  /** What a finished listing does to what clients and callers can see. */
  lemma FinishIs(w: World, t: nat, now: real, at: real, tick: Tick)
    requires w.sync.IsListing(t)
    ensures var b, w' := w.sync.tasks[t].box, FinishSync(w, t, now, at, tick);
            var snap := ReconcileSnapshot(w.disk, w.svc, b, w.sync.tasks[t].phase.got.entries, now, at, tick);
            && snap.box == b && w'.svc.latest == w.svc.latest[b := snap]
            && w'.hist.published == w.hist.published + [Publication(snap, w.hist.epoch)]
                && w'.hist.epoch == w.hist.epoch
            && w'.hist.lastPub == w.hist.lastPub[b := |w.hist.published|]
            && w'.sync == w.sync.SetPhase(t, Done(w.sync.tasks[t].phase.began, Publishes(|w.hist.published|)))
            && w'.sessions == w.sessions
  {
    hide ReconcileDisk, Bindings, SortItems, Built, KeptPins;
  }

  lemma FinishSeen(w: World, t: nat, now: real, at: real, tick: Tick)
    requires w.sync.IsListing(t) && Seen(w)
    ensures Seen(FinishSync(w, t, now, at, tick))
  {
    FinishIs(w, t, now, at, tick);
    hide LatestSound, ResultsSound, WindowsSound, Later, FinishSync, ReconcileSnapshot;
    var b, w' := w.sync.tasks[t].box, FinishSync(w, t, now, at, tick);
    var snap := ReconcileSnapshot(w.disk, w.svc, b, w.sync.tasks[t].phase.got.entries, now, at, tick);
    PublishedLater(w.svc, w.hist, w'.hist, snap);
    LaterKeeps(w.hist, w'.hist, w.sync, w.sessions);
    PublishedLatest(w.svc, w.hist, w'.svc, w'.hist, snap);
    PhaseResults(w.sync, w'.hist, t, Done(w.sync.tasks[t].phase.began, Publishes(|w.hist.published|)));
  }

  lemma PublishedLater(s: Service, h: History, h': History, snap: Snapshot)
    requires LatestSound(s, h)
    requires h'.published == h.published + [Publication(snap, h.epoch)] && h'.epoch == h.epoch
    requires h'.lastPub == h.lastPub[snap.box := |h.published|]
    ensures Later(h, h')
  {
    assert forall c :: c in h.lastPub ==> LatestIs(s.latest[c], h, c);
  }

  lemma PublishedLatest(s: Service, h: History, s': Service, h': History, snap: Snapshot)
    requires LatestSound(s, h)
    requires s'.latest == s.latest[snap.box := snap]
    requires h'.published == h.published + [Publication(snap, h.epoch)] && h'.epoch == h.epoch
    requires h'.lastPub == h.lastPub[snap.box := |h.published|]
    ensures LatestSound(s', h')
  {
    forall c | c in s'.latest ensures LatestIs(s'.latest[c], h', c) {
      if c != snap.box {
        assert LatestIs(s.latest[c], h, c);
        assert h'.published[h.lastPub[c]] == h.published[h.lastPub[c]];
      }
    }
  }

  lemma PhaseResults(y: Syncs, h: History, t: nat, p: Phase)
    requires ResultsSound(y, h) && t in y.tasks
    requires p.Done? && p.outcome.Publishes? ==> ResultIs(y.tasks[t].box, p.outcome.index, h)
    ensures ResultsSound(y.SetPhase(t, p), h)
  {
    var y' := y.SetPhase(t, p);
    forall u | y'.IsDone(u) && y'.tasks[u].phase.outcome.Publishes?
      ensures ResultIs(y'.tasks[u].box, y'.tasks[u].phase.outcome.index, h) {
      assert u != t ==> y.IsDone(u);
    }
  }

  lemma ParkResults(y: Syncs, h: History, c: nat, caller: Caller, at: Where)
    requires ResultsSound(y, h)
    requires at.Waiting() ==> at.task in y.tasks && y.tasks[at.task].box == caller.box
    requires at.Returned? ==> ResultIs(caller.box, at.index, h)
    ensures ResultsSound(y.Park(c, caller, at), h)
  {
    assert forall t :: y.Park(c, caller, at).IsDone(t) <==> y.IsDone(t);
  }

  lemma SpawnResults(y: Syncs, h: History, t: nat, caller: Caller)
    requires ResultsSound(y, h) && t !in y.tasks
    ensures ResultsSound(y.Spawn(t, caller), h)
  {
    assert forall u :: y.Spawn(t, caller).IsDone(u) ==> y.IsDone(u);
  }

  lemma LaunchResults(y: Syncs, h: History, c: nat, caller: Caller, t: nat)
    requires ResultsSound(y, h) && t !in y.tasks
    ensures ResultsSound(y.Launch(c, caller, t), h)
  {
    SpawnResults(y, h, t, caller);
    var z := y.Spawn(t, caller);
    ParkResults(z, h, c, caller, Own(t));
    assert forall u :: y.Launch(c, caller, t).IsDone(u) <==> z.IsDone(u);
  }

  lemma SyncResults(y: Syncs, s: Service, h: History, x: SyncAction)
    requires ResultsSound(y, h) && LatestSound(s, h) && SyncEnabled(y, x)
    ensures ResultsSound(SyncNext(y, s, h.lastPub, x), h)
  {
    match x
    case Begin(t) => PhaseResults(y, h, t, SyncNext(y, s, h.lastPub, x).tasks[t].phase);
    case Abandon(t, _) => PhaseResults(y, h, t, SyncNext(y, s, h.lastPub, x).tasks[t].phase);
    case Call(c, b, client, force, stillFresh, t) =>
      assert b in s.latest ==> LatestIs(s.latest[b], h, b);
      var cached := if b in s.latest && b in h.lastPub then Some(h.lastPub[b]) else None;
      CallResults(y, h, s.Generation(b), cached, c, b, client, force, stillFresh, t);
    case Wake(c, t) => WakeResults(y, h, c, t);
    case Reap(t) => assert forall u :: SyncNext(y, s, h.lastPub, x).IsDone(u) <==> y.IsDone(u);
  }

  lemma CallResults(y: Syncs, h: History, gen: nat, cached: Option<nat>, c: nat, b: Box, client: nat, force: bool,
      stillFresh: bool, t: nat)
    requires ResultsSound(y, h) && t !in y.tasks && (cached.Some? ==> ResultIs(b, cached.value, h))
    ensures ResultsSound(CallSync(y, gen, cached, c, b, client, force, stillFresh, t), h)
  {
    var caller := Caller(b, client, force, gen, Raised);
    if cached.Some? && !force && stillFresh {
      ParkResults(y, h, c, caller, Returned(cached.value, None));
    } else if b !in y.inflight {
      LaunchResults(y, h, c, caller, t);
    } else {
      ParkResults(y, h, c, caller, Joined(y.inflight[b].task));
      ParkResults(y, h, c, caller, Stale(y.inflight[b].task));
    }
  }

  lemma WakeResults(y: Syncs, h: History, c: nat, t: nat)
    requires ResultsSound(y, h) && t !in y.tasks
    requires c in y.callers && y.callers[c].at.Waiting() && y.IsDone(y.callers[c].at.task)
    ensures ResultsSound(WakeUp(y, c, t), h)
  {
    var caller := y.callers[c];
    var task := y.tasks[caller.at.task];
    assert task.box == caller.box;
    if caller.at.Stale? {
      if caller.box in y.inflight {
        ParkResults(y, h, c, caller, Joined(y.inflight[caller.box].task));
      }
      LaunchResults(y, h, c, caller, t);
    } else if task.phase.outcome.Publishes? {
      ParkResults(y, h, c, caller, Returned(task.phase.outcome.index, Some(caller.at.task)));
    } else {
      SpawnResults(y, h, t, caller);
      ParkResults(y.Spawn(t, caller), h, c, caller, Own(t));
      ParkResults(y, h, c, caller, Raised);
    }
  }

  lemma ReplaceSeen(s: Service, h: History, b: Box, item: Item)
    requires LatestSound(s, h)
    ensures LatestSound(ReplaceItem(s, b, item), h)
  {
    hide ReplaceItem;
    ReplaceKeepsUids(s, b, item);
    forall c | c in s.latest ensures LatestIs(ReplaceItem(s, b, item).latest[c], h, c) {
      assert LatestIs(s.latest[c], h, c);
    }
  }

  lemma ReplaceKeepsUids(s: Service, b: Box, item: Item)
    ensures var s' := ReplaceItem(s, b, item);
            s'.latest.Keys == s.latest.Keys && forall c :: c in s.latest ==> s'.latest[c].Uids() == s.latest[c].Uids()
  {
    var s' := ReplaceItem(s, b, item);
    forall c | c in s.latest ensures s'.latest[c].Uids() == s.latest[c].Uids() {
    }
  }

  lemma SeenStep(w: World, a: Action)
    requires Enabled(w, a) && HistoryOrdered(w.disk, w.hist) && Seen(w)
    ensures Seen(Next(w, a))
  {
    hide Next, Seen, HistoryOrdered;
    match a {
      case Sync(x) => SyncSeen(w, x);
      case Take(t, m, now) => TakeSeen(w, a);
      case Finish(t, now, at, tick) => FinishStepSeen(w, a);
      case Replace(b, index, pos, labels) => ReplaceStepSeen(w, a);
      case PinNew(b, e, now, tick) => PinStepSeen(w, a);
      case Show(x) => ShowSeen(w, x);
      case _ => SeenOther(w, a);
    }
  }

  lemma SyncSeen(w: World, x: SyncAction)
    requires Enabled(w, Sync(x)) && Seen(w)
    ensures Seen(Next(w, Sync(x)))
  {
    hide SyncNext, SyncEnabled, LatestSound, WindowsSound, ResultsSound;
    SyncResults(w.sync, w.svc, w.hist, x);
  }

  lemma TakeSeen(w: World, a: Action)
    requires Enabled(w, a) && Seen(w) && a.Take?
    ensures Seen(Next(w, a))
  {
    hide Consume, WindowsSound, ResultsSound;
    PhaseResults(w.sync, w.hist, a.t, Next(w, a).sync.tasks[a.t].phase);
  }

  lemma FinishStepSeen(w: World, a: Action)
    requires Enabled(w, a) && Seen(w) && a.Finish?
    ensures Seen(Next(w, a))
  {
    hide FinishSync, Seen;
    FinishSeen(w, a.t, a.now, a.at, a.tick);
  }

  lemma ReplaceStepSeen(w: World, a: Action)
    requires Enabled(w, a) && Seen(w) && a.Replace?
    ensures Seen(Next(w, a))
  {
    hide ReplaceItem, LatestSound, WindowsSound, ResultsSound;
    var item := w.hist.published[a.index].snap.items[a.pos];
    ReplaceSeen(w.svc, w.hist, a.box, item.(flags := MessageFlags(a.labels), labels := a.labels));
  }

  lemma PinStepSeen(w: World, a: Action)
    requires Enabled(w, a) && Seen(w) && a.PinNew?
    ensures Seen(Next(w, a))
  {
    hide PinSync, Seen;
    PinSeen(w, a.box, a.e, a.now, a.tick);
  }

  lemma ShowSeen(w: World, x: ViewAction)
    requires Enabled(w, Show(x)) && HistoryOrdered(w.disk, w.hist) && Seen(w)
    ensures Seen(Next(w, Show(x)))
  {
    hide ViewNext, ViewEnabled, HistoryOrdered, LatestSound, WindowsSound, ResultsSound;
    ViewsStep(w, x);
  }

  lemma PinSeen(w: World, b: Box, e: Entry, now: real, tick: Tick)
    requires Seen(w)
    ensures Seen(PinSync(w, b, e, now, tick))
  {
    var h' := PinSync(w, b, e, now, tick).hist;
    hide Bindings, PinnedDisk, SetPin;
    assert forall c :: c in w.hist.lastPub ==> LatestIs(w.svc.latest[c], w.hist, c);
    hide ResultsSound, WindowsSound;
    LaterKeeps(w.hist, h', w.sync, w.sessions);
  }

  lemma SeenOther(w: World, a: Action)
    requires Enabled(w, a) && Seen(w)
    requires a.Hold? || a.Unpin? || a.Mutated? || a.MarkDeleted? || a.Restart?
    ensures Seen(Next(w, a))
  {
    hide Next, Seen;
    if a.Restart? {
      IsRestarted(w, a);
      RestartSeen(w, a.lose);
    } else {
      MailboxesStay(w, a);
      SameSeen(w, Next(w, a));
    }
  }

  lemma MailboxesStay(w: World, a: Action)
    requires Enabled(w, a) && (a.Hold? || a.Unpin? || a.Mutated? || a.MarkDeleted?)
    ensures var v := Next(w, a);
            v.hist == w.hist && v.sync == w.sync && v.sessions == w.sessions && v.svc.latest == w.svc.latest
  {
    hide SetDeleted, RemovePin, HoldLabels;
  }

  lemma SameSeen(w: World, v: World)
    requires Seen(w) && v.hist == w.hist && v.sync == w.sync && v.sessions == w.sessions
    requires v.svc.latest == w.svc.latest
    ensures Seen(v)
  {
    hide WindowsSound, ResultsSound;
  }

  lemma RestartSeen(w: World, lose: bool)
    requires Seen(w)
    ensures Seen(Restarted(w, lose))
  {
  }

  lemma {:induction false} SeenAlways(ws: seq<World>, acts: seq<Action>, i: nat)
    requires Run(ws, acts) && i < |ws|
    ensures Seen(ws[i])
  {
    hide Next, Enabled;
    if i > 0 {
      RunStep(ws, acts, i - 1);
      SeenAlways(ws, acts, i - 1);
      OrderAlways(ws, acts, i - 1);
      SeenStep(ws[i-1], acts[i-1]);
    }
  }

  /** In every state of every run, the client of every session that has not suffered an unannounced drop
      holds a list aligned position by position with the session's; and in every session `seq_of` is the
      inverse of that list, intact or not. */
  lemma ClientMirror(ws: seq<World>, acts: seq<Action>, i: nat, s: nat)
    requires Run(ws, acts) && i < |ws| && s in ws[i].sessions
    ensures Inverse(ws[i].sessions[s].sel)
    ensures ws[i].sessions[s].intact ==>
              && ws[i].sessions[s].client.Some?
              && Aligned(ws[i].sessions[s].client.value, ws[i].sessions[s].sel.uids)
  {
    SeenAlways(ws, acts, i);
    assert WindowSound(ws[i].sessions[s], ws[i].hist);
  }

  /** A flush brings the session's list to exactly the latest snapshot's, with `seq_of` as its inverse. */
  lemma FlushCatchesUp(ws: seq<World>, acts: seq<Action>, i: nat, s: nat)
    requires Run(ws, acts) && i < |acts| && acts[i] == Show(Flush(s))
    ensures s in ws[i+1].sessions && ws[i+1].sessions[s].sel.box in ws[i].svc.latest
    ensures ws[i+1].sessions[s].sel.uids == ws[i].svc.latest[ws[i+1].sessions[s].sel.box].Uids()
    ensures Inverse(ws[i+1].sessions[s].sel)
  {
    SeenAlways(ws, acts, i);
    OrderAlways(ws, acts, i);
    var w := ws[i];
    var b := w.sessions[s].sel.box;
    assert WindowSound(w.sessions[s], w.hist) && LatestIs(w.svc.latest[b], w.hist, b);
    FlushSound(w.disk, w.hist, w.sessions[s], w.svc.latest[b], w.disk.Marked(b));
  }

  /** SELECT opens a view of the snapshot its sync returned, as it was asked for, for a client that knows its length. */
  lemma SelectShows(ws: seq<World>, acts: seq<Action>, i: nat, s: nat, c: nat, readOnly: bool)
    requires Run(ws, acts) && i < |acts| && acts[i] == Show(Select(s, c, readOnly))
    ensures c in ws[i].sync.callers && ws[i].sync.callers[c].at.Returned? && s in ws[i+1].sessions
    ensures var index, v := ws[i].sync.callers[c].at.index, ws[i+1].sessions[s];
            && index < |ws[i].hist.published|
            && var snap := ws[i].hist.published[index].snap;
               && v.sel.box == snap.box == ws[i].sync.callers[c].box && v.sel.readOnly == readOnly
               && v.sel.uids == snap.Uids() && v.sel.viewVersion == snap.version
               && v.client.Some? && |v.client.value| == |snap.items|
               && forall k :: 0 <= k < |snap.items| ==> v.client.value[k] == None
  {
    RunStep(ws, acts, i);
    SeenAlways(ws, acts, i);
    assert ResultIs(ws[i].sync.callers[c].box, ws[i].sync.callers[c].at.index, ws[i].hist);
  }

  /** A response that names a position and a UID teaches the client of an intact view exactly that. */
  lemma LearnsUid(ws: seq<World>, acts: seq<Action>, i: nat, s: nat, uid: nat)
    requires Run(ws, acts) && i < |acts| && acts[i] == Show(Learn(s, uid))
    ensures s in ws[i].sessions && s in ws[i+1].sessions && ws[i+1].sessions[s].sel == ws[i].sessions[s].sel
    ensures var v, v' := ws[i].sessions[s], ws[i+1].sessions[s];
            v.intact ==>
              && v'.intact && v.client.Some? && v'.client.Some?
              && |v.client.value| == |v'.client.value| == |v.sel.uids|
              && forall k :: 0 <= k < |v.sel.uids| ==>
                   v'.client.value[k] == if v.sel.uids[k] == uid then Some(uid) else v.client.value[k]
  {
    RunStep(ws, acts, i);
    ClientMirror(ws, acts, i, s);
  }

  /** The drop of a failing CLOSE keeps a view intact if there is nothing to drop. */
  lemma CloseIntact(v: Window, latest: Snapshot, index: nat)
    ensures CloseView(v, latest, index).intact <==> v.intact && forall u :: u in v.sel.uids ==> u in latest.Uids()
  {
    OnlyShrinks(v.sel.uids, AsSet(latest.Uids()));
  }

  /** Every other response keeps it. */
  lemma ViewIntact(w: World, x: ViewAction, s: nat)
    requires ViewEnabled(w, x) && s in ViewNext(w, x) && x != CloseFails(s)
    ensures ViewNext(w, x)[s].intact <==> (x.Select? && x.s == s) || (s in w.sessions && w.sessions[s].intact)
  {
    hide Flushed, FlushResponses, ObeyAll, FromSnapshot, SilentDrop;
  }

  lemma SessionsStay(w: World, a: Action)
    requires Enabled(w, a) && !a.Show?
    ensures forall s :: s in Next(w, a).sessions ==> s in w.sessions && Next(w, a).sessions[s] == w.sessions[s]
  {
    hide Consume, ReconcileDisk, ReconcileSnapshot, ReconcileService, PinnedDisk, Bindings, SyncNext, SetDeleted;
    hide RemovePin, HoldLabels, ReplaceItem;
  }

  /** A view is intact exactly until a failing CLOSE drops a UID that is no longer listed. */
  lemma IntactIff(ws: seq<World>, acts: seq<Action>, i: nat, s: nat)
    requires Run(ws, acts) && i < |acts| && s in ws[i+1].sessions
    ensures ws[i+1].sessions[s].intact <==>
            || (acts[i].Show? && acts[i].view.Select? && acts[i].view.s == s)
            || (&& s in ws[i].sessions && ws[i].sessions[s].intact
                && (acts[i] == Show(CloseFails(s)) ==>
                      && ws[i].sessions[s].sel.box in ws[i].svc.latest
                      && forall u :: u in ws[i].sessions[s].sel.uids ==>
                           u in ws[i].svc.latest[ws[i].sessions[s].sel.box].Uids()))
  {
    hide ViewNext, CloseView;
    RunStep(ws, acts, i);
    var w, a := ws[i], acts[i];
    if a == Show(CloseFails(s)) {
      var b := w.sessions[s].sel.box;
      ClosesView(w, s);
      CloseIntact(w.sessions[s], w.svc.latest[b], w.hist.lastPub[b]);
    } else if a.Show? {
      ViewIntact(w, a.view, s);
    } else {
      SessionsStay(w, a);
    }
  }

  lemma ClosesView(w: World, s: nat)
    requires ViewEnabled(w, CloseFails(s))
    ensures var b := w.sessions[s].sel.box;
            ViewNext(w, CloseFails(s)) ==
            w.sessions[s := CloseView(w.sessions[s], w.svc.latest[b], w.hist.lastPub[b])]
  {
  }
}
