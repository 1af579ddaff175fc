/** Runs in which a promise ends: a failing CLOSE leaves a client behind, and names are reused. */
module GatewayExamples {
  import opened Types
  import opened UidStores
  import opened Mailboxes
  import opened Reconciling
  import opened Sessions
  import opened Gateway
  import opened GatewayStore
  import opened GatewayNaming

  const MAIL := Listed("m", 0, {}, None, Envelope(None, "", [], ""))
  const MAIL_ENTRY := Entry(0, "m", "m", {Seen}, {}, Envelope(None, "", [], ""))
  const TICK := Tick(1, true)

  // ----- reachable worlds ----------------------------------------------------------------------------------

  ghost predicate Leads(w: World, v: World, ws: seq<World>, acts: seq<Action>) {
    Path(ws, acts) && ws[0] == w && ws[|acts|] == v
  }

  ghost predicate Reaches(w: World, v: World) {
    exists ws, acts :: Leads(w, v, ws, acts)
  }

  lemma Stays(w: World)
    ensures Reaches(w, w)
  {
    assert Leads(w, w, [w], []);
  }

  lemma Steps(w: World, v: World, a: Action)
    requires Reaches(w, v) && Enabled(v, a)
    ensures Reaches(w, Next(v, a))
  {
    hide Enabled, Next;
    var ws, acts :| Leads(w, v, ws, acts);
    assert Leads(w, Next(v, a), ws + [Next(v, a)], acts + [a]);
  }

  // ----- one forced sync -------------------------------------------------------------------------------------

  /** Another forced sync of an INBOX can be called as number `c`, with task `t`. */
  ghost predicate Idle(w: World, b: Box, c: nat, t: nat) {
    && b.view == InboxView && b !in w.sync.inflight && c !in w.sync.callers
    && t !in w.sync.tasks && t + 1 !in w.sync.tasks
    && w.svc.holds == map[] && w.svc.Pins(b) == []
  }

  /** What a listing collects that shows one message without labels, or nothing. */
  function Shown(some: bool): seq<Entry> {
    if some then [MAIL_ENTRY] else []
  }

  ghost predicate SameBesides(w: World, v: World) {
    v.disk == w.disk && v.svc == w.svc && v.hist == w.hist && v.sessions == w.sessions
  }

  /** `v` is in the listing that a forced sync called in `w` began. */
  ghost predicate InListing(w: World, v: World, b: Box, c: nat, t: nat, got: seq<Entry>) {
    && SameBesides(w, v)
    && v.sync.tasks.Keys == w.sync.tasks.Keys + {t} && v.sync.callers.Keys == w.sync.callers.Keys + {c}
    && v.sync.tasks[t].box == b && v.sync.tasks[t].phase.Listing? && v.sync.tasks[t].phase.got.entries == got
    && v.sync.inflight == w.sync.inflight[b := Inflight(t, w.svc.Generation(b), 0)]
    && v.sync.callers[c] == Caller(b, 0, true, w.svc.Generation(b), Own(t))
  }

  lemma BeginsListing(s: World, w: World, b: Box, c: nat, t: nat) returns (v: World)
    requires Reaches(s, w) && Idle(w, b, c, t)
    ensures Reaches(s, v) && InListing(w, v, b, c, t, [])
    ensures v.sync.tasks[t].phase.got == Collected({}, [])
  {
    hide ReconcileDisk, ReconcileSnapshot, ReconcileService, ViewNext, ViewEnabled, Consume, PinnedDisk, Bindings,
        Reaches;
    Steps(s, w, Sync(Call(c, b, 0, true, false, t)));
    var u := Next(w, Sync(Call(c, b, 0, true, false, t)));
    assert u.sync == w.sync.Launch(c, Caller(b, 0, true, w.svc.Generation(b), Raised), t);
    Steps(s, u, Sync(Begin(t)));
    v := Next(u, Sync(Begin(t)));
  }

  lemma TakesMail(s: World, w: World, v: World, b: Box, c: nat, t: nat) returns (u: World)
    requires Reaches(s, v) && Idle(w, b, c, t) && InListing(w, v, b, c, t, [])
    requires v.sync.tasks[t].phase.got == Collected({}, [])
    ensures Reaches(s, u) && InListing(w, u, b, c, t, [MAIL_ENTRY])
  {
    hide ReconcileDisk, ReconcileSnapshot, ReconcileService, ViewNext, ViewEnabled, PinnedDisk, Bindings, Reaches;
    Steps(s, v, Take(t, MAIL, 0.0));
    u := Next(v, Take(t, MAIL, 0.0));
    TakenMail(b);
  }

  lemma TakenMail(b: Box)
    requires b.view == InboxView
    ensures Consume(b, Collected({}, []), map[], MAIL, 0.0) == (Collected({"m"}, [MAIL_ENTRY]), map[])
  {
    assert MessageFlags({}) == {Seen} && {} * Excluded(b.view) == {};
    assert [] + [MAIL_ENTRY] == [MAIL_ENTRY] && {} + {"m"} == {"m"};
  }

  /** The listing completes and its caller comes back with the published snapshot. */
  ghost predicate Synced(w: World, u: World, b: Box, c: nat, t: nat, got: seq<Entry>) {
    && u.svc == ReconcileService(w.disk, w.svc, b, got, 0.0, 0.0, TICK)
    && u.disk == ReconcileDisk(w.disk, w.svc, b, got, 0.0, TICK)
    && u.hist.published == w.hist.published
                           + [Publication(ReconcileSnapshot(w.disk, w.svc, b, got, 0.0, 0.0, TICK), w.hist.epoch)]
    && u.hist.lastPub == w.hist.lastPub[b := |w.hist.published|]
    && u.sessions == w.sessions
    && u.sync.callers.Keys == w.sync.callers.Keys + {c} && u.sync.tasks.Keys == w.sync.tasks.Keys + {t}
    && u.sync.callers[c] == Caller(b, 0, true, w.svc.Generation(b), Returned(|w.hist.published|, Some(t)))
    && b !in u.sync.inflight
  }

  lemma Completes(s: World, w: World, v: World, b: Box, c: nat, t: nat, got: seq<Entry>) returns (u: World)
    requires Reaches(s, v) && Idle(w, b, c, t) && InListing(w, v, b, c, t, got)
    ensures Reaches(s, u) && Synced(w, u, b, c, t, got)
  {
    hide ReconcileDisk, ReconcileSnapshot, ReconcileService, ViewNext, ViewEnabled, Consume, PinnedDisk, Bindings,
        Reaches;
    Steps(s, v, Finish(t, 0.0, 0.0, TICK));
    var x := Next(v, Finish(t, 0.0, 0.0, TICK));
    Steps(s, x, Sync(Wake(c, t + 1)));
    var y := Next(x, Sync(Wake(c, t + 1)));
    Steps(s, y, Sync(Reap(t)));
    u := Next(y, Sync(Reap(t)));
  }

  // ----- the run ------------------------------------------------------------------------------------------

  lemma ShowsMail(b: Box)
    ensures var snap := ReconcileSnapshot(EMPTY, IDLE, b, [MAIL_ENTRY], 0.0, 0.0, TICK);
            snap.items != [] && 1 in snap.Uids()
  {
    hide ReconcileSnapshot, ReconcileDisk, Ordered;
    FirstReconcile(EMPTY, b, MAIL_ENTRY, TICK);
    var snap := ReconcileSnapshot(EMPTY, IDLE, b, [MAIL_ENTRY], 0.0, 0.0, TICK);
    var i :| 0 <= i < |snap.items| && snap.items[i].uid == 1;
    assert snap.Uids()[i] == 1;
  }

  lemma ShowsNothing(d: Disk, s: Service, b: Box)
    requires s.Pins(b) == []
    ensures ReconcileSnapshot(d, s, b, [], 0.0, 0.0, TICK).items == []
  {
    hide EnsureUids, KeySet;
    assert KeptPins([], KeySet([]), 0.0) == [];
    assert PinEntries([]) == [] && [] + PinEntries([]) == [];
    assert Ordered(s.Pins(b), [], 0.0) == [];
  }

  lemma PinsStayEmpty(d: Disk, s: Service, b: Box, got: seq<Entry>)
    requires s.Pins(b) == [] && s.holds == map[]
    ensures var r := ReconcileService(d, s, b, got, 0.0, 0.0, TICK);
            r.Pins(b) == [] && r.holds == map[] && b in r.latest
            && r.latest[b] == ReconcileSnapshot(d, s, b, got, 0.0, 0.0, TICK) && r.latest[b].box == b
  {
    hide Ordered, EnsureUids, SortItems, Built;
  }

  lemma OnlyNone(uids: seq<nat>)
    ensures Only(uids, AsSet([])) == []
  {
    if uids != [] { OnlyNone(uids[1..]); }
  }

  /** Session 0 has selected the first snapshot and heard nothing since. */
  ghost predicate Selected0(w: World, b: Box, snap: Snapshot) {
    && w.sessions.Keys == {0} && w.sessions[0].intact && w.sessions[0].client == Some(Unknown(|snap.items|))
    && w.sessions[0].sel.uids == snap.Uids() && w.sessions[0].sel.box == b && !w.sessions[0].sel.readOnly
  }

  lemma Selecting(u: World, b: Box, snap: Snapshot) returns (x: World)
    requires Reaches(START, u) && Synced(START, u, b, 0, 0, [MAIL_ENTRY]) && b.view == InboxView
    requires snap == ReconcileSnapshot(EMPTY, IDLE, b, [MAIL_ENTRY], 0.0, 0.0, TICK)
    ensures Reaches(START, x) && Idle(x, b, 1, 10) && Selected0(x, b, snap)
  {
    hide ReconcileDisk, ReconcileSnapshot, ReconcileService, Consume, PinnedDisk, Bindings, Reaches, SyncNext, SeqOf;
    PinsStayEmpty(EMPTY, IDLE, b, [MAIL_ENTRY]);
    Steps(START, u, Show(Select(0, 0, false)));
    x := Next(u, Show(Select(0, 0, false)));
  }

  lemma DropsSilently(x: World, z: World, b: Box, snap: Snapshot)
    requires Idle(x, b, 1, 10) && Selected0(x, b, snap) && snap.items != [] && Synced(x, z, b, 1, 10, [])
    ensures Enabled(z, Show(CloseFails(0)))
    ensures var after := Next(z, Show(CloseFails(0)));
            && z.sessions == x.sessions && 0 in after.sessions && after.sessions[0].client == z.sessions[0].client
            && !Aligned(after.sessions[0].client.value, after.sessions[0].sel.uids)
  {
    hide ReconcileDisk, ReconcileSnapshot, ReconcileService, Consume, PinnedDisk, Bindings, SyncNext, SeqOf, Only;
    PinsStayEmpty(x.disk, x.svc, b, []);
    ShowsNothing(x.disk, x.svc, b);
    OnlyNone(snap.Uids());
  }

  /** Moment `k` of a run: session 0 has message 1 in view and sets its `\Deleted` mark. */
  ghost predicate Marks(ws: seq<World>, acts: seq<Action>, k: nat, b: Box) {
    && k < |acts| && |ws| == |acts| + 1 && acts[k] == MarkDeleted(b, {1}, true)
    && 0 in ws[k+1].sessions && 1 in ws[k+1].sessions[0].sel.uids && ws[k+1].sessions[0].sel.box == b
    && Name(b, 1) in ws[k+1].disk.marks
  }

  lemma MarkFirst(x: World, b: Box, snap: Snapshot) returns (m: World)
    requires Idle(x, b, 1, 10) && Selected0(x, b, snap) && 1 in snap.Uids()
    ensures Leads(x, m, [x, m], [MarkDeleted(b, {1}, true)]) && Idle(m, b, 1, 10) && Selected0(m, b, snap)
    ensures Name(b, 1) in m.disk.marks && 1 in m.sessions[0].sel.uids
  {
    hide Bindings, Consume, PinnedDisk, ReconcileDisk, ReconcileSnapshot, ReconcileService;
    m := Next(x, MarkDeleted(b, {1}, true));
    assert 1 in {1};
  }

  /** A client selects a mailbox with a message, marks the message, and closes. The removal fails because
      the message has just vanished upstream: the sync no longer shows it, CLOSE drops it silently and answers
      NO. The mailbox stays selected, and the client's list is longer than the session's. */
  lemma SilentCloseBreaksMirror(inbox: string)
    returns (ws: seq<World>, acts: seq<Action>, k: nat, before: World, after: World)
    ensures Run(ws, acts) && |ws| == |acts| + 1 && ws[|acts|] == before
    ensures Marks(ws, acts, k, Box(inbox, InboxView))
    ensures 0 in before.sessions && before.sessions[0].intact && before.sessions[0].client.Some?
    ensures Aligned(before.sessions[0].client.value, before.sessions[0].sel.uids)
    ensures Enabled(before, Show(CloseFails(0))) && after == Next(before, Show(CloseFails(0)))
    ensures 0 in after.sessions && after.sessions[0].client == before.sessions[0].client
    ensures !Aligned(after.sessions[0].client.value, after.sessions[0].sel.uids)
  {
    hide *;
    var b := Box(inbox, InboxView);
    var snap := ReconcileSnapshot(EMPTY, IDLE, b, [MAIL_ENTRY], 0.0, 0.0, TICK);
    Stays(START);
    StartIsIdle(b);
    var v := BeginsListing(START, START, b, 0, 0);
    v := TakesMail(START, START, v, b, 0, 0);
    var u := Completes(START, START, v, b, 0, 0, [MAIL_ENTRY]);
    var x := Selecting(u, b, snap);
    ShowsMail(b);
    var m := MarkFirst(x, b, snap);
    Stays(m);
    var y := BeginsListing(m, m, b, 1, 10);
    before := Completes(m, m, y, b, 1, 10, []);
    DropsSilently(m, before, b, snap);
    AlignedAtFirst(m, b, snap);
    after := Next(before, Show(CloseFails(0)));
    ws, acts, k := RunThrough(x, m, before, MarkDeleted(b, {1}, true));
    assert Marks(ws, acts, k, b) by { MarkedThen(ws, acts, k, b, snap, m); }
  }

  lemma MarkedThen(ws: seq<World>, acts: seq<Action>, k: nat, b: Box, snap: Snapshot, m: World)
    requires k < |acts| && |ws| == |acts| + 1 && acts[k] == MarkDeleted(b, {1}, true) && ws[k+1] == m
    requires Selected0(m, b, snap) && Name(b, 1) in m.disk.marks && 0 in m.sessions && 1 in m.sessions[0].sel.uids
    ensures Marks(ws, acts, k, b)
  {
  }

  /** The run that reaches `x`, takes one action to `m`, and goes on to `w`. */
  lemma RunThrough(x: World, m: World, w: World, a: Action) returns (ws: seq<World>, acts: seq<Action>, k: nat)
    requires Reaches(START, x) && Leads(x, m, [x, m], [a]) && Reaches(m, w)
    ensures Run(ws, acts) && |ws| == |acts| + 1 && ws[|acts|] == w
    ensures k < |acts| && acts[k] == a && ws[k+1] == m
  {
    hide Path, Run;
    var ws1, acts1 :| Leads(START, x, ws1, acts1);
    var ws2, acts2 :| Leads(m, w, ws2, acts2);
    assert |ws1| == |acts1| + 1 && |ws2| == |acts2| + 1 && ws2[0] == m by {
      LeadsFrom(START, x, ws1, acts1);
      LeadsFrom(m, w, ws2, acts2);
    }
    Joined(x, m, w, [x, m], [a], ws2, acts2);
    Joined(START, x, w, ws1, acts1, [x, m] + ws2[1..], [a] + acts2);
    k, ws, acts := |acts1|, ws1 + ([x, m] + ws2[1..])[1..], acts1 + ([a] + acts2);
    LeadsRun(w, ws, acts);
  }

  lemma LeadsFrom(w: World, v: World, ws: seq<World>, acts: seq<Action>)
    requires Leads(w, v, ws, acts)
    ensures |ws| == |acts| + 1 && ws[0] == w
  {
    hide Enabled, Next;
  }

  lemma StartIsIdle(b: Box)
    requires b.view == InboxView
    ensures Idle(START, b, 0, 0)
  {
  }

  lemma AlignedAtFirst(x: World, b: Box, snap: Snapshot)
    requires Selected0(x, b, snap)
    ensures 0 in x.sessions && x.sessions[0].intact && x.sessions[0].client.Some?
    ensures Aligned(x.sessions[0].client.value, x.sessions[0].sel.uids)
  {
  }

  // ----- losing the database -----------------------------------------------------------------------------

  /** An element any mailbox shows. */
  function Sample(id: string): Listed {
    Listed(id, 0, {}, Some("0123456789abcdef"), Envelope(None, "", [], ""))
  }

  function SampleEntry(b: Box, id: string): Entry {
    if KindOf(b.view) == Messages then Entry(0, id, id, {Seen}, {}, Sample(id).env)
    else Entry(0, id, ContentKey(id, Sample(id).content.value), DRAFT_FLAGS, {}, Sample(id).env)
  }

  /** A forced sync of a mailbox whose listing shows one element. */
  function Lists(b: Box, id: string, t: Tick): (r: seq<Action>)
    ensures |r| == 4
  {
    [Sync(Call(0, b, 0, true, false, 0)), Sync(Begin(0)), Take(0, Sample(id), 0.0), Finish(0, 0.0, 0.0, t)]
  }

  /** A server that has just started. */
  ghost predicate Started(w: World) {
    w.svc == IDLE && w.sync == START.sync && w.disk.Valid()
  }

  /** After the first listing of a mailbox without a row. */
  ghost predicate ListedFirst(w: World, v: World, b: Box, id: string, t: Tick) {
    var value := NextUidvalidity(w.disk.watermark, t.clock);
    && v.disk.watermark == (if t.sidecarWritten then value else w.disk.watermark) && v.disk.Valid()
    && |v.hist.published| == |w.hist.published| + 1 && v.hist.published[..|w.hist.published|] == w.hist.published
    && var snap := v.hist.published[|w.hist.published|].snap;
       snap.box == b && snap.uidvalidity == value && snap.Names(1, SampleEntry(b, id).key)
  }

  lemma FirstListing(w: World, b: Box, id: string, t: Tick) returns (ws: seq<World>)
    requires Started(w) && b !in w.disk.boxes && id != ""
    ensures |ws| == 5 && Leads(w, ws[4], ws, Lists(b, id, t)) && ListedFirst(w, ws[4], b, id, t)
  {
    hide ReconcileDisk, ReconcileSnapshot, ReconcileService, ViewNext, ViewEnabled, Consume, PinnedDisk, Bindings,
        NextUidvalidity, EnsureMailbox;
    var w1 := Next(w, Sync(Call(0, b, 0, true, false, 0)));
    var w2 := Next(w1, Sync(Begin(0)));
    assert w2.sync.tasks[0] == Task(b, 0, Listing(0, Collected({}, [])));
    TakenSample(b, id);
    var w3 := Next(w2, Take(0, Sample(id), 0.0));
    assert w3.sync.tasks[0].phase.got.entries == [SampleEntry(b, id)] && w3.svc == IDLE && w3.disk == w.disk;
    var w4 := Next(w3, Finish(0, 0.0, 0.0, t));
    ws := [w, w1, w2, w3, w4];
    FirstReconcile(w.disk, b, SampleEntry(b, id), t);
  }

  lemma TakenSample(b: Box, id: string)
    ensures Consume(b, Collected({}, []), map[], Sample(id), 0.0) == (Collected({id}, [SampleEntry(b, id)]), map[])
  {
    assert MessageFlags({}) == {Seen} && Sample(id).labels * Excluded(b.view) == {};
    assert forall e: Entry :: [] + [e] == [e];
    assert {} + {id} == {id};
  }

  lemma FirstReconcile(d: Disk, b: Box, e: Entry, t: Tick)
    requires d.Valid() && b !in d.boxes
    ensures var d', snap := ReconcileDisk(d, IDLE, b, [e], 0.0, t), ReconcileSnapshot(d, IDLE, b, [e], 0.0, 0.0, t);
            var value := NextUidvalidity(d.watermark, t.clock);
            && d'.Valid() && d'.watermark == (if t.sidecarWritten then value else d.watermark)
            && snap.box == b && snap.uidvalidity == value && snap.Names(1, e.key)
  {
    hide *;
    NothingPinned(b, e);
    ReconcileExact(d, IDLE, b, [e], 0.0, 0.0, t);
    ReconcileGrows(d, IDLE, b, [e], 0.0, t);
    NewRow(d, b, t);
    SnapshotBox(d, b, [e], t);
    var d', snap := ReconcileDisk(d, IDLE, b, [e], 0.0, t), ReconcileSnapshot(d, IDLE, b, [e], 0.0, 0.0, t);
    GrownAt(d, d', b, t);
    FirstNumbered(Before(d, b, t), d'.boxes[b], Ordered(IDLE.Pins(b), [e], 0.0), snap);
  }

  lemma NothingPinned(b: Box, e: Entry)
    ensures IDLE.Pins(b) == [] && DistinctPins(IDLE.Pins(b)) && DistinctKeys([e])
    ensures Ordered(IDLE.Pins(b), [e], 0.0) != [] && Ordered(IDLE.Pins(b), [e], 0.0)[0] == e
  {
    hide Ordered;
    EarlyIsFirst([], [], e, 0.0);
    assert [] + [e] == [e];
  }

  lemma GrownAt(d: Disk, d': Disk, b: Box, t: Tick)
    requires GrowsAt(d, d', b, t)
    ensures b in d'.boxes && d'.watermark == EnsureMailbox(d, b, t).watermark
  {
    hide Extends;
  }

  /** The first entry of a new row is published under UID 1. */
  lemma FirstNumbered(m: Mailbox, m': Mailbox, entries: seq<Entry>, snap: Snapshot)
    requires Numbered(m, m', entries) && Agrees(snap, m') && m.live == map[] && m.nextUid == 1 && entries != []
    ensures snap.uidvalidity == m.uidvalidity && snap.Names(1, entries[0].key)
  {
    hide NewKeys;
    FirstNewKey(Keys(entries));
  }

  lemma SnapshotBox(d: Disk, b: Box, listed: seq<Entry>, t: Tick)
    ensures ReconcileSnapshot(d, IDLE, b, listed, 0.0, 0.0, t).box == b
    ensures EnsureMailbox(d, b, t).watermark ==
            if b !in d.boxes && t.sidecarWritten then NextUidvalidity(d.watermark, t.clock) else d.watermark
  {
    hide Ordered, EnsureUids, SortItems, Built;
  }

  lemma Joined(w: World, v: World, u: World, ws: seq<World>, acts: seq<Action>, ws': seq<World>, acts': seq<Action>)
    requires Leads(w, v, ws, acts) && Leads(v, u, ws', acts')
    ensures Leads(w, u, ws + ws'[1..], acts + acts')
  {
    hide Enabled, Next;
    var all, done := ws + ws'[1..], acts + acts';
    forall i | 0 <= i < |done| ensures Enabled(all[i], done[i]) && all[i+1] == Next(all[i], done[i]) {
      if i >= |acts| {
        assert all[i] == ws'[i - |acts|] && all[i+1] == ws'[i - |acts| + 1];
      }
    }
  }

  /** The mailbox is listed, the database is lost, and the mailbox is listed again with another element. */
  lemma Recreates(b: Box, id: string, other: string, t: Tick) returns (ws: seq<World>, acts: seq<Action>)
    requires id != "" && other != ""
    ensures Run(ws, acts) && acts == Lists(b, id, t) + [Restart(true)] + Lists(b, other, t) && |ws| == |acts| + 1
    ensures var first := NextUidvalidity(0, t.clock);
            var again := if t.sidecarWritten then NextUidvalidity(first, t.clock) else first;
            var pubs := ws[|acts|].hist.published;
            && |pubs| == 2 && pubs[0].snap.box == b && pubs[1].snap.box == b
            && pubs[0].snap.uidvalidity == first && pubs[0].snap.Names(1, SampleEntry(b, id).key)
            && pubs[1].snap.uidvalidity == again && pubs[1].snap.Names(1, SampleEntry(b, other).key)
  {
    hide NextUidvalidity, Lists, Path;
    var ws1 := FirstListing(START, b, id, t);
    var v := Restarted(ws1[4], true);
    Restarts(START, ws1, Lists(b, id, t), v);
    var ws2 := FirstListing(v, b, other, t);
    Joined(START, v, ws2[4], ws1 + [v], Lists(b, id, t) + [Restart(true)], ws2, Lists(b, other, t));
    ws, acts := ws1 + [v] + ws2[1..], Lists(b, id, t) + [Restart(true)] + Lists(b, other, t);
    assert ws2[4].hist.published[..1] == ws1[4].hist.published;
    LeadsRun(ws2[4], ws, acts);
  }

  lemma Restarts(w: World, ws: seq<World>, acts: seq<Action>, v: World)
    requires |ws| == |acts| + 1 && Leads(w, ws[|acts|], ws, acts) && v == Restarted(ws[|acts|], true)
    ensures Leads(w, v, ws + [v], acts + [Restart(true)]) && Started(v) && v.disk.boxes == map[]
    ensures v.disk.watermark == ws[|acts|].disk.watermark && v.hist.published == ws[|acts|].hist.published
  {
  }

  lemma LeadsRun(v: World, ws: seq<World>, acts: seq<Action>)
    requires Leads(START, v, ws, acts)
    ensures Run(ws, acts) && |ws| == |acts| + 1 && ws[|acts|] == v
  {
    hide Enabled, Next;
  }

  /** Two published snapshots of one mailbox and UIDVALIDITY show two keys under UID 1. */
  ghost predicate NamesReused(h: History, b: Box, uidvalidity: nat) {
    exists p, q, key, other ::
      && 0 <= p < |h.published| && 0 <= q < |h.published| && key != other
      && h.published[p].snap.box == b && h.published[p].snap.uidvalidity == uidvalidity
      && h.published[q].snap.box == b && h.published[q].snap.uidvalidity == uidvalidity
      && h.published[p].snap.Names(1, key) && h.published[q].snap.Names(1, other)
  }

  /** Once the ceiling has been issued, losing the database redefines UIDs, sidecar or not. */
  lemma CeilingReusesNames(b: Box) returns (ws: seq<World>, acts: seq<Action>)
    ensures Run(ws, acts) && |ws| == |acts| + 1
    ensures var t := Tick(MAX_UIDVALIDITY, true); acts == Lists(b, "m", t) + [Restart(true)] + Lists(b, "n", t)
    ensures NamesReused(ws[|acts|].hist, b, MAX_UIDVALIDITY)
  {
    hide Run, Lists;
    ws, acts := Recreates(b, "m", "n", Tick(MAX_UIDVALIDITY, true));
    KeysDiffer(b);
  }

  /** The same happens below the ceiling when the sidecar write is lost and the clock stands still. */
  lemma LostSidecarReusesNames(b: Box, clock: int) returns (ws: seq<World>, acts: seq<Action>)
    ensures Run(ws, acts) && |ws| == |acts| + 1
    ensures var t := Tick(clock, false); acts == Lists(b, "m", t) + [Restart(true)] + Lists(b, "n", t)
    ensures NamesReused(ws[|acts|].hist, b, NextUidvalidity(0, clock))
  {
    hide Run, Lists;
    ws, acts := Recreates(b, "m", "n", Tick(clock, false));
    KeysDiffer(b);
  }

  lemma KeysDiffer(b: Box)
    ensures SampleEntry(b, "m").key != SampleEntry(b, "n").key
  {
    assert SampleEntry(b, "m").key[0] == 'm' && SampleEntry(b, "n").key[0] == 'n';
  }
}
