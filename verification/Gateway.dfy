/** The whole gateway as a state machine. An action is (part of) what the source runs between two
    `await`s, so a run is any interleaving of sessions, syncs, mutations, upstream answers and
    restarts. APPEND, COPY, STORE and EXPUNGE are sequences of the actions below. */
module Gateway {
  import opened Types
  import opened UidStores
  import opened Mailboxes
  import opened Sessions

  // ----- syncs in flight -----------------------------------------------------------------------

  /** How a listing task ended. A published snapshot is identified by its place in the history. */
  datatype Outcome = Publishes(index: nat) | AuthFailed | Failed

  /** `began` is the mutation generation of the mailbox when the listing began. */
  datatype Phase = Created | Listing(began: nat, got: Collected) | Done(began: nat, outcome: Outcome)

  datatype Task = Task(box: Box, owner: nat, phase: Phase)

  datatype Inflight = Inflight(task: nat, gen: nat, owner: nat)

  /** Where a call of `sync` is: waiting for a stale task, for another caller's task, for its own
      task, or back with the snapshot at a place in the history. */
  datatype Where =
    | Stale(task: nat) | Joined(task: nat) | Own(task: nat)
    | Returned(index: nat, via: Option<nat>) | Raised
  {
    predicate Waiting() { Stale? || Joined? || Own? }
  }

  datatype Caller = Caller(box: Box, client: nat, force: bool, gen: nat, at: Where)

  datatype Syncs = Syncs(tasks: map<nat, Task>, inflight: map<Box, Inflight>, callers: map<nat, Caller>)
  {
    predicate IsListing(t: nat) { t in tasks && tasks[t].phase.Listing? }

    predicate IsDone(t: nat) { t in tasks && tasks[t].phase.Done? }

    function SetPhase(t: nat, p: Phase): Syncs
      requires t in tasks
    {
      this.(tasks := tasks[t := tasks[t].(phase := p)])
    }

    function Park(c: nat, caller: Caller, at: Where): Syncs {
      this.(callers := callers[c := caller.(at := at)])
    }

    function Spawn(t: nat, caller: Caller): Syncs {
      this.(tasks := tasks[t := Task(caller.box, caller.client, Created)])
    }

    /** Starts a task, registered under the generation its caller read. */
    function Launch(c: nat, caller: Caller, t: nat): Syncs {
      Spawn(t, caller).Park(c, caller, Own(t))
      .(inflight := inflight[caller.box := Inflight(t, caller.gen, caller.client)])
    }
  }

  datatype SyncAction =
    | Call(c: nat, box: Box, client: nat, force: bool, stillFresh: bool, newTask: nat)
    | Wake(c: nat, newTask: nat)
    | Begin(t: nat)
    | Abandon(t: nat, auth: bool)
    | Reap(t: nat)

  /** `sync` up to its first `await`; `cached` is the place of the latest snapshot, if there is one,
      and `stillFresh` the outcome of the refresh-interval test. */
  function CallSync(y: Syncs, gen: nat, cached: Option<nat>, c: nat, b: Box, client: nat, force: bool,
      stillFresh: bool, t: nat): Syncs {
    var caller := Caller(b, client, force, gen, Raised);
    if cached.Some? && !force && stillFresh then y.Park(c, caller, Returned(cached.value, None))
    else if b !in y.inflight then y.Launch(c, caller, t)
    else if y.inflight[b].gen >= gen || !force then y.Park(c, caller, Joined(y.inflight[b].task))
    else y.Park(c, caller, Stale(y.inflight[b].task))
  }

  /** A caller resumes because the sync it awaits is done. */
  function WakeUp(y: Syncs, c: nat, t: nat): Syncs
    requires c in y.callers && y.callers[c].at.Waiting() && y.IsDone(y.callers[c].at.task)
  {
    var caller := y.callers[c];
    var task := y.tasks[caller.at.task];
    if caller.at.Stale? then
      // the stale sync's outcome is ignored
      if caller.box in y.inflight && y.inflight[caller.box].gen >= caller.gen
      then y.Park(c, caller, Joined(y.inflight[caller.box].task))
      else y.Launch(c, caller, t)
    else if task.phase.outcome.Publishes? then
      y.Park(c, caller, Returned(task.phase.outcome.index, Some(caller.at.task)))
    else if caller.at.Joined? && task.phase.outcome.AuthFailed? && task.owner != caller.client then
      // another session's credentials failed: list again with our own, unregistered
      y.Spawn(t, caller).Park(c, caller, Own(t))
    else y.Park(c, caller, Raised)
  }

  predicate SyncEnabled(y: Syncs, x: SyncAction) {
    match x
    case Call(c, b, _, _, _, t) => c !in y.callers && t !in y.tasks
    case Wake(c, t) => c in y.callers && t !in y.tasks && y.callers[c].at.Waiting() && y.IsDone(y.callers[c].at.task)
    case Begin(t) => t in y.tasks && y.tasks[t].phase.Created?
    case Abandon(t, _) => t in y.tasks && !y.tasks[t].phase.Done?
    case Reap(t) => y.IsDone(t)
  }

  function SyncNext(y: Syncs, s: Service, lastPub: map<Box, nat>, x: SyncAction): Syncs
    requires SyncEnabled(y, x)
  {
    match x
    case Call(c, b, client, force, stillFresh, t) =>
      var cached := if b in s.latest && b in lastPub then Some(lastPub[b]) else None;
      CallSync(y, s.Generation(b), cached, c, b, client, force, stillFresh, t)
    case Wake(c, t) => WakeUp(y, c, t)
    case Begin(t) => y.SetPhase(t, Listing(s.Generation(y.tasks[t].box), Collected({}, [])))
    case Abandon(t, auth) =>
      y.SetPhase(t, Done(if y.tasks[t].phase.Listing? then y.tasks[t].phase.began else s.Generation(y.tasks[t].box),
                         if auth then AuthFailed else Failed))
    case Reap(t) =>
      var b := y.tasks[t].box;
      if b in y.inflight && y.inflight[b].task == t then y.(inflight := y.inflight - {b}) else y
  }

  // ----- sessions and history --------------------------------------------------------------------

  /** `client` is the list of the client that obeys our responses; `basis` is the published snapshot
      the view was last brought to; `intact` is lost when CLOSE fails after dropping UIDs unannounced. */
  datatype Window = Window(sel: Selected, client: Option<Client>, basis: nat, intact: bool)

  /** A published snapshot; `epoch` counts the database losses before it. */
  datatype Publication = Publication(snap: Snapshot, epoch: nat)

  datatype Binding = Binding(box: Box, uidvalidity: nat, uid: nat, key: string)

  /** What has happened: the published snapshots, where each mailbox's latest one is, and every UID
      ever bound to a key. Nothing here is forgotten except `lastPub`, which lives as long as the process. */
  datatype History = History(epoch: nat, published: seq<Publication>, lastPub: map<Box, nat>, issued: set<Binding>)

  datatype World = World(disk: Disk, svc: Service, sync: Syncs, sessions: map<nat, Window>, hist: History)

  const START := World(EMPTY, IDLE, Syncs(map[], map[], map[]), map[], History(0, [], map[], {}))

  datatype ViewAction =
    | Select(s: nat, c: nat, readOnly: bool)
    | Flush(s: nat)
    | Learn(s: nat, uid: nat)
    | CloseFails(s: nat)
    | Deselect(s: nat)

  function Selects(pub: Publication, index: nat, readOnly: bool, marked: set<nat>): Window {
    Window(FromSnapshot(pub.snap, readOnly, marked), Some(Unknown(|pub.snap.items|)), index, true)
  }

  function FlushView(v: Window, latest: Snapshot, index: nat, deleted: set<nat>): Window {
    v.(sel := Flushed(v.sel, latest, deleted),
    client := if v.client.None? then None else ObeyAll(v.client.value, FlushResponses(v.sel, latest, deleted)),
    basis := index)
  }

  function CloseView(v: Window, latest: Snapshot, index: nat): Window {
    var sel := SilentDrop(v.sel, latest);
    v.(sel := sel, basis := index, intact := v.intact && sel.uids == v.sel.uids)
  }

  /** The client learns the UID of a position from a response that names both: UID FETCH and STORE look
      the position up in `seq_of`. */
  function Learned(v: Window, uid: nat): Window
    requires uid in v.sel.seqOf
  {
    var n := v.sel.seqOf[uid];
    if v.client.Some? && 1 <= n <= |v.client.value|
    then v.(client := Some(v.client.value[n - 1 := Some(uid)]))
    else v
  }

  predicate HasLatest(w: World, b: Box) {
    b in w.svc.latest && b in w.hist.lastPub
  }

  predicate ViewEnabled(w: World, x: ViewAction) {
    match x
    case Select(s, c, _) =>
      && c in w.sync.callers && w.sync.callers[c].force
      && w.sync.callers[c].at.Returned? && w.sync.callers[c].at.index < |w.hist.published|
    case Flush(s) => s in w.sessions && HasLatest(w, w.sessions[s].sel.box)
    case Learn(s, uid) => s in w.sessions && uid in w.sessions[s].sel.seqOf
    case CloseFails(s) =>
      s in w.sessions && !w.sessions[s].sel.readOnly && HasLatest(w, w.sessions[s].sel.box)
    case Deselect(s) => s in w.sessions
  }

  function ViewNext(w: World, x: ViewAction): map<nat, Window>
    requires ViewEnabled(w, x)
  {
    match x
    case Select(s, c, readOnly) =>
      var index := w.sync.callers[c].at.index;
      w.sessions[s := Selects(w.hist.published[index], index, readOnly,
          w.disk.Marked(w.hist.published[index].snap.box))]
    case Flush(s) =>
      var b := w.sessions[s].sel.box;
      w.sessions[s := FlushView(w.sessions[s], w.svc.latest[b], w.hist.lastPub[b], w.disk.Marked(b))]
    case Learn(s, uid) => w.sessions[s := Learned(w.sessions[s], uid)]
    case CloseFails(s) =>
      var b := w.sessions[s].sel.box;
      w.sessions[s := CloseView(w.sessions[s], w.svc.latest[b], w.hist.lastPub[b])]
    case Deselect(s) => w.sessions - {s}
  }

  // ----- actions -----------------------------------------------------------------------------------

  datatype Action =
    | Sync(sync: SyncAction)
    | Take(t: nat, m: Listed, now: real)
    | Finish(t: nat, now: real, at: real, tick: Tick)
    | Hold(inbox: string, id: string, labels: set<string>, now: real)
    | PinNew(box: Box, e: Entry, now: real, tick: Tick)
    | Unpin(box: Box, key: string)
    | Mutated(box: Box)
    | Replace(box: Box, index: nat, pos: nat, labels: set<string>)
    | MarkDeleted(box: Box, uids: set<nat>, value: bool)
    | Show(view: ViewAction)
    | Restart(lose: bool)

  /** Only Drafts and Trash get pins. APPEND and COPY list such a mailbox first if it has no snapshot yet. */
  predicate Pinnable(b: Box) {
    b.view == DraftsView || b.view == TrashView
  }

  ghost predicate Enabled(w: World, a: Action) {
    match a
    case Sync(x) => SyncEnabled(w.sync, x)
    case Take(t, m, _) => w.sync.IsListing(t) && WellFormedListed(KindOf(w.sync.tasks[t].box.view), m)
    case Finish(t, _, _, _) => w.sync.IsListing(t)
    case PinNew(b, _, _, _) => Pinnable(b) && b in w.svc.latest
    case Replace(b, index, pos, _) =>
      && index < |w.hist.published| && w.hist.published[index].epoch == w.hist.epoch
      && w.hist.published[index].snap.box == b && pos < |w.hist.published[index].snap.items|
    case Show(x) => ViewEnabled(w, x)
    case _ => true
  }

  function Bindings(d: Disk, b: Box): set<Binding> {
    if b !in d.boxes then {}
    else set k | k in d.boxes[b].live :: Binding(b, d.boxes[b].uidvalidity, d.boxes[b].live[k], k)
  }

  /** One listed element; a listing with an element that has no id is refused as a whole. */
  function TakeListed(w: World, t: nat, m: Listed, now: real): World
    requires w.sync.IsListing(t)
  {
    var task := w.sync.tasks[t];
    if m.id == "" then w.(sync := w.sync.SetPhase(t, Done(task.phase.began, Failed)))
    else
      var (got, holds) := Consume(task.box, task.phase.got, w.svc.holds, m, now);
      w.(sync := w.sync.SetPhase(t, task.phase.(got := got)), svc := w.svc.(holds := holds))
  }

  /** The listing is complete: reconcile and publish. */
  function FinishSync(w: World, t: nat, now: real, at: real, tick: Tick): World
    requires w.sync.IsListing(t)
  {
    var b, phase := w.sync.tasks[t].box, w.sync.tasks[t].phase;
    var disk := ReconcileDisk(w.disk, w.svc, b, phase.got.entries, now, tick);
    var snap := ReconcileSnapshot(w.disk, w.svc, b, phase.got.entries, now, at, tick);
    World(disk, ReconcileService(w.disk, w.svc, b, phase.got.entries, now, at, tick),
          w.sync.SetPhase(t, Done(phase.began, Publishes(|w.hist.published|))), w.sessions,
          w.hist.(published := w.hist.published + [Publication(snap, w.hist.epoch)],
          lastPub := w.hist.lastPub[b := |w.hist.published|], issued := w.hist.issued + Bindings(disk, b)))
  }

  /** UID allocation and pin of an item we created ourselves. */
  function PinSync(w: World, b: Box, e: Entry, now: real, tick: Tick): World {
    var disk := PinnedDisk(w.disk, b, e, tick);
    w.(disk := disk, svc := Pinned(w.svc, b, e, now), hist := w.hist.(issued := w.hist.issued + Bindings(disk, b)))
  }

  function Restarted(w: World, lose: bool): World {
    World(if lose then LoseDatabase(w.disk) else w.disk, IDLE, START.sync, map[],
          w.hist.(lastPub := map[], epoch := if lose then w.hist.epoch + 1 else w.hist.epoch))
  }

  ghost function Next(w: World, a: Action): World
    requires Enabled(w, a)
  {
    match a
    case Sync(x) => w.(sync := SyncNext(w.sync, w.svc, w.hist.lastPub, x))
    case Take(t, m, now) => TakeListed(w, t, m, now)
    case Finish(t, now, at, tick) => FinishSync(w, t, now, at, tick)
    case Hold(inbox, id, labels, now) =>
      w.(svc := w.svc.(holds := HoldLabels(w.svc.holds, Msg(inbox, id), labels, now)))
    case PinNew(b, e, now, tick) => PinSync(w, b, e, now, tick)
    case Unpin(b, key) => w.(svc := w.svc.WithPins(b, RemovePin(w.svc.Pins(b), key)))
    case Mutated(b) => w.(svc := w.svc.Bumped(b))
    case Replace(b, index, pos, labels) =>
      var item := w.hist.published[index].snap.items[pos];
      w.(svc := ReplaceItem(w.svc, b, item.(flags := MessageFlags(labels), labels := labels)))
    case MarkDeleted(b, uids, value) => w.(disk := SetDeleted(w.disk, b, uids, value))
    case Show(x) => w.(sessions := ViewNext(w, x))
    case Restart(lose) => Restarted(w, lose)
  }

  // ----- runs ------------------------------------------------------------------------------------------

  ghost predicate Path(ws: seq<World>, acts: seq<Action>) {
    |ws| == |acts| + 1 && forall i :: 0 <= i < |acts| ==> Enabled(ws[i], acts[i]) && ws[i+1] == Next(ws[i], acts[i])
  }

  ghost predicate Run(ws: seq<World>, acts: seq<Action>) {
    Path(ws, acts) && ws[0] == START
  }

  lemma RunStep(ws: seq<World>, acts: seq<Action>, i: nat)
    requires Path(ws, acts) && i < |acts|
    ensures |ws| == |acts| + 1 && Enabled(ws[i], acts[i]) && ws[i+1] == Next(ws[i], acts[i])
  {
    hide Enabled, Next;
  }
}
