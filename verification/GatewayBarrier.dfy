/** The generation barrier, and what it buys: a trashed message is gone from the next forced sync. */
module GatewayBarrier {
  import opened Types
  import opened UidStores
  import opened Mailboxes
  import opened Reconciling
  import opened Gateway
  import opened GatewayStore

  // ----- generations -------------------------------------------------------------------------------------

  ghost predicate Begun(y: Syncs, t: nat) {
    t in y.tasks && !y.tasks[t].phase.Created?
  }

  /** The listing behind task `t` of mailbox `b` begins, or began, at generation `gen` or later. */
  ghost predicate NotBefore(y: Syncs, t: nat, b: Box, gen: nat) {
    t in y.tasks && y.tasks[t].box == b && (Begun(y, t) ==> gen <= y.tasks[t].phase.began)
  }

  ghost predicate TaskOk(y: Syncs, s: Service, t: nat) {
    Begun(y, t) ==> y.tasks[t].phase.began <= s.Generation(y.tasks[t].box)
  }

  ghost predicate InflightOk(y: Syncs, s: Service, b: Box) {
    b in y.inflight ==> y.inflight[b].gen <= s.Generation(b) && NotBefore(y, y.inflight[b].task, b, y.inflight[b].gen)
  }

  ghost predicate CallerOk(y: Syncs, s: Service, c: nat) {
    c in y.callers ==>
      var r := y.callers[c];
      && r.gen <= s.Generation(r.box)
      && (r.at.Stale? ==> r.force && r.at.task in y.tasks)
      && (r.at.Joined? || r.at.Own? ==> r.at.task in y.tasks && (r.force ==> NotBefore(y, r.at.task, r.box, r.gen)))
      && (r.at.Returned? && r.force ==>
            && r.at.via.Some? && NotBefore(y, r.at.via.value, r.box, r.gen)
            && y.IsDone(r.at.via.value) && y.tasks[r.at.via.value].phase.outcome == Publishes(r.at.index))
  }

  ghost predicate Barrier(y: Syncs, s: Service) {
    && (forall t :: TaskOk(y, s, t))
    && (forall b :: InflightOk(y, s, b))
    && (forall c :: CallerOk(y, s, c))
  }

  /** Generations only grow while the process lives. */
  lemma GenerationGrows(y: Syncs, s: Service, s': Service)
    requires Barrier(y, s) && forall b :: s.Generation(b) <= s'.Generation(b)
    ensures Barrier(y, s')
  {
    forall t ensures TaskOk(y, s', t) { assert TaskOk(y, s, t); }
    forall b ensures InflightOk(y, s', b) { assert InflightOk(y, s, b); }
    forall c ensures CallerOk(y, s', c) { assert CallerOk(y, s, c); }
  }

  /** A task moves on: a listing begins at the current generation, and afterwards keeps its beginning. */
  lemma PhaseBarrier(y: Syncs, s: Service, t: nat, p: Phase)
    requires Barrier(y, s) && t in y.tasks && !p.Created? && !y.tasks[t].phase.Done?
    requires p.began == if Begun(y, t) then y.tasks[t].phase.began else s.Generation(y.tasks[t].box)
    ensures Barrier(y.SetPhase(t, p), s)
  {
    var y' := y.SetPhase(t, p);
    forall u ensures TaskOk(y', s, u) { assert TaskOk(y, s, u); }
    forall b ensures InflightOk(y', s, b) { assert InflightOk(y, s, b); }
    forall c ensures CallerOk(y', s, c) { assert CallerOk(y, s, c); }
  }

  lemma ParkBarrier(y: Syncs, s: Service, c: nat, caller: Caller, at: Where)
    requires Barrier(y, s) && CallerOk(y.Park(c, caller, at), s, c)
    ensures Barrier(y.Park(c, caller, at), s)
  {
    var y' := y.Park(c, caller, at);
    forall u ensures TaskOk(y', s, u) { assert TaskOk(y, s, u); }
    forall b ensures InflightOk(y', s, b) { assert InflightOk(y, s, b); }
    forall d ensures CallerOk(y', s, d) { assert CallerOk(y, s, d); }
  }

  lemma SpawnBarrier(y: Syncs, s: Service, t: nat, caller: Caller)
    requires Barrier(y, s) && t !in y.tasks
    ensures Barrier(y.Spawn(t, caller), s)
  {
    var y' := y.Spawn(t, caller);
    forall u ensures TaskOk(y', s, u) { assert TaskOk(y, s, u); }
    forall b ensures InflightOk(y', s, b) { assert InflightOk(y, s, b); }
    forall d ensures CallerOk(y', s, d) { assert CallerOk(y, s, d); }
  }

  lemma LaunchBarrier(y: Syncs, s: Service, c: nat, caller: Caller, t: nat)
    requires Barrier(y, s) && t !in y.tasks && caller.gen <= s.Generation(caller.box)
    ensures Barrier(y.Launch(c, caller, t), s)
  {
    SpawnBarrier(y, s, t, caller);
    var z := y.Spawn(t, caller);
    ParkBarrier(z, s, c, caller, Own(t));
    var y' := y.Launch(c, caller, t);
    forall u ensures TaskOk(y', s, u) { assert TaskOk(z, s, u); }
    forall b ensures InflightOk(y', s, b) { assert InflightOk(z, s, b); }
    forall d ensures CallerOk(y', s, d) { assert CallerOk(z.Park(c, caller, Own(t)), s, d); }
  }

  lemma CallBarrier(y: Syncs, s: Service, cached: Option<nat>, c: nat, b: Box, client: nat, force: bool,
      stillFresh: bool, t: nat)
    requires Barrier(y, s) && t !in y.tasks
    ensures Barrier(CallSync(y, s.Generation(b), cached, c, b, client, force, stillFresh, t), s)
  {
    var caller := Caller(b, client, force, s.Generation(b), Raised);
    assert InflightOk(y, s, b);
    if cached.Some? && !force && stillFresh {
      ParkBarrier(y, s, c, caller, Returned(cached.value, None));
    } else if b !in y.inflight {
      LaunchBarrier(y, s, c, caller, t);
    } else if y.inflight[b].gen >= caller.gen || !force {
      ParkBarrier(y, s, c, caller, Joined(y.inflight[b].task));
    } else {
      ParkBarrier(y, s, c, caller, Stale(y.inflight[b].task));
    }
  }

  lemma WakeBarrier(y: Syncs, s: Service, c: nat, t: nat)
    requires Barrier(y, s) && t !in y.tasks
    requires c in y.callers && y.callers[c].at.Waiting() && y.IsDone(y.callers[c].at.task)
    ensures Barrier(WakeUp(y, c, t), s)
  {
    var caller := y.callers[c];
    var outcome := y.tasks[caller.at.task].phase.outcome;
    assert CallerOk(y, s, c);
    if caller.at.Stale? {
      assert InflightOk(y, s, caller.box);
      if caller.box in y.inflight && y.inflight[caller.box].gen >= caller.gen {
        ParkBarrier(y, s, c, caller, Joined(y.inflight[caller.box].task));
      } else {
        LaunchBarrier(y, s, c, caller, t);
      }
    } else if outcome.Publishes? {
      ParkBarrier(y, s, c, caller, Returned(outcome.index, Some(caller.at.task)));
    } else if caller.at.Joined? && outcome.AuthFailed? && y.tasks[caller.at.task].owner != caller.client {
      SpawnBarrier(y, s, t, caller);
      ParkBarrier(y.Spawn(t, caller), s, c, caller, Own(t));
    } else {
      ParkBarrier(y, s, c, caller, Raised);
    }
  }

  lemma SyncBarrier(y: Syncs, s: Service, lastPub: map<Box, nat>, x: SyncAction)
    requires Barrier(y, s) && SyncEnabled(y, x)
    ensures Barrier(SyncNext(y, s, lastPub, x), s)
  {
    match x
    case Call(c, b, client, force, stillFresh, t) =>
      var cached := if b in s.latest && b in lastPub then Some(lastPub[b]) else None;
      CallBarrier(y, s, cached, c, b, client, force, stillFresh, t);
    case Wake(c, t) => WakeBarrier(y, s, c, t);
    case Begin(t) => PhaseBarrier(y, s, t, SyncNext(y, s, lastPub, x).tasks[t].phase);
    case Abandon(t, _) => PhaseBarrier(y, s, t, SyncNext(y, s, lastPub, x).tasks[t].phase);
    case Reap(t) =>
      var y' := SyncNext(y, s, lastPub, x);
      forall u ensures TaskOk(y', s, u) { assert TaskOk(y, s, u); }
      forall b ensures InflightOk(y', s, b) { assert InflightOk(y, s, b); }
      forall d ensures CallerOk(y', s, d) { assert CallerOk(y, s, d); }
  }

  lemma BarrierStep(w: World, a: Action)
    requires Enabled(w, a) && Barrier(w.sync, w.svc)
    ensures Barrier(Next(w, a).sync, Next(w, a).svc)
  {
    hide Next, Barrier;
    match a {
      case Sync(x) => SyncStepBarrier(w, x);
      case Take(t, m, now) => ListingBarrier(w, a, t);
      case Finish(t, now, at, tick) => ListingBarrier(w, a, t);
      case Restart(_) => RestartBarrier(w, a);
      case _ => OtherBarrier(w, a);
    }
  }

  lemma SyncStepBarrier(w: World, x: SyncAction)
    requires Enabled(w, Sync(x)) && Barrier(w.sync, w.svc)
    ensures Barrier(Next(w, Sync(x)).sync, Next(w, Sync(x)).svc)
  {
    hide Barrier, SyncNext, SyncEnabled;
    SyncBarrier(w.sync, w.svc, w.hist.lastPub, x);
  }

  lemma ListingBarrier(w: World, a: Action, t: nat)
    requires Enabled(w, a) && Barrier(w.sync, w.svc) && ((a.Take? && a.t == t) || (a.Finish? && a.t == t))
    ensures Barrier(Next(w, a).sync, Next(w, a).svc)
  {
    hide ReconcileDisk, ReconcileSnapshot, Consume, Bindings, Barrier, TaskOk, InflightOk, CallerOk, KeptPins;
    var w' := Next(w, a);
    PhaseBarrier(w.sync, w.svc, t, w'.sync.tasks[t].phase);
    GenerationGrows(w'.sync, w.svc, w'.svc);
  }

  lemma RestartBarrier(w: World, a: Action)
    requires a.Restart?
    ensures Barrier(Next(w, a).sync, Next(w, a).svc)
  {
  }

  lemma OtherBarrier(w: World, a: Action)
    requires Enabled(w, a) && Barrier(w.sync, w.svc) && !a.Sync? && !a.Take? && !a.Finish? && !a.Restart?
    ensures Barrier(Next(w, a).sync, Next(w, a).svc)
  {
    hide PinnedDisk, ViewNext, ViewEnabled, SetDeleted, Bindings, Barrier, SetPin, RemovePin;
    SyncUntouched(w, a);
    GenerationGrows(w.sync, w.svc, Next(w, a).svc);
  }

  lemma {:induction false} BarrierAlways(ws: seq<World>, acts: seq<Action>, i: nat)
    requires Run(ws, acts) && i < |ws|
    ensures Barrier(ws[i].sync, ws[i].svc)
  {
    hide Next, Enabled;
    if i > 0 {
      RunStep(ws, acts, i - 1);
      BarrierAlways(ws, acts, i - 1);
      BarrierStep(ws[i-1], acts[i-1]);
    }
  }

  // ----- what a beginning means ---------------------------------------------------------------------------

  ghost predicate Alive(acts: seq<Action>, i: nat, j: nat) {
    forall k :: i <= k < j && k < |acts| ==> !acts[k].Restart?
  }

  /** Step `k` began the listing of task `t`, in this process, at the recorded generation. */
  ghost predicate BeganAt(ws: seq<World>, acts: seq<Action>, j: nat, t: nat, k: nat)
    requires Run(ws, acts) && j < |ws| && t in ws[j].sync.tasks && ws[j].sync.tasks[t].phase != Created
  {
    && k < j && acts[k] == Sync(Begin(t)) && Alive(acts, k, j)
    && ws[k].svc.Generation(ws[j].sync.tasks[t].box) == ws[j].sync.tasks[t].phase.began
  }

  ghost predicate HasBegun(p: Phase) {
    p.Listing? || (p.Done? && p.outcome.Publishes?)
  }

  lemma SyncIs(w: World, x: SyncAction)
    requires Enabled(w, Sync(x))
    ensures Next(w, Sync(x)).sync == SyncNext(w.sync, w.svc, w.hist.lastPub, x)
  {
    hide SyncNext, SyncEnabled;
  }

  lemma TakeIs(w: World, t: nat, m: Listed, now: real)
    requires Enabled(w, Take(t, m, now))
    ensures var y, y' := w.sync, Next(w, Take(t, m, now)).sync;
            && y'.tasks.Keys == y.tasks.Keys && y'.callers == y.callers
            && (forall u :: u in y.tasks && u != t ==> y'.tasks[u] == y.tasks[u])
            && y'.tasks[t].box == y.tasks[t].box && HasBegun(y.tasks[t].phase)
            && (HasBegun(y'.tasks[t].phase) ==> y'.tasks[t].phase.began == y.tasks[t].phase.began)
  {
    hide Consume;
  }

  lemma FinishPhase(w: World, t: nat, now: real, at: real, tick: Tick)
    requires Enabled(w, Finish(t, now, at, tick))
    ensures Next(w, Finish(t, now, at, tick)).sync ==
            w.sync.SetPhase(t, Done(w.sync.tasks[t].phase.began, Publishes(|w.hist.published|)))
  {
    hide ReconcileDisk, ReconcileSnapshot, ReconcileService, Bindings;
  }

  lemma SyncUntouched(w: World, a: Action)
    requires Enabled(w, a) && !a.Sync? && !a.Take? && !a.Finish? && !a.Restart?
    ensures Next(w, a).sync == w.sync
  {
    hide PinnedDisk, Pinned, ReplaceItem, ViewNext, ViewEnabled, SetDeleted, Bindings;
  }

  /** How one action moves one task. */
  lemma TaskMoves(w: World, a: Action, t: nat)
    requires Enabled(w, a) && !a.Restart? && t in Next(w, a).sync.tasks && HasBegun(Next(w, a).sync.tasks[t].phase)
    ensures t in w.sync.tasks && w.sync.tasks[t].box == Next(w, a).sync.tasks[t].box
    ensures if a == Sync(Begin(t)) then Next(w, a).sync.tasks[t].phase.began == w.svc.Generation(w.sync.tasks[t].box)
            else HasBegun(w.sync.tasks[t].phase) && w.sync.tasks[t].phase.began == Next(w, a).sync.tasks[t].phase.began
  {
    hide Next;
    if a.Sync? {
      SyncIs(w, a.sync);
    } else if a.Take? {
      TakeIs(w, a.t, a.m, a.now);
    } else if a.Finish? {
      FinishPhase(w, a.t, a.now, a.at, a.tick);
    } else {
      SyncUntouched(w, a);
    }
  }

  lemma {:induction false} BeganMeans(ws: seq<World>, acts: seq<Action>, j: nat, t: nat) returns (k: nat)
    requires Run(ws, acts) && j < |ws| && t in ws[j].sync.tasks && HasBegun(ws[j].sync.tasks[t].phase)
    ensures BeganAt(ws, acts, j, t, k)
  {
    if acts[j-1] == Sync(Begin(t)) {
      TaskMoves(ws[j-1], acts[j-1], t);
      k := j - 1;
    } else {
      TaskMoves(ws[j-1], acts[j-1], t);
      k := BeganMeans(ws, acts, j - 1, t);
    }
  }

  lemma GenerationStep(w: World, a: Action, b: Box)
    requires Enabled(w, a) && !a.Restart?
    ensures Next(w, a).svc.Generation(b) == w.svc.Generation(b) + (if a == Mutated(b) then 1 else 0)
  {
  }

  lemma {:induction false} GenerationCounts(ws: seq<World>, acts: seq<Action>, k: nat, i: nat, b: Box)
    requires Path(ws, acts) && k <= i < |ws| && Alive(acts, k, i)
    ensures ws[k].svc.Generation(b) <= ws[i].svc.Generation(b)
    ensures forall m :: k <= m < i && acts[m] == Mutated(b) ==> ws[k].svc.Generation(b) < ws[i].svc.Generation(b)
  {
    hide Next, Enabled;
    if k < i {
      RunStep(ws, acts, i - 1);
      GenerationCounts(ws, acts, k, i - 1, b);
      GenerationStep(ws[i-1], acts[i-1], b);
    }
  }

  lemma CallerStep(w: World, a: Action, c: nat)
    requires Enabled(w, a) && !a.Restart? && c in w.sync.callers
    ensures c in Next(w, a).sync.callers
    ensures var r, r' := w.sync.callers[c], Next(w, a).sync.callers[c];
            r'.box == r.box && r'.force == r.force && r'.gen == r.gen
  {
    hide Next;
    if a.Sync? {
      SyncIs(w, a.sync);
    } else if a.Take? {
      TakeIs(w, a.t, a.m, a.now);
    } else if a.Finish? {
      FinishPhase(w, a.t, a.now, a.at, a.tick);
    } else {
      SyncUntouched(w, a);
    }
  }

  lemma {:induction false} CallerKept(ws: seq<World>, acts: seq<Action>, i: nat, j: nat, c: nat)
    requires Path(ws, acts) && i <= j < |ws| && Alive(acts, i, j) && c in ws[i].sync.callers
    ensures c in ws[j].sync.callers
    ensures var r, r' := ws[i].sync.callers[c], ws[j].sync.callers[c];
            r'.box == r.box && r'.force == r.force && r'.gen == r.gen
  {
    hide Next, Enabled;
    if i < j {
      RunStep(ws, acts, j - 1);
      CallerKept(ws, acts, i, j - 1, c);
      CallerStep(ws[j-1], acts[j-1], c);
    }
  }

  /** A forced `sync`, called at step `i`, that has returned by state `j`, returned the snapshot of a
      listing that began (at step `k`) after every mutation of the mailbox that was over when it was
      called: between `k` and `i` there is none. */
  lemma GenerationBarrier(ws: seq<World>, acts: seq<Action>, i: nat, j: nat) returns (k: nat, t: nat)
    requires Run(ws, acts) && i < j < |ws| && Alive(acts, i, j)
    requires acts[i].Sync? && acts[i].sync.Call? && acts[i].sync.force
    requires acts[i].sync.c in ws[j].sync.callers && ws[j].sync.callers[acts[i].sync.c].at.Returned?
    ensures ws[j].sync.callers[acts[i].sync.c].at.via == Some(t)
    ensures ws[j].sync.IsDone(t) && ws[j].sync.tasks[t].box == acts[i].sync.box
    ensures ws[j].sync.tasks[t].phase.outcome == Publishes(ws[j].sync.callers[acts[i].sync.c].at.index)
    ensures k < j && acts[k] == Sync(Begin(t)) && Alive(acts, k, j)
    ensures forall m :: k <= m < i ==> acts[m] != Mutated(acts[i].sync.box)
  {
    var c, b := acts[i].sync.c, acts[i].sync.box;
    CallMade(ws[i], acts[i]);
    CallerKept(ws, acts, i + 1, j, c);
    BarrierAlways(ws, acts, j);
    assert CallerOk(ws[j].sync, ws[j].svc, c);
    t := ws[j].sync.callers[c].at.via.value;
    k := BeganMeans(ws, acts, j, t);
    assert ws[i].svc.Generation(b) <= ws[k].svc.Generation(b);
    if k < i {
      GenerationCounts(ws, acts, k, i, b);
    }
  }

  lemma CallMade(w: World, a: Action)
    requires Enabled(w, a) && a.Sync? && a.sync.Call?
    ensures a.sync.c in Next(w, a).sync.callers
    ensures var r := Next(w, a).sync.callers[a.sync.c];
            r.box == a.sync.box && r.force == a.sync.force && r.gen == w.svc.Generation(a.sync.box)
  {
  }

  // ----- trashed means gone --------------------------------------------------------------------------------

  /** Actions after which our own label write may no longer stand: another write to the message, another
      listing that saw it converge or expire, its expiry in our own listing `t`, and a restart. */
  ghost predicate Disturbs(w: World, a: Action, m: Msg, h: Mailboxes.Hold, t: nat)
    requires Enabled(w, a)
  {
    match a
    case Hold(inbox, id, _, _) => Msg(inbox, id) == m
    case Take(u, x, now) =>
      && Msg(w.sync.tasks[u].box.inbox, x.id) == m
      && (h.expires < now || (u != t && x.labels == h.labels))
    case Restart(_) => true
    case _ => false
  }

  ghost predicate Held(s: Service, m: Msg, h: Mailboxes.Hold) {
    m in s.holds && s.holds[m] == h
  }

  /** The listing `t` keeps the message out: it has not begun and the hold stands, it is under way and
      has not taken the message in, or it published a snapshot without it. */
  ghost predicate KeptOut(w: World, t: nat, b: Box, id: string, h: Mailboxes.Hold) {
    if !Begun(w.sync, t) then Held(w.svc, Msg(b.inbox, id), h)
    else
      w.sync.tasks[t].box == b ==>
        match w.sync.tasks[t].phase
        case Listing(_, got) => id !in Keys(got.entries) && (Held(w.svc, Msg(b.inbox, id), h) || id in got.seen)
        case Done(_, Publishes(k)) => k < |w.hist.published| && forall uid :: !w.hist.published[k].snap.Names(uid, id)
        case _ => true
  }

  lemma TakeKeepsOut(b: Box, got: Collected, holds: map<Msg, Mailboxes.Hold>, x: Listed, now: real, id: string,
      h: Mailboxes.Hold)
    requires KindOf(b.view) == Messages && h.labels * Excluded(b.view) != {}
    requires id !in Keys(got.entries) && ((Msg(b.inbox, id) in holds && holds[Msg(b.inbox, id)] == h) || id in got.seen)
    requires x.id == id ==> h.expires >= now
    ensures var (got', holds') := Consume(b, got, holds, x, now);
            id !in Keys(got'.entries) && ((Msg(b.inbox, id) in holds' && holds'[Msg(b.inbox, id)] == h)
                || id in got'.seen)
  {
    var (got', holds') := Consume(b, got, holds, x, now);
    if |got'.entries| > |got.entries| {
      assert got'.entries == got.entries + [got'.entries[|got.entries|]];
      assert Keys(got'.entries) == Keys(got.entries) + [got'.entries[|got.entries|].key];
    }
  }

  /** A listing elsewhere, or of another message, leaves the hold alone unless it saw it converge or expire. */
  lemma TakeKeepsHold(b: Box, got: Collected, holds: map<Msg, Mailboxes.Hold>, x: Listed, now: real, m: Msg,
      h: Mailboxes.Hold)
    requires m in holds && holds[m] == h
    requires Msg(b.inbox, x.id) == m ==> h.expires >= now && x.labels != h.labels
    ensures var holds' := Consume(b, got, holds, x, now).1; m in holds' && holds'[m] == h
  {
  }

  lemma FinishKeepsOut(w: World, t: nat, now: real, at: real, tick: Tick, id: string)
    requires Basic(w) && w.sync.IsListing(t) && !Pinnable(w.sync.tasks[t].box)
    requires id !in Keys(w.sync.tasks[t].phase.got.entries)
    ensures var b, listed := w.sync.tasks[t].box, w.sync.tasks[t].phase.got.entries;
            forall uid :: !ReconcileSnapshot(w.disk, w.svc, b, listed, now, at, tick).Names(uid, id)
  {
    hide ReconcileSnapshot, ReconcileDisk, Ordered;
    var b, listed := w.sync.tasks[t].box, w.sync.tasks[t].phase.got.entries;
    ListedDistinct(w, t);
    assert PinsSoundAt(w.disk.Live(b), b, w.svc.Pins(b));
    ReconcileExact(w.disk, w.svc, b, listed, now, at, tick);
    NotOrdered(w.svc.Pins(b), listed, now, id);
  }

  lemma NotOrdered(pins: seq<Pin>, listed: seq<Entry>, now: real, id: string)
    requires id !in Keys(listed) && forall p :: p in pins ==> p.entry.key != id
    ensures id !in Keys(Ordered(pins, listed, now))
  {
    OrderedIs(pins, listed, now);
    var entries := Ordered(pins, listed, now);
    hide Ordered;
    forall k | 0 <= k < |entries| ensures Keys(entries)[k] != id {
      assert entries[k] in entries;
      if entries[k] in listed {
        var l :| 0 <= l < |listed| && listed[l] == entries[k];
        assert Keys(listed)[l] == entries[k].key;
      }
    }
  }

  lemma KeptOutStep(w: World, a: Action, t: nat, b: Box, id: string, h: Mailboxes.Hold)
    requires Basic(w) && Enabled(w, a) && !Disturbs(w, a, Msg(b.inbox, id), h, t)
    requires h.labels * Excluded(b.view) != {} && KeptOut(w, t, b, id, h)
    ensures KeptOut(Next(w, a), t, b, id, h)
  {
    match a {
      case Take(u, x, now) => TakeStep(w, u, x, now, t, b, id, h);
      case Finish(u, now, at, tick) =>
        if u == t && w.sync.tasks[t].box == b {
          FinishKeepsOut(w, t, now, at, tick, id);
        }
        FinishStep(w, u, now, at, tick, t, b, id, h);
      case Sync(x) => SyncStep(w, x, t, b, id, h);
      case Restart(_) =>
      case _ =>
    }
  }

  lemma TakeStep(w: World, u: nat, x: Listed, now: real, t: nat, b: Box, id: string, h: Mailboxes.Hold)
    requires Enabled(w, Take(u, x, now)) && !Disturbs(w, Take(u, x, now), Msg(b.inbox, id), h, t)
    requires h.labels * Excluded(b.view) != {} && KeptOut(w, t, b, id, h)
    ensures KeptOut(TakeListed(w, u, x, now), t, b, id, h)
  {
    var task := w.sync.tasks[u];
    var m := Msg(b.inbox, id);
    if x.id != "" {
      if u == t && task.box == b {
        TakeKeepsOut(b, task.phase.got, w.svc.holds, x, now, id, h);
      } else if u != t && Held(w.svc, m, h) {
        TakeKeepsHold(task.box, task.phase.got, w.svc.holds, x, now, m, h);
      }
    }
  }

  lemma FinishStep(w: World, u: nat, now: real, at: real, tick: Tick, t: nat, b: Box, id: string, h: Mailboxes.Hold)
    requires w.sync.IsListing(u) && KeptOut(w, t, b, id, h)
    requires u == t && w.sync.tasks[t].box == b ==>
               forall uid :: !ReconcileSnapshot(w.disk, w.svc, b, w.sync.tasks[t].phase.got.entries, now, at,
                   tick).Names(uid, id)
    ensures KeptOut(FinishSync(w, u, now, at, tick), t, b, id, h)
  {
  }

  lemma SyncStep(w: World, x: SyncAction, t: nat, b: Box, id: string, h: Mailboxes.Hold)
    requires SyncEnabled(w.sync, x) && KeptOut(w, t, b, id, h)
    ensures KeptOut(w.(sync := SyncNext(w.sync, w.svc, w.hist.lastPub, x)), t, b, id, h)
  {
    var y, y' := w.sync, SyncNext(w.sync, w.svc, w.hist.lastPub, x);
    if Begun(y, t) {
      assert t in y'.tasks && y'.tasks[t].box == y.tasks[t].box;
    }
  }

  lemma {:induction false} KeptOutAlong(ws: seq<World>, acts: seq<Action>, i: nat, j: nat, t: nat, b: Box, id: string,
      h: Mailboxes.Hold)
    requires Run(ws, acts) && i <= j < |ws| && h.labels * Excluded(b.view) != {}
    requires KeptOut(ws[i], t, b, id, h)
    requires forall k :: i <= k < j ==> !Disturbs(ws[k], acts[k], Msg(b.inbox, id), h, t)
    ensures KeptOut(ws[j], t, b, id, h)
  {
    hide Next, Enabled, KeptOut, Disturbs;
    if i < j {
      RunStep(ws, acts, j - 1);
      KeptOutAlong(ws, acts, i, j - 1, t, b, id, h);
      BasicAlways(ws, acts, j - 1);
      KeptOutStep(ws[j-1], acts[j-1], t, b, id, h);
    }
  }

  lemma BegunStays(w: World, a: Action, t: nat)
    requires Enabled(w, a) && !a.Restart? && Begun(w.sync, t)
    ensures Begun(Next(w, a).sync, t)
  {
    hide ReconcileDisk, ReconcileSnapshot, ReconcileService, Consume, PinnedDisk, Pinned, ReplaceItem, ViewNext,
        ViewEnabled, SetDeleted, Bindings;
  }

  lemma {:induction false} BegunRemains(ws: seq<World>, acts: seq<Action>, i: nat, k: nat, t: nat)
    requires Path(ws, acts) && i <= k < |ws| && Alive(acts, i, k) && Begun(ws[i].sync, t)
    ensures Begun(ws[k].sync, t)
  {
    hide Next, Enabled, Begun;
    if i < k {
      RunStep(ws, acts, k - 1);
      BegunRemains(ws, acts, i, k - 1, t);
      BegunStays(ws[k-1], acts[k-1], t);
    }
  }

  /** A label write is held as it was answered, for one minute. */
  lemma HeldForAMinute(w: World, inbox: string, id: string, labels: set<string>, now: real)
    ensures Enabled(w, Action.Hold(inbox, id, labels, now))
    ensures var s := Next(w, Action.Hold(inbox, id, labels, now)).svc;
            Held(s, Msg(inbox, id), Mailboxes.Hold(now + 60.0, labels))
            && forall m :: m != Msg(inbox, id) ==>
                 (m in s.holds <==> m in w.svc.holds) && (m in s.holds ==> s.holds[m] == w.svc.holds[m])
  {
  }

  /** What EXPUNGE and MOVE hold after labelling a message hides it from INBOX and Sent. */
  lemma TrashLabelHides(answer: set<string>, own: set<string>, v: View)
    requires v == InboxView || v == SentView
    ensures TrashLabels(answer, own) * Excluded(v) != {}
    ensures "trash" in answer ==> TrashLabels(answer, own) == answer
    ensures "trash" !in answer ==> forall l :: l in TrashLabels(answer, own) <==> l in own || l == "trash"
  {
    assert "trash" in TrashLabels(answer, own) * Excluded(v);
  }

  /** EXPUNGE or MOVE has labelled a message so that mailbox `b` hides it (its labels are held at state
      `i`, right after the mutation was counted). The next forced sync, called at step `n` and back by
      state `j`, returns a snapshot without the message, however stale its listing. */
  lemma TrashedMeansGone(ws: seq<World>, acts: seq<Action>, i: nat, n: nat, j: nat, id: string, h: Mailboxes.Hold,
      t: nat)
    requires Run(ws, acts) && 0 < i <= n < j < |ws|
    requires acts[n].Sync? && acts[n].sync.Call? && acts[n].sync.force
    requires var b := acts[n].sync.box;
             && acts[i-1] == Mutated(b)
             && (b.view == InboxView || b.view == SentView) && ("trash" in h.labels || "spam" in h.labels)
             && Held(ws[i].svc, Msg(b.inbox, id), h)
             && forall k :: i <= k < j ==> !Disturbs(ws[k], acts[k], Msg(b.inbox, id), h, t)
    requires var c := acts[n].sync.c;
             c in ws[j].sync.callers && ws[j].sync.callers[c].at.Returned? && ws[j].sync.callers[c].at.via == Some(t)
    ensures var index := ws[j].sync.callers[acts[n].sync.c].at.index;
            index < |ws[j].hist.published| && forall uid :: !ws[j].hist.published[index].snap.Names(uid, id)
  {
    var b := acts[n].sync.box;
    assert h.labels * Excluded(b.view) != {} by {
      assert "trash" in h.labels * Excluded(b.view) || "spam" in h.labels * Excluded(b.view);
    }
    assert Alive(acts, i, j) by {
      forall k | i <= k < j && k < |acts| ensures !acts[k].Restart? {
        assert !Disturbs(ws[k], acts[k], Msg(b.inbox, id), h, t);
      }
    }
    var k, u := GenerationBarrier(ws, acts, n, j);
    assert i <= k;
    assert !Begun(ws[k].sync, t);
    if Begun(ws[i].sync, t) {
      BegunRemains(ws, acts, i, k, t);
    }
    KeptOutAlong(ws, acts, i, j, t, b, id, h);
  }
}
