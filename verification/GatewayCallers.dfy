/** What a call of `sync` comes to: whose failure it raises, whose snapshot it returns, when it shares a task,
    and that it can always come to an end. */
module GatewayCallers {
  import opened Types
  import opened UidStores
  import opened Mailboxes
  import opened Gateway
  import opened GatewayStore
  import opened GatewayBarrier
  import opened GatewayViews

  // ----- callers and tasks, step by step ------------------------------------------------------------------

  /** A sync that a caller started itself lists its mailbox with its own credentials. */
  ghost predicate OwnTask(y: Syncs, r: Caller) {
    r.at.Own? ==> r.at.task in y.tasks && y.tasks[r.at.task].owner == r.client && y.tasks[r.at.task].box == r.box
  }

  ghost predicate OwnTasks(y: Syncs) {
    forall c :: c in y.callers ==> OwnTask(y, y.callers[c])
  }

  /** Tasks of `y` are still there in `z`, with their mailbox and their owner. */
  ghost predicate TasksStay(y: Syncs, z: Syncs) {
    forall t :: t in y.tasks ==>
      t in z.tasks && z.tasks[t].box == y.tasks[t].box && z.tasks[t].owner == y.tasks[t].owner
  }

  /** Callers move by their own call and by waking up, and not otherwise. */
  ghost predicate CallersStay(y: Syncs, z: Syncs, a: Action) {
    && (forall d :: d in y.callers && !(a.Sync? && a.sync.Wake? && a.sync.c == d) ==>
          d in z.callers && z.callers[d] == y.callers[d])
    && (forall d :: d in z.callers && !(a.Sync? && (a.sync.Wake? || a.sync.Call?) && a.sync.c == d) ==>
          d in y.callers)
  }

  lemma SyncMoves(y: Syncs, s: Service, lastPub: map<Box, nat>, x: SyncAction)
    requires SyncEnabled(y, x)
    ensures TasksStay(y, SyncNext(y, s, lastPub, x)) && CallersStay(y, SyncNext(y, s, lastPub, x), Sync(x))
  {
    hide SyncNext, SyncEnabled, TasksStay, CallersStay;
    if x.Call? {
      CallMoves(y, s, lastPub, x);
    } else if x.Wake? {
      WakeMoves(y, s, lastPub, x);
    } else {
      TaskMovesOn(y, s, lastPub, x);
    }
  }

  lemma CallMoves(y: Syncs, s: Service, lastPub: map<Box, nat>, x: SyncAction)
    requires SyncEnabled(y, x) && x.Call?
    ensures TasksStay(y, SyncNext(y, s, lastPub, x)) && CallersStay(y, SyncNext(y, s, lastPub, x), Sync(x))
    ensures TasksGrow(y, SyncNext(y, s, lastPub, x))
  {
  }

  lemma WakeMoves(y: Syncs, s: Service, lastPub: map<Box, nat>, x: SyncAction)
    requires SyncEnabled(y, x) && x.Wake?
    ensures TasksStay(y, SyncNext(y, s, lastPub, x)) && CallersStay(y, SyncNext(y, s, lastPub, x), Sync(x))
    ensures TasksGrow(y, SyncNext(y, s, lastPub, x))
  {
    hide CallersStay;
    WakeGrows(y, x.c, x.newTask);
    WakeMovesOne(y, s, lastPub, x);
  }

  lemma WakeGrows(y: Syncs, c: nat, t: nat)
    requires c in y.callers && y.callers[c].at.Waiting() && y.IsDone(y.callers[c].at.task) && t !in y.tasks
    ensures TasksGrow(y, WakeUp(y, c, t))
  {
  }

  lemma WakeMovesOne(y: Syncs, s: Service, lastPub: map<Box, nat>, x: SyncAction)
    requires SyncEnabled(y, x) && x.Wake?
    ensures CallersStay(y, SyncNext(y, s, lastPub, x), Sync(x))
  {
  }

  lemma TaskMovesOn(y: Syncs, s: Service, lastPub: map<Box, nat>, x: SyncAction)
    requires SyncEnabled(y, x) && !x.Call? && !x.Wake?
    ensures TasksStay(y, SyncNext(y, s, lastPub, x)) && CallersStay(y, SyncNext(y, s, lastPub, x), Sync(x))
  {
  }

  /** Every task is as it was, and a new one has not begun. */
  ghost predicate TasksGrow(y: Syncs, z: Syncs) {
    && (forall t :: t in y.tasks ==> t in z.tasks && z.tasks[t] == y.tasks[t])
    && (forall t :: t in z.tasks && t !in y.tasks ==> z.tasks[t].phase.Created?)
  }

  lemma StepMoves(w: World, a: Action)
    requires Enabled(w, a) && !a.Restart?
    ensures TasksStay(w.sync, Next(w, a).sync) && CallersStay(w.sync, Next(w, a).sync, a)
  {
    hide Next, SyncNext, SyncEnabled;
    if a.Sync? {
      SyncIs(w, a.sync);
      NowEnabled(w, a.sync);
      SyncMoves(w.sync, w.svc, w.hist.lastPub, a.sync);
    } else if a.Take? {
      TakeMoves(w, a);
    } else if a.Finish? {
      FinishPhase(w, a.t, a.now, a.at, a.tick);
    } else {
      SyncUntouched(w, a);
    }
  }

  lemma NowEnabled(w: World, x: SyncAction)
    requires Enabled(w, Sync(x))
    ensures SyncEnabled(w.sync, x)
  {
    hide SyncEnabled;
  }

  lemma TakeMoves(w: World, a: Action)
    requires Enabled(w, a) && a.Take?
    ensures TasksStay(w.sync, Next(w, a).sync) && CallersStay(w.sync, Next(w, a).sync, a)
  {
    hide Consume;
  }

  lemma OwnedSync(y: Syncs, s: Service, lastPub: map<Box, nat>, x: SyncAction)
    requires SyncEnabled(y, x) && OwnTasks(y)
    ensures OwnTasks(SyncNext(y, s, lastPub, x))
  {
    hide SyncNext, SyncEnabled;
    var z := SyncNext(y, s, lastPub, x);
    SyncMoves(y, s, lastPub, x);
    forall c | c in z.callers ensures OwnTask(z, z.callers[c]) {
      if (x.Call? || x.Wake?) && x.c == c {
        MoverOwns(y, s, lastPub, x);
      } else {
        assert OwnTask(y, y.callers[c]);
      }
    }
  }

  lemma MoverOwns(y: Syncs, s: Service, lastPub: map<Box, nat>, x: SyncAction)
    requires SyncEnabled(y, x) && (x.Call? || x.Wake?) && OwnTasks(y)
    ensures x.c in SyncNext(y, s, lastPub, x).callers
    ensures OwnTask(SyncNext(y, s, lastPub, x), SyncNext(y, s, lastPub, x).callers[x.c])
  {
    assert x.c in y.callers ==> OwnTask(y, y.callers[x.c]);
    hide OwnTasks;
  }

  lemma OwnedStep(w: World, a: Action)
    requires Enabled(w, a) && OwnTasks(w.sync)
    ensures OwnTasks(Next(w, a).sync)
  {
    hide Next, SyncNext, SyncEnabled;
    if a.Restart? {
      IsRestarted(w, a);
    } else if a.Sync? {
      SyncIs(w, a.sync);
      NowEnabled(w, a.sync);
      OwnedSync(w.sync, w.svc, w.hist.lastPub, a.sync);
    } else {
      StepMoves(w, a);
      var z := Next(w, a).sync;
      forall c | c in z.callers ensures OwnTask(z, z.callers[c]) {
        assert OwnTask(w.sync, w.sync.callers[c]);
      }
    }
  }

  lemma {:induction false} OwnedAlways(ws: seq<World>, acts: seq<Action>, i: nat)
    requires Run(ws, acts) && i < |ws|
    ensures OwnTasks(ws[i].sync)
  {
    hide Next, Enabled;
    if i > 0 {
      RunStep(ws, acts, i - 1);
      OwnedAlways(ws, acts, i - 1);
      OwnedStep(ws[i-1], acts[i-1]);
    }
  }

  // ----- failures -------------------------------------------------------------------------------------------

  /** The sync a caller waits for, other than a stale one, has ended in a failure that is the caller's to report:
      any failure but one of another session's credentials. */
  ghost predicate OwnFailure(y: Syncs, r: Caller) {
    && (r.at.Joined? || r.at.Own?) && r.at.task in y.tasks && y.tasks[r.at.task].phase.Done?
    && var task := y.tasks[r.at.task];
       task.phase.outcome == Failed || (task.phase.outcome == AuthFailed && task.owner == r.client)
  }

  lemma WokenRaises(w: World, c: nat, t: nat)
    requires Enabled(w, Sync(Wake(c, t))) && OwnTasks(w.sync)
    ensures c in w.sync.callers && c in Next(w, Sync(Wake(c, t))).sync.callers
    ensures Next(w, Sync(Wake(c, t))).sync.callers[c].at.Raised? <==> OwnFailure(w.sync, w.sync.callers[c])
  {
    assert OwnTask(w.sync, w.sync.callers[c]);
  }

  /** In every step of every run, a caller comes back with an error only if the sync it waited for ended in a
      failure of the service, or in one of the caller's own credentials. */
  lemma RaisedOnlyByOwnFailure(ws: seq<World>, acts: seq<Action>, i: nat, c: nat)
    requires Run(ws, acts) && i < |acts|
    requires c in ws[i+1].sync.callers && ws[i+1].sync.callers[c].at.Raised?
    requires c in ws[i].sync.callers ==> !ws[i].sync.callers[c].at.Raised?
    ensures c in ws[i].sync.callers && OwnFailure(ws[i].sync, ws[i].sync.callers[c])
  {
    hide Next, Enabled, OwnFailure;
    RunStep(ws, acts, i);
    OwnedAlways(ws, acts, i);
    var a := acts[i];
    if a.Restart? {
      IsRestarted(ws[i], a);
    } else if a.Sync? && a.sync.Wake? && a.sync.c == c {
      WokenRaises(ws[i], c, a.sync.newTask);
    } else {
      StepMoves(ws[i], a);
      if c !in ws[i].sync.callers {
        CalledAnswers(ws[i], a);
      }
    }
  }

  lemma CalledAnswers(w: World, a: Action)
    requires Enabled(w, a) && a.Sync? && a.sync.Call?
    ensures var x, z := a.sync, Next(w, a).sync; x.c in z.callers && !z.callers[x.c].at.Raised?
  {
  }

  /** ... and it does come back with the error in that case. */
  lemma OwnFailureRaises(ws: seq<World>, acts: seq<Action>, i: nat, c: nat, t: nat)
    requires Run(ws, acts) && i < |acts| && acts[i] == Sync(Wake(c, t))
    ensures c in ws[i].sync.callers && c in ws[i+1].sync.callers
    ensures ws[i+1].sync.callers[c].at.Raised? <==> OwnFailure(ws[i].sync, ws[i].sync.callers[c])
  {
    hide Next, Enabled, OwnFailure;
    RunStep(ws, acts, i);
    OwnedAlways(ws, acts, i);
    WokenRaises(ws[i], c, t);
  }

  /** A caller that shared a sync which failed with another session's credentials goes on waiting, for a fresh
      sync of its mailbox with its own. That sync is not offered to other callers. */
  lemma ForeignFailureRetries(ws: seq<World>, acts: seq<Action>, i: nat, c: nat, t: nat)
    requires Run(ws, acts) && i < |acts| && acts[i] == Sync(Wake(c, t))
    requires c in ws[i].sync.callers && ws[i].sync.callers[c].at.Joined?
    requires var r, y := ws[i].sync.callers[c], ws[i].sync;
             r.at.task in y.tasks && y.tasks[r.at.task].owner != r.client
             && y.tasks[r.at.task].phase.Done? && y.tasks[r.at.task].phase.outcome == AuthFailed
    ensures var r, y, z := ws[i].sync.callers[c], ws[i].sync, ws[i+1].sync;
            && c in z.callers && z.callers[c] == r.(at := Own(t))
            && t !in y.tasks && t in z.tasks && z.tasks[t] == Task(r.box, r.client, Created)
            && z.inflight == y.inflight
  {
    RunStep(ws, acts, i);
  }

  // ----- results --------------------------------------------------------------------------------------------

  /** Waking up, a caller comes back with a snapshot if and only if the sync it waited for, other than a stale one,
      published that snapshot, which is one of the caller's mailbox. */
  lemma ReturnedIffPublished(ws: seq<World>, acts: seq<Action>, i: nat, c: nat, t: nat, index: nat, u: nat)
    requires Run(ws, acts) && i < |acts| && acts[i] == Sync(Wake(c, t))
    ensures c in ws[i].sync.callers && c in ws[i+1].sync.callers
    ensures var r, y := ws[i].sync.callers[c], ws[i].sync;
            ws[i+1].sync.callers[c].at == Returned(index, Some(u)) <==>
            && (r.at == Joined(u) || r.at == Own(u)) && u in y.tasks
            && y.tasks[u].phase.Done? && y.tasks[u].phase.outcome == Publishes(index)
    ensures ws[i+1].sync.callers[c].at.Returned? ==>
              var at := ws[i+1].sync.callers[c].at;
              at.index < |ws[i].hist.published| && ws[i].hist.published[at.index].snap.box == ws[i].sync.callers[c].box
  {
    RunStep(ws, acts, i);
    SeenAlways(ws, acts, i);
    var r, y := ws[i].sync.callers[c], ws[i].sync;
    if y.IsDone(r.at.task) && y.tasks[r.at.task].phase.outcome.Publishes? {
      assert ResultIs(y.tasks[r.at.task].box, y.tasks[r.at.task].phase.outcome.index, ws[i].hist);
    }
  }

  lemma LatestShown(w: World, b: Box)
    requires GatewayViews.Seen(w)
    ensures b in w.svc.latest <==> b in w.hist.lastPub
    ensures b in w.svc.latest ==>
              && w.hist.lastPub[b] < |w.hist.published|
              && w.hist.published[w.hist.lastPub[b]].snap.box == b
              && w.hist.published[w.hist.lastPub[b]].snap.Uids() == w.svc.latest[b].Uids()
  {
    assert w.hist.lastPub.Keys == w.svc.latest.Keys;
    assert b in w.svc.latest ==> LatestIs(w.svc.latest[b], w.hist, b);
  }

  lemma CallIs(y: Syncs, s: Service, lastPub: map<Box, nat>, x: SyncAction)
    requires SyncEnabled(y, x) && x.Call?
    requires x.box in s.latest <==> x.box in lastPub
    ensures var z := SyncNext(y, s, lastPub, x);
            && x.c in z.callers
            && var r := z.callers[x.c];
               && r.box == x.box && r.client == x.client && r.force == x.force && (r.at.Returned? || r.at.Waiting())
               && (r.at.Returned? <==> x.box in s.latest && !x.force && x.stillFresh)
               && (r.at.Returned? ==> r.at.index == lastPub[x.box])
               && (z.tasks != y.tasks <==> r.at.Waiting() && x.box !in y.inflight)
               && (z.tasks != y.tasks ==>
                     && r.at == Own(x.newTask)
                     && z.tasks == y.tasks[x.newTask := Task(x.box, x.client, Created)]
                     && x.box in z.inflight && z.inflight[x.box].task == x.newTask)
               && (r.at.Waiting() && x.box in y.inflight ==> r.at.task == y.inflight[x.box].task)
  {
    assert x.newTask !in y.tasks;
  }

  /** A call is answered at once if and only if it is not forced and the mailbox has a snapshot that is still fresh;
      the answer is the latest snapshot. Otherwise it starts a sync if and only if none is under way for its mailbox;
      it waits for that sync, or shares the one under way. */
  lemma CallsShare(ws: seq<World>, acts: seq<Action>, i: nat)
    requires Run(ws, acts) && i < |acts| && acts[i].Sync? && acts[i].sync.Call?
    ensures var x, w := acts[i].sync, ws[i];
            var r, y, z := ws[i+1].sync.callers[x.c], w.sync, ws[i+1].sync;
            && r.box == x.box && r.client == x.client && r.force == x.force && (r.at.Returned? || r.at.Waiting())
            && (r.at.Returned? <==> x.box in w.svc.latest && !x.force && x.stillFresh)
            && (r.at.Returned? ==>
                  && r.at.index < |w.hist.published| && w.hist.published[r.at.index].snap.box == x.box
                  && w.hist.published[r.at.index].snap.Uids() == w.svc.latest[x.box].Uids())
            && (z.tasks != y.tasks <==> r.at.Waiting() && x.box !in y.inflight)
            && (z.tasks != y.tasks ==>
                  && r.at == Own(x.newTask)
                  && z.tasks == y.tasks[x.newTask := Task(x.box, x.client, Created)]
                  && x.box in z.inflight && z.inflight[x.box].task == x.newTask)
            && (r.at.Waiting() && x.box in y.inflight ==> r.at.task == y.inflight[x.box].task)
  {
    hide Enabled, Next, GatewayViews.Seen, SyncEnabled, SyncNext;
    RunStep(ws, acts, i);
    SeenAlways(ws, acts, i);
    var w, b := ws[i], acts[i].sync.box;
    SyncIs(w, acts[i].sync);
    NowEnabled(w, acts[i].sync);
    LatestShown(w, b);
    CallIs(w.sync, w.svc, w.hist.lastPub, acts[i].sync);
  }

  /** Task `t` is over in `z`, with this outcome, and was not in `y`. */
  predicate Ends(y: Syncs, z: Syncs, t: nat, outcome: Outcome) {
    !y.IsDone(t) && z.IsDone(t) && z.tasks[t].phase.outcome == outcome
  }

  /** How a sync ends: with a snapshot when its listing is complete; with the failure of its request, which may be one
      of its credentials; and refused, when it lists an element without an id. */
  lemma SyncEnds(ws: seq<World>, acts: seq<Action>, i: nat, t: nat)
    requires Run(ws, acts) && i < |acts|
    ensures var y, z, a := ws[i].sync, ws[i+1].sync, acts[i];
            && (Ends(y, z, t, Publishes(|ws[i].hist.published|)) <==> a.Finish? && a.t == t)
            && (Ends(y, z, t, AuthFailed) <==> a == Sync(Abandon(t, true)))
            && (Ends(y, z, t, Failed) <==> a == Sync(Abandon(t, false)) || (a.Take? && a.t == t && a.m.id == ""))
            && (y.IsDone(t) && !a.Restart? ==> z.IsDone(t) && z.tasks[t] == y.tasks[t])
  {
    hide Next, SyncNext, SyncEnabled;
    RunStep(ws, acts, i);
    var w, a := ws[i], acts[i];
    if a.Restart? {
      IsRestarted(w, a);
    } else if a.Finish? {
      NowListing(w, a);
      FinishPhase(w, a.t, a.now, a.at, a.tick);
    } else if a.Take? {
      NowListing(w, a);
      TakeEnds(w, a.t, a.m, a.now);
    } else if a.Sync? {
      SyncIs(w, a.sync);
      NowEnabled(w, a.sync);
      RequestEnds(w.sync, w.svc, w.hist.lastPub, a.sync, t);
    } else {
      SyncUntouched(w, a);
    }
  }

  lemma NowListing(w: World, a: Action)
    requires Enabled(w, a) && (a.Take? || a.Finish?)
    ensures w.sync.IsListing(a.t)
  {
  }

  lemma TakeEnds(w: World, u: nat, x: Listed, now: real)
    requires Enabled(w, Take(u, x, now))
    ensures var y, z := w.sync, Next(w, Take(u, x, now)).sync;
            && z.tasks.Keys == y.tasks.Keys
            && (forall t :: t in y.tasks && t != u ==> z.tasks[t] == y.tasks[t])
            && if x.id == "" then z.IsDone(u) && z.tasks[u].phase.outcome == Failed else !z.IsDone(u)
  {
    hide Consume;
  }

  lemma RequestEnds(y: Syncs, s: Service, lastPub: map<Box, nat>, x: SyncAction, t: nat)
    requires SyncEnabled(y, x)
    ensures var z := SyncNext(y, s, lastPub, x);
            && (y.IsDone(t) ==> z.IsDone(t) && z.tasks[t] == y.tasks[t])
            && (!y.IsDone(t) && z.IsDone(t) <==> x == Abandon(t, true) || x == Abandon(t, false))
            && (z.IsDone(t) && x.Abandon? && x.t == t ==>
                  z.tasks[t].phase.outcome == if x.auth then AuthFailed else Failed)
  {
    if x.Call? {
      CallMoves(y, s, lastPub, x);
      hide SyncNext;
    } else if x.Wake? {
      WakeMoves(y, s, lastPub, x);
      hide SyncNext;
    }
  }

  lemma OffersStay(w: World, a: Action)
    requires Enabled(w, a) && !a.Sync? && !a.Restart?
    ensures Next(w, a).sync.inflight == w.sync.inflight
  {
    if !a.Take? && !a.Finish? {
      SyncUntouched(w, a);
    }
  }

  /** The sync in flight for a mailbox is the one on offer until it is over, or until a caller that waited for it,
      and read a later generation than it was started under, has found it over and started another. */
  lemma OfferedUntilOver(ws: seq<World>, acts: seq<Action>, i: nat, b: Box)
    requires Run(ws, acts) && i < |acts| && !acts[i].Restart? && b in ws[i].sync.inflight
    ensures var y, z, entry := ws[i].sync, ws[i+1].sync, ws[i].sync.inflight[b];
            && (b !in z.inflight <==> acts[i] == Sync(Reap(entry.task)))
            && (b in z.inflight && z.inflight[b] != entry ==>
                  && acts[i].Sync? && acts[i].sync.Wake? && acts[i].sync.c in y.callers
                  && var r := y.callers[acts[i].sync.c];
                     r.at.Stale? && r.box == b && entry.gen < r.gen
                     && z.inflight[b] == Inflight(acts[i].sync.newTask, r.gen, r.client))
  {
    RunStep(ws, acts, i);
    BarrierAlways(ws, acts, i);
    assert InflightOk(ws[i].sync, ws[i].svc, b);
    if !acts[i].Sync? {
      OffersStay(ws[i], acts[i]);
    }
  }

  // ----- no call is stuck -----------------------------------------------------------------------------------

  /** The server, without being restarted, can go on from `w` to `v`. */
  ghost predicate Continues(w: World, v: World, ws: seq<World>, acts: seq<Action>) {
    Path(ws, acts) && ws[0] == w && ws[|acts|] == v && Alive(acts, 0, |acts|)
  }

  ghost predicate Can(w: World, v: World) {
    exists ws, acts :: Continues(w, v, ws, acts)
  }

  lemma CanStay(w: World)
    ensures Can(w, w)
  {
    assert Continues(w, w, [w], []);
  }

  lemma CanStep(w: World, v: World, a: Action)
    requires Can(w, v) && Enabled(v, a) && !a.Restart?
    ensures Can(w, Next(v, a))
  {
    hide Enabled, Next;
    var ws, acts :| Continues(w, v, ws, acts);
    assert Continues(w, Next(v, a), ws + [Next(v, a)], acts + [a]);
  }

  /** Every caller waits for a task that exists. */
  ghost predicate Waits(y: Syncs) {
    && (forall c :: c in y.callers && y.callers[c].at.Waiting() ==> y.callers[c].at.task in y.tasks)
    && (forall b :: b in y.inflight ==> y.inflight[b].task in y.tasks)
  }

  lemma {:induction false} FreshTask(tasks: set<nat>) returns (t: nat)
    ensures t !in tasks && forall u :: u in tasks ==> u < t
    decreases |tasks|
  {
    t := 0;
    if tasks != {} {
      var u :| u in tasks;
      var v := FreshTask(tasks - {u});
      t := if v <= u then u + 1 else v;
      assert forall x :: x in tasks ==> x == u || x in tasks - {u};
    }
  }

  /** A task that is not over can complete, and publish, without any caller moving. */
  lemma TaskCanEnd(s: World, w: World, t: nat) returns (v: World)
    requires Can(s, w) && Waits(w.sync) && t in w.sync.tasks
    ensures Can(s, v) && Waits(v.sync) && v.sync.callers == w.sync.callers && v.sync.IsDone(t)
    ensures v.sync.tasks[t].owner == w.sync.tasks[t].owner
    ensures !w.sync.IsDone(t) ==> v.sync.tasks[t].phase.outcome.Publishes?
    ensures w.sync.IsDone(t) ==> v == w
  {
    hide Can, Next, Enabled;
    v := w;
    if v.sync.tasks[t].phase.Created? {
      Begins(v, t);
      CanStep(s, v, Sync(Begin(t)));
      v := Next(v, Sync(Begin(t)));
    }
    if v.sync.IsListing(t) {
      Completes(v, t);
      CanStep(s, v, Finish(t, 0.0, 0.0, Tick(0, true)));
      v := Next(v, Finish(t, 0.0, 0.0, Tick(0, true)));
    }
  }

  lemma Begins(w: World, t: nat)
    requires Waits(w.sync) && t in w.sync.tasks && w.sync.tasks[t].phase.Created?
    ensures Enabled(w, Sync(Begin(t)))
    ensures var z := Next(w, Sync(Begin(t))).sync;
            && Waits(z) && z.callers == w.sync.callers && z.IsListing(t) && z.tasks[t].owner == w.sync.tasks[t].owner
  {
  }

  lemma Completes(w: World, t: nat)
    requires Waits(w.sync) && w.sync.IsListing(t)
    ensures Enabled(w, Finish(t, 0.0, 0.0, Tick(0, true)))
    ensures var z := Next(w, Finish(t, 0.0, 0.0, Tick(0, true))).sync;
            && Waits(z) && z.callers == w.sync.callers && z.tasks[t].owner == w.sync.tasks[t].owner
            && z.IsDone(t) && z.tasks[t].phase.outcome.Publishes?
  {
    hide Next;
    FinishPhase(w, t, 0.0, 0.0, Tick(0, true));
  }

  /** A caller that waits for a sync of its own comes back when that sync is over; one that shares a sync comes back,
      or waits for one of its own. */
  lemma CanWake(s: World, w: World, c: nat) returns (v: World)
    requires Can(s, w) && Waits(w.sync) && c in w.sync.callers && w.sync.callers[c].at.Waiting()
    ensures Can(s, v) && Waits(v.sync) && c in v.sync.callers
    ensures var at, at' := w.sync.callers[c].at, v.sync.callers[c].at;
            at'.Waiting() ==> (at.Stale? && (at'.Joined? || at'.Own?)) || (at.Joined? && at'.Own?)
  {
    hide Can;
    v := TaskCanEnd(s, w, w.sync.callers[c].at.task);
    var t := FreshTask(v.sync.tasks.Keys);
    CanStep(s, v, Sync(Wake(c, t)));
    v := Next(v, Sync(Wake(c, t)));
  }

  /** In every state of every run, the server can go on so that a waiting caller comes back. */
  lemma NoCallIsStuck(ws: seq<World>, acts: seq<Action>, i: nat, c: nat) returns (v: World)
    requires Run(ws, acts) && i < |ws| && c in ws[i].sync.callers
    ensures Can(ws[i], v) && c in v.sync.callers && !v.sync.callers[c].at.Waiting()
  {
    hide Run, Waits, Can;
    v := ws[i];
    AllWait(ws, acts, i);
    CanStay(v);
    if v.sync.callers[c].at.Waiting() { v := CanWake(ws[i], v, c); }
    if v.sync.callers[c].at.Waiting() { v := CanWake(ws[i], v, c); }
    if v.sync.callers[c].at.Waiting() { v := CanWake(ws[i], v, c); }
  }

  lemma AllWait(ws: seq<World>, acts: seq<Action>, i: nat)
    requires Run(ws, acts) && i < |ws|
    ensures Waits(ws[i].sync)
  {
    hide Run;
    SeenAlways(ws, acts, i);
  }
}
