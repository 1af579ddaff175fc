/** What a published snapshot shows: exactly the listed elements that the mailbox does not hide, and the pins
    that survive the listing. */
module GatewayContents {
  import opened Types
  import opened UidStores
  import opened Mailboxes
  import opened Reconciling
  import opened Gateway
  import opened GatewayStore
  import opened GatewayBarrier
  import StoreMessages

  // ----- one element ----------------------------------------------------------------------------------------

  /** The labels a listed message is judged by: our own last write while it is held, else what is listed. */
  function LabelsOf(b: Box, holds: map<Msg, Mailboxes.Hold>, x: Listed, now: real): set<string> {
    var m := Msg(b.inbox, x.id);
    if m in holds && now <= holds[m].expires then holds[m].labels else x.labels
  }

  /** INBOX and Sent hide what is trash or spam; the other views hide nothing. A draft is shown if it was still
      there when it was to be rendered. */
  predicate Visible(b: Box, holds: map<Msg, Mailboxes.Hold>, x: Listed, now: real) {
    match b.view
    case InboxView => "trash" !in LabelsOf(b, holds, x, now) && "spam" !in LabelsOf(b, holds, x, now)
    case SentView => "trash" !in LabelsOf(b, holds, x, now) && "spam" !in LabelsOf(b, holds, x, now)
    case TrashView => true
    case SpamView => true
    case DraftsView => x.content.Some?
  }

  /** What is shown of it. */
  ghost predicate TakenAs(e: Entry, b: Box, holds: map<Msg, Mailboxes.Hold>, x: Listed, now: real) {
    && e.date == x.date && e.id == x.id && e.env == x.env
    && if b.view == DraftsView then
         && x.content.Some? && e.key == x.id + "#" + x.content.value && e.labels == x.labels
         && forall f :: f in e.flags <==> f == Draft || f == Seen
       else
         && e.key == x.id && e.labels == LabelsOf(b, holds, x, now)
         && forall f :: f in e.flags <==>
              (f == Seen && "unread" !in e.labels) || (f == Flagged && "starred" in e.labels)
  }

  lemma HiddenLabels(labels: set<string>)
    ensures labels * {"trash", "spam"} == {} <==> "trash" !in labels && "spam" !in labels
  {
    assert "trash" in labels ==> "trash" in labels * {"trash", "spam"};
    assert "spam" in labels ==> "spam" in labels * {"trash", "spam"};
  }

  /** The first element with an id becomes an entry if and only if it is visible, and what becomes of the hold of
      its message: it ends when the listing agrees with it, or when it has expired. */
  lemma TakenInIff(b: Box, got: Collected, holds: map<Msg, Mailboxes.Hold>, x: Listed, now: real)
    requires x.id !in got.seen
    ensures var (got', holds') := Consume(b, got, holds, x, now);
            && got'.seen == got.seen + {x.id}
            && (!Visible(b, holds, x, now) ==> got'.entries == got.entries)
            && (Visible(b, holds, x, now) ==>
                  && |got'.entries| == |got.entries| + 1 && got'.entries[..|got.entries|] == got.entries
                  && TakenAs(got'.entries[|got.entries|], b, holds, x, now))
            && (forall m :: m in holds' <==>
                  m in holds && !(b.view != DraftsView && m == Msg(b.inbox, x.id)
                                  && (x.labels == holds[m].labels || holds[m].expires < now)))
            && (forall m :: m in holds' ==> holds'[m] == holds[m])
  {
    var (got', holds') := Consume(b, got, holds, x, now);
    if b.view != DraftsView {
      var labels := LabelsOf(b, holds, x, now);
      assert EffectiveLabels(holds, Msg(b.inbox, x.id), x.labels, now).0 == labels;
      HiddenLabels(labels);
    }
  }

  /** A later element with the same id changes nothing. */
  lemma RepeatedChangesNothing(b: Box, got: Collected, holds: map<Msg, Mailboxes.Hold>, x: Listed, now: real)
    requires x.id in got.seen
    ensures Consume(b, got, holds, x, now) == (got, holds)
  {
  }

  // ----- one listing ------------------------------------------------------------------------------------------

  /** Step `k` of the run took an element with this id into the listing of task `t`, which is still the same task
      before step `i`. */
  ghost predicate Takes(acts: seq<Action>, k: int, i: nat, t: nat, id: string) {
    0 <= k < i <= |acts| && Alive(acts, k, i) && acts[k].Take? && acts[k].t == t && acts[k].m.id == id
  }

  ghost predicate FirstTakes(acts: seq<Action>, k: int, i: nat, t: nat, id: string) {
    Takes(acts, k, i, t, id) && forall l :: Takes(acts, l, i, t, id) ==> k <= l
  }

  /** At step `k` the element was visible in mailbox `b`. */
  ghost predicate SawVisible(ws: seq<World>, acts: seq<Action>, k: int, b: Box)
    requires Path(ws, acts) && 0 <= k < |acts| && acts[k].Take?
  {
    Visible(b, ws[k].svc.holds, acts[k].m, acts[k].now)
  }

  ghost predicate SawAs(ws: seq<World>, acts: seq<Action>, k: int, b: Box, e: Entry)
    requires Path(ws, acts) && 0 <= k < |acts| && acts[k].Take?
  {
    TakenAs(e, b, ws[k].svc.holds, acts[k].m, acts[k].now)
  }

  /** What the listing has collected under one id. */
  ghost predicate Accounts(ws: seq<World>, acts: seq<Action>, i: nat, t: nat, id: string)
    requires Path(ws, acts) && i < |ws| && ws[i].sync.IsListing(t)
  {
    var b, got := ws[i].sync.tasks[t].box, ws[i].sync.tasks[t].phase.got;
    && (id in got.seen <==> exists k :: Takes(acts, k, i, t, id))
    && (forall k :: FirstTakes(acts, k, i, t, id) ==>
          (SawVisible(ws, acts, k, b) <==> exists e :: e in got.entries && e.id == id)
          && forall e :: e in got.entries && e.id == id ==> SawAs(ws, acts, k, b, e))
    && (forall e :: e in got.entries && e.id == id ==> id in got.seen)
  }

  ghost predicate Untaken(acts: seq<Action>, i: nat, t: nat, id: string) {
    forall k :: !Takes(acts, k, i, t, id)
  }

  /** How one step moves a listing, if it leaves one. */
  lemma ListingMoves(w: World, a: Action, t: nat)
    requires Enabled(w, a) && !a.Restart?
    ensures Next(w, a).sync.IsListing(t) ==>
              var z := Next(w, a).sync.tasks[t];
              && t in w.sync.tasks && w.sync.tasks[t].box == z.box
              && if a == Sync(Begin(t)) then w.sync.tasks[t].phase.Created? && z.phase.got == Collected({}, [])
                 else
                   && w.sync.IsListing(t)
                   && if a.Take? && a.t == t then z.phase.got == Consume(z.box, w.sync.tasks[t].phase.got, w.svc.holds,
                                                                        a.m, a.now).0
                      else z.phase.got == w.sync.tasks[t].phase.got
    ensures !Begun(Next(w, a).sync, t) ==> !Begun(w.sync, t) && !(a.Take? && a.t == t)
  {
    hide Next, Consume;
    if a.Sync? {
      SyncIs(w, a.sync);
      Requested(w, a.sync, t);
    } else if a.Take? {
      Taken(w, a, t);
    } else if a.Finish? {
      FinishPhase(w, a.t, a.now, a.at, a.tick);
    } else {
      SyncUntouched(w, a);
    }
  }

  lemma Requested(w: World, x: SyncAction, t: nat)
    requires Enabled(w, Sync(x))
    ensures var z := SyncNext(w.sync, w.svc, w.hist.lastPub, x);
            && (z.IsListing(t) ==>
                  && t in w.sync.tasks && w.sync.tasks[t].box == z.tasks[t].box
                  && if x == Begin(t) then w.sync.tasks[t].phase.Created? && z.tasks[t].phase.got == Collected({}, [])
                     else w.sync.IsListing(t) && z.tasks[t].phase.got == w.sync.tasks[t].phase.got)
            && (!Begun(z, t) ==> !Begun(w.sync, t))
  {
  }

  lemma Taken(w: World, a: Action, t: nat)
    requires Enabled(w, a) && a.Take?
    ensures var z := Next(w, a).sync;
            && (z.IsListing(t) ==>
                  && w.sync.IsListing(t) && w.sync.tasks[t].box == z.tasks[t].box
                  && z.tasks[t].phase.got == if a.t == t then Consume(w.sync.tasks[t].box, w.sync.tasks[t].phase.got,
                                                                      w.svc.holds, a.m, a.now).0
                                             else w.sync.tasks[t].phase.got)
            && (!Begun(z, t) ==> !Begun(w.sync, t) && a.t != t)
  {
    hide Consume;
  }

  /** One more step adds at most that step to the takes. */
  lemma TakesGrow(acts: seq<Action>, h: nat, i: nat, t: nat, id: string)
    requires h + 1 == i <= |acts| && !acts[h].Restart?
    ensures forall k :: Takes(acts, k, i, t, id) <==>
              Takes(acts, k, h, t, id) || (k == h && acts[h].Take? && acts[h].t == t && acts[h].m.id == id)
  {
    forall k ensures Takes(acts, k, i, t, id) <==>
        Takes(acts, k, h, t, id) || (k == h && acts[h].Take? && acts[h].t == t && acts[h].m.id == id) {
      if 0 <= k < h {
        assert Alive(acts, k, i) <==> Alive(acts, k, h);
      }
    }
  }

  lemma {:induction false} UntakenBefore(ws: seq<World>, acts: seq<Action>, i: nat, t: nat, id: string)
    requires Run(ws, acts) && i < |ws| && !Begun(ws[i].sync, t)
    ensures Untaken(acts, i, t, id)
  {
    hide Next, Enabled, Begun, Takes;
    if i == 0 {
      NoneYet(acts, i, t, id);
    } else {
      RunStep(ws, acts, i - 1);
      if acts[i-1].Restart? {
        NoneYet(acts, i, t, id);
      } else {
        ListingMoves(ws[i-1], acts[i-1], t);
        UntakenBefore(ws, acts, i - 1, t, id);
        TakesGrow(acts, i - 1, i, t, id);
      }
    }
  }

  lemma NoneYet(acts: seq<Action>, i: nat, t: nat, id: string)
    requires i > 0 ==> i <= |acts| && acts[i-1].Restart?
    ensures Untaken(acts, i, t, id)
  {
    forall k ensures !Takes(acts, k, i, t, id) {
      assert 0 <= k < i ==> !Alive(acts, k, i);
    }
  }

  lemma {:induction false} ListingAccounts(ws: seq<World>, acts: seq<Action>, i: nat, t: nat, id: string)
    requires Run(ws, acts) && i < |ws| && ws[i].sync.IsListing(t)
    ensures Accounts(ws, acts, i, t, id)
  {
    hide Next, Enabled, Takes, FirstTakes, Accounts;
    RunStep(ws, acts, i - 1);
    var w, a := ws[i-1], acts[i-1];
    if a.Restart? {
      RestartLists(w, a, t);
    } else {
      ListingMoves(w, a, t);
      TakesGrow(acts, i - 1, i, t, id);
      if a == Sync(Begin(t)) {
        UntakenBefore(ws, acts, i - 1, t, id);
        EmptyAccounts(ws, acts, i - 1, i, t, id);
      } else {
        ListingAccounts(ws, acts, i - 1, t, id);
        if a.Take? && a.t == t {
          TakeAccounts(ws, acts, i - 1, i, t, id);
        } else {
          SameAccounts(ws, acts, i - 1, i, t, id);
        }
      }
    }
  }

  lemma RestartLists(w: World, a: Action, t: nat)
    requires a.Restart?
    ensures !Next(w, a).sync.IsListing(t)
  {
  }

  lemma EmptyAccounts(ws: seq<World>, acts: seq<Action>, h: nat, i: nat, t: nat, id: string)
    requires Path(ws, acts) && h + 1 == i < |ws| && ws[i].sync.IsListing(t)
    requires ws[i].sync.tasks[t].phase.got == Collected({}, []) && Untaken(acts, h, t, id)
    requires forall k :: Takes(acts, k, i, t, id) <==> Takes(acts, k, h, t, id)
    ensures Accounts(ws, acts, i, t, id)
  {
    hide Path;
    NoneFirst(acts, h, i, t, id);
    hide Takes, FirstTakes;
    assert ws[i].sync.tasks[t].phase.got.entries == [];
  }

  lemma NoneFirst(acts: seq<Action>, h: nat, i: nat, t: nat, id: string)
    requires Untaken(acts, h, t, id) && forall k :: Takes(acts, k, i, t, id) <==> Takes(acts, k, h, t, id)
    ensures Untaken(acts, i, t, id) && forall k :: !FirstTakes(acts, k, i, t, id)
  {
    hide Takes;
  }

  lemma SameAccounts(ws: seq<World>, acts: seq<Action>, h: nat, i: nat, t: nat, id: string)
    requires Path(ws, acts) && h + 1 == i < |ws| && ws[i].sync.IsListing(t) && ws[h].sync.IsListing(t)
    requires ws[i].sync.tasks[t].box == ws[h].sync.tasks[t].box
    requires ws[i].sync.tasks[t].phase.got == ws[h].sync.tasks[t].phase.got
    requires forall k :: Takes(acts, k, i, t, id) <==> Takes(acts, k, h, t, id)
    requires Accounts(ws, acts, h, t, id)
    ensures Accounts(ws, acts, i, t, id)
  {
    hide SawVisible, SawAs;
    SameFirst(acts, h, i, t, id);
    FirstIsTake(acts, i, t, id);
    hide Path, Takes, FirstTakes;
  }

  lemma FirstIsTake(acts: seq<Action>, i: nat, t: nat, id: string)
    ensures forall k :: FirstTakes(acts, k, i, t, id) ==> 0 <= k < |acts| && acts[k].Take?
  {
  }

  lemma SameFirst(acts: seq<Action>, h: nat, i: nat, t: nat, id: string)
    requires forall k :: Takes(acts, k, i, t, id) <==> Takes(acts, k, h, t, id)
    ensures forall k :: FirstTakes(acts, k, i, t, id) <==> FirstTakes(acts, k, h, t, id)
  {
    hide Takes;
  }

  /** What taking in one element does to the entries, id by id. */
  lemma EntriesById(b: Box, got: Collected, holds: map<Msg, Mailboxes.Hold>, x: Listed, now: real, id: string)
    requires forall e :: e in got.entries && e.id == id ==> id in got.seen
    ensures var got' := Consume(b, got, holds, x, now).0;
            && (id in got'.seen <==> id in got.seen || x.id == id)
            && (id in got.seen || x.id != id ==>
                  forall e: Entry :: e.id == id ==> (e in got'.entries <==> e in got.entries))
            && (id !in got.seen && x.id == id ==>
                  && (Visible(b, holds, x, now) <==> exists e :: e in got'.entries && e.id == id)
                  && forall e :: e in got'.entries && e.id == id ==> TakenAs(e, b, holds, x, now))
  {
    hide Consume, Visible;
    if x.id in got.seen {
      RepeatedChangesNothing(b, got, holds, x, now);
    } else {
      TakenInIff(b, got, holds, x, now);
      var got' := Consume(b, got, holds, x, now).0;
      if Visible(b, holds, x, now) {
        assert got'.entries == got.entries + [got'.entries[|got.entries|]];
      }
    }
  }

  lemma TakeAccounts(ws: seq<World>, acts: seq<Action>, h: nat, i: nat, t: nat, id: string)
    requires Path(ws, acts) && h + 1 == i < |ws| && ws[i].sync.IsListing(t) && ws[h].sync.IsListing(t)
    requires ws[i].sync.tasks[t].box == ws[h].sync.tasks[t].box && acts[h].Take? && acts[h].t == t
    requires ws[i].sync.tasks[t].phase.got ==
             Consume(ws[i].sync.tasks[t].box, ws[h].sync.tasks[t].phase.got, ws[h].svc.holds, acts[h].m, acts[h].now).0
    requires forall k :: Takes(acts, k, i, t, id) <==> Takes(acts, k, h, t, id) || (k == h && acts[h].m.id == id)
    requires Accounts(ws, acts, h, t, id)
    ensures Accounts(ws, acts, i, t, id)
  {
    var x, b, got := acts[h].m, ws[i].sync.tasks[t].box, ws[h].sync.tasks[t].phase.got;
    EntriesById(b, got, ws[h].svc.holds, x, acts[h].now, id);
    FirstGrows(acts, h, i, t, id);
    FirstIsTake(acts, i, t, id);
    hide Path, Takes, FirstTakes, Consume, Visible, TakenAs;
    assert SawVisible(ws, acts, h, b) == Visible(b, ws[h].svc.holds, x, acts[h].now);
    var got' := ws[i].sync.tasks[t].phase.got;
    forall k | FirstTakes(acts, k, i, t, id)
      ensures SawVisible(ws, acts, k, b) <==> exists e :: e in got'.entries && e.id == id
      ensures forall e :: e in got'.entries && e.id == id ==> SawAs(ws, acts, k, b, e) {
      if id in got.seen || x.id != id {
        assert FirstTakes(acts, k, h, t, id);
      }
    }
  }

  /** The first take stays the first. */
  lemma FirstGrows(acts: seq<Action>, h: nat, i: nat, t: nat, id: string)
    requires h + 1 == i <= |acts| && acts[h].Take?
    requires forall k :: Takes(acts, k, i, t, id) <==> Takes(acts, k, h, t, id) || (k == h && acts[h].m.id == id)
    ensures !Untaken(acts, h, t, id) || acts[h].m.id != id ==>
              forall k :: FirstTakes(acts, k, i, t, id) <==> FirstTakes(acts, k, h, t, id)
    ensures Untaken(acts, h, t, id) ==> forall k :: FirstTakes(acts, k, i, t, id) ==> k == h
  {
    assert forall k :: Takes(acts, k, h, t, id) ==> k < h;
    hide Takes;
  }

  // ----- a published snapshot -----------------------------------------------------------------------------------

  /** The item is what the entry says, under the UID it was given. */
  ghost predicate ItemOf(x: Item, e: Entry) {
    x == Item(x.uid, e.key, e.id, e.flags, e.date, e.labels, e.env)
  }

  /** The snapshot that step `j` published. */
  function PublishedBy(ws: seq<World>, j: nat): Snapshot
    requires j + 1 < |ws| && |ws[j].hist.published| < |ws[j+1].hist.published|
  {
    ws[j+1].hist.published[|ws[j].hist.published|].snap
  }

  lemma Publishes(w: World, a: Action)
    requires Enabled(w, a) && a.Finish?
    ensures w.sync.IsListing(a.t)
    ensures var b := w.sync.tasks[a.t].box;
            && Next(w, a).hist.published == w.hist.published + [Publication(ReconcileSnapshot(w.disk, w.svc, b,
                   w.sync.tasks[a.t].phase.got.entries, a.now, a.at, a.tick), w.hist.epoch)]
  {
    hide ReconcileSnapshot, ReconcileDisk, ReconcileService, Bindings;
  }

  /** The published items are the collected entries and the entries of the pins that survive. */
  lemma ItemsAreEntries(d: Disk, s: Service, b: Box, listed: seq<Entry>, now: real, at: real, t: Tick)
    requires d.Valid() && DistinctKeys(listed) && DistinctPins(s.Pins(b))
    ensures var items := ReconcileSnapshot(d, s, b, listed, now, at, t).items;
            && (forall x :: x in items ==>
                  exists e :: (e in listed || FromPin(s.Pins(b), listed, now, e)) && ItemOf(x, e))
            && (forall e :: e in listed || FromPin(s.Pins(b), listed, now, e) ==>
                  exists x :: x in items && ItemOf(x, e))
  {
    hide ReconcileSnapshot, ReconcileDisk, Ordered, FromPin, DistinctKeys, DistinctPins;
    OrderedIs(s.Pins(b), listed, now);
    var items := ReconcileSnapshot(d, s, b, listed, now, at, t).items;
    forall x | x in items ensures exists e :: (e in listed || FromPin(s.Pins(b), listed, now, e)) && ItemOf(x, e) {
      var e := StoreMessages.EntryShown(d, s, b, listed, now, at, t, x);
      assert ItemOf(x, e);
    }
    forall e | e in listed || FromPin(s.Pins(b), listed, now, e) ensures exists x :: x in items && ItemOf(x, e) {
      ReconcileExact(d, s, b, listed, now, at, t);
      EntryPublished(d, s, b, listed, now, at, t, e);
      var uid := ReconcileDisk(d, s, b, listed, now, t).boxes[b].live[e.key];
      assert ItemOf(e.Build(uid), e);
    }
  }

  /** The item shows an element that the listing took in at step `k`, the first with its id, which was visible. */
  ghost predicate ShowsTaken(ws: seq<World>, acts: seq<Action>, j: nat, k: int, b: Box, t: nat, x: Item)
    requires Path(ws, acts)
  {
    && FirstTakes(acts, k, j, t, x.id)
    && Visible(b, ws[k].svc.holds, acts[k].m, acts[k].now)
    && exists e :: TakenAs(e, b, ws[k].svc.holds, acts[k].m, acts[k].now) && ItemOf(x, e)
  }

  /** The item shows a pin that has not expired and whose key the listing does not have. */
  ghost predicate ShowsPin(w: World, now: real, b: Box, listed: seq<Entry>, x: Item) {
    exists p :: p in w.svc.Pins(b) && p.entry.key !in Keys(listed) && now <= p.expires && ItemOf(x, p.entry)
  }

  /** In every run, the snapshot that a listing publishes when it completes shows exactly the visible elements it took
      in, each id once and as it first came, and the pins of its mailbox that it does not list and that have not
      expired. */
  lemma ShowsExactly(ws: seq<World>, acts: seq<Action>, j: nat)
    requires Run(ws, acts) && j < |acts| && acts[j].Finish?
    ensures ws[j].sync.IsListing(acts[j].t) && |ws[j].hist.published| < |ws[j+1].hist.published|
    ensures var t, b := acts[j].t, ws[j].sync.tasks[acts[j].t].box;
            var listed := ws[j].sync.tasks[t].phase.got.entries;
            && (forall x :: x in PublishedBy(ws, j).items ==>
                  (exists k :: ShowsTaken(ws, acts, j, k, b, t, x)) || ShowsPin(ws[j], acts[j].now, b, listed, x))
            && (forall k, id :: FirstTakes(acts, k, j, t, id) && Visible(b, ws[k].svc.holds, acts[k].m, acts[k].now) ==>
                  exists x :: x in PublishedBy(ws, j).items && x.id == id && ShowsTaken(ws, acts, j, k, b, t, x))
            && (forall p :: p in ws[j].svc.Pins(b) && p.entry.key !in Keys(listed) && acts[j].now <= p.expires ==>
                  exists x :: x in PublishedBy(ws, j).items && ItemOf(x, p.entry))
  {
    RunStep(ws, acts, j);
    BasicAlways(ws, acts, j);
    var w, a := ws[j], acts[j];
    Publishes(w, a);
    var t, b := a.t, w.sync.tasks[a.t].box;
    var listed := w.sync.tasks[t].phase.got.entries;
    ListedDistinct(w, t);
    ItemsAreEntries(w.disk, w.svc, b, listed, a.now, a.at, a.tick);
    var items := PublishedBy(ws, j).items;
    assert items == ReconcileSnapshot(w.disk, w.svc, b, listed, a.now, a.at, a.tick).items;
    hide Next, Enabled, ReconcileSnapshot, Basic, DistinctKeys, DistinctPins, Visible, TakenAs, FirstTakes;
    forall x | x in items
      ensures (exists k :: ShowsTaken(ws, acts, j, k, b, t, x)) || ShowsPin(w, a.now, b, listed, x) {
      var e :| (e in listed || FromPin(w.svc.Pins(b), listed, a.now, e)) && ItemOf(x, e);
      if e in listed {
        var k := EntryTaken(ws, acts, j, t, e);
        assert ShowsTaken(ws, acts, j, k, b, t, x);
      } else {
        var p :| p in w.svc.Pins(b) && Kept(p, KeySet(listed), a.now) && p.entry == e;
      }
    }
    forall k, id | FirstTakes(acts, k, j, t, id) && Visible(b, ws[k].svc.holds, acts[k].m, acts[k].now)
      ensures exists x :: x in items && x.id == id && ShowsTaken(ws, acts, j, k, b, t, x) {
      var e := TakenEntry(ws, acts, j, t, k, id);
      var x :| x in items && ItemOf(x, e);
      assert ShowsTaken(ws, acts, j, k, b, t, x);
    }
    forall p | p in w.svc.Pins(b) && p.entry.key !in Keys(listed) && a.now <= p.expires
      ensures exists x :: x in items && ItemOf(x, p.entry) {
      assert Kept(p, KeySet(listed), a.now);
      assert FromPin(w.svc.Pins(b), listed, a.now, p.entry);
    }
  }

  lemma EntryTaken(ws: seq<World>, acts: seq<Action>, j: nat, t: nat, e: Entry) returns (k: int)
    requires Run(ws, acts) && j < |ws| && ws[j].sync.IsListing(t) && e in ws[j].sync.tasks[t].phase.got.entries
    ensures FirstTakes(acts, k, j, t, e.id) && 0 <= k < |acts| && acts[k].Take?
    ensures Visible(ws[j].sync.tasks[t].box, ws[k].svc.holds, acts[k].m, acts[k].now)
    ensures TakenAs(e, ws[j].sync.tasks[t].box, ws[k].svc.holds, acts[k].m, acts[k].now)
  {
    ListingAccounts(ws, acts, j, t, e.id);
    hide Run, Visible, TakenAs, FirstTakes;
    k := FirstOf(acts, j, t, e.id);
    assert FirstTakes(acts, k, j, t, e.id);
  }

  lemma TakenEntry(ws: seq<World>, acts: seq<Action>, j: nat, t: nat, k: int, id: string) returns (e: Entry)
    requires Run(ws, acts) && j < |ws| && ws[j].sync.IsListing(t) && FirstTakes(acts, k, j, t, id)
    requires Visible(ws[j].sync.tasks[t].box, ws[k].svc.holds, acts[k].m, acts[k].now)
    ensures e in ws[j].sync.tasks[t].phase.got.entries && e.id == id
    ensures TakenAs(e, ws[j].sync.tasks[t].box, ws[k].svc.holds, acts[k].m, acts[k].now)
  {
    ListingAccounts(ws, acts, j, t, id);
    hide Run, Visible, TakenAs;
    assert SawVisible(ws, acts, k, ws[j].sync.tasks[t].box);
    e :| e in ws[j].sync.tasks[t].phase.got.entries && e.id == id;
  }

  /** The first of the takes. */
  lemma FirstOf(acts: seq<Action>, i: nat, t: nat, id: string) returns (k: int)
    requires exists l :: Takes(acts, l, i, t, id)
    ensures FirstTakes(acts, k, i, t, id) && 0 <= k < |acts| && acts[k].Take?
  {
    var l :| Takes(acts, l, i, t, id);
    k := 0;
    while !Takes(acts, k, i, t, id)
      invariant k <= l && forall m :: m < k ==> !Takes(acts, m, i, t, id)
      decreases l - k
    {
      k := k + 1;
    }
  }

  /** No snapshot of INBOX or Sent ever shows a message that is trash or spam by its labels. */
  lemma HiddenStaysHidden(ws: seq<World>, acts: seq<Action>, j: nat, x: Item)
    requires Run(ws, acts) && j < |acts| && acts[j].Finish? && ws[j].sync.IsListing(acts[j].t)
    requires |ws[j].hist.published| < |ws[j+1].hist.published| && x in PublishedBy(ws, j).items
    requires ws[j].sync.tasks[acts[j].t].box.view in {InboxView, SentView}
    ensures "trash" !in x.labels && "spam" !in x.labels
  {
    hide FirstTakes, Basic, Next, Enabled, ShowsTaken;
    ShowsExactly(ws, acts, j);
    BasicAlways(ws, acts, j);
    var t, b := acts[j].t, ws[j].sync.tasks[acts[j].t].box;
    NoPins(ws[j], b);
    var k :| ShowsTaken(ws, acts, j, k, b, t, x);
    TakenIsVisible(ws, acts, j, k, b, t, x);
  }

  lemma TakenIsVisible(ws: seq<World>, acts: seq<Action>, j: nat, k: int, b: Box, t: nat, x: Item)
    requires Path(ws, acts) && ShowsTaken(ws, acts, j, k, b, t, x) && b.view in {InboxView, SentView}
    ensures "trash" !in x.labels && "spam" !in x.labels
  {
    hide FirstTakes, Next, Enabled;
    FirstIsTake(acts, j, t, x.id);
    var e :| TakenAs(e, b, ws[k].svc.holds, acts[k].m, acts[k].now) && ItemOf(x, e);
  }

  lemma NoPins(w: World, b: Box)
    requires Basic(w) && b.view in {InboxView, SentView}
    ensures w.svc.Pins(b) == []
  {
    assert PinsSoundAt(w.disk.Live(b), b, w.svc.Pins(b));
  }
}
