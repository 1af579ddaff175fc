/** STORE while listings lag: our own label writes are held over what a stale listing says, so flags do not
    flap between commands. */
module StoreRuns {
  import opened Types
  import opened UidStores
  import opened Mailboxes
  import opened StoreFlags
  import opened StoreSteps
  import opened StoreMessages
  import Listings
  import Reconciling

  // ----- runs -------------------------------------------------------------------------------------------------

  /** The label flags the snapshot shows for a UID. */
  function FlagsShown(b: Box, g: Gate, u: nat): set<Flag> {
    var known := IndexByUid(g.Mail().Items(b));
    if u in known then known[u].flags else {}
  }

  /** Two commands that change the message do not overlap, and a listing that ends has the message's flags
      as they are shown. */
  ghost predicate Permitted(b: Box, g: Gate, e: Event, u: nat, m: string) {
    && Enabled(b, g, e)
    && match e
       case Starts(_, c) => Accepted(b.view, c) && u in c.targets ==> Idle(g.running, u)
       case Finishes(t, now, _, _) =>
         g.listings[t].box == b ==>
           Still(g.service.Pins(b), g.listings[t].got.entries, now, m, FlagsShown(b, g, u))
       case _ => true
  }

  ghost predicate Upholds(b: Box, g: Gate, u: nat, m: string, goal: set<Flag>) {
    exists f :: Inv(b, g, u, m, f, goal)
  }

  function Aimed(v: View, u: nat, goal: set<Flag>, e: Event): set<Flag> {
    if e.Starts? then Aim(v, u, goal, e.c) else goal
  }

  /** What the commands of a run mean for one message: those that name it, in the order they start. */
  function Goal(v: View, u: nat, flags: set<Flag>, es: seq<Event>): set<Flag> {
    if es == [] then flags else Aimed(v, u, Goal(v, u, flags, es[..|es|-1]), es[|es|-1])
  }

  lemma ShowsFlags(b: Box, g: Gate, u: nat, m: string, f: set<Flag>)
    requires Shows(g.Mail().Items(b), u, m, f)
    ensures FlagsShown(b, g, u) == f && u in Shown(b, g.Mail())
    ensures Shown(b, g.Mail())[u] == WithMark(f, Name(b, u) in g.disk.marks)
  {
    hide MessageFlags;
    var items := g.Mail().Items(b);
    var x :| x in items && x.uid == u;
    var i :| 0 <= i < |items| && items[i] == x;
  }

  /** Every event keeps the invariant, and only the answer to a label change of the message changes its
      label flags. */
  lemma EventKeeps(b: Box, g: Gate, e: Event, u: nat, m: string, f: set<Flag>, goal: set<Flag>)
      returns (f': set<Flag>)
    requires KindOf(b.view) == Messages && Inv(b, g, u, m, f, goal) && Permitted(b, g, e, u, m)
    requires u in Shown(b, Next(b, g, e).Mail())
    ensures Inv(b, Next(b, g, e), u, m, f', Aimed(b.view, u, goal, e))
    ensures f' != f ==> e.Steps? && Lands(b.view, g.running[e.q]) && g.running[e.q].doing.value.item.id == m
  {
    hide Commands, Shows, Holds, PinsPlain, GotPlain, Stepped, TakenIn, Reconciled, Still, Shown, FlagsShown, Aim,
         Lands, Idle;
    f' := f;
    ShowsFlags(b, g, u, m, f);
    match e
    case Starts(q, c) =>
      if Accepted(b.view, c) {
        StartKeeps(b, g, q, c, u, m, f, goal);
      } else {
        Refused(b.view, u, goal, c);
      }
    case Steps(q, now) => f' := StepKeeps(b, g, q, now, u, m, f, goal);
    case Begins(t, c) => NothingTaken();
    case Takes(t, x, now) => TakeKeeps(b, g, t, x, now, u, m, f, goal);
    case Fails(t) =>
    case Finishes(t, now, at, tick) =>
      if g.listings[t].box == b {
        FinishHere(b, g, t, now, at, tick, u, m, f, goal);
      } else {
        FinishElsewhere(b, g, t, now, at, tick, u, m, f, goal);
      }
  }

  lemma NothingTaken()
    ensures GotPlain(Collected({}, []))
  {
  }

  lemma Refused(v: View, u: nat, goal: set<Flag>, c: Command)
    requires !Accepted(v, c)
    ensures Aim(v, u, goal, c) == goal
  {
  }

  /** A run in which message `m` stays in view as UID `u`. */
  ghost predicate Runs(b: Box, gs: seq<Gate>, es: seq<Event>, u: nat) {
    && |gs| == |es| + 1
    && (forall i :: 0 <= i < |es| ==> Enabled(b, gs[i], es[i]) && gs[i+1] == Next(b, gs[i], es[i]))
    && (forall i :: 0 <= i < |gs| ==> u in Shown(b, gs[i].Mail()))
  }

  lemma RunsStep(b: Box, gs: seq<Gate>, es: seq<Event>, u: nat, i: nat)
    requires Runs(b, gs, es, u) && i < |es|
    ensures |gs| == |es| + 1 && Enabled(b, gs[i], es[i]) && gs[i+1] == Next(b, gs[i], es[i])
    ensures u in Shown(b, gs[i+1].Mail())
  {
    hide Enabled, Next, Shown;
  }

  lemma RunsLength(b: Box, gs: seq<Gate>, es: seq<Event>, u: nat)
    requires Runs(b, gs, es, u)
    ensures |gs| == |es| + 1
  {
    hide Enabled, Next, Shown;
  }

  lemma AimedLast(v: View, u: nat, flags: set<Flag>, es: seq<Event>, i: nat)
    requires i < |es|
    ensures Goal(v, u, flags, es[..i+1]) == Aimed(v, u, Goal(v, u, flags, es[..i]), es[i])
  {
    hide Aimed;
    assert es[..i+1][..i] == es[..i];
  }

  lemma {:induction false} UpheldAlways(b: Box, gs: seq<Gate>, es: seq<Event>, u: nat, m: string, flags: set<Flag>,
                                        i: nat)
    requires KindOf(b.view) == Messages && Runs(b, gs, es, u) && Upholds(b, gs[0], u, m, flags) && i <= |es|
    requires forall j :: 0 <= j < i ==> Permitted(b, gs[j], es[j], u, m)
    ensures Upholds(b, gs[i], u, m, Goal(b.view, u, flags, es[..i]))
  {
    hide Runs, Inv, Permitted, Next, Aimed, Goal, Shown;
    if i == 0 {
      NoGoal(b.view, u, flags);
      assert es[..0] == [];
    } else {
      RunsStep(b, gs, es, u, i - 1);
      UpheldAlways(b, gs, es, u, m, flags, i - 1);
      var goal := Goal(b.view, u, flags, es[..i-1]);
      var f :| Inv(b, gs[i-1], u, m, f, goal);
      var f' := EventKeeps(b, gs[i-1], es[i-1], u, m, f, goal);
      AimedLast(b.view, u, flags, es, i - 1);
    }
  }

  lemma NoGoal(v: View, u: nat, flags: set<Flag>)
    ensures Goal(v, u, flags, []) == flags
  {
  }

  /** When no command is at the message, the snapshot and upstream have its goal. */
  lemma Settles(b: Box, g: Gate, u: nat, m: string, goal: set<Flag>)
    requires Upholds(b, g, u, m, goal) && Idle(g.running, u)
    ensures u in Shown(b, g.Mail()) && Shown(b, g.Mail())[u] == goal
    ensures m in g.labels && MessageFlags(g.labels[m]) == goal - {Deleted}
  {
    hide Shows, Holds, PinsPlain, GotPlain, WellRunning, Writer, Writes, Shown, MessageFlags, Idle;
    var f :| Inv(b, g, u, m, f, goal);
    ShowsFlags(b, g, u, m, f);
    AtGoal(b.view, g.running, u, m, f, Name(b, u) in g.disk.marks, g.labels[m], goal);
    LabelFlagsOnly(g.labels[m]);
  }

  /** Over every interleaving of STORE commands and listings in which each listing of the mailbox that ends has
      the message's flags as they are shown, the message ends with exactly the flags that the commands mean,
      in the snapshot and upstream: no reconcile makes a flag flap. */
  lemma StoresRefineAmidListings(b: Box, gs: seq<Gate>, es: seq<Event>, u: nat, m: string, flags: set<Flag>)
    requires KindOf(b.view) == Messages && Runs(b, gs, es, u) && Upholds(b, gs[0], u, m, flags)
    requires forall j :: 0 <= j < |es| ==> Permitted(b, gs[j], es[j], u, m)
    requires Idle(gs[|es|].running, u)
    ensures Shown(b, gs[|es|].Mail())[u] == Goal(b.view, u, flags, es)
    ensures m in gs[|es|].labels && MessageFlags(gs[|es|].labels[m]) == Goal(b.view, u, flags, es) - {Deleted}
  {
    hide Permitted, Inv, Goal, Shown, MessageFlags, Idle, Upholds;
    UpheldAlways(b, gs, es, u, m, flags, |es|);
    assert es[..|es|] == es;
    Settles(b, gs[|es|], u, m, Goal(b.view, u, flags, es));
  }


  // ----- when a listing still has the flags --------------------------------------------------------------------

  /** The listing shows the message's flags as they are shown, or a label write of ours is held over it. */
  ghost predicate Covered(b: Box, g: Gate, x: Listed, now: real, u: nat) {
    var m := Msg(b.inbox, x.id);
    MessageFlags(x.labels) == FlagsShown(b, g, u) || (m in g.service.holds && !(g.service.holds[m].expires < now))
  }

  /** What can be checked as it happens: an element that shows the message is covered when it is taken in, and
      when the listing ends no label write of ours to the message has come back since. A pin that survives has
      the message's flags. */
  ghost predicate Guarded(b: Box, g: Gate, e: Event, u: nat, m: string) {
    && Enabled(b, g, e)
    && match e
       case Starts(_, c) => Accepted(b.view, c) && u in c.targets ==> Idle(g.running, u)
       case Takes(t, x, now) =>
         g.listings[t].box == b && x.id == m && m !in g.listings[t].got.seen ==> Covered(b, g, x, now, u)
       case Finishes(t, now, _, _) =>
         g.listings[t].box == b ==>
           && m !in g.listings[t].late
           && PinsStill(g.service.Pins(b), g.listings[t].got.entries, now, m, FlagsShown(b, g, u))
       case _ => true
  }

  /** An entry that no label write of ours has overtaken has the message's flags. */
  ghost predicate Timely(b: Box, g: Gate, m: string, f: set<Flag>) {
    forall t :: t in g.listings && g.listings[t].box == b && m !in g.listings[t].late ==>
      HasFlags(g.listings[t].got, m, f)
  }

  ghost predicate HasFlags(got: Collected, m: string, f: set<Flag>) {
    forall e :: e in got.entries && e.id == m ==> e.flags == f
  }

  lemma TakesCovered(b: Box, got: Collected, holds: map<Msg, Hold>, x: Listed, now: real, m: string, f: set<Flag>)
    requires KindOf(b.view) == Messages && Holds(holds, Msg(b.inbox, m), f) && HasFlags(got, m, f)
    requires x.id == m && m !in got.seen ==>
               MessageFlags(x.labels) == f || (Msg(b.inbox, m) in holds && !(holds[Msg(b.inbox, m)].expires < now))
    ensures HasFlags(Consume(b, got, holds, x, now).0, m, f)
  {
    hide MessageFlags, Excluded;
  }

  lemma GuardedIsPermitted(b: Box, g: Gate, e: Event, u: nat, m: string, f: set<Flag>, goal: set<Flag>)
    requires Inv(b, g, u, m, f, goal) && Timely(b, g, m, f) && Guarded(b, g, e, u, m)
    ensures Permitted(b, g, e, u, m)
  {
    hide Commands, Shows, FlagsShown, MessageFlags, Mailboxes.Kept, PinsPlain, Idle, PinsStill, GotPlain, HasFlags;
    ShowsFlags(b, g, u, m, f);
    if e.Finishes? && g.listings[e.t].box == b {
      FinishesStill(g.service.Pins(b), g.listings[e.t].got, e.now, m, f);
    }
  }

  lemma FinishesStill(pins: seq<Pin>, got: Collected, now: real, m: string, f: set<Flag>)
    requires GotPlain(got) && HasFlags(got, m, f) && PinsStill(pins, got.entries, now, m, f)
    ensures Still(pins, got.entries, now, m, f)
  {
    hide MessageFlags, PinsStill;
    forall e | e in got.entries && e.key == m ensures e.flags == f {
      assert Plain(e);
    }
  }

  /** A label write that comes back overtakes every listing that has taken the message in. */
  lemma StepTimely(b: Box, g: Gate, q: nat, now: real, m: string, f: set<Flag>, f': set<Flag>)
    requires Timely(b, g, m, f) && q in g.running && !g.running[q].Over()
    requires forall t :: t in g.listings && g.listings[t].box == b ==> GotPlain(g.listings[t].got)
    requires f' != f ==> Lands(b.view, g.running[q]) && g.running[q].doing.value.item.id == m
    ensures Timely(b, Stepped(b, g, q, now), m, f')
  {
    hide StoreStep, Plain, Reconciling.DistinctIds;
    var g' := Stepped(b, g, q, now);
    forall t | t in g'.listings && g'.listings[t].box == b && m !in g'.listings[t].late
      ensures HasFlags(g'.listings[t].got, m, f') {
      assert g'.listings[t].got == g.listings[t].got && m !in g.listings[t].late;
      assert HasFlags(g.listings[t].got, m, f);
    }
  }

  lemma TakeTimely(b: Box, g: Gate, t: nat, x: Listed, now: real, u: nat, m: string, f: set<Flag>)
    requires KindOf(b.view) == Messages && Timely(b, g, m, f) && Guarded(b, g, Takes(t, x, now), u, m)
    requires FlagsShown(b, g, u) == f && Holds(g.service.holds, Msg(b.inbox, m), f)
    ensures Timely(b, TakenIn(g, t, x, now), m, f)
  {
    hide Consume, HasFlags, FlagsShown, MessageFlags, Holds;
    var l, g' := g.listings[t], TakenIn(g, t, x, now);
    if l.box == b && m !in l.late {
      TakesCovered(b, l.got, g.service.holds, x, now, m, f);
    }
    forall s | s in g'.listings && g'.listings[s].box == b && m !in g'.listings[s].late
      ensures HasFlags(g'.listings[s].got, m, f) {
      if s != t { assert g'.listings[s] == g.listings[s]; }
    }
  }

  lemma TimelyStep(b: Box, g: Gate, e: Event, u: nat, m: string, f: set<Flag>, f': set<Flag>, goal: set<Flag>)
    requires KindOf(b.view) == Messages && Inv(b, g, u, m, f, goal) && Timely(b, g, m, f) && Guarded(b, g, e, u, m)
    requires f' != f ==> e.Steps? && Lands(b.view, g.running[e.q]) && g.running[e.q].doing.value.item.id == m
    ensures Timely(b, Next(b, g, e), m, f')
  {
    hide Commands, Shows, Holds, PinsPlain, GotPlain, Stepped, TakenIn, Still, FlagsShown, Lands, Idle, HasFlags,
         ReconcileDisk, ReconcileService, Captured;
    ShowsFlags(b, g, u, m, f);
    match e
    case Starts(q, c) =>
    case Steps(q, now) => StepTimely(b, g, q, now, m, f, f');
    case Begins(t, c) => NoneTaken(m, f);
    case Takes(t, x, now) => TakeTimely(b, g, t, x, now, u, m, f);
    case Fails(t) =>
    case Finishes(t, now, at, tick) =>
  }

  lemma NoneTaken(m: string, f: set<Flag>)
    ensures HasFlags(Collected({}, []), m, f)
  {
  }

  ghost predicate UpholdsTimely(b: Box, g: Gate, u: nat, m: string, goal: set<Flag>) {
    exists f :: Inv(b, g, u, m, f, goal) && Timely(b, g, m, f)
  }

  lemma {:induction false} GuardedAlways(b: Box, gs: seq<Gate>, es: seq<Event>, u: nat, m: string, flags: set<Flag>,
                                         i: nat)
    requires KindOf(b.view) == Messages && Runs(b, gs, es, u) && UpholdsTimely(b, gs[0], u, m, flags) && i <= |es|
    requires forall j :: 0 <= j < |es| ==> Guarded(b, gs[j], es[j], u, m)
    ensures UpholdsTimely(b, gs[i], u, m, Goal(b.view, u, flags, es[..i]))
    ensures i < |es| ==> Permitted(b, gs[i], es[i], u, m)
  {
    hide Runs, Inv, Timely, Guarded, Permitted, Next, Aimed, Goal, Shown;
    RunsLength(b, gs, es, u);
    if i == 0 {
      NoGoal(b.view, u, flags);
      assert es[..0] == [];
    } else {
      RunsStep(b, gs, es, u, i - 1);
      GuardedAlways(b, gs, es, u, m, flags, i - 1);
      var goal := Goal(b.view, u, flags, es[..i-1]);
      var f :| Inv(b, gs[i-1], u, m, f, goal) && Timely(b, gs[i-1], m, f);
      var f' := EventKeeps(b, gs[i-1], es[i-1], u, m, f, goal);
      TimelyStep(b, gs[i-1], es[i-1], u, m, f, f', goal);
      AimedLast(b.view, u, flags, es, i - 1);
    }
    if i < |es| {
      var goal := Goal(b.view, u, flags, es[..i]);
      var f :| Inv(b, gs[i], u, m, f, goal) && Timely(b, gs[i], m, f);
      GuardedIsPermitted(b, gs[i], es[i], u, m, f, goal);
    }
  }

  /** The guard is enough: while listings are covered when they take the message in, and no label write of ours
      comes back between that moment and their end, the flags are those the commands mean. */
  lemma GuardedRunsKeepFlags(b: Box, gs: seq<Gate>, es: seq<Event>, u: nat, m: string, flags: set<Flag>)
    requires KindOf(b.view) == Messages && Runs(b, gs, es, u) && UpholdsTimely(b, gs[0], u, m, flags)
    requires forall j :: 0 <= j < |es| ==> Guarded(b, gs[j], es[j], u, m)
    requires Idle(gs[|es|].running, u)
    ensures Shown(b, gs[|es|].Mail())[u] == Goal(b.view, u, flags, es)
    ensures m in gs[|es|].labels && MessageFlags(gs[|es|].labels[m]) == Goal(b.view, u, flags, es) - {Deleted}
  {
    hide Runs, Inv, Timely, Guarded, Permitted, Goal, Shown, MessageFlags, Idle;
    RunsLength(b, gs, es, u);
    forall j | 0 <= j < |es| ensures Permitted(b, gs[j], es[j], u, m) {
      GuardedAlways(b, gs, es, u, m, flags, j);
    }
    StoresRefineAmidListings(b, gs, es, u, m, flags);
  }


  // ----- one listing ---------------------------------------------------------------------------------------------

  /** While a hold stands, the entry of a listed message carries the held labels and their flags, whatever
      the listing says. */
  lemma HeldEntry(b: Box, holds: map<Msg, Hold>, x: Listings.Sighting)
    requires KindOf(b.view) == Messages
    requires Msg(b.inbox, x.m.id) in holds && !(holds[Msg(b.inbox, x.m.id)].expires < x.now)
    ensures forall e :: e in Listings.EntryOf(b, holds, x) ==>
              e.key == x.m.id && e.id == x.m.id
              && e.labels == holds[Msg(b.inbox, x.m.id)].labels && e.flags == MessageFlags(e.labels)
  {
    hide MessageFlags, Excluded;
  }

  /** Exactly when a message is taken in with the flags of our last label write: the write is held over the
      listing, or the listing shows the same flags. */
  lemma ListedFlagsIff(b: Box, holds: map<Msg, Hold>, x: Listings.Sighting, f: set<Flag>, e: Entry)
    requires KindOf(b.view) == Messages && Holds(holds, Msg(b.inbox, x.m.id), f)
    requires e in Listings.EntryOf(b, holds, x)
    ensures var m := Msg(b.inbox, x.m.id);
            e.flags == f <==> (m in holds && !(holds[m].expires < x.now)) || MessageFlags(x.m.labels) == f
  {
    hide MessageFlags, Excluded;
  }

  /** Exactly when a listing that ends publishes the flags upstream has, and exactly when it leaves the flags as
      they are shown: the entry it took in, or the pin that survives it, still has them. */
  lemma ListingKeepsFlagsIff(b: Box, g: Gate, t: nat, now: real, at: real, tick: Tick, u: nat, m: string,
                             f: set<Flag>, goal: set<Flag>)
    requires KindOf(b.view) == Messages && Inv(b, g, u, m, f, goal) && t in g.listings && g.listings[t].box == b
    requires u in Shown(b, Reconciled(g, t, now, at, tick).Mail())
    ensures var g', pins, listed := Reconciled(g, t, now, at, tick), g.service.Pins(b), g.listings[t].got.entries;
            && (FlagsShown(b, g', u) == MessageFlags(g.labels[m]) <==>
                Still(pins, listed, now, m, MessageFlags(g.labels[m])))
            && u in Shown(b, g.Mail())
            && (Shown(b, g'.Mail())[u] == Shown(b, g.Mail())[u] <==> Still(pins, listed, now, m, f))
  {
    hide Reconciled, Still, Shows, Holds, PinsPlain, GotPlain, Commands, MessageFlags, Shown, FlagsShown;
    ShowsFlags(b, g, u, m, f);
    ShownWithout(b, g, u, m, f);
    PublishedShows(b, g, t, now, at, tick, u, m, f);
    PublishedShows(b, g, t, now, at, tick, u, m, MessageFlags(g.labels[m]));
  }

  /** What a reconcile of the mailbox shows for a message that was and is in view. */
  lemma PublishedShows(b: Box, g: Gate, t: nat, now: real, at: real, tick: Tick, u: nat, m: string, f: set<Flag>)
    requires t in g.listings && g.listings[t].box == b && g.disk.Valid()
    requires m in g.disk.Live(b) && g.disk.Live(b)[m] == u
    requires GotPlain(g.listings[t].got) && PinsPlain(g.service.Pins(b))
    requires u in Shown(b, Reconciled(g, t, now, at, tick).Mail())
    ensures var g' := Reconciled(g, t, now, at, tick);
            && (FlagsShown(b, g', u) == f <==> Still(g.service.Pins(b), g.listings[t].got.entries, now, m, f))
            && Deleted !in FlagsShown(b, g', u)
            && Shown(b, g'.Mail())[u] == WithMark(FlagsShown(b, g', u), Name(b, u) in g.disk.marks)
  {
    hide ReconcileDisk, ReconcileSnapshot, ReconcileService, Still, PinsPlain, GotPlain, Reconciling.DistinctKeys,
         MessageFlags;
    var d, s, got := g.disk, g.service, g.listings[t].got;
    FinishService(d, s, b, got.entries, now, at, tick);
    var y := IndexByUid(Reconciled(g, t, now, at, tick).Mail().Items(b))[u];
    PlainKeys(got);
    PinsDistinct(s.Pins(b));
    RowStays(d, s, b, got.entries, now, at, tick, u, m, y);
    PublishedFlagsIff(d, s, b, got.entries, now, at, tick, y, f);
    NoMark(d, s, b, got, now, at, tick, y);
  }

  lemma NoMark(d: Disk, s: Service, b: Box, got: Collected, now: real, at: real, t: Tick, y: Item)
    requires d.Valid() && GotPlain(got) && PinsPlain(s.Pins(b))
    requires y in ReconcileSnapshot(d, s, b, got.entries, now, at, t).items
    ensures Deleted !in y.flags
  {
    hide ReconcileSnapshot, GotPlain, PinsPlain, Reconciling.DistinctKeys, MessageFlags;
    PlainKeys(got);
    PinsDistinct(s.Pins(b));
    var e := EntryShown(d, s, b, got.entries, now, at, t, y);
    OrderedPlain(s.Pins(b), got, now);
    LabelFlagsOnly(e.labels);
  }

  lemma ShownWithout(b: Box, g: Gate, u: nat, m: string, f: set<Flag>)
    requires Shows(g.Mail().Items(b), u, m, f)
    ensures Deleted !in f
  {
    var x :| x in g.Mail().Items(b) && x.uid == u;
    LabelFlagsOnly(x.labels);
  }

  /** A pin is not covered by a hold: while a listing lags behind a copy to Trash, the reconcile publishes the
      pinned labels' flags, whatever STORE has changed since. */
  lemma PinIgnoresStore(d: Disk, s: Service, b: Box, p: Pin, now: real, at: real, t: Tick)
    requires d.Valid() && s.Pins(b) == [p] && !(p.expires < now)
    ensures exists x :: x in ReconcileSnapshot(d, s, b, [], now, at, t).items
                        && x.key == p.entry.key && x.flags == p.entry.flags && x.labels == p.entry.labels
  {
    hide ReconcileSnapshot, ReconcileDisk, Ordered;
    Reconciling.OrderedIs(s.Pins(b), [], now);
    assert Kept(p, KeySet([]), now) && p in s.Pins(b);
    Reconciling.EntryPublished(d, s, b, [], now, at, t, p.entry);
  }
}
