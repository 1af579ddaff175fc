/** Where the guard of `GuardedRunsKeepFlags` ends: a listing that took a message in before a STORE came back
    undoes it, whatever the state it happens in. */
module StoreExamples {
  import opened Types
  import opened UidStores
  import opened Mailboxes
  import opened StoreFlags
  import opened StoreSteps
  import opened StoreMessages
  import opened StoreRuns
  import Reconciling
  import GatewayExamples

  // ----- a state to start from ---------------------------------------------------------------------------------

  /** A snapshot in step with upstream, its rows, and nothing in flight. */
  ghost predicate Quiet(b: Box, g: Gate) {
    && Synced(b, g.Mail()) && g.disk.Valid() && g.listings == map[] && g.running == map[]
    && PinsPlain(g.service.Pins(b))
    && forall x :: x in g.Mail().Items(b) ==> Rooted(b, g, x)
  }

  ghost predicate Rooted(b: Box, g: Gate, x: Item) {
    && x.key == x.id && x.key in g.disk.Live(b) && g.disk.Live(b)[x.key] == x.uid
    && Holds(g.service.holds, Msg(b.inbox, x.id), x.flags)
  }

  /** Such a state upholds, for each of its messages, the flags it shows. */
  lemma QuietUpholds(b: Box, g: Gate, x: Item)
    requires KindOf(b.view) == Messages && Quiet(b, g) && x in g.Mail().Items(b)
    ensures UpholdsTimely(b, g, x.uid, x.id, g.Mail().Flags(b, x))
  {
    hide MessageFlags, PinsPlain, Holds;
    assert Rooted(b, g, x);
    SyncedShows(b, g.Mail(), x);
    assert Inv(b, g, x.uid, x.id, x.flags, g.Mail().Flags(b, x));
    assert Timely(b, g, x.id, x.flags);
  }

  lemma SyncedShows(b: Box, st: Mail, x: Item)
    requires KindOf(b.view) == Messages && Synced(b, st) && x in st.Items(b)
    requires forall y :: y in st.Items(b) ==> y.key == y.id
    ensures Shows(st.Items(b), x.uid, x.id, x.flags)
    ensures x.id in st.labels && MessageFlags(st.labels[x.id]) == x.flags
  {
    hide MessageFlags;
    var items := st.Items(b);
    var i :| 0 <= i < |items| && items[i] == x;
    assert InStep(b, st.labels, items[i]);
    forall y | y in items ensures Named(y, x.uid, x.id) && (y.uid == x.uid ==> LabelsShow(y, x.flags)) {
      var j :| 0 <= j < |items| && items[j] == y;
      assert InStep(b, st.labels, items[j]);
      if j != i { OtherItem(b, st, i, j); }
    }
  }

  lemma OtherItem(b: Box, st: Mail, i: nat, j: nat)
    requires Synced(b, st) && i < |st.Items(b)| && j < |st.Items(b)| && i != j
    ensures st.Items(b)[i].uid != st.Items(b)[j].uid && st.Items(b)[i].id != st.Items(b)[j].id
  {
    hide InStep;
    if j < i { assert st.Items(b)[j].uid != st.Items(b)[i].uid; }
  }

  // ----- building runs -------------------------------------------------------------------------------------------

  /** A guarded run from `g` to `h` whose commands mean `goal` for the message. */
  ghost predicate Leads(b: Box, g: Gate, h: Gate, gs: seq<Gate>, es: seq<Event>, u: nat, m: string, flags: set<Flag>,
                        goal: set<Flag>) {
    && Runs(b, gs, es, u) && gs[0] == g && gs[|es|] == h && Goal(b.view, u, flags, es) == goal
    && forall j :: 0 <= j < |es| ==> Guarded(b, gs[j], es[j], u, m)
  }

  lemma StaysPut(b: Box, g: Gate, u: nat, m: string, flags: set<Flag>)
    requires u in Shown(b, g.Mail())
    ensures Leads(b, g, g, [g], [], u, m, flags, flags)
  {
    hide Shown;
  }

  lemma LeadsOn(b: Box, g: Gate, h: Gate, gs: seq<Gate>, es: seq<Event>, e: Event, u: nat, m: string,
                flags: set<Flag>, goal: set<Flag>)
    requires Leads(b, g, h, gs, es, u, m, flags, goal) && Guarded(b, h, e, u, m) && u in Shown(b, Next(b, h, e).Mail())
    ensures Leads(b, g, Next(b, h, e), gs + [Next(b, h, e)], es + [e], u, m, flags, Aimed(b.view, u, goal, e))
  {
    hide Next, Shown, Still, Idle, Covered, PinsStill, Aimed, Goal;
    RunsOn(b, h, gs, es, e, u);
    GoalOn(b.view, u, flags, es, e);
  }

  lemma GoalOn(v: View, u: nat, flags: set<Flag>, es: seq<Event>, e: Event)
    ensures Goal(v, u, flags, es + [e]) == Aimed(v, u, Goal(v, u, flags, es), e)
  {
    hide Aimed;
    assert (es + [e])[..|es|] == es;
  }

  lemma RunsOn(b: Box, h: Gate, gs: seq<Gate>, es: seq<Event>, e: Event, u: nat)
    requires Runs(b, gs, es, u) && gs[|es|] == h && Enabled(b, h, e) && u in Shown(b, Next(b, h, e).Mail())
    ensures Runs(b, gs + [Next(b, h, e)], es + [e], u)
  {
    hide Enabled, Next, Shown;
  }

  // ----- a command runs to its end -------------------------------------------------------------------------------

  /** Our label write to the message has come back at `now`: it is held, and listing `t` is overtaken. */
  ghost predicate Landed(b: Box, g: Gate, t: nat, m: string, now: real) {
    && Msg(b.inbox, m) in g.service.holds && g.service.holds[Msg(b.inbox, m)].expires == now + HOLD_TTL
    && t in g.listings && m in g.listings[t].late
  }

  /** Listing `t` of the mailbox has collected `got`, the message included. */
  ghost predicate Took(b: Box, g: Gate, t: nat, m: string, got: Collected) {
    t in g.listings && g.listings[t].box == b && g.listings[t].got == got && m in got.seen
  }

  /** A step leaves what has landed, and a landing step lands. */
  lemma StepLands(b: Box, g: Gate, q: nat, t: nat, m: string, now: real, got: Collected)
    requires q in g.running && !g.running[q].Over() && Took(b, g, t, m, got)
    ensures Took(b, Stepped(b, g, q, now), t, m, got)
    ensures Landed(b, g, t, m, now) || (Lands(b.view, g.running[q]) && g.running[q].doing.value.item.id == m) ==>
              Landed(b, Stepped(b, g, q, now), t, m, now)
  {
    hide Patched, MessageFlags, Permanent;
  }

  /** What `RunsOut` carries along. */
  ghost predicate OnTheWay(b: Box, g: Gate, q: nat, now: real, u: nat, m: string, f0: set<Flag>, f: set<Flag>,
                           goal: set<Flag>, t: nat, got: Collected) {
    && Inv(b, g, u, m, f, goal) && g.running.Keys == {q} && Took(b, g, t, m, got)
    && (f != f0 ==> Landed(b, g, t, m, now))
  }

  lemma OneStep(b: Box, g: Gate, q: nat, now: real, u: nat, m: string, f0: set<Flag>, f: set<Flag>,
                goal: set<Flag>, t: nat, got: Collected) returns (f': set<Flag>)
    requires OnTheWay(b, g, q, now, u, m, f0, f, goal, t, got) && !g.running[q].Over()
    ensures OnTheWay(b, Stepped(b, g, q, now), q, now, u, m, f0, f', goal, t, got)
    ensures u in Shown(b, Stepped(b, g, q, now).Mail())
    ensures Stepped(b, g, q, now).running[q] == StoreStep(b, g.Mail(), g.running[q], now).1
  {
    hide Inv, StoreStep, Shown, Landed, Took, Lands;
    f' := StepKeeps(b, g, q, now, u, m, f, goal);
    StepLands(b, g, q, t, m, now, got);
    InvShows(b, Stepped(b, g, q, now), u, m, f', goal);
  }

  lemma InvShows(b: Box, g: Gate, u: nat, m: string, f: set<Flag>, goal: set<Flag>)
    requires Inv(b, g, u, m, f, goal)
    ensures u in Shown(b, g.Mail()) && FlagsShown(b, g, u) == f
    ensures Shown(b, g.Mail())[u] == WithMark(f, Name(b, u) in g.disk.marks)
  {
    hide Shows, Commands, Shown, FlagsShown;
    ShowsFlags(b, g, u, m, f);
  }

  lemma StepGuarded(b: Box, g: Gate, q: nat, now: real, u: nat, m: string)
    requires q in g.running && !g.running[q].Over()
    ensures Guarded(b, g, Steps(q, now), u, m) && Next(b, g, Steps(q, now)) == Stepped(b, g, q, now)
    ensures forall goal :: Aimed(b.view, u, goal, Steps(q, now)) == goal
  {
    hide Stepped;
  }

  /** A command in flight can be carried to its end, with nothing in between. */
  lemma {:induction false} RunsOut(b: Box, start: Gate, g: Gate, gs: seq<Gate>, es: seq<Event>, q: nat, now: real,
                                   u: nat, m: string, flags: set<Flag>, f0: set<Flag>, f: set<Flag>, goal: set<Flag>,
                                   t: nat, got: Collected)
      returns (h: Gate, hs: seq<Gate>, ds: seq<Event>, f': set<Flag>)
    requires Leads(b, start, g, gs, es, u, m, flags, goal) && OnTheWay(b, g, q, now, u, m, f0, f, goal, t, got)
    ensures Leads(b, start, h, hs, ds, u, m, flags, goal) && OnTheWay(b, h, q, now, u, m, f0, f', goal, t, got)
    ensures h.running[q].Over()
    decreases |g.running[q].c.targets| - g.running[q].n, g.running[q].Left(b.view)
  {
    hide Leads, Inv, Stepped, StoreStep, Guarded, Shown, Landed, Took, Next, Running.Left;
    if g.running[q].Over() {
      h, hs, ds, f' := g, gs, es, f;
    } else {
      var f1 := OneStep(b, g, q, now, u, m, f0, f, goal, t, got);
      StepGuarded(b, g, q, now, u, m);
      LeadsOn(b, start, g, gs, es, Steps(q, now), u, m, flags, goal);
      StepsDown(b, g.Mail(), g.running[q], now);
      var g1 := Stepped(b, g, q, now);
      h, hs, ds, f' := RunsOut(b, start, g1, gs + [g1], es + [Steps(q, now)], q, now, u, m, flags, f0, f1, goal, t,
                               got);
    }
  }

  lemma StepsDown(b: Box, st: Mail, r: Running, now: real)
    requires !r.Over()
    ensures var next := StoreStep(b, st, r, now).1;
            && next.c == r.c && next.n <= |r.c.targets|
            && (next.n > r.n || (next.n == r.n && next.Left(b.view) < r.Left(b.view)))
  {
    hide Patched, MessageFlags, ReplaceItem, Permanent;
  }

  // ----- the run ---------------------------------------------------------------------------------------------------

  /** Labels with just these flags, that no view hides. */
  function LabelsFor(f: set<Flag>): set<string> {
    (if Seen in f then {} else {"unread"}) + (if Flagged in f then {"starred"} else {})
  }

  function Sighted(m: string, f: set<Flag>): Listed {
    Listed(m, 0, LabelsFor(f), None, Envelope(None, "", [], ""))
  }

  function SightedEntry(m: string, f: set<Flag>): Entry {
    Entry(0, m, m, f, LabelsFor(f), Envelope(None, "", [], ""))
  }

  lemma LabelsForFlags(b: Box, f: set<Flag>)
    requires f <= {Seen, Flagged}
    ensures MessageFlags(LabelsFor(f)) == f && LabelsFor(f) * Excluded(b.view) == {}
  {
  }

  /** A time at which no hold on the message stands. */
  function AfterHold(holds: map<Msg, Hold>, m: Msg): real {
    if m in holds then holds[m].expires + 1.0 else 0.0
  }

  lemma TakesSighted(b: Box, holds: map<Msg, Hold>, m: string, f: set<Flag>)
    requires KindOf(b.view) == Messages && f <= {Seen, Flagged}
    ensures Consume(b, Collected({}, []), holds, Sighted(m, f), AfterHold(holds, Msg(b.inbox, m))).0 ==
            Collected({m}, [SightedEntry(m, f)])
  {
    LabelsForFlags(b, f);
    assert [] + [SightedEntry(m, f)] == [SightedEntry(m, f)] && {} + {m} == {m};
  }

  /** +FLAGS or -FLAGS (\Seen), whichever changes something. */
  function Toggle(u: nat, f: set<Flag>): Command {
    Command(false, [u], if Seen in f then Removing else Adding, {Seen}, 0.0)
  }

  lemma ToggleAims(v: View, u: nat, f: set<Flag>, goal: set<Flag>)
    requires KindOf(v) == Messages && (Seen in goal <==> Seen in f)
    ensures Accepted(v, Toggle(u, f)) && DistinctTargets(Toggle(u, f)) && u in Toggle(u, f).targets
    ensures Seen in Aim(v, u, goal, Toggle(u, f)) <==> Seen !in f
  {
  }

  /** A run that goes on with one event. */
  lemma GoesOn(b: Box, start: Gate, g: Gate, gs: seq<Gate>, es: seq<Event>, e: Event, u: nat, m: string,
               flags: set<Flag>, f: set<Flag>, goal: set<Flag>) returns (hs: seq<Gate>, ds: seq<Event>)
    requires KindOf(b.view) == Messages && Leads(b, start, g, gs, es, u, m, flags, goal) && Inv(b, g, u, m, f, goal)
    requires Enabled(b, g, e) && Permitted(b, g, e, u, m) && Guarded(b, g, e, u, m) && !e.Finishes? && !e.Steps?
    ensures Leads(b, start, Next(b, g, e), hs, ds, u, m, flags, Aimed(b.view, u, goal, e))
    ensures Inv(b, Next(b, g, e), u, m, f, Aimed(b.view, u, goal, e))
  {
    hide Inv, Shown, FlagsShown, Leads, Aimed, Next, Guarded, Permitted;
    InvShows(b, g, u, m, f, goal);
    StaysShown(b, g, e, u);
    var f' := EventKeeps(b, g, e, u, m, f, goal);
    LeadsOn(b, start, g, gs, es, e, u, m, flags, goal);
    hs, ds := gs + [Next(b, g, e)], es + [e];
  }

  lemma StaysShown(b: Box, g: Gate, e: Event, u: nat)
    requires Enabled(b, g, e) && !e.Finishes? && !e.Steps?
    ensures Shown(b, Next(b, g, e).Mail()) == Shown(b, g.Mail()) && Next(b, g, e).disk == g.disk
  {
    hide Consume, Shown, Captured;
    assert Next(b, g, e).Mail().Items(b) == g.Mail().Items(b);
    SameShown(b, g.Mail(), Next(b, g, e).Mail());
  }

  lemma SameShown(b: Box, st: Mail, s: Mail)
    requires s.Items(b) == st.Items(b) && s.marks == st.marks
    ensures Shown(b, s) == Shown(b, st)
  {
  }

  /** A listing of the mailbox begins and takes the message in as it is shown; a STORE that toggles \Seen
      starts. */
  lemma ListsAndStarts(b: Box, g: Gate, u: nat, m: string, f: set<Flag>, flags: set<Flag>)
      returns (h: Gate, hs: seq<Gate>, ds: seq<Event>, goal: set<Flag>)
    requires KindOf(b.view) == Messages && Inv(b, g, u, m, f, flags) && m != ""
    requires g.running == map[] && g.listings == map[]
    ensures Leads(b, g, h, hs, ds, u, m, flags, goal) && (Seen in goal <==> Seen !in f)
    ensures OnTheWay(b, h, 0, AfterHold(g.service.holds, Msg(b.inbox, m)), u, m, f, f, goal, 0,
                     Collected({m}, [SightedEntry(m, f)]))
  {
    hide Inv, Shown, Leads, Next, Guarded, Permitted, Took, Toggle, Aim;
    var now := AfterHold(g.service.holds, Msg(b.inbox, m));
    var e1, e2, e3 := Begins(0, b), Takes(0, Sighted(m, f), now), Starts(0, Toggle(u, f));
    InvShows(b, g, u, m, f, flags);
    StartsAtGoal(b, g, u, m, f, flags);
    StaysPut(b, g, u, m, flags);
    MayBegin(b, g, u, m);
    hs, ds := GoesOn(b, g, g, [g], [], e1, u, m, flags, f, flags);
    var g1 := Next(b, g, e1);
    MayTake(b, g, g1, u, m, f, flags);
    hs, ds := GoesOn(b, g, g1, hs, ds, e2, u, m, flags, f, flags);
    var g2 := Next(b, g1, e2);
    ToggleAims(b.view, u, f, flags);
    MayStart(b, g2, u, m, f);
    goal := Aim(b.view, u, flags, Toggle(u, f));
    hs, ds := GoesOn(b, g, g2, hs, ds, e3, u, m, flags, f, flags);
    h := Next(b, g2, e3);
  }

  lemma StartsAtGoal(b: Box, g: Gate, u: nat, m: string, f: set<Flag>, goal: set<Flag>)
    requires Inv(b, g, u, m, f, goal) && g.running == map[]
    ensures f <= {Seen, Flagged} && goal == WithMark(f, Name(b, u) in g.disk.marks)
  {
    hide Shows;
    AtGoal(b.view, g.running, u, m, f, Name(b, u) in g.disk.marks, g.labels[m], goal);
    LabelFlagsOnly(g.labels[m]);
  }

  lemma MayBegin(b: Box, g: Gate, u: nat, m: string)
    requires g.listings == map[]
    ensures Permitted(b, g, Begins(0, b), u, m) && Guarded(b, g, Begins(0, b), u, m)
    ensures var h := Next(b, g, Begins(0, b));
            && h.running == g.running && h.service == g.service && h.Mail() == g.Mail() && h.disk == g.disk
            && h.listings == map[0 := InFlight(b, Collected({}, []), {})]
  {
  }

  lemma MayTake(b: Box, g: Gate, g1: Gate, u: nat, m: string, f: set<Flag>, goal: set<Flag>)
    requires KindOf(b.view) == Messages && f <= {Seen, Flagged} && m != "" && FlagsShown(b, g1, u) == f
    requires g1.service == g.service && g1.listings == map[0 := InFlight(b, Collected({}, []), {})]
    ensures var e := Takes(0, Sighted(m, f), AfterHold(g.service.holds, Msg(b.inbox, m)));
            && Permitted(b, g1, e, u, m) && Guarded(b, g1, e, u, m)
            && var h := Next(b, g1, e);
               h.running == g1.running
               && h.listings == map[0 := InFlight(b, Collected({m}, [SightedEntry(m, f)]), {})]
  {
    hide FlagsShown, Consume, MessageFlags, Excluded, Still, LabelsFor, SightedEntry, PinsStill, Idle;
    TakesSighted(b, g.service.holds, m, f);
    LabelsForFlags(b, f);
  }

  lemma MayStart(b: Box, g: Gate, u: nat, m: string, f: set<Flag>)
    requires g.running == map[] && g.listings == map[0 := InFlight(b, Collected({m}, [SightedEntry(m, f)]), {})]
    requires DistinctTargets(Toggle(u, f)) && Accepted(b.view, Toggle(u, f))
    ensures var e := Starts(0, Toggle(u, f));
            && Permitted(b, g, e, u, m) && Guarded(b, g, e, u, m)
            && var h := Next(b, g, e);
               h.running.Keys == {0} && Took(b, h, 0, m, Collected({m}, [SightedEntry(m, f)]))
  {
    hide Captured, SightedEntry;
  }

  /** The listed entry keeps the message in view. */
  lemma ListedStays(b: Box, g: Gate, u: nat, m: string, f: set<Flag>, f': set<Flag>, goal: set<Flag>, now: real,
                    tick: Tick)
    requires KindOf(b.view) == Messages && Inv(b, g, u, m, f', goal)
    requires Took(b, g, 0, m, Collected({m}, [SightedEntry(m, f)]))
    ensures u in Shown(b, Reconciled(g, 0, now, now, tick).Mail())
  {
    hide ReconcileDisk, ReconcileSnapshot, ReconcileService, PinsPlain, Shows, Commands, Holds, Ordered, NewKeys,
         Reconciling.Agrees, Reconciling.Buried, GotPlain, SightedEntry;
    var d, s, listed, e := g.disk, g.service, g.listings[0].got.entries, SightedEntry(m, f);
    assert e.key == m && listed == [e] by { SightedKey(m, f); }
    PinsDistinct(s.Pins(b));
    PlainKeys(g.listings[0].got);
    FinishService(d, s, b, listed, now, now, tick);
    Reconciling.OrderedIs(s.Pins(b), listed, now);
    assert e in listed;
    Reconciling.EntryPublished(d, s, b, listed, now, now, tick, e);
    Reconciling.ReconcileExact(d, s, b, listed, now, now, tick);
    var items := Reconciled(g, 0, now, now, tick).Mail().Items(b);
    var x := e.Build(u);
    assert x in items;
    var i :| 0 <= i < |items| && items[i] == x;
  }

  lemma SightedKey(m: string, f: set<Flag>)
    ensures SightedEntry(m, f).key == m && SightedEntry(m, f).flags == f
  {
  }

  /** The label write of ours for the message is held at this time. */
  ghost predicate HoldStands(b: Box, g: Gate, m: string, now: real) {
    Msg(b.inbox, m) in g.service.holds && !(g.service.holds[Msg(b.inbox, m)].expires < now)
  }

  /** From every state with a message in view and nothing in flight there is a run that is guarded but for its
      last event, a listing that ends although a STORE has come back since it took the message in. It takes the
      flag back that STORE has changed, while the hold stands and no command is under way. */
  lemma OvertakenListingFlaps(b: Box, g: Gate, u: nat, m: string, flags: set<Flag>)
      returns (gs: seq<Gate>, es: seq<Event>, now: real)
    requires KindOf(b.view) == Messages && Upholds(b, g, u, m, flags) && m != ""
    requires g.running == map[] && g.listings == map[]
    ensures Runs(b, gs, es, u) && gs[0] == g && |gs| == |es| + 1 && es != [] && es[|es|-1].Finishes?
    ensures forall j :: 0 <= j < |es| - 1 ==> Guarded(b, gs[j], es[j], u, m)
    ensures es[|es|-1].now == now && HoldStands(b, gs[|es|], m, now) && Idle(gs[|es|].running, u)
    ensures u in Shown(b, gs[|es|].Mail())
    ensures Shown(b, gs[|es|-1].Mail())[u] == Goal(b.view, u, flags, es)
    ensures Shown(b, gs[|es|].Mail())[u] != Goal(b.view, u, flags, es)
  {
    hide Inv, Shown, Leads, Next, Guarded, Took, Idle, Landed, Reconciled, Still, HoldStands;
    var f :| Inv(b, g, u, m, f, flags);
    now := AfterHold(g.service.holds, Msg(b.inbox, m));
    var h, hs, ds, goal := ListsAndStarts(b, g, u, m, f, flags);
    var got, f' := Collected({m}, [SightedEntry(m, f)]), f;
    h, hs, ds, f' := RunsOut(b, g, h, hs, ds, 0, now, u, m, flags, f, f, goal, 0, got);
    EndsAtGoal(b, h, u, m, f', goal);
    MayFinish(b, h, m, got, now, Tick(1, true));
    var e, k := Finishes(0, now, now, Tick(1, true)), Reconciled(h, 0, now, now, Tick(1, true));
    ListedStays(b, h, u, m, f, f', goal, now, Tick(1, true));
    ListingUndoes(b, h, u, m, f, f', goal, now, Tick(1, true));
    gs, es := hs + [k], ds + [e];
    EndsRun(b, g, h, hs, ds, k, e, u, m, flags, goal);
  }

  /** At the end of the command the flags are the wanted ones, so if they differ from before, it has landed. */
  lemma EndsAtGoal(b: Box, h: Gate, u: nat, m: string, f: set<Flag>, goal: set<Flag>)
    requires Inv(b, h, u, m, f, goal) && h.running.Keys == {0} && h.running[0].Over()
    ensures Idle(h.running, u) && f <= {Seen, Flagged} && Shown(b, h.Mail())[u] == goal
    ensures goal == WithMark(f, Name(b, u) in h.disk.marks) && u in Shown(b, h.Mail())
  {
    hide Shows, Shown, WellRunning, Writes;
    InvShows(b, h, u, m, f, goal);
    AtGoal(b.view, h.running, u, m, f, Name(b, u) in h.disk.marks, h.labels[m], goal);
    LabelFlagsOnly(h.labels[m]);
  }

  lemma ListingUndoes(b: Box, h: Gate, u: nat, m: string, f: set<Flag>, f': set<Flag>, goal: set<Flag>, now: real,
                      tick: Tick)
    requires KindOf(b.view) == Messages && Inv(b, h, u, m, f', goal) && f != f' && Landed(b, h, 0, m, now)
    requires Took(b, h, 0, m, Collected({m}, [SightedEntry(m, f)]))
    requires u in Shown(b, Reconciled(h, 0, now, now, tick).Mail())
    ensures var k := Reconciled(h, 0, now, now, tick);
            && u in Shown(b, h.Mail()) && Shown(b, k.Mail())[u] != Shown(b, h.Mail())[u]
            && HoldStands(b, k, m, now) && k.running == h.running
  {
    hide Inv, Shown, ReconcileDisk, ReconcileService, SightedEntry;
    SightedKey(m, f);
    assert SightedEntry(m, f) in h.listings[0].got.entries;
    ListingKeepsFlagsIff(b, h, 0, now, now, tick, u, m, f', goal);
    FinishService(h.disk, h.service, b, h.listings[0].got.entries, now, now, tick);
  }

  lemma MayFinish(b: Box, h: Gate, m: string, got: Collected, now: real, tick: Tick)
    requires Took(b, h, 0, m, got)
    ensures 0 in h.listings && Enabled(b, h, Finishes(0, now, now, tick))
    ensures Next(b, h, Finishes(0, now, now, tick)) == Reconciled(h, 0, now, now, tick)
  {
    hide Reconciled;
  }

  lemma EndsRun(b: Box, g: Gate, h: Gate, hs: seq<Gate>, ds: seq<Event>, k: Gate, e: Event, u: nat, m: string,
                flags: set<Flag>, goal: set<Flag>)
    requires Leads(b, g, h, hs, ds, u, m, flags, goal) && Enabled(b, h, e) && k == Next(b, h, e)
    requires u in Shown(b, k.Mail()) && e.Finishes?
    ensures Runs(b, hs + [k], ds + [e], u) && |hs + [k]| == |ds + [e]| + 1 && (hs + [k])[0] == g
    ensures (hs + [k])[|ds|] == h && Goal(b.view, u, flags, ds + [e]) == goal
    ensures forall j :: 0 <= j < |ds| ==> Guarded(b, (hs + [k])[j], (ds + [e])[j], u, m)
  {
    hide Shown, Guarded, Enabled, Next, Goal;
    RunsOn(b, h, hs, ds, e, u);
    GoalOn(b.view, u, flags, ds, e);
  }

  // ----- such states exist -----------------------------------------------------------------------------------------

  /** Every entry the reconcile works on carries upstream's labels, and no hold says otherwise. */
  ghost predicate EntriesCurrent(b: Box, g: Gate, entries: seq<Entry>) {
    forall e :: e in entries ==>
      && Plain(e) && e.id in g.labels && e.labels == g.labels[e.id]
      && Holds(g.service.holds, Msg(b.inbox, e.id), e.flags)
  }

  /** A reconcile of such entries leaves a quiet state. */
  lemma ReconcileIsQuiet(b: Box, g: Gate, t: nat, now: real, at: real, tick: Tick)
    requires KindOf(b.view) == Messages && g.disk.Valid() && g.running == map[]
    requires t in g.listings && g.listings == map[t := g.listings[t]] && g.listings[t].box == b
    requires GotPlain(g.listings[t].got) && PinsPlain(g.service.Pins(b))
    requires EntriesCurrent(b, g, Ordered(g.service.Pins(b), g.listings[t].got.entries, now))
    ensures Quiet(b, Reconciled(g, t, now, at, tick))
  {
    hide ReconcileDisk, ReconcileSnapshot, ReconcileService, Synced, Ordered, GotPlain, PinsPlain, Rooted,
         Reconciling.DistinctKeys, Reconciling.DistinctPins, Reconciling.Agrees, Reconciling.Numbered,
         Reconciling.Buried, Holds, MessageFlags;
    var d, s, got := g.disk, g.service, g.listings[t].got;
    PlainKeys(got);
    PinsDistinct(s.Pins(b));
    FinishService(d, s, b, got.entries, now, at, tick);
    ReconcileSyncs(d, s, b, got.entries, now, at, tick, Reconciled(g, t, now, at, tick).Mail());
    Reconciling.ReconcileExact(d, s, b, got.entries, now, at, tick);
    PinsStayPlain(s.Pins(b), KeySet(got.entries), now);
    forall x | x in Reconciled(g, t, now, at, tick).Mail().Items(b)
      ensures Rooted(b, Reconciled(g, t, now, at, tick), x) {
      ItemRooted(b, g, t, now, at, tick, x);
    }
  }

  lemma ItemRooted(b: Box, g: Gate, t: nat, now: real, at: real, tick: Tick, x: Item)
    requires g.disk.Valid() && t in g.listings && g.listings[t].box == b
    requires GotPlain(g.listings[t].got) && PinsPlain(g.service.Pins(b))
    requires EntriesCurrent(b, g, Ordered(g.service.Pins(b), g.listings[t].got.entries, now))
    requires x in ReconcileSnapshot(g.disk, g.service, b, g.listings[t].got.entries, now, at, tick).items
    ensures Rooted(b, Reconciled(g, t, now, at, tick), x)
  {
    hide ReconcileDisk, ReconcileSnapshot, ReconcileService, Ordered, GotPlain, PinsPlain, Holds, MessageFlags,
         Reconciling.DistinctKeys, Reconciling.DistinctPins, Reconciling.Numbered, Reconciling.Buried;
    var d, s, got := g.disk, g.service, g.listings[t].got;
    PlainKeys(got);
    PinsDistinct(s.Pins(b));
    FinishService(d, s, b, got.entries, now, at, tick);
    Reconciling.ReconcileExact(d, s, b, got.entries, now, at, tick);
    NamesOf(ReconcileSnapshot(d, s, b, got.entries, now, at, tick), x);
    var e := EntryShown(d, s, b, got.entries, now, at, tick, x);
  }

  /** The state in which the first listing of a mailbox is complete, with one message. */
  function FirstListing(b: Box): Gate {
    Gate(EMPTY, map["m" := LabelsFor({})], IDLE, map[0 := InFlight(b, Collected({"m"}, [SightedEntry("m", {})]), {})],
         map[])
  }

  /** So there are states to which the theorems apply. */
  lemma FirstListingUpholds(b: Box)
    requires KindOf(b.view) == Messages
    ensures var g := Reconciled(FirstListing(b), 0, 0.0, 0.0, Tick(1, true));
            && g.running == map[] && g.listings == map[] && UpholdsTimely(b, g, 1, "m", {})
  {
    hide Reconciled, Ordered, MessageFlags, LabelsFor, Quiet, UpholdsTimely, Shown;
    var g0 := FirstListing(b);
    var e := SightedEntry("m", {});
    LabelsForFlags(b, {});
    assert IDLE.Pins(b) == [];
    Reconciling.OrderedIs([], [e], 0.0);
    ReconcileIsQuiet(b, g0, 0, 0.0, 0.0, Tick(1, true));
    FirstShown(b);
    var g := Reconciled(g0, 0, 0.0, 0.0, Tick(1, true));
    var x :| x in g.Mail().Items(b) && x.uid == 1 && x.id == "m" && x.flags == {} && g.disk.marks == {};
    assert g.Mail().Flags(b, x) == {};
    QuietUpholds(b, g, x);
  }

  lemma FirstShown(b: Box)
    requires KindOf(b.view) == Messages
    ensures var g := Reconciled(FirstListing(b), 0, 0.0, 0.0, Tick(1, true));
            && g.disk.marks == {} && g.listings == map[] && g.running == map[]
            && exists x :: x in g.Mail().Items(b) && x.uid == 1 && x.id == "m" && x.flags == {}
  {
    hide ReconcileDisk, ReconcileSnapshot, ReconcileService, Ordered, LabelsFor;
    var e, t := SightedEntry("m", {}), Tick(1, true);
    GatewayExamples.FirstReconcile(EMPTY, b, e, t);
    FinishService(EMPTY, IDLE, b, [e], 0.0, 0.0, t);
    FirstMarks(b, e, t);
    var snap := ReconcileSnapshot(EMPTY, IDLE, b, [e], 0.0, 0.0, t);
    var i :| 0 <= i < |snap.items| && snap.items[i].uid == 1 && snap.items[i].key == e.key;
    assert IDLE.Pins(b) == [];
    var a := EntryShown(EMPTY, IDLE, b, [e], 0.0, 0.0, t, snap.items[i]);
    Reconciling.OrderedIs([], [e], 0.0);
  }

  lemma FirstMarks(b: Box, e: Entry, t: Tick)
    ensures ReconcileDisk(EMPTY, IDLE, b, [e], 0.0, t).marks == {}
  {
    hide Ordered;
    Reconciling.AssignedMarks(EMPTY, b, Ordered(IDLE.Pins(b), [e], 0.0), t);
  }

  // ----- commands that overlap -------------------------------------------------------------------------------------

  lemma {:induction false} MarksStay(st: Mail, b: Box, item: Item, current: set<Flag>, wanted: set<Flag>, k: nat,
                                     now: real)
    requires k <= |Permanent(b.view)| && (Deleted in current <==> Deleted in wanted)
    ensures FlagLoop(st, b, item, current, wanted, k, now).0.marks == st.marks
  {
    hide FlagStored, Permanent;
    if k > 0 {
      MarksStay(st, b, item, current, wanted, k - 1, now);
      var (s, it) := FlagLoop(st, b, item, current, wanted, k - 1, now);
      var flag := Permanent(b.view)[k-1];
      StoredMarks(s, b, it, flag, flag in wanted, now);
    }
  }

  lemma StoredMarks(st: Mail, b: Box, item: Item, flag: Flag, value: bool, now: real)
    ensures FlagStored(st, b, item, flag, value, now).0.marks == st.marks
  {
  }

  /** FLAGS with one flag, for one message. */
  function OneFlagOf(u: nat, flag: Flag): Command {
    Command(false, [u], Exactly, {flag}, 0.0)
  }

  /** A FLAGS command that captured the message without flags sets its flag upstream, and keeps what came in
      the meantime. */
  lemma AddsOnly(b: Box, st: Mail, r: Running, item: Item, flag: Flag)
    requires KindOf(b.view) == Messages && (flag == Seen || flag == Flagged)
    requires r.c == OneFlagOf(item.uid, flag) && r.n == 0 && r.doing.None? && r.deleted == st.Marked(b)
    requires item.uid in r.known && r.known[item.uid] == item
    requires item.flags == {} && item.uid !in st.Marked(b)
    ensures var s := ToEnd(b, st, r, 0.0);
            s.marks == st.marks && MessageFlags(s.Own(item.id)) == MessageFlags(st.Own(item.id)) + {flag}
  {
    hide ToEnd, FlagLoop, MessageFlags;
    var s := StoreOne(st, b, item, Exactly, {flag}, 0.0).0;
    TargetToEnd(b, st, r);
    AtEnd(b, s, r.c, r.(n := 1, deleted := s.Marked(b)));
    var current := st.Flags(b, item);
    assert current == {};
    var wanted := Wanted(Exactly, {flag}, PermanentSet(b.view), current);
    assert wanted == {flag};
    var n := |Permanent(b.view)|;
    MarksStay(st, b, item, current, wanted, n, 0.0);
    FlagLoopUpstream(st, b, item, current, wanted, n, 0.0, Seen);
    FlagLoopUpstream(st, b, item, current, wanted, n, 0.0, Flagged);
    assert FirstFlags(b.view, n) == PermanentSet(b.view);
    LabelFlagsOnly(s.Own(item.id));
    LabelFlagsOnly(st.Own(item.id));
  }

  /** Two FLAGS commands of two sessions on one message without flags, the second started before the first is
      over: upstream ends with both flags, which neither order of the two commands means. */
  lemma OverlapMixes(b: Box, st: Mail, item: Item)
    requires KindOf(b.view) == Messages && OneItem(st.Items(b)) && item in st.Items(b)
    requires item.flags == {} && item.uid !in st.Marked(b) && MessageFlags(st.Own(item.id)) == {}
    ensures var first, second := Captured(b, st, OneFlagOf(item.uid, Seen)),
                Captured(b, st, OneFlagOf(item.uid, Flagged));
            MessageFlags(ToEnd(b, ToEnd(b, st, first, 0.0), second, 0.0).Own(item.id)) == {Seen, Flagged}
  {
    hide ToEnd, MessageFlags;
    IndexMember(st.Items(b), item);
    AddsOnly(b, st, Captured(b, st, OneFlagOf(item.uid, Seen)), item, Seen);
    var s := ToEnd(b, st, Captured(b, st, OneFlagOf(item.uid, Seen)), 0.0);
    AddsOnly(b, s, Captured(b, st, OneFlagOf(item.uid, Flagged)), item, Flagged);
    assert {} + {Seen} + {Flagged} == {Seen, Flagged};
  }
}
