/** STORE and listings, interleaved at every `await` of both, and what each event keeps about one message. */
module StoreMessages {
  import opened Types
  import opened UidStores
  import opened Mailboxes
  import opened StoreFlags
  import opened StoreSteps
  import GatewayStore
  import Reconciling

  /** A listing in progress. `late` is history: the messages it had taken in when a label write of ours
      came back. */
  datatype InFlight = InFlight(box: Box, got: Collected, late: set<string>)

  /** The mailboxes as the server keeps them, the labels upstream holds, and what is in flight. */
  datatype Gate = Gate(disk: Disk, labels: map<string, set<string>>, service: Service,
                       listings: map<nat, InFlight>, running: map<nat, Running>)
  {
    function Mail(): Mail { StoreFlags.Mail(labels, disk.marks, service) }

    function With(st: Mail): Gate {
      this.(disk := disk.(marks := st.marks), labels := st.labels, service := st.service)
    }
  }

  /** A STORE starts or takes a step; a listing of any mailbox begins, takes in an element, fails, or is
      complete and reconciled. */
  datatype Event =
    | Starts(q: nat, c: Command)
    | Steps(q: nat, now: real)
    | Begins(t: nat, box: Box)
    | Takes(t: nat, x: Listed, now: real)
    | Fails(t: nat)
    | Finishes(t: nat, now: real, at: real, tick: Tick)

  ghost predicate Enabled(b: Box, g: Gate, e: Event) {
    match e
    case Starts(q, c) => q !in g.running && DistinctTargets(c)
    case Steps(q, _) => q in g.running && !g.running[q].Over()
    case Begins(t, _) => t !in g.listings
    case Takes(t, x, _) => t in g.listings && x.id != "" && WellFormedListed(KindOf(g.listings[t].box.view), x)
    case Fails(t) => t in g.listings
    case Finishes(t, _, _, _) => t in g.listings
  }

  /** The step that takes in upstream's answer to a label change. */
  predicate Lands(v: View, r: Running) {
    && r.doing.Some? && r.doing.value.answer.Some? && r.doing.value.k < |Permanent(v)|
    && var flag := Permanent(v)[r.doing.value.k];
       flag != Deleted && (flag in r.doing.value.current) != (flag in r.doing.value.wanted)
  }

  function Missed(b: Box, l: InFlight, id: string): InFlight {
    if l.box.inbox == b.inbox && id in l.got.seen then l.(late := l.late + {id}) else l
  }

  function Stepped(b: Box, g: Gate, q: nat, now: real): Gate
    requires q in g.running && !g.running[q].Over()
  {
    var r := g.running[q];
    var (st, next) := StoreStep(b, g.Mail(), r, now);
    g.With(st).(running := g.running[q := next],
                listings := if Lands(b.view, r)
                            then map t | t in g.listings :: Missed(b, g.listings[t], r.doing.value.item.id)
                            else g.listings)
  }

  function TakenIn(g: Gate, t: nat, x: Listed, now: real): Gate
    requires t in g.listings
  {
    var l := g.listings[t];
    var (got, holds) := Consume(l.box, l.got, g.service.holds, x, now);
    g.(listings := g.listings[t := l.(got := got)], service := g.service.(holds := holds))
  }

  function Reconciled(g: Gate, t: nat, now: real, at: real, tick: Tick): Gate
    requires t in g.listings
  {
    var c, entries := g.listings[t].box, g.listings[t].got.entries;
    g.(disk := ReconcileDisk(g.disk, g.service, c, entries, now, tick),
       service := ReconcileService(g.disk, g.service, c, entries, now, at, tick),
       listings := g.listings - {t})
  }

  ghost function Next(b: Box, g: Gate, e: Event): Gate
    requires Enabled(b, g, e)
  {
    match e
    case Starts(q, c) => if Accepted(b.view, c) then g.(running := g.running[q := Captured(b, g.Mail(), c)]) else g
    case Steps(q, now) => Stepped(b, g, q, now)
    case Begins(t, c) => g.(listings := g.listings[t := InFlight(c, Collected({}, []), {})])
    case Takes(t, x, now) => TakenIn(g, t, x, now)
    case Fails(t) => g.(listings := g.listings - {t})
    case Finishes(t, now, at, tick) => Reconciled(g, t, now, at, tick)
  }

  // ----- one message of one mailbox ------------------------------------------------------------------------

  function WithMark(f: set<Flag>, marked: bool): set<Flag> {
    if marked then f + {Deleted} else f
  }

  ghost predicate Named(x: Item, u: nat, m: string) {
    (x.uid == u <==> x.id == m) && (x.uid == u ==> x.key == m)
  }

  ghost predicate LabelsShow(x: Item, f: set<Flag>) {
    x.flags == f && MessageFlags(x.labels) == f
  }

  /** Message `m`, and no other, is shown under UID `u`, with the label flags `f`. */
  ghost predicate Shows(items: seq<Item>, u: nat, m: string, f: set<Flag>) {
    && (forall x :: x in items ==> Named(x, u, m) && (x.uid == u ==> LabelsShow(x, f)))
    && exists x :: x in items && x.uid == u
  }

  ghost predicate Holds(holds: map<Msg, Hold>, m: Msg, f: set<Flag>) {
    m in holds ==> MessageFlags(holds[m].labels) == f
  }

  /** Pins and collected entries of messages are keyed by id, with the flags of their labels. */
  ghost predicate Plain(e: Entry) {
    e.key == e.id && e.flags == MessageFlags(e.labels)
  }

  ghost predicate PinsPlain(pins: seq<Pin>) {
    Reconciling.DistinctPins(pins) && forall p :: p in pins ==> Plain(p.entry)
  }

  ghost predicate GotPlain(got: Collected) {
    && Reconciling.DistinctIds(got.entries)
    && forall e :: e in got.entries ==> Plain(e) && e.id in got.seen
  }

  /** What does not depend on the commands in flight. */
  ghost predicate Sound(b: Box, g: Gate, u: nat, m: string, f: set<Flag>) {
    && g.disk.Valid() && m in g.disk.Live(b) && g.disk.Live(b)[m] == u
    && Shows(g.Mail().Items(b), u, m, f) && Holds(g.service.holds, Msg(b.inbox, m), f)
    && PinsPlain(g.service.Pins(b))
    && (forall t :: t in g.listings && g.listings[t].box == b ==> GotPlain(g.listings[t].got))
  }

  // ----- the commands in flight ----------------------------------------------------------------------------

  /** A command in flight that is still to deal with the message, or is dealing with it. */
  predicate Writer(r: Running, u: nat) {
    !r.Over() && u in r.c.targets[r.n..]
  }

  ghost predicate WellRunning(v: View, r: Running, u: nat, m: string) {
    && DistinctTargets(r.c) && r.c.flags <= PermanentSet(v)
    && (forall w :: w in r.known ==> r.known[w].uid == w && Named(r.known[w], u, m))
    && (r.doing.Some? ==>
          && !r.Over() && r.doing.value.item.uid == r.c.targets[r.n] && Named(r.doing.value.item, u, m)
          && r.doing.value.k <= |Permanent(v)|)
  }

  /** The command has not come to the message: it captured it as it is. */
  ghost predicate Waiting(v: View, r: Running, u: nat, f: set<Flag>, marked: bool, own: set<string>, goal: set<Flag>) {
    && u in r.known && LabelsShow(r.known[u], f) && (u in r.deleted <==> marked) && MessageFlags(own) == f
    && goal == Prescribed(r.c.mode, r.c.flags, v, WithMark(f, marked))
  }

  /** The command is at the message: the first `k` flags are as wanted, the others as they were. */
  ghost predicate Writing(v: View, d: Doing, f: set<Flag>, marked: bool, own: set<string>, goal: set<Flag>) {
    && d.k <= |Permanent(v)| && LabelsShow(d.item, f) && d.wanted == goal
    && goal - PermanentSet(v) == d.current - PermanentSet(v)
    && WithMark(f, marked) == (d.current - FirstFlags(v, d.k)) + (goal * FirstFlags(v, d.k))
    && match d.answer
       case None => MessageFlags(own) == f
       case Some(labels) =>
         && labels == own && d.k < |Permanent(v)|
         && var flag := Permanent(v)[d.k];
            && (flag == Seen || flag == Flagged) && (flag in d.current) != (flag in goal)
            && MessageFlags(own) == if flag in goal then f + {flag} else f - {flag}
  }

  ghost predicate Writes(v: View, r: Running, u: nat, f: set<Flag>, marked: bool, own: set<string>, goal: set<Flag>) {
    if r.doing.Some? && r.doing.value.item.uid == u then Writing(v, r.doing.value, f, marked, own, goal)
    else Waiting(v, r, u, f, marked, own, goal)
  }

  /** `goal` is what the commands so far mean for the message. It is reached when no command is still to
      deal with the message, and then upstream has those flags. */
  ghost predicate Commands(v: View, running: map<nat, Running>, u: nat, m: string, f: set<Flag>, marked: bool,
                           own: set<string>, goal: set<Flag>) {
    && (forall q :: q in running ==> WellRunning(v, running[q], u, m))
    && (forall p, q :: p in running && q in running && Writer(running[p], u) && Writer(running[q], u) ==> p == q)
    && (forall q :: q in running && Writer(running[q], u) ==> Writes(v, running[q], u, f, marked, own, goal))
    && (Idle(running, u) ==> WithMark(f, marked) == goal && MessageFlags(own) == f)
  }

  ghost predicate Idle(running: map<nat, Running>, u: nat) {
    forall q :: q in running ==> !Writer(running[q], u)
  }

  ghost predicate Inv(b: Box, g: Gate, u: nat, m: string, f: set<Flag>, goal: set<Flag>) {
    && Sound(b, g, u, m, f) && m in g.labels
    && Commands(b.view, g.running, u, m, f, Name(b, u) in g.disk.marks, g.labels[m], goal)
  }

  // ----- a step at the message -----------------------------------------------------------------------------

  /** What a step leaves of the mail: the message's flags, and everything that is not about it. */
  ghost predicate MailShows(b: Box, st: Mail, u: nat, m: string, f: set<Flag>) {
    Shows(st.Items(b), u, m, f) && Holds(st.service.holds, Msg(b.inbox, m), f) && m in st.labels
  }

  lemma LandHere(b: Box, st: Mail, it: Item, u: nat, m: string, f: set<Flag>, now: real)
    requires Shows(st.Items(b), u, m, f) && it.uid == u && Named(it, u, m)
    ensures var s := ReplaceItem(Held(st.service, Msg(b.inbox, m), it.labels, now), b, it);
            && s.pinned == st.service.pinned && Holds(s.holds, Msg(b.inbox, m), MessageFlags(it.labels))
            && (it.flags == MessageFlags(it.labels) ==>
                  Shows(StoreFlags.Mail(st.labels, st.marks, s).Items(b), u, m, it.flags))
  {
    hide MessageFlags;
    var s := ReplaceItem(Held(st.service, Msg(b.inbox, m), it.labels, now), b, it);
    var was, items := st.Items(b), StoreFlags.Mail(st.labels, st.marks, s).Items(b);
    var x :| x in was && x.uid == u;
    var i :| 0 <= i < |was| && was[i] == x;
    assert st.service.latest[b].Uids()[i] == u;
    assert items[i] == it;
  }

  lemma MarkHere(b: Box, st: Mail, u: nat, value: bool)
    ensures Name(b, u) in MarkOne(st.marks, b, u, value) <==> value
  {
  }

  /** One more flag of the message is as wanted. */
  lemma FlagSettled(v: View, d: Doing, it: Item, f: set<Flag>, marked: bool, own: set<string>, f': set<Flag>,
                    marked': bool, own': set<string>, goal: set<Flag>)
    requires Writing(v, d, f, marked, own, goal) && d.k < |Permanent(v)|
    requires LabelsShow(it, f') && MessageFlags(own') == f'
    requires var flag, was := Permanent(v)[d.k], WithMark(f, marked);
             WithMark(f', marked') ==
               if (flag in d.current) == (flag in goal) then was
               else if flag in goal then was + {flag} else was - {flag}
    ensures Writing(v, d.(item := it, k := d.k + 1, answer := None), f', marked', own', goal)
  {
    hide MessageFlags, LabelsShow;
    FlagsAreDistinct(v, d.k + 1);
    Settled(d.current, goal, FirstFlags(v, d.k), Permanent(v)[d.k], WithMark(f, marked));
  }

  lemma OwnFlags(v: View, d: Doing, f: set<Flag>, marked: bool, own: set<string>, goal: set<Flag>)
    requires Writing(v, d, f, marked, own, goal) && d.k < |Permanent(v)|
    ensures LabelsShow(d.item, f) && d.wanted == goal && f <= {Seen, Flagged}
    ensures d.answer.None? ==> MessageFlags(own) == f
    ensures d.answer.Some? ==>
              var flag := Permanent(v)[d.k];
              && d.answer.value == own && (flag == Seen || flag == Flagged) && (flag in d.current) != (flag in goal)
              && MessageFlags(own) == if flag in goal then f + {flag} else f - {flag}
  {
    LabelFlagsOnly(d.item.labels);
  }

  lemma PermanentAre(v: View, k: nat)
    requires k < |Permanent(v)|
    ensures Permanent(v)[k] == Seen || Permanent(v)[k] == Flagged || Permanent(v)[k] == Deleted
  {
  }

  /** Upstream has the label change, and its answer is on the way. */
  lemma PatchHere(v: View, d: Doing, f: set<Flag>, marked: bool, own: set<string>, goal: set<Flag>)
    requires Writing(v, d, f, marked, own, goal) && d.k < |Permanent(v)| && d.answer.None?
    requires var flag := Permanent(v)[d.k]; flag != Deleted && (flag in d.current) != (flag in goal)
    ensures var flag := Permanent(v)[d.k];
            var answer := Patched(own, flag, flag in goal);
            Writing(v, d.(answer := Some(answer)), f, marked, answer, goal)
  {
    hide Patched, MessageFlags, Others, LabelsShow, FirstFlags, PermanentSet;
    PermanentAre(v, d.k);
    PatchedFlags(own, Permanent(v)[d.k], Permanent(v)[d.k] in goal);
  }

  /** The answer has come back: the item shows it, and upstream has had it. */
  lemma AnswerHere(v: View, d: Doing, f: set<Flag>, marked: bool, own: set<string>, goal: set<Flag>)
    requires Writing(v, d, f, marked, own, goal) && d.k < |Permanent(v)| && d.answer.Some?
    ensures var flag := Permanent(v)[d.k];
            var it := Relabelled(d.item, Outcome(own, d.item, flag, flag in goal));
            && d.answer == Some(own) && flag != Deleted && (flag in d.current) != (flag in goal)
            && it.flags == MessageFlags(it.labels) == MessageFlags(own)
            && Writing(v, d.(item := it, k := d.k + 1, answer := None), it.flags, marked, own, goal)
  {
    hide Patched, MessageFlags, Others, FirstFlags, PermanentSet, Writing;
    var flag := Permanent(v)[d.k];
    OwnFlags(v, d, f, marked, own, goal);
    PatchedFlags(d.item.labels, flag, flag in goal);
    var it := Relabelled(d.item, Outcome(own, d.item, flag, flag in goal));
    FlagSettled(v, d, it, f, marked, own, it.flags, marked, own, goal);
  }

  /** The command settles one more flag of the message, or sends or takes in one label change. */
  lemma FlagHere(b: Box, st: Mail, r: Running, d: Doing, now: real, u: nat, m: string, f: set<Flag>, goal: set<Flag>)
      returns (f': set<Flag>)
    requires r.doing == Some(d) && d.k < |Permanent(b.view)| && d.item.uid == u && Named(d.item, u, m)
    requires MailShows(b, st, u, m, f) && Writing(b.view, d, f, Name(b, u) in st.marks, st.labels[m], goal)
    ensures var (s, next) := FlagStep(b, st, r, d, now);
            && MailShows(b, s, u, m, f') && s.service.pinned == st.service.pinned
            && next == r.(deleted := next.deleted, doing := next.doing) && next.doing.Some?
            && next.doing.value.item.uid == u && Named(next.doing.value.item, u, m)
            && Writing(b.view, next.doing.value, f', Name(b, u) in s.marks, s.labels[m], goal)
            && (f' != f ==> Lands(b.view, r))
  {
    hide Patched, MessageFlags, Others, ReplaceItem, Shows, Writing, LabelsShow, Permanent, MarkOne, Holds;
    var flag, marked, own := Permanent(b.view)[d.k], Name(b, u) in st.marks, st.labels[m];
    OwnFlags(b.view, d, f, marked, own, goal);
    f' := f;
    if (flag in d.current) == (flag in goal) {
      SkipHere(b.view, d, f, marked, own, goal);
    } else if flag == Deleted {
      MarkHere(b, st, u, flag in goal);
      MarkSettles(b.view, d, f, marked, own, goal);
    } else if d.answer.None? {
      PatchHere(b.view, d, f, marked, own, goal);
    } else {
      AnswerHere(b.view, d, f, marked, own, goal);
      var it := Relabelled(d.item, Outcome(own, d.item, flag, flag in goal));
      f' := it.flags;
      LandHere(b, st, it, u, m, f, now);
    }
  }

  lemma SkipHere(v: View, d: Doing, f: set<Flag>, marked: bool, own: set<string>, goal: set<Flag>)
    requires Writing(v, d, f, marked, own, goal) && d.k < |Permanent(v)|
    requires (Permanent(v)[d.k] in d.current) == (Permanent(v)[d.k] in goal)
    ensures Writing(v, d.(k := d.k + 1), f, marked, own, goal) && d.answer.None?
  {
    hide Writing, MessageFlags, LabelsShow;
    OwnFlags(v, d, f, marked, own, goal);
    FlagSettled(v, d, d.item, f, marked, own, f, marked, own, goal);
  }

  lemma MarkSettles(v: View, d: Doing, f: set<Flag>, marked: bool, own: set<string>, goal: set<Flag>)
    requires Writing(v, d, f, marked, own, goal) && d.k < |Permanent(v)| && Permanent(v)[d.k] == Deleted
    requires (Deleted in d.current) != (Deleted in goal)
    ensures Writing(v, d.(k := d.k + 1), f, Deleted in goal, own, goal) && d.answer.None?
  {
    hide Writing, MessageFlags, LabelsShow;
    OwnFlags(v, d, f, marked, own, goal);
    FlagSettled(v, d, d.item, f, marked, own, f, Deleted in goal, own, goal);
  }

  lemma LabelFlagsOnly(labels: set<string>)
    ensures MessageFlags(labels) <= {Seen, Flagged}
  {
  }

  /** After the last flag the message has the wanted flags, here and upstream. */
  lemma EndHere(v: View, r: Running, d: Doing, u: nat, f: set<Flag>, marked: bool, own: set<string>, goal: set<Flag>)
    requires !r.Over() && r.doing == Some(d) && d.k >= |Permanent(v)| && d.item.uid == u == r.c.targets[r.n]
    requires DistinctTargets(r.c) && Writing(v, d, f, marked, own, goal)
    ensures !Writer(r.(n := r.n + 1, doing := None), u) && WithMark(f, marked) == goal && MessageFlags(own) == f
  {
    hide MessageFlags, LabelsShow;
    assert FirstFlags(v, |Permanent(v)|) == PermanentSet(v);
    assert u !in r.c.targets[r.n+1..];
  }

  // ----- a step elsewhere ------------------------------------------------------------------------------------

  /** Nothing about the message changed. */
  ghost predicate Same(b: Box, st: Mail, s: Mail, u: nat, m: string) {
    && (Name(b, u) in s.marks <==> Name(b, u) in st.marks) && s.service.pinned == st.service.pinned
    && forall f :: MailShows(b, st, u, m, f) ==> MailShows(b, s, u, m, f) && s.labels[m] == st.labels[m]
  }

  lemma LandAway(b: Box, st: Mail, it: Item, u: nat, m: string, f: set<Flag>, now: real)
    requires Shows(st.Items(b), u, m, f) && it.uid != u && Named(it, u, m)
    ensures var s := ReplaceItem(Held(st.service, Msg(b.inbox, it.id), it.labels, now), b, it);
            && s.pinned == st.service.pinned && Shows(StoreFlags.Mail(st.labels, st.marks, s).Items(b), u, m, f)
            && (Holds(st.service.holds, Msg(b.inbox, m), f) ==> Holds(s.holds, Msg(b.inbox, m), f))
  {
    hide LabelsShow, MessageFlags;
    var s := ReplaceItem(Held(st.service, Msg(b.inbox, it.id), it.labels, now), b, it);
    var was, items := st.Items(b), StoreFlags.Mail(st.labels, st.marks, s).Items(b);
    var x :| x in was && x.uid == u;
    var i :| 0 <= i < |was| && was[i] == x;
    assert items[i] == x;
    forall y | y in items ensures Named(y, u, m) && (y.uid == u ==> LabelsShow(y, f)) {
      var j :| 0 <= j < |items| && items[j] == y;
      assert was[j] in was;
    }
  }

  lemma FlagAway(b: Box, st: Mail, r: Running, d: Doing, now: real, u: nat, m: string)
    requires r.doing == Some(d) && d.k < |Permanent(b.view)| && d.item.uid != u && Named(d.item, u, m)
    ensures var (s, next) := FlagStep(b, st, r, d, now);
            && Same(b, st, s, u, m)
            && next == r.(deleted := next.deleted, doing := next.doing) && next.doing.Some?
            && next.doing.value.item.uid == d.item.uid && Named(next.doing.value.item, u, m)
            && next.doing.value.k <= |Permanent(b.view)| && (u in next.deleted <==> u in r.deleted)
  {
    hide Patched, MessageFlags, ReplaceItem, Shows, Permanent;
    var flag := Permanent(b.view)[d.k];
    var (s, next) := FlagStep(b, st, r, d, now);
    if (flag in d.current) != (flag in d.wanted) && flag != Deleted && d.answer.Some? {
      var it := Relabelled(d.item, Outcome(d.answer.value, d.item, flag, flag in d.wanted));
      PinnedAway(st, b, Msg(b.inbox, it.id), it, now);
      forall f | MailShows(b, st, u, m, f) ensures MailShows(b, s, u, m, f) {
        LandAway(b, st, it, u, m, f, now);
      }
    }
  }

  lemma PinnedAway(st: Mail, b: Box, m: Msg, it: Item, now: real)
    ensures ReplaceItem(Held(st.service, m, it.labels, now), b, it).pinned == st.service.pinned
  {
  }

  /** Targets that the snapshot does not have are passed over; the message is not one of them. */
  lemma SkipKeeps(v: View, r: Running, u: nat, m: string)
    requires !r.Over() && r.doing.None? && r.c.targets[r.n] != u && WellRunning(v, r, u, m)
    ensures var next := r.(n := r.n + 1); WellRunning(v, next, u, m) && (Writer(next, u) <==> Writer(r, u))
  {
    assert r.c.targets[r.n..] == [r.c.targets[r.n]] + r.c.targets[r.n+1..];
  }

  /** The command turns to another message, or comes to this one. */
  lemma EnterKeeps(v: View, r: Running, u: nat, m: string, f: set<Flag>, marked: bool, own: set<string>,
                   goal: set<Flag>)
    requires !r.Over() && r.doing.None? && WellRunning(v, r, u, m)
    requires Writer(r, u) ==> Writes(v, r, u, f, marked, own, goal)
    ensures WellRunning(v, Enters(v, r), u, m) && (Writer(Enters(v, r), u) <==> Writer(r, u))
    ensures Writer(r, u) ==> Writes(v, Enters(v, r), u, f, marked, own, goal)
  {
    hide MessageFlags, Wanted, Prescribed, PermanentSet, DistinctTargets, Writing;
    var w := r.c.targets[r.n];
    if w == u {
      assert u in r.c.targets[r.n..] by { assert r.c.targets[r.n..][0] == u; }
      ComesTo(v, r, u, f, marked, own, goal);
    } else if w !in r.known {
      SkipKeeps(v, r, u, m);
    }
  }

  lemma ComesTo(v: View, r: Running, u: nat, f: set<Flag>, marked: bool, own: set<string>, goal: set<Flag>)
    requires !r.Over() && r.c.targets[r.n] == u && r.c.flags <= PermanentSet(v)
    requires Waiting(v, r, u, f, marked, own, goal) && r.known[u].uid == u
    ensures Enters(v, r).doing.Some? && Writing(v, Enters(v, r).doing.value, f, marked, own, goal)
  {
    hide MessageFlags, PermanentSet, Wanted, Prescribed;
    var current := FlagsOf(r.known[u], r.deleted);
    assert FirstFlags(v, 0) == {};
    assert (current - {}) + (goal * {}) == current;
    WantedOthers(r.c.mode, r.c.flags, PermanentSet(v), current);
    WantedIsPrescribed(r.c.mode, r.c.flags, v, current);
  }

  lemma WantedOthers(mode: Mode, flags: set<Flag>, permanent: set<Flag>, current: set<Flag>)
    requires flags <= permanent
    ensures Wanted(mode, flags, permanent, current) - permanent == current - permanent
  {
  }

  /** The command leaves another message. */
  lemma EndAway(v: View, r: Running, d: Doing, u: nat, m: string)
    requires !r.Over() && r.doing == Some(d) && d.item.uid != u && WellRunning(v, r, u, m)
    ensures var next := r.(n := r.n + 1, doing := None);
            WellRunning(v, next, u, m) && (Writer(next, u) <==> Writer(r, u))
  {
    assert r.c.targets[r.n..] == [r.c.targets[r.n]] + r.c.targets[r.n+1..];
  }

  // ----- steps keep the invariant ----------------------------------------------------------------------------

  lemma OneMoves(v: View, running: map<nat, Running>, q: nat, next: Running, u: nat, m: string,
                 f: set<Flag>, marked: bool, own: set<string>, f': set<Flag>, marked': bool, own': set<string>,
                 goal: set<Flag>)
    requires Commands(v, running, u, m, f, marked, own, goal) && q in running
    requires WellRunning(v, next, u, m) && (Writer(next, u) ==> Writer(running[q], u))
    requires Writer(running[q], u) || (f' == f && marked' == marked && own' == own)
    requires Writer(next, u) ==> Writes(v, next, u, f', marked', own', goal)
    requires Writer(running[q], u) && !Writer(next, u) ==> WithMark(f', marked') == goal && MessageFlags(own') == f'
    ensures Commands(v, running[q := next], u, m, f', marked', own', goal)
  {
    hide MessageFlags, WellRunning, Writer, Writes, WithMark;
    var after := running[q := next];
    assert after[q] == next;
    assert forall p :: p in running && p != q ==> after[p] == running[p];
    forall p | p in after && Writer(after[p], u) ensures Writes(v, after[p], u, f', marked', own', goal) {
      if p != q { assert Writer(running[p], u) && !Writer(running[q], u); }
    }
    if Idle(after, u) && !Writer(running[q], u) {
      assert Idle(running, u);
    }
  }

  lemma AtMessage(v: View, r: Running, u: nat, m: string)
    requires WellRunning(v, r, u, m) && r.doing.Some? && r.doing.value.item.uid == u
    ensures Writer(r, u)
  {
    assert r.c.targets[r.n..][0] == u;
  }

  lemma FlagStays(v: View, r: Running, next: Running, u: nat, m: string)
    requires WellRunning(v, r, u, m) && r.doing.Some? && next.doing.Some?
    requires next == r.(deleted := next.deleted, doing := next.doing)
    requires next.doing.value.item.uid == r.doing.value.item.uid && Named(next.doing.value.item, u, m)
    requires next.doing.value.k <= |Permanent(v)|
    ensures WellRunning(v, next, u, m) && (Writer(next, u) <==> Writer(r, u))
  {
  }

  /** One step of one command, as far as the message is concerned. */
  lemma StoreStepKeeps(b: Box, st: Mail, running: map<nat, Running>, q: nat, now: real, u: nat, m: string,
                       f: set<Flag>, goal: set<Flag>) returns (f': set<Flag>)
    requires MailShows(b, st, u, m, f) && q in running && !running[q].Over()
    requires Commands(b.view, running, u, m, f, Name(b, u) in st.marks, st.labels[m], goal)
    ensures var (s, next) := StoreStep(b, st, running[q], now);
            && MailShows(b, s, u, m, f') && s.service.pinned == st.service.pinned
            && Commands(b.view, running[q := next], u, m, f', Name(b, u) in s.marks, s.labels[m], goal)
    ensures f' != f ==> Lands(b.view, running[q]) && running[q].doing.value.item.id == m
  {
    hide Shows, FlagStep, Enters, Commands, Holds, MessageFlags, Permanent, Writes, Writing;
    var r, own, marked := running[q], st.labels[m], Name(b, u) in st.marks;
    var (s, next) := StoreStep(b, st, r, now);
    f' := f;
    CommandsOf(b.view, running, q, u, m, f, marked, own, goal);
    if r.doing.None? {
      EnterKeeps(b.view, r, u, m, f, marked, own, goal);
    } else {
      var d := r.doing.value;
      if d.item.uid != u {
        if d.k >= |Permanent(b.view)| {
          EndAway(b.view, r, d, u, m);
          WritesAway(b.view, r, next, u, f, marked, own, goal);
        } else {
          FlagAway(b, st, r, d, now, u, m);
          FlagStays(b.view, r, next, u, m);
          WritesAway(b.view, r, next, u, f, marked, own, goal);
        }
      } else {
        AtMessage(b.view, r, u, m);
        assert Writing(b.view, d, f, marked, own, goal) by { WritesHere(b.view, r, u, f, marked, own, goal); }
        if d.k >= |Permanent(b.view)| {
          EndHere(b.view, r, d, u, f, marked, own, goal);
        } else {
          f' := FlagHere(b, st, r, d, now, u, m, f, goal);
          WritingBound(b.view, next.doing.value, f', Name(b, u) in s.marks, s.labels[m], goal);
          FlagStays(b.view, r, next, u, m);
          WritesAt(b.view, next, u, f', Name(b, u) in s.marks, s.labels[m], goal);
        }
      }
    }
    OneMoves(b.view, running, q, next, u, m, f, marked, own, f', Name(b, u) in s.marks, s.labels[m], goal);
  }

  lemma CommandsOf(v: View, running: map<nat, Running>, q: nat, u: nat, m: string, f: set<Flag>, marked: bool,
                   own: set<string>, goal: set<Flag>)
    requires Commands(v, running, u, m, f, marked, own, goal) && q in running
    ensures WellRunning(v, running[q], u, m)
    ensures Writer(running[q], u) ==> Writes(v, running[q], u, f, marked, own, goal)
  {
    hide WellRunning, Writes, Writer;
  }

  lemma WritesHere(v: View, r: Running, u: nat, f: set<Flag>, marked: bool, own: set<string>, goal: set<Flag>)
    requires Writes(v, r, u, f, marked, own, goal) && r.doing.Some? && r.doing.value.item.uid == u
    ensures Writing(v, r.doing.value, f, marked, own, goal)
  {
  }

  lemma WritesAt(v: View, r: Running, u: nat, f: set<Flag>, marked: bool, own: set<string>, goal: set<Flag>)
    requires r.doing.Some? && r.doing.value.item.uid == u && Writing(v, r.doing.value, f, marked, own, goal)
    ensures Writes(v, r, u, f, marked, own, goal)
  {
  }

  lemma WritingBound(v: View, d: Doing, f: set<Flag>, marked: bool, own: set<string>, goal: set<Flag>)
    requires Writing(v, d, f, marked, own, goal)
    ensures d.k <= |Permanent(v)|
  {
  }

  /** What a command waiting to come to the message captured does not change while it is at another. */
  lemma WritesAway(v: View, r: Running, next: Running, u: nat, f: set<Flag>, marked: bool, own: set<string>,
                   goal: set<Flag>)
    requires r.doing.Some? && r.doing.value.item.uid != u && next.c == r.c && next.known == r.known
    requires (u in next.deleted <==> u in r.deleted) && (next.doing.Some? ==> next.doing.value.item.uid != u)
    requires Writer(next, u) ==> Writes(v, r, u, f, marked, own, goal)
    ensures Writer(next, u) ==> Writes(v, next, u, f, marked, own, goal)
  {
    hide Writing;
  }

  lemma StepKeeps(b: Box, g: Gate, q: nat, now: real, u: nat, m: string, f: set<Flag>, goal: set<Flag>)
      returns (f': set<Flag>)
    requires Inv(b, g, u, m, f, goal) && q in g.running && !g.running[q].Over()
    ensures Inv(b, Stepped(b, g, q, now), u, m, f', goal)
    ensures f' != f ==> Lands(b.view, g.running[q]) && g.running[q].doing.value.item.id == m
  {
    hide Commands, StoreStep, Shows, Holds, GotPlain, PinsPlain, MessageFlags;
    f' := StoreStepKeeps(b, g.Mail(), g.running, q, now, u, m, f, goal);
    var g' := Stepped(b, g, q, now);
    assert g'.disk.boxes == g.disk.boxes;
    forall t | t in g'.listings && g'.listings[t].box == b ensures GotPlain(g'.listings[t].got) {
      assert g'.listings[t].got == g.listings[t].got;
    }
  }

  // ----- a command starts ------------------------------------------------------------------------------------

  lemma CapturedKnows(b: Box, st: Mail, c: Command, u: nat, m: string, f: set<Flag>)
    requires Shows(st.Items(b), u, m, f) && DistinctTargets(c) && c.flags <= PermanentSet(b.view)
    ensures var r := Captured(b, st, c);
            && WellRunning(b.view, r, u, m) && (Writer(r, u) <==> u in c.targets)
            && u in r.known && LabelsShow(r.known[u], f) && (u in r.deleted <==> Name(b, u) in st.marks)
  {
    hide MessageFlags, PermanentSet;
    assert c.targets[0..] == c.targets;
  }

  /** What a start means for the flags of one message. */
  function Aim(v: View, u: nat, goal: set<Flag>, c: Command): set<Flag> {
    if Accepted(v, c) && u in c.targets then Prescribed(c.mode, c.flags, v, goal) else goal
  }

  lemma OneStarts(v: View, running: map<nat, Running>, q: nat, r: Running, u: nat, m: string,
                  f: set<Flag>, marked: bool, own: set<string>, goal: set<Flag>, goal': set<Flag>)
    requires Commands(v, running, u, m, f, marked, own, goal) && q !in running && WellRunning(v, r, u, m)
    requires Writer(r, u) ==> Idle(running, u) && Writes(v, r, u, f, marked, own, goal')
    requires !Writer(r, u) ==> goal' == goal
    ensures Commands(v, running[q := r], u, m, f, marked, own, goal')
  {
    hide MessageFlags, WellRunning, Writer, Writes, WithMark;
    var after := running[q := r];
    assert after[q] == r;
    assert forall p :: p in running ==> p != q && after[p] == running[p];
    if Idle(after, u) {
      assert Idle(running, u);
    }
  }

  lemma StartKeeps(b: Box, g: Gate, q: nat, c: Command, u: nat, m: string, f: set<Flag>, goal: set<Flag>)
    requires Inv(b, g, u, m, f, goal) && Enabled(b, g, Starts(q, c)) && Accepted(b.view, c)
    requires u in c.targets ==> Idle(g.running, u)
    ensures Inv(b, Next(b, g, Starts(q, c)), u, m, f, Aim(b.view, u, goal, c))
  {
    hide MessageFlags, Prescribed, WellRunning, Writes, Writer, Shows, Holds, PinsPlain, GotPlain, LabelsShow,
         PermanentSet, Commands, Idle;
    CapturedKnows(b, g.Mail(), c, u, m, f);
    var r := Captured(b, g.Mail(), c);
    var marked, own := Name(b, u) in g.disk.marks, g.labels[m];
    if u in c.targets {
      AtGoal(b.view, g.running, u, m, f, marked, own, goal);
      WaitsFirst(b.view, r, u, f, marked, own, Aim(b.view, u, goal, c));
    }
    OneStarts(b.view, g.running, q, r, u, m, f, marked, own, goal, Aim(b.view, u, goal, c));
  }

  lemma AtGoal(v: View, running: map<nat, Running>, u: nat, m: string, f: set<Flag>, marked: bool,
               own: set<string>, goal: set<Flag>)
    requires Commands(v, running, u, m, f, marked, own, goal) && Idle(running, u)
    ensures WithMark(f, marked) == goal && MessageFlags(own) == f
  {
  }

  lemma WaitsFirst(v: View, r: Running, u: nat, f: set<Flag>, marked: bool, own: set<string>, goal: set<Flag>)
    requires r.doing.None? && Waiting(v, r, u, f, marked, own, goal)
    ensures Writes(v, r, u, f, marked, own, goal)
  {
  }

  // ----- an element is taken in --------------------------------------------------------------------------------

  lemma ConsumeHolds(c: Box, got: Collected, holds: map<Msg, Hold>, x: Listed, now: real, m: Msg, f: set<Flag>)
    requires Holds(holds, m, f)
    ensures Holds(Consume(c, got, holds, x, now).1, m, f)
  {
    hide MessageFlags, Excluded, ContentKey;
  }

  lemma ConsumePlain(b: Box, got: Collected, holds: map<Msg, Hold>, x: Listed, now: real)
    requires GotPlain(got) && KindOf(b.view) == Messages
    ensures GotPlain(Consume(b, got, holds, x, now).0)
  {
    hide MessageFlags, Excluded;
  }

  lemma TakeKeeps(b: Box, g: Gate, t: nat, x: Listed, now: real, u: nat, m: string, f: set<Flag>, goal: set<Flag>)
    requires KindOf(b.view) == Messages && Inv(b, g, u, m, f, goal) && t in g.listings
    ensures Inv(b, TakenIn(g, t, x, now), u, m, f, goal)
  {
    hide Commands, Shows, Holds, PinsPlain, GotPlain, Consume;
    var l, g' := g.listings[t], TakenIn(g, t, x, now);
    ConsumeHolds(l.box, l.got, g.service.holds, x, now, Msg(b.inbox, m), f);
    if l.box == b { ConsumePlain(b, l.got, g.service.holds, x, now); }
    forall s | s in g'.listings && g'.listings[s].box == b ensures GotPlain(g'.listings[s].got) {
      if s != t { assert g'.listings[s] == g.listings[s]; }
    }
  }

  // ----- a listing is complete ---------------------------------------------------------------------------------

  ghost predicate PinsStill(pins: seq<Pin>, listed: seq<Entry>, now: real, m: string, f: set<Flag>) {
    forall p :: p in pins && p.entry.key == m && Mailboxes.Kept(p, KeySet(listed), now) ==> p.entry.flags == f
  }

  /** The entry the listing took in, or else the pin that survives it, still has these flags. */
  ghost predicate Still(pins: seq<Pin>, listed: seq<Entry>, now: real, m: string, f: set<Flag>) {
    (forall e :: e in listed && e.key == m ==> e.flags == f) && PinsStill(pins, listed, now, m, f)
  }

  /** A message is published with the flags `f` exactly when the entry that the listing took in, however long
      ago, or the pin that survives, has them: nothing that happened since counts. */
  lemma PublishedFlagsIff(d: Disk, s: Service, b: Box, listed: seq<Entry>, now: real, at: real, t: Tick, x: Item,
                          f: set<Flag>)
    requires d.Valid() && Reconciling.DistinctKeys(listed) && Reconciling.DistinctPins(s.Pins(b))
    requires x in ReconcileSnapshot(d, s, b, listed, now, at, t).items
    ensures x.flags == f <==> Still(s.Pins(b), listed, now, x.key, f)
  {
    hide Ordered, ReconcileSnapshot, ReconcileDisk, Mailboxes.Kept;
    var e := EntryShown(d, s, b, listed, now, at, t, x);
    Reconciling.OrderedIs(s.Pins(b), listed, now);
    OneEntry(Ordered(s.Pins(b), listed, now), e);
    forall a | a in listed ensures a in Ordered(s.Pins(b), listed, now) {
    }
    forall p | p in s.Pins(b) && Mailboxes.Kept(p, KeySet(listed), now)
      ensures p.entry in Ordered(s.Pins(b), listed, now) {
      assert Reconciling.FromPin(s.Pins(b), listed, now, p.entry);
    }
  }

  lemma OneEntry(entries: seq<Entry>, e: Entry)
    requires Reconciling.DistinctKeys(entries) && e in entries
    ensures forall a :: a in entries && a.key == e.key ==> a == e
  {
  }

  /** Every item of a snapshot comes from one entry, under its key's live UID. */
  lemma EntryShown(d: Disk, s: Service, b: Box, listed: seq<Entry>, now: real, at: real, t: Tick, x: Item)
      returns (e: Entry)
    requires d.Valid() && Reconciling.DistinctKeys(listed) && Reconciling.DistinctPins(s.Pins(b))
    requires x in ReconcileSnapshot(d, s, b, listed, now, at, t).items
    ensures e in Ordered(s.Pins(b), listed, now) && x == e.Build(x.uid)
  {
    hide Ordered, EnsureUids, SortItems, Built;
    var all := Ordered(s.Pins(b), listed, now);
    var live := EnsureUids(d, b, Keys(all), t).boxes[b].live;
    Reconciling.OrderedSound(s.Pins(b), listed, now);
    AllKeysLive(d, b, all, t);
    LiveIsInjective(d, b, all, t);
    Reconciling.ItemsAre(all, live);
    e :| e in all && x == e.Build(live[e.key]);
  }

  lemma PlainKeys(got: Collected)
    requires GotPlain(got)
    ensures Reconciling.DistinctKeys(got.entries)
  {
    forall i, j | 0 <= i < |got.entries| && 0 <= j < |got.entries| && i != j
      ensures got.entries[i].key != got.entries[j].key {
      assert Plain(got.entries[i]) && Plain(got.entries[j]);
    }
  }

  /** A UID that is live before and after a reconcile has the same key and the same mark. */
  lemma SameRow(d: Disk, s: Service, b: Box, entries: seq<Entry>, now: real, at: real, t: Tick, k: string, l: string)
    requires d.Valid() && Reconciling.DistinctKeys(entries) && Reconciling.DistinctPins(s.Pins(b))
    requires var d' := ReconcileDisk(d, s, b, entries, now, t);
             k in d.Live(b) && l in d'.Live(b) && d.Live(b)[k] == d'.Live(b)[l]
    ensures k == l
    ensures Name(b, d.Live(b)[k]) in ReconcileDisk(d, s, b, entries, now, t).marks <==> Name(b, d.Live(b)[k]) in d.marks
  {
    hide ReconcileDisk, Ordered, Reconciling.DistinctKeys, Reconciling.DistinctPins, Reconciling.Agrees, NewKeys,
         Reconciling.OthersKept;
    GatewayStore.ReconcileGrows(d, s, b, entries, now, t);
    Reconciling.ReconcileExact(d, s, b, entries, now, at, t);
  }

  /** A message that stays in view keeps its row and its mark. */
  lemma RowStays(d: Disk, s: Service, b: Box, entries: seq<Entry>, now: real, at: real, t: Tick, u: nat, m: string,
                 y: Item)
    requires d.Valid() && Reconciling.DistinctKeys(entries) && Reconciling.DistinctPins(s.Pins(b))
    requires m in d.Live(b) && d.Live(b)[m] == u
    requires y in ReconcileSnapshot(d, s, b, entries, now, at, t).items && y.uid == u
    ensures var d' := ReconcileDisk(d, s, b, entries, now, t);
            && d'.Valid() && m in d'.Live(b) && d'.Live(b)[m] == u
            && (Name(b, u) in d'.marks <==> Name(b, u) in d.marks)
    ensures forall x :: x in ReconcileSnapshot(d, s, b, entries, now, at, t).items ==> (x.uid == u <==> x.key == m)
  {
    hide ReconcileDisk, ReconcileSnapshot, Ordered, Reconciling.DistinctKeys, Reconciling.DistinctPins, NewKeys,
         Reconciling.OthersKept, Reconciling.Buried, Reconciling.Numbered;
    var snap, d' := ReconcileSnapshot(d, s, b, entries, now, at, t), ReconcileDisk(d, s, b, entries, now, t);
    Reconciling.ReconcileExact(d, s, b, entries, now, at, t);
    NamesOf(snap, y);
    SameRow(d, s, b, entries, now, at, t, m, y.key);
    forall x | x in snap.items ensures x.uid == u <==> x.key == m {
      NamesOf(snap, x);
      if x.uid == u { SameRow(d, s, b, entries, now, at, t, m, x.key); }
    }
  }

  lemma NamesOf(snap: Snapshot, x: Item)
    requires x in snap.items
    ensures snap.Names(x.uid, x.key)
  {
    var i :| 0 <= i < |snap.items| && snap.items[i] == x;
  }

  lemma OrderedPlain(pins: seq<Pin>, got: Collected, now: real)
    requires GotPlain(got) && PinsPlain(pins)
    ensures forall e :: e in Ordered(pins, got.entries, now) ==> Plain(e)
  {
    hide Ordered, Plain, Mailboxes.Kept, Reconciling.DistinctPins, Reconciling.DistinctIds;
    Reconciling.OrderedIs(pins, got.entries, now);
  }

  lemma ItemShows(d: Disk, s: Service, b: Box, got: Collected, now: real, at: real, t: Tick, u: nat, m: string,
                  x: Item, f: set<Flag>)
    requires d.Valid() && GotPlain(got) && PinsPlain(s.Pins(b)) && Still(s.Pins(b), got.entries, now, m, f)
    requires x in ReconcileSnapshot(d, s, b, got.entries, now, at, t).items && (x.uid == u <==> x.key == m)
    ensures Named(x, u, m) && (x.uid == u ==> LabelsShow(x, f))
  {
    hide ReconcileSnapshot, Ordered, Still, MessageFlags, GotPlain, PinsPlain, Reconciling.DistinctKeys,
         Reconciling.DistinctPins;
    PlainKeys(got);
    PinsDistinct(s.Pins(b));
    var e := EntryShown(d, s, b, got.entries, now, at, t, x);
    OrderedPlain(s.Pins(b), got, now);
    PublishedFlagsIff(d, s, b, got.entries, now, at, t, x, f);
  }

  /** The published items are plain again, and the message has the flags `f`. */
  lemma FinishShows(d: Disk, s: Service, b: Box, got: Collected, now: real, at: real, t: Tick, u: nat, m: string,
                    y: Item, f: set<Flag>)
    requires d.Valid() && GotPlain(got) && PinsPlain(s.Pins(b)) && m in d.Live(b) && d.Live(b)[m] == u
    requires y in ReconcileSnapshot(d, s, b, got.entries, now, at, t).items && y.uid == u
    requires Still(s.Pins(b), got.entries, now, m, f)
    ensures Shows(ReconcileSnapshot(d, s, b, got.entries, now, at, t).items, u, m, f)
  {
    hide ReconcileDisk, ReconcileSnapshot, Still, GotPlain, PinsPlain, Named, LabelsShow, Reconciling.DistinctKeys,
         Reconciling.DistinctPins;
    PlainKeys(got);
    PinsDistinct(s.Pins(b));
    RowStays(d, s, b, got.entries, now, at, t, u, m, y);
    forall x | x in ReconcileSnapshot(d, s, b, got.entries, now, at, t).items
      ensures Named(x, u, m) && (x.uid == u ==> LabelsShow(x, f)) {
      ItemShows(d, s, b, got, now, at, t, u, m, x, f);
    }
  }

  lemma FinishService(d: Disk, s: Service, b: Box, listed: seq<Entry>, now: real, at: real, t: Tick)
    ensures var r := ReconcileService(d, s, b, listed, now, at, t);
            && r.holds == s.holds && r.Pins(b) == KeptPins(s.Pins(b), KeySet(listed), now)
            && b in r.latest && r.latest[b] == ReconcileSnapshot(d, s, b, listed, now, at, t)
            && forall c :: c != b ==> r.Pins(c) == s.Pins(c) && (c in r.latest <==> c in s.latest)
                                      && (c in s.latest ==> r.latest[c] == s.latest[c])
  {
    hide ReconcileSnapshot, KeptPins;
    SnapshotBox(d, s, b, listed, now, at, t);
  }

  lemma SnapshotBox(d: Disk, s: Service, b: Box, listed: seq<Entry>, now: real, at: real, t: Tick)
    ensures ReconcileSnapshot(d, s, b, listed, now, at, t).box == b
  {
    hide Ordered, EnsureUids, SortItems, Built;
  }

  lemma PinsStayPlain(pins: seq<Pin>, listed: set<string>, now: real)
    requires PinsPlain(pins)
    ensures PinsPlain(KeptPins(pins, listed, now))
  {
    hide Plain, Mailboxes.Kept, Reconciling.DistinctPins;
    Reconciling.KeptAre(pins, listed, now);
  }

  lemma FinishHere(b: Box, g: Gate, t: nat, now: real, at: real, tick: Tick, u: nat, m: string, f: set<Flag>,
                   goal: set<Flag>)
    requires KindOf(b.view) == Messages && Inv(b, g, u, m, f, goal) && t in g.listings && g.listings[t].box == b
    requires Still(g.service.Pins(b), g.listings[t].got.entries, now, m, f)
    requires u in Shown(b, Reconciled(g, t, now, at, tick).Mail())
    ensures Inv(b, Reconciled(g, t, now, at, tick), u, m, f, goal)
  {
    hide ReconcileDisk, ReconcileSnapshot, ReconcileService, Still, Shows, Holds, PinsPlain, GotPlain, Commands,
         Reconciling.DistinctKeys, FlagsOf;
    var d, s, got := g.disk, g.service, g.listings[t].got;
    FinishService(d, s, b, got.entries, now, at, tick);
    var g' := Reconciled(g, t, now, at, tick);
    assert g'.Mail().Items(b) == ReconcileSnapshot(d, s, b, got.entries, now, at, tick).items;
    var y := IndexByUid(g'.Mail().Items(b))[u];
    PlainKeys(got);
    PinsDistinct(s.Pins(b));
    RowStays(d, s, b, got.entries, now, at, tick, u, m, y);
    FinishShows(d, s, b, got, now, at, tick, u, m, y, f);
    PinsStayPlain(s.Pins(b), KeySet(got.entries), now);
  }

  lemma PinsDistinct(pins: seq<Pin>)
    requires PinsPlain(pins)
    ensures Reconciling.DistinctPins(pins)
  {
  }

  /** A reconcile of another mailbox does not touch this one. */
  lemma FinishElsewhere(b: Box, g: Gate, t: nat, now: real, at: real, tick: Tick, u: nat, m: string, f: set<Flag>,
                        goal: set<Flag>)
    requires Inv(b, g, u, m, f, goal) && t in g.listings && g.listings[t].box != b
    ensures Inv(b, Reconciled(g, t, now, at, tick), u, m, f, goal)
  {
    hide ReconcileDisk, ReconcileSnapshot, ReconcileService, Shows, Holds, PinsPlain, GotPlain, Commands;
    FinishService(g.disk, g.service, g.listings[t].box, g.listings[t].got.entries, now, at, tick);
    TablesElsewhere(g.disk, g.service, g.listings[t].box, g.listings[t].got.entries, now, tick, b, u);
  }

  lemma TablesElsewhere(d: Disk, s: Service, c: Box, listed: seq<Entry>, now: real, t: Tick, b: Box, u: nat)
    requires d.Valid() && b != c
    ensures var d' := ReconcileDisk(d, s, c, listed, now, t);
            d'.Valid() && d'.Live(b) == d.Live(b) && (Name(b, u) in d'.marks <==> Name(b, u) in d.marks)
  {
    hide Ordered, Assigned;
    var entries := Ordered(s.Pins(c), listed, now);
    Reconciling.AssignedFrame(d, c, entries, t);
    Reconciling.AssignedValid(d, c, entries, t);
    Reconciling.AssignedMarks(d, c, entries, t);
  }
}
