/** STORE: changing flags through upstream labels and persisted `\Deleted` marks. */
module StoreFlags {
  import opened Types
  import opened UidStores
  import opened Mailboxes
  import Reconciling

  datatype Mode = Exactly | Adding | Removing

  /** The set the command loop brings the flags of one message to. */
  function Wanted(mode: Mode, flags: set<Flag>, permanent: set<Flag>, current: set<Flag>): set<Flag> {
    match mode
    case Exactly => (current - permanent) + flags
    case Adding => current + flags
    case Removing => current - flags
  }

  /** The flags a client may change in a view: `\Seen` and `\Flagged` of messages, and `\Deleted` where items can
      be removed. */
  predicate Changeable(v: View, f: Flag) {
    match f
    case Seen => v != DraftsView
    case Flagged => v != DraftsView
    case Deleted => v == InboxView || v == SentView || v == DraftsView
    case _ => false
  }

  lemma PermanentIs(v: View)
    ensures forall f :: f in PermanentSet(v) <==> Changeable(v, f)
    ensures forall f :: f in Permanent(v) <==> Changeable(v, f)
  {
  }

  /** Section 6.4.6 of RFC 3501, flag by flag: FLAGS sets the flags of the command and clears the others as far as
      they can be changed, +FLAGS sets, and -FLAGS clears the flags of the command. */
  predicate Prescribes(mode: Mode, flags: set<Flag>, v: View, before: set<Flag>, f: Flag) {
    match mode
    case Exactly => f in flags || (f in before && !Changeable(v, f))
    case Adding => f in flags || f in before
    case Removing => f in before && f !in flags
  }

  function Prescribed(mode: Mode, flags: set<Flag>, v: View, before: set<Flag>): (after: set<Flag>) {
    set f: Flag | Prescribes(mode, flags, v, before, f)
  }

  /** What the command loop aims at is what the RFC prescribes. */
  lemma WantedIsPrescribed(mode: Mode, flags: set<Flag>, v: View, before: set<Flag>)
    ensures Wanted(mode, flags, PermanentSet(v), before) == Prescribed(mode, flags, v, before)
  {
    PermanentIs(v);
  }

  /** The labels to add and to remove when a flag is set; reversed when it is cleared. */
  function FlagLabels(flag: Flag): (set<string>, set<string>) {
    if flag == Seen then ({"read"}, {"unread"}) else if flag == Flagged then ({"starred"}, {}) else ({}, {})
  }

  function Patched(labels: set<string>, flag: Flag, value: bool): set<string> {
    var (add, remove) := FlagLabels(flag);
    if value then (labels + add) - remove else (labels + remove) - add
  }

  /** What STORE works on: every message's upstream labels, the marks, and the service. */
  datatype Mail = Mail(labels: map<string, set<string>>, marks: set<Name>, service: Service)
  {
    function Own(id: string): set<string> { if id in labels then labels[id] else {} }
    function Marked(b: Box): set<nat> { MarkedIn(marks, b) }
    function Items(b: Box): seq<Item> { if b in service.latest then service.latest[b].items else [] }
    function Flags(b: Box, item: Item): set<Flag> { FlagsOf(item, Marked(b)) }
  }

  function Held(s: Service, m: Msg, labels: set<string>, now: real): Service {
    s.(holds := HoldLabels(s.holds, m, labels, now))
  }

  /** The labels taken as the outcome: PATCH's answer, or our own guess when it lists none. */
  function Outcome(answer: set<string>, item: Item, flag: Flag, value: bool): set<string> {
    if answer == {} then Patched(item.labels, flag, value) else answer
  }

  function Relabelled(item: Item, labels: set<string>): Item {
    item.(flags := MessageFlags(labels), labels := labels)
  }

  function FlagStored(st: Mail, b: Box, item: Item, flag: Flag, value: bool, now: real): (Mail, Item) {
    var answer := Patched(st.Own(item.id), flag, value);
    var updated := Relabelled(item, Outcome(answer, item, flag, value));
    (Mail(st.labels[item.id := answer], st.marks,
          ReplaceItem(Held(st.service, Msg(b.inbox, item.id), updated.labels, now), b, updated)), updated)
  }

  function MarkOne(marks: set<Name>, b: Box, uid: nat, value: bool): set<Name> {
    if value then marks + {Name(b, uid)} else marks - {Name(b, uid)}
  }

  function OneFlag(st: Mail, b: Box, item: Item, flag: Flag, before: bool, after: bool, now: real): (Mail, Item) {
    if before == after then (st, item)
    else if flag == Deleted then (st.(marks := MarkOne(st.marks, b, item.uid, after)), item)
    else FlagStored(st, b, item, flag, after, now)
  }

  /** The flag loop, over the first `k` permanent flags. */
  function FlagLoop(st: Mail, b: Box, item: Item, current: set<Flag>, wanted: set<Flag>, k: nat, now: real)
    : (Mail, Item)
    requires k <= |Permanent(b.view)|
  {
    if k == 0 then (st, item)
    else
      var (s, it) := FlagLoop(st, b, item, current, wanted, k - 1, now);
      var flag := Permanent(b.view)[k-1];
      OneFlag(s, b, it, flag, flag in current, flag in wanted, now)
  }

  function PermanentSet(v: View): set<Flag> { set f | f in Permanent(v) }

  function StoreOne(st: Mail, b: Box, item: Item, mode: Mode, flags: set<Flag>, now: real): (Mail, Item) {
    var current := st.Flags(b, item);
    FlagLoop(st, b, item, current, Wanted(mode, flags, PermanentSet(b.view), current), |Permanent(b.view)|, now)
  }

  /** An untagged FETCH reporting the flags of one message. */
  datatype Report = Report(uid: nat, flags: set<Flag>)

  datatype Stored = Stored(mail: Mail, reports: seq<Report>)

  datatype Command = Command(readOnly: bool, targets: seq<nat>, mode: Mode, flags: set<Flag>, now: real)

  /** The targets in order; UIDs the snapshot no longer has are skipped. */
  function StoreTargets(st: Mail, b: Box, known: map<nat, Item>, c: Command, n: nat): Stored
    requires n <= |c.targets|
  {
    if n == 0 then Stored(st, [])
    else
      var done := StoreTargets(st, b, known, c, n - 1);
      var u := c.targets[n-1];
      if u !in known then done
      else
        var (s, it) := StoreOne(done.mail, b, known[u], c.mode, c.flags, c.now);
        Stored(s, done.reports + [Report(u, s.Flags(b, it))])
  }

  datatype Refusal = ReadOnly | CannotChange

  /** The whole command. */
  function Store(st: Mail, b: Box, c: Command): Result<Stored, Refusal> {
    if c.readOnly then Err(ReadOnly)
    else if !(c.flags <= PermanentSet(b.view)) then Err(CannotChange)
    else Ok(StoreTargets(st, b, IndexByUid(st.Items(b)), c, |c.targets|))
  }

  // ----- the command as it runs ----------------------------------------------------------------------

  /** Upstream's label endpoint, applying changes exactly. */
  class Upstream {
    var labels: map<string, set<string>>

    constructor (labels: map<string, set<string>>)
      ensures this.labels == labels
    {
      this.labels := labels;
    }

    method Patch(id: string, add: set<string>, remove: set<string>) returns (answer: set<string>)
      modifies this
      ensures answer == ((if id in old(labels) then old(labels[id]) else {}) + add) - remove
      ensures labels == old(labels)[id := answer]
    {
      answer := ((if id in labels then labels[id] else {}) + add) - remove;
      labels := labels[id := answer];
    }
  }

  class StoreCommand {
    const upstream: Upstream
    const service: MailboxService

    constructor (upstream: Upstream, service: MailboxService)
      ensures this.upstream == upstream && this.service == service
    {
      this.upstream, this.service := upstream, service;
    }

    ghost function Now(): Mail
      reads upstream, service, service.store
    {
      Mail(upstream.labels, service.store.marks, service.State())
    }

    method SetFlag(b: Box, item: Item, flag: Flag, value: bool, now: real) returns (updated: Item)
      modifies upstream, service
      ensures (Now(), updated) == FlagStored(old(Now()), b, item, flag, value, now)
    {
      var (add, remove) := FlagLabels(flag);
      if !value {
        add, remove := remove, add;
      }
      var labels := upstream.Patch(item.id, add, remove);
      if labels == {} {
        labels := (item.labels + add) - remove;
      }
      service.HoldFor(Msg(b.inbox, item.id), labels, now);
      updated := Relabelled(item, labels);
      service.Replace(b, updated);
    }

    method StoreMessage(b: Box, item: Item, c: Command, deleted: set<nat>) returns (final: Item, deleted': set<nat>)
      requires deleted == Now().Marked(b)
      modifies upstream, service, service.store
      ensures (Now(), final) == StoreOne(old(Now()), b, item, c.mode, c.flags, c.now)
      ensures deleted' == Now().Marked(b)
    {
      final, deleted' := item, deleted;
      var current := FlagsOf(item, deleted);
      var permanent := Permanent(b.view);
      var wanted := Wanted(c.mode, c.flags, PermanentSet(b.view), current);
      for k := 0 to |permanent|
        invariant (Now(), final) == FlagLoop(old(Now()), b, item, current, wanted, k, c.now)
        invariant deleted' == Now().Marked(b)
      {
        var flag := permanent[k];
        var before, after := flag in current, flag in wanted;
        if before != after {
          if flag == Deleted {
            ghost var was := Now();
            service.store.Mark(b, [final.uid], after);
            MarkIsOne(was.marks, b, final.uid, after);
            assert service.store.Tables().marks == MarkOne(was.marks, b, final.uid, after);
            assert Now() == was.(marks := MarkOne(was.marks, b, final.uid, after));
            deleted' := if after then deleted' + {final.uid} else deleted' - {final.uid};
          } else {
            final := SetFlag(b, final, flag, after, c.now);
          }
        }
      }
    }

    method Run(b: Box, c: Command) returns (r: Result<seq<Report>, Refusal>)
      modifies upstream, service, service.store
      ensures match Store(old(Now()), b, c)
              case Err(e) => r == Err(e) && Now() == old(Now())
              case Ok(done) => r == Ok(done.reports) && Now() == done.mail
    {
      hide StoreOne, IndexByUid, FlagsOf, PermanentSet;
      if c.readOnly {
        return Err(ReadOnly);
      }
      if !(c.flags <= PermanentSet(b.view)) {
        return Err(CannotChange);
      }
      var known := IndexByUid(if b in service.latest then service.latest[b].items else []);
      var deleted := MarkedIn(service.store.marks, b);
      var reports: seq<Report> := [];
      for i := 0 to |c.targets|
        invariant deleted == Now().Marked(b)
        invariant Stored(Now(), reports) == StoreTargets(old(Now()), b, known, c, i)
      {
        var u := c.targets[i];
        if u in known {
          var final;
          final, deleted := StoreMessage(b, known[u], c, deleted);
          reports := reports + [Report(u, FlagsOf(final, deleted))];
        }
      }
      r := Ok(reports);
    }
  }

  lemma MarkIsOne(marks: set<Name>, b: Box, uid: nat, value: bool)
    ensures var names := set u | u in (set v | v in [uid]) :: Name(b, u);
            MarkOne(marks, b, uid, value) == if value then marks + names else marks - names
  {
    assert (set u | u in (set v | v in [uid]) :: Name(b, u)) == {Name(b, uid)} by { assert uid in [uid]; }
  }

  // ----- one flag ------------------------------------------------------------------------------------

  /** The snapshot is what upstream holds: labels as upstream has them, and flags as the labels say. */
  ghost predicate Synced(b: Box, st: Mail) {
    && b in st.service.latest
    && (var items := st.Items(b);
        && (forall i, j :: 0 <= i < j < |items| ==> items[i].uid != items[j].uid && items[i].id != items[j].id)
        && (forall i :: 0 <= i < |items| ==> InStep(b, st.labels, items[i])))
  }

  ghost predicate InStep(b: Box, labels: map<string, set<string>>, item: Item) {
    if KindOf(b.view) == Drafts then item.flags == DRAFT_FLAGS
    else item.id in labels && item.labels == labels[item.id] && item.flags == MessageFlags(item.labels)
  }

  /** A reconcile whose entries carry upstream's labels leaves such a snapshot. */
  lemma ReconcileSyncs(d: Disk, s: Service, b: Box, listed: seq<Entry>, now: real, at: real, t: Tick, st: Mail)
    requires d.Valid() && KindOf(b.view) == Messages
    requires Reconciling.DistinctKeys(listed) && Reconciling.DistinctPins(s.Pins(b))
    requires forall e :: e in Ordered(s.Pins(b), listed, now) ==>
                           e.key == e.id && e.id in st.labels && e.labels == st.labels[e.id]
                               && e.flags == MessageFlags(e.labels)
    requires st.service == ReconcileService(d, s, b, listed, now, at, t)
    ensures Synced(b, st)
  {
    var entries := Ordered(s.Pins(b), listed, now);
    Reconciling.OrderedSound(s.Pins(b), listed, now);
    AllKeysLive(d, b, entries, t);
    LiveIsInjective(d, b, entries, t);
    ReconcileShows(d, s, b, listed, now, at, t);
    hide Ordered, SortItems, Built, EnsureUids, MessageFlags, ReconcileService, Synced;
    ItemsSynced(b, entries, EnsureUids(d, b, Keys(entries), t).boxes[b].live, st);
  }

  lemma ReconcileShows(d: Disk, s: Service, b: Box, listed: seq<Entry>, now: real, at: real, t: Tick)
    ensures var entries := Ordered(s.Pins(b), listed, now);
            var e, r := EnsureUids(d, b, Keys(entries), t), ReconcileService(d, s, b, listed, now, at, t);
            && (forall i :: 0 <= i < |entries| ==> entries[i].key in e.boxes[b].live)
            && b in r.latest && r.latest[b].items == SortItems(Built(entries, e.boxes[b].live))
  {
    hide Ordered, SortItems, Built, EnsureUids, KeptPins;
    AllKeysLive(d, b, Ordered(s.Pins(b), listed, now), t);
  }

  lemma ItemsSynced(b: Box, entries: seq<Entry>, live: map<string, nat>, st: Mail)
    requires KindOf(b.view) == Messages && Reconciling.DistinctKeys(entries)
    requires forall i :: 0 <= i < |entries| ==> entries[i].key in live
    requires forall k, l :: k in live && l in live && live[k] == live[l] ==> k == l
    requires forall e :: e in entries ==>
                           e.key == e.id && e.id in st.labels && e.labels == st.labels[e.id]
                               && e.flags == MessageFlags(e.labels)
    requires b in st.service.latest && st.Items(b) == SortItems(Built(entries, live))
    ensures Synced(b, st)
  {
    Reconciling.ItemsAre(entries, live);
    hide SortItems, Built, MessageFlags, Reconciling.DistinctKeys;
    var items := st.Items(b);
    forall i | 0 <= i < |items|
      ensures items[i].id in live && live[items[i].id] == items[i].uid && InStep(b, st.labels, items[i]) {
      assert items[i] in items;
      var e :| e in entries && items[i] == e.Build(live[e.key]);
      var k :| 0 <= k < |entries| && entries[k] == e;
    }
  }

  lemma LiveIsInjective(d: Disk, b: Box, entries: seq<Entry>, t: Tick)
    requires d.Valid()
    ensures var live := EnsureUids(d, b, Keys(entries), t).boxes[b].live;
            forall k, l :: k in live && l in live && live[k] == live[l] ==> k == l
  {
    assert EnsureUids(d, b, Keys(entries), t).boxes[b].Valid();
  }

  /** The labels no STORE touches. */
  function Others(labels: set<string>): set<string> { labels - {"read", "unread", "starred"} }

  /** Setting or clearing a flag through labels sets or clears that flag and no other, and changes no
      other label. */
  lemma PatchedFlags(labels: set<string>, flag: Flag, value: bool)
    requires flag == Seen || flag == Flagged
    ensures MessageFlags(Patched(labels, flag, value)) == if value then MessageFlags(labels) + {flag}
            else MessageFlags(labels) - {flag}
    ensures Others(Patched(labels, flag, value)) == Others(labels)
    ensures var after := Patched(labels, flag, value);
            if flag == Seen then
              ("read" in after <==> value) && ("unread" in after <==> !value)
              && ("starred" in after <==> "starred" in labels)
            else
              ("starred" in after <==> value)
              && ("read" in after <==> "read" in labels) && ("unread" in after <==> "unread" in labels)
  {
  }

  // ----- a stale snapshot ------------------------------------------------------------------------------

  /** One step of the flag loop changes no flag upstream but its own. */
  lemma OneFlagUpstream(st: Mail, b: Box, item: Item, flag: Flag, before: bool, after: bool, now: real, f: Flag)
    requires (f == Seen || f == Flagged) && flag in Permanent(b.view)
    ensures var (s, it) := OneFlag(st, b, item, flag, before, after, now);
            && it.id == item.id
            && (f in MessageFlags(s.Own(item.id)) <==>
                if f == flag && before != after then after else f in MessageFlags(st.Own(item.id)))
  {
    hide Patched, MessageFlags, ReplaceItem, Others;
    if flag == Seen || flag == Flagged {
      PatchedFlags(st.Own(item.id), flag, after);
    }
  }

  /** Upstream's flag after the first `k` rounds of the loop, whatever upstream had before. */
  lemma {:induction false} FlagLoopUpstream(st: Mail, b: Box, item: Item, current: set<Flag>, wanted: set<Flag>,
                                            k: nat, now: real, f: Flag)
    requires k <= |Permanent(b.view)| && (f == Seen || f == Flagged)
    ensures var (s, it) := FlagLoop(st, b, item, current, wanted, k, now);
            && it.id == item.id
            && (f in MessageFlags(s.Own(item.id)) <==>
                if f in FirstFlags(b.view, k) && (f in current) != (f in wanted) then f in wanted
                else f in MessageFlags(st.Own(item.id)))
  {
    hide OneFlag, MessageFlags, Permanent;
    if k > 0 {
      FlagLoopUpstream(st, b, item, current, wanted, k - 1, now, f);
      FlagsAreDistinct(b.view, k);
      var (s, it) := FlagLoop(st, b, item, current, wanted, k - 1, now);
      var flag := Permanent(b.view)[k-1];
      OneFlagUpstream(s, b, it, flag, flag in current, flag in wanted, now, f);
    }
  }

  /** Without a snapshot in step: STORE decides by the flags the snapshot shows, so after the command upstream
      has a flag as wanted exactly when the snapshot shows it otherwise or upstream had it so already. */
  lemma StaleStoreIff(st: Mail, b: Box, item: Item, mode: Mode, flags: set<Flag>, now: real, f: Flag)
    requires (f == Seen || f == Flagged) && f in Permanent(b.view)
    ensures var current := st.Flags(b, item);
            var wanted := Prescribed(mode, flags, b.view, current);
            var s := StoreOne(st, b, item, mode, flags, now).0;
            (f in MessageFlags(s.Own(item.id)) <==> f in wanted) <==>
            ((f in current) != (f in wanted) || (f in MessageFlags(st.Own(item.id)) <==> f in wanted))
  {
    hide FlagLoop, MessageFlags, Wanted, Prescribed, FlagsOf;
    var current := st.Flags(b, item);
    var wanted := Wanted(mode, flags, PermanentSet(b.view), current);
    WantedIsPrescribed(mode, flags, b.view, current);
    FlagLoopUpstream(st, b, item, current, wanted, |Permanent(b.view)|, now, f);
    assert f in FirstFlags(b.view, |Permanent(b.view)|);
  }

  /** The snapshot shows a message as seen that upstream has as unread: +FLAGS (\Seen) is answered with OK
      and reports \Seen, and upstream's labels stay as they are. */
  lemma StaleStoreSkips(b: Box)
    requires b.view == InboxView
    ensures var item := Item(1, "m", "m", {Seen}, 0, {}, Envelope(None, "", [], ""));
            var st := Mail(map["m" := {"unread"}], {}, IDLE.(latest := map[b := Snapshot(b, 1, 2, [item], 1, 0.0)]));
            && Store(st, b, Command(false, [1], Adding, {Seen}, 0.0)) == Ok(Stored(st, [Report(1, {Seen})]))
            && Seen !in MessageFlags(st.Own("m"))
  {
    var item := Item(1, "m", "m", {Seen}, 0, {}, Envelope(None, "", [], ""));
    var st := Mail(map["m" := {"unread"}], {}, IDLE.(latest := map[b := Snapshot(b, 1, 2, [item], 1, 0.0)]));
    var c := Command(false, [1], Adding, {Seen}, 0.0);
    assert [item][..0] == [] && IndexByUid([item]) == map[1 := item];
    assert st.Flags(b, item) == {Seen};
    assert Wanted(Adding, {Seen}, PermanentSet(b.view), {Seen}) == {Seen};
    SameFlags(st, b, item, {Seen}, 3, 0.0);
    assert StoreOne(st, b, item, Adding, {Seen}, 0.0) == (st, item);
    assert StoreTargets(st, b, map[1 := item], c, 0) == Stored(st, []);
    assert [] + [Report(1, {Seen})] == [Report(1, {Seen})];
  }

  lemma {:induction false} SameFlags(st: Mail, b: Box, item: Item, current: set<Flag>, k: nat, now: real)
    requires k <= |Permanent(b.view)|
    ensures FlagLoop(st, b, item, current, current, k, now) == (st, item)
  {
    if k > 0 { SameFlags(st, b, item, current, k - 1, now); }
  }

  /** `it` took the place of `item`, and nothing else in the view changed. */
  ghost predicate Took(b: Box, st: Mail, s: Mail, item: Item, it: Item) {
    && it.uid == item.uid && it.id == item.id
    && |s.Items(b)| == |st.Items(b)|
    && (forall i :: 0 <= i < |st.Items(b)| ==>
        s.Items(b)[i] == if st.Items(b)[i].uid == item.uid then it else st.Items(b)[i])
    && (forall n :: n != Name(b, item.uid) ==> (n in s.marks <==> n in st.marks))
    && (forall id :: id != item.id ==> (id in s.labels <==> id in st.labels) && s.Own(id) == st.Own(id))
    && Others(s.Own(item.id)) == Others(st.Own(item.id))
  }

  /** The service after `set_flag` shows the updated item in its place. */
  lemma ReplacedAt(sv: Service, b: Box, it: Item, m: Msg, now: real, k: nat)
    requires b in sv.latest && k < |sv.latest[b].items| && sv.latest[b].items[k].uid == it.uid
    requires forall i :: 0 <= i < |sv.latest[b].items| && i != k ==> sv.latest[b].items[i].uid != it.uid
    ensures var r := ReplaceItem(Held(sv, m, it.labels, now), b, it);
            b in r.latest && r.latest[b].items == sv.latest[b].items[k := it]
  {
    assert sv.latest[b].Uids()[k] == it.uid;
    var items := sv.latest[b].items;
    var r := ReplaceItem(Held(sv, m, it.labels, now), b, it);
    assert |r.latest[b].items| == |items|;
  }

  /** The labels of one message change together with its item. */
  lemma RelabelledSynced(b: Box, st: Mail, s: Mail, k: nat, it: Item)
    requires Synced(b, st) && KindOf(b.view) == Messages && k < |st.Items(b)|
    requires b in s.service.latest && s.Items(b) == st.Items(b)[k := it] && s.marks == st.marks
    requires var item := st.Items(b)[k];
             && it.uid == item.uid && it.id == item.id && it.flags == MessageFlags(it.labels)
             && s.labels == st.labels[item.id := it.labels]
             && Others(it.labels) == Others(item.labels)
    ensures Synced(b, s) && it in s.Items(b) && Took(b, st, s, st.Items(b)[k], it)
  {
    var items, item := st.Items(b), st.Items(b)[k];
    assert InStep(b, st.labels, item);
    hide MessageFlags, Others;
    assert s.Items(b)[k] == it;
    forall i | 0 <= i < |items| && i != k
      ensures s.Items(b)[i] == items[i] && items[i].id != item.id && items[i].uid != item.uid
              && InStep(b, s.labels, items[i]) {
      if i < k { assert items[i].uid != items[k].uid; } else { assert items[k].uid != items[i].uid; }
      assert InStep(b, st.labels, items[i]);
    }
  }

  lemma SetFlagStep(st: Mail, b: Box, item: Item, flag: Flag, value: bool, now: real)
    requires Synced(b, st) && item in st.Items(b) && KindOf(b.view) == Messages && (flag == Seen || flag == Flagged)
    ensures var (s, it) := FlagStored(st, b, item, flag, value, now);
            && Synced(b, s) && it in s.Items(b) && Took(b, st, s, item, it) && s.marks == st.marks
            && it.flags == if value then item.flags + {flag} else item.flags - {flag}
  {
    PatchedFlags(item.labels, flag, value);
    var items := st.Items(b);
    var k :| 0 <= k < |items| && items[k] == item;
    var (s, it) := FlagStored(st, b, item, flag, value, now);
    assert InStep(b, st.labels, items[k]);
    assert it == Relabelled(item, Patched(item.labels, flag, value));
    assert forall i :: 0 <= i < |items| && i != k ==> items[i].uid != it.uid by {
      hide Patched, MessageFlags, Others, ReplaceItem;
      forall i | 0 <= i < |items| && i != k ensures items[i].uid != it.uid {
        if i < k { assert items[i].uid != items[k].uid; } else { assert items[k].uid != items[i].uid; }
      }
    }
    ReplacedAt(st.service, b, it, Msg(b.inbox, item.id), now, k);
    hide Patched, MessageFlags, Others, ReplaceItem, Took, Synced;
    RelabelledSynced(b, st, s, k, it);
  }

  lemma MarkStep(st: Mail, b: Box, item: Item, value: bool)
    requires Synced(b, st) && item in st.Items(b)
    ensures var s := st.(marks := MarkOne(st.marks, b, item.uid, value));
            && Synced(b, s) && Took(b, st, s, item, item)
            && s.Flags(b, item) == if value then st.Flags(b, item) + {Deleted} else st.Flags(b, item) - {Deleted}
  {
    SameTook(b, st, item);
    var i :| 0 <= i < |st.Items(b)| && st.Items(b)[i] == item;
    assert InStep(b, st.labels, item);
  }

  lemma OneFlagStep(st: Mail, b: Box, item: Item, flag: Flag, after: bool, now: real)
    requires Synced(b, st) && item in st.Items(b) && flag in Permanent(b.view)
    ensures var (s, it) := OneFlag(st, b, item, flag, flag in st.Flags(b, item), after, now);
            && Synced(b, s) && it in s.Items(b) && Took(b, st, s, item, it)
            && s.Flags(b, it) == if after then st.Flags(b, item) + {flag} else st.Flags(b, item) - {flag}
  {
    hide FlagStored, Synced, Took, Permanent, MarkOne;
    SameTook(b, st, item);
    PermanentKind(b.view, flag);
    if (flag in st.Flags(b, item)) != after {
      if flag == Deleted {
        MarkStep(st, b, item, after);
      } else {
        LabelStep(st, b, item, flag, after, now);
      }
    }
  }

  lemma PermanentKind(v: View, flag: Flag)
    requires flag in Permanent(v)
    ensures flag == Deleted || (KindOf(v) == Messages && (flag == Seen || flag == Flagged))
  {
  }

  lemma LabelStep(st: Mail, b: Box, item: Item, flag: Flag, after: bool, now: real)
    requires Synced(b, st) && item in st.Items(b) && KindOf(b.view) == Messages && (flag == Seen || flag == Flagged)
    ensures var (s, it) := FlagStored(st, b, item, flag, after, now);
            && Synced(b, s) && it in s.Items(b) && Took(b, st, s, item, it)
            && s.Flags(b, it) == if after then st.Flags(b, item) + {flag} else st.Flags(b, item) - {flag}
  {
    hide FlagStored, Synced;
    SetFlagStep(st, b, item, flag, after, now);
    var (s, it) := FlagStored(st, b, item, flag, after, now);
    assert s.Marked(b) == st.Marked(b);
  }

  lemma SameTook(b: Box, st: Mail, item: Item)
    requires Synced(b, st) && item in st.Items(b)
    ensures Took(b, st, st, item, item)
  {
    var items := st.Items(b);
    var k :| 0 <= k < |items| && items[k] == item;
    forall i | 0 <= i < |items| ensures items[i] == if items[i].uid == item.uid then item else items[i] {
      if i < k { assert items[i].uid != items[k].uid; }
      if i > k { assert items[k].uid != items[i].uid; }
    }
  }

  lemma TookTwice(b: Box, st: Mail, s: Mail, r: Mail, item: Item, it: Item, jt: Item)
    requires Took(b, st, s, item, it) && Took(b, s, r, it, jt)
    ensures Took(b, st, r, item, jt)
  {
    hide Others;
    forall i | 0 <= i < |st.Items(b)|
      ensures r.Items(b)[i] == if st.Items(b)[i].uid == item.uid then jt else st.Items(b)[i] {
      assert s.Items(b)[i] == if st.Items(b)[i].uid == item.uid then it else st.Items(b)[i];
    }
  }

  // ----- one message ------------------------------------------------------------------------------------

  function FirstFlags(v: View, k: nat): set<Flag>
    requires k <= |Permanent(v)|
  {
    set i | 0 <= i < k :: Permanent(v)[i]
  }

  /** The loop body for flag `k` turns the flags settled so far into one more. */
  lemma FlagLoopSettles(st: Mail, b: Box, item: Item, wanted: set<Flag>, k: nat, now: real)
    requires Synced(b, st) && item in st.Items(b) && k <= |Permanent(b.view)|
    ensures var current := st.Flags(b, item);
            var (s, it) := FlagLoop(st, b, item, current, wanted, k, now);
            && Synced(b, s) && it in s.Items(b) && Took(b, st, s, item, it)
            && s.Flags(b, it) == (current - FirstFlags(b.view, k)) + (wanted * FirstFlags(b.view, k))
  {
    var current := st.Flags(b, item);
    if k == 0 {
      SameTook(b, st, item);
    } else {
      FlagLoopSettles(st, b, item, wanted, k - 1, now);
      FlagsAreDistinct(b.view, k);
      var (s, it) := FlagLoop(st, b, item, current, wanted, k - 1, now);
      var flag := Permanent(b.view)[k-1];
      var (r, jt) := OneFlag(s, b, it, flag, flag in current, flag in wanted, now);
      assert FlagLoop(st, b, item, current, wanted, k, now) == (r, jt);
      assert flag in Permanent(b.view);
      hide *;
      Settled(current, wanted, FirstFlags(b.view, k - 1), flag, s.Flags(b, it));
      OneFlagStep(s, b, it, flag, flag in wanted, now);
      TookTwice(b, st, s, r, item, it, jt);
    }
  }

  lemma Settled(current: set<Flag>, wanted: set<Flag>, first: set<Flag>, flag: Flag, mid: set<Flag>)
    requires flag !in first && mid == (current - first) + (wanted * first)
    ensures flag in mid <==> flag in current
    ensures (current - (first + {flag})) + (wanted * (first + {flag})) == if flag in wanted then mid + {flag}
            else mid - {flag}
  {
  }

  lemma FlagsAreDistinct(v: View, k: nat)
    requires 0 < k <= |Permanent(v)|
    ensures FirstFlags(v, k) == FirstFlags(v, k - 1) + {Permanent(v)[k-1]} && Permanent(v)[k-1] !in FirstFlags(v, k - 1)
  {
  }

  /** STORE on one message sets exactly the flags the command asks for. */
  lemma StoreOneExact(st: Mail, b: Box, item: Item, mode: Mode, flags: set<Flag>, now: real)
    requires Synced(b, st) && item in st.Items(b) && flags <= PermanentSet(b.view)
    ensures var (s, it) := StoreOne(st, b, item, mode, flags, now);
            && Synced(b, s) && it in s.Items(b) && Took(b, st, s, item, it)
            && s.Flags(b, it) == Prescribed(mode, flags, b.view, st.Flags(b, item))
  {
    var current, all := st.Flags(b, item), PermanentSet(b.view);
    var wanted := Wanted(mode, flags, all, current);
    WantedIsPrescribed(mode, flags, b.view, current);
    FlagLoopSettles(st, b, item, wanted, |Permanent(b.view)|, now);
    assert FirstFlags(b.view, |Permanent(b.view)|) == all;
    assert (current - all) + (wanted * all) == wanted;
  }

  // ----- the command and runs of commands -----------------------------------------------------------------

  /** The flags a client would be told for every message of the latest snapshot. */
  function Shown(b: Box, st: Mail): FlagTable {
    map i: nat | i in IndexByUid(st.Items(b)) :: st.Flags(b, IndexByUid(st.Items(b))[i])
  }

  /** What the command means for a table of flag sets. */
  function Meaning(c: Command, v: View, shown: FlagTable): FlagTable {
    if c.readOnly || !(c.flags <= PermanentSet(v)) then shown
    else map u | u in shown :: if u in c.targets then Prescribed(c.mode, c.flags, v, shown[u]) else shown[u]
  }

  ghost predicate DistinctTargets(c: Command) {
    forall i, j :: 0 <= i < j < |c.targets| ==> c.targets[i] != c.targets[j]
  }

  ghost predicate OneItem(items: seq<Item>) {
    forall i, j :: 0 <= i < j < |items| ==> items[i].uid != items[j].uid
  }

  lemma {:induction false} IndexMember(items: seq<Item>, item: Item)
    requires OneItem(items) && item in items
    ensures item.uid in IndexByUid(items) && IndexByUid(items)[item.uid] == item
  {
    var k :| 0 <= k < |items| && items[k] == item;
    assert items[k].uid in IndexByUid(items);
    var other := IndexByUid(items)[item.uid];
    var j :| 0 <= j < |items| && items[j] == other;
  }

  lemma ShownOf(b: Box, st: Mail, item: Item)
    requires Synced(b, st) && item in st.Items(b)
    ensures item.uid in Shown(b, st) && Shown(b, st)[item.uid] == st.Flags(b, item)
  {
    IndexMember(st.Items(b), item);
  }

  lemma ShownElsewhere(b: Box, st: Mail, s: Mail, item: Item, it: Item, i: nat)
    requires Synced(b, s) && Took(b, st, s, item, it) && i < |st.Items(b)| && st.Items(b)[i].uid != item.uid
    ensures var x := st.Items(b)[i]; x.uid in Shown(b, s) && Shown(b, s)[x.uid] == st.Flags(b, x)
  {
    var x := st.Items(b)[i];
    assert s.Items(b)[i] == x;
    ShownOf(b, s, x);
    assert Name(b, x.uid) != Name(b, item.uid);
  }

  lemma ShownStays(b: Box, st: Mail, s: Mail, item: Item, it: Item, u: nat)
    requires Synced(b, s) && Took(b, st, s, item, it) && u in Shown(b, st) && u != item.uid
    ensures u in Shown(b, s) && Shown(b, s)[u] == Shown(b, st)[u]
  {
    var x := IndexByUid(st.Items(b))[u];
    var i :| 0 <= i < |st.Items(b)| && st.Items(b)[i] == x;
    ShownElsewhere(b, st, s, item, it, i);
  }

  lemma ShownUids(b: Box, st: Mail, s: Mail, item: Item, it: Item)
    requires Took(b, st, s, item, it)
    ensures Shown(b, s).Keys == Shown(b, st).Keys
  {
    var was, now := st.Items(b), s.Items(b);
    forall i | 0 <= i < |was| ensures was[i].uid == now[i].uid {
    }
    hide Took;
    SameUids(was, now);
  }

  lemma SameUids(was: seq<Item>, now: seq<Item>)
    requires |was| == |now| && forall i :: 0 <= i < |was| ==> was[i].uid == now[i].uid
    ensures IndexByUid(was).Keys == IndexByUid(now).Keys
  {
    forall u | u in IndexByUid(was) ensures u in IndexByUid(now) {
      var i :| 0 <= i < |was| && was[i] == IndexByUid(was)[u];
      assert now[i].uid == u;
    }
    forall u | u in IndexByUid(now) ensures u in IndexByUid(was) {
      var i :| 0 <= i < |now| && now[i] == IndexByUid(now)[u];
      assert was[i].uid == u;
    }
  }

  /** Replacing one item changes what is shown for that UID only. */
  lemma TookShown(b: Box, st: Mail, s: Mail, item: Item, it: Item)
    requires Synced(b, st) && Synced(b, s) && item in st.Items(b) && it in s.Items(b) && Took(b, st, s, item, it)
    ensures Shown(b, s) == Shown(b, st)[item.uid := s.Flags(b, it)]
  {
    hide *;
    var was, now := Shown(b, st), Shown(b, s);
    assert it.uid == item.uid by { TookNames(b, st, s, item, it); }
    ShownOf(b, s, it);
    ShownOf(b, st, item);
    ShownUids(b, st, s, item, it);
    forall u | u in was && u != item.uid ensures now[u] == was[u] {
      ShownStays(b, st, s, item, it, u);
    }
  }

  lemma TookNames(b: Box, st: Mail, s: Mail, item: Item, it: Item)
    requires Took(b, st, s, item, it)
    ensures it.uid == item.uid && it.id == item.id
  {
  }

  /** The first `n` targets of a command. */
  function MeaningUpTo(c: Command, v: View, shown: FlagTable, n: nat): FlagTable
    requires n <= |c.targets|
  {
    map u | u in shown :: if u in c.targets[..n] then Prescribed(c.mode, c.flags, v, shown[u]) else shown[u]
  }

  /** The untagged responses a command owes: one for each target that exists, in order, with its new
      flags. */
  function Owed(c: Command, shown: FlagTable, after: FlagTable, n: nat): seq<Report>
    requires n <= |c.targets| && shown.Keys <= after.Keys
  {
    if n == 0 then []
    else
      var u := c.targets[n-1];
      Owed(c, shown, after, n - 1) + if u in shown then [Report(u, after[u])] else []
  }

  /** Items the loop has not reached are still as the captured snapshot has them. */
  ghost predicate Untouched(b: Box, st: Mail, s: Mail, done: seq<nat>) {
    forall x :: x in st.Items(b) && x.uid !in done ==> x in s.Items(b)
  }

  lemma TookUntouched(b: Box, st: Mail, s: Mail, r: Mail, done: seq<nat>, item: Item, it: Item)
    requires Untouched(b, st, s, done) && Took(b, s, r, item, it)
    ensures Untouched(b, st, r, done + [item.uid])
  {
    forall x | x in st.Items(b) && x.uid !in done + [item.uid] ensures x in r.Items(b) {
      assert x.uid != item.uid && x.uid !in done;
      var i :| 0 <= i < |s.Items(b)| && s.Items(b)[i] == x;
      assert r.Items(b)[i] == x;
    }
  }

  lemma MeaningStep(c: Command, v: View, shown: FlagTable, n: nat)
    requires 0 < n <= |c.targets| && DistinctTargets(c)
    ensures var u, before := c.targets[n-1], MeaningUpTo(c, v, shown, n - 1);
            if u in shown then
              before[u] == shown[u] && MeaningUpTo(c, v, shown, n) ==
                  before[u := Prescribed(c.mode, c.flags, v, shown[u])]
            else MeaningUpTo(c, v, shown, n) == before
  {
    hide Prescribed;
    var u := c.targets[n-1];
    assert c.targets[..n] == c.targets[..n-1] + [u];
    assert u !in c.targets[..n-1];
  }

  lemma OwedKeeps(c: Command, shown: FlagTable, after: FlagTable, later: FlagTable, n: nat)
    requires n <= |c.targets| && shown.Keys <= after.Keys && shown.Keys <= later.Keys
    requires forall u :: u in shown && u in c.targets[..n] ==> after[u] == later[u]
    ensures Owed(c, shown, after, n) == Owed(c, shown, later, n)
  {
    if n > 0 {
      assert c.targets[..n] == c.targets[..n-1] + [c.targets[n-1]];
      OwedKeeps(c, shown, after, later, n - 1);
    }
  }

  lemma {:induction false} TargetsExact(st: Mail, b: Box, c: Command, n: nat)
    requires Synced(b, st) && n <= |c.targets| && c.flags <= PermanentSet(b.view) && DistinctTargets(c)
    ensures var r := StoreTargets(st, b, IndexByUid(st.Items(b)), c, n);
            && Synced(b, r.mail) && Untouched(b, st, r.mail, c.targets[..n])
            && Shown(b, r.mail) == MeaningUpTo(c, b.view, Shown(b, st), n)
            && r.reports == Owed(c, Shown(b, st), Shown(b, r.mail), n)
  {
    var known, shown := IndexByUid(st.Items(b)), Shown(b, st);
    hide Synced, StoreOne, FlagsOf, IndexByUid, Prescribed, PermanentSet;
    if n == 0 {
      assert MeaningUpTo(c, b.view, shown, 0) == shown;
    } else {
      TargetsExact(st, b, c, n - 1);
      var done, u := StoreTargets(st, b, known, c, n - 1), c.targets[n-1];
      if u in known {
        KnownIs(st, b, u);
        assert known[u].uid == u && known[u] in st.Items(b);
        hide Untouched, MeaningUpTo, Owed, Shown, DistinctTargets;
        TargetStep(st, b, c, done, known[u], n);
      } else {
        MeaningStep(c, b.view, shown, n);
        assert c.targets[..n] == c.targets[..n-1] + [u];
      }
    }
  }

  lemma KnownIs(st: Mail, b: Box, u: nat)
    requires u in IndexByUid(st.Items(b))
    ensures IndexByUid(st.Items(b))[u].uid == u && IndexByUid(st.Items(b))[u] in st.Items(b)
  {
  }

  lemma TargetStep(st: Mail, b: Box, c: Command, done: Stored, item: Item, n: nat)
    requires 0 < n <= |c.targets| && c.flags <= PermanentSet(b.view) && DistinctTargets(c)
    requires Synced(b, st) && item in st.Items(b) && item.uid == c.targets[n-1]
    requires Synced(b, done.mail) && Untouched(b, st, done.mail, c.targets[..n-1])
    requires Shown(b, done.mail) == MeaningUpTo(c, b.view, Shown(b, st), n - 1)
    requires done.reports == Owed(c, Shown(b, st), Shown(b, done.mail), n - 1)
    ensures var (s, it) := StoreOne(done.mail, b, item, c.mode, c.flags, c.now);
            && Synced(b, s) && Untouched(b, st, s, c.targets[..n])
            && Shown(b, s) == MeaningUpTo(c, b.view, Shown(b, st), n)
            && done.reports + [Report(item.uid, s.Flags(b, it))] == Owed(c, Shown(b, st), Shown(b, s), n)
  {
    hide *;
    TargetIsFresh(st, b, c, done, item, n);
    StoreOneExact(done.mail, b, item, c.mode, c.flags, c.now);
    ShownOf(b, st, item);
    ShownOf(b, done.mail, item);
    var (s, it) := StoreOne(done.mail, b, item, c.mode, c.flags, c.now);
    TookShown(b, done.mail, s, item, it);
    TookUntouched(b, st, done.mail, s, c.targets[..n-1], item, it);
    ReportStep(c, b.view, Shown(b, st), n, s.Flags(b, it));
  }

  lemma TargetIsFresh(st: Mail, b: Box, c: Command, done: Stored, item: Item, n: nat)
    requires 0 < n <= |c.targets| && DistinctTargets(c) && item in st.Items(b) && item.uid == c.targets[n-1]
    requires Untouched(b, st, done.mail, c.targets[..n-1])
    ensures c.targets[..n] == c.targets[..n-1] + [item.uid] && item.uid !in c.targets[..n-1]
            && item in done.mail.Items(b)
  {
  }

  /** The tables before and after one target. */
  lemma ReportStep(c: Command, v: View, shown: FlagTable, n: nat, flags: set<Flag>)
    requires 0 < n <= |c.targets| && DistinctTargets(c) && c.targets[n-1] in shown
    requires flags == Prescribed(c.mode, c.flags, v, MeaningUpTo(c, v, shown, n - 1)[c.targets[n-1]])
    ensures var u, mid := c.targets[n-1], MeaningUpTo(c, v, shown, n - 1);
            var after := mid[u := flags];
            after == MeaningUpTo(c, v, shown, n) && Owed(c, shown, mid, n - 1) + [Report(u, flags)] ==
                Owed(c, shown, after, n)
  {
    var u, mid := c.targets[n-1], MeaningUpTo(c, v, shown, n - 1);
    MeaningStep(c, v, shown, n);
    assert u !in c.targets[..n-1];
    hide Prescribed, DistinctTargets;
    var after := mid[u := flags];
    OwedKeeps(c, shown, mid, after, n - 1);
  }

  /** STORE, +FLAGS and -FLAGS do to every message of the view exactly what section 6.4.6 of RFC 3501 says,
      restricted to the permanent flags; the responses report the new flags; a refused command
      changes nothing. */
  lemma StoreRefines(st: Mail, b: Box, c: Command)
    requires Synced(b, st) && DistinctTargets(c)
    ensures Store(st, b, c).Err? <==> c.readOnly || exists f :: f in c.flags && !Changeable(b.view, f)
    ensures Synced(b, After(st, b, c)) && Shown(b, After(st, b, c)) == Meaning(c, b.view, Shown(b, st))
    ensures var r := Store(st, b, c);
            r.Ok? ==> r.value.reports == Owed(c, Shown(b, st), Meaning(c, b.view, Shown(b, st)), |c.targets|)
  {
    PermanentIs(b.view);
    if Store(st, b, c).Ok? {
      TargetsExact(st, b, c, |c.targets|);
      assert c.targets[..|c.targets|] == c.targets;
      hide Synced, StoreTargets, Shown, Prescribed, DistinctTargets;
    }
  }

  function After(st: Mail, b: Box, c: Command): Mail {
    match Store(st, b, c) case Err(_) => st case Ok(r) => r.mail
  }

  function RunStores(st: Mail, b: Box, cs: seq<Command>): Mail {
    if cs == [] then st else After(RunStores(st, b, cs[..|cs|-1]), b, cs[|cs|-1])
  }

  function RunMeaning(v: View, shown: FlagTable, cs: seq<Command>): FlagTable {
    if cs == [] then shown else Meaning(cs[|cs|-1], v, RunMeaning(v, shown, cs[..|cs|-1]))
  }

  /** Every sequence of STORE commands leaves the flags that the commands mean. */
  lemma {:induction false} StoresRefine(st: Mail, b: Box, cs: seq<Command>)
    requires Synced(b, st) && forall i :: 0 <= i < |cs| ==> DistinctTargets(cs[i])
    ensures Synced(b, RunStores(st, b, cs)) && Shown(b, RunStores(st, b, cs)) == RunMeaning(b.view, Shown(b, st), cs)
    decreases |cs|
  {
    if cs != [] {
      StoresRefine(st, b, cs[..|cs|-1]);
      StoreRefines(RunStores(st, b, cs[..|cs|-1]), b, cs[|cs|-1]);
    }
  }

  /** No sequence of STORE commands changes a flag that is not permanent, on any message. */
  lemma {:induction false} OtherFlagsStay(st: Mail, b: Box, cs: seq<Command>, f: Flag, u: nat)
    requires Synced(b, st) && forall i :: 0 <= i < |cs| ==> DistinctTargets(cs[i])
    requires f !in Permanent(b.view) && u in Shown(b, st)
    ensures u in Shown(b, RunStores(st, b, cs))
    ensures f in Shown(b, RunStores(st, b, cs))[u] <==> f in Shown(b, st)[u]
  {
    StoresRefine(st, b, cs);
    hide Synced, RunStores, Shown;
    MeaningKeeps(b.view, Shown(b, st), cs, f, u);
  }

  lemma {:induction false} MeaningKeeps(v: View, shown: FlagTable, cs: seq<Command>, f: Flag, u: nat)
    requires f !in Permanent(v) && u in shown
    ensures u in RunMeaning(v, shown, cs) && (f in RunMeaning(v, shown, cs)[u] <==> f in shown[u])
    decreases |cs|
  {
    if cs != [] {
      MeaningKeeps(v, shown, cs[..|cs|-1], f, u);
      var c := cs[|cs|-1];
      assert f !in PermanentSet(v);
      assert c.flags <= PermanentSet(v) ==> f !in c.flags;
    }
  }
}
