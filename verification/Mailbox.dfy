/** Mailboxes as label views over upstream listings: the service's in-memory state and the atomic
    parts of its operations (everything the source runs between two `await`s). */
module Mailboxes {
  import opened Types
  import opened Sorting
  import opened UidStores

  const PIN_TTL: real := 120.0
  const HOLD_TTL: real := 60.0

  datatype Kind = Messages | Drafts

  const HIDDEN: set<string> := {"trash", "spam"}

  function KindOf(v: View): Kind {
    if v == DraftsView then Drafts else Messages
  }

  /** Trashed and spam-labelled messages are hidden from INBOX and Sent. */
  function Excluded(v: View): set<string> {
    if v == InboxView || v == SentView then HIDDEN else {}
  }

  /** The flags a client may change with STORE, per view. */
  function Permanent(v: View): seq<Flag> {
    match v
    case InboxView => [Seen, Flagged, Deleted]
    case SentView => [Seen, Flagged, Deleted]
    case DraftsView => [Deleted]
    case TrashView => [Seen, Flagged]
    case SpamView => [Seen, Flagged]
  }

  const DRAFT_FLAGS: set<Flag> := {Draft, Seen}

  function MessageFlags(labels: set<string>): set<Flag> {
    (if "unread" !in labels then {Seen} else {}) + (if "starred" in labels then {Flagged} else {})
  }

  /** `flags_of`: an item's flags with the persisted mark. */
  function FlagsOf(item: Item, deleted: set<nat>): set<Flag> {
    if item.uid in deleted then item.flags + {Deleted} else item.flags
  }

  // ----- label holds ---------------------------------------------------------------------------

  /** A message of one inbox: the two-level key of `_label_overrides`. */
  datatype Msg = Msg(inbox: string, id: string)

  datatype Hold = Hold(expires: real, labels: set<string>)

  function HoldLabels(holds: map<Msg, Hold>, m: Msg, labels: set<string>, now: real): map<Msg, Hold> {
    holds[m := Hold(now + HOLD_TTL, labels)]
  }

  function EffectiveLabels(holds: map<Msg, Hold>, m: Msg, listed: set<string>, now: real)
    : (set<string>, map<Msg, Hold>)
  {
    if m !in holds then (listed, holds)
    else if listed == holds[m].labels || holds[m].expires < now then (listed, holds - {m})
    else (holds[m].labels, holds)
  }

  // ----- collecting a listing ------------------------------------------------------------------

  /** One element of an upstream page. `content` stands for the digest of a draft's rendering, absent
      when the draft vanished between the listing and the download. */
  datatype Listed = Listed(id: string, date: int, labels: set<string>, content: Option<string>, env: Envelope)

  /** The progress of one listing. */
  datatype Collected = Collected(seen: set<string>, entries: seq<Entry>)

  /** A draft's key: its id, `#`, and sixteen hexadecimal digits of a digest. */
  function ContentKey(id: string, digest: string): string {
    id + "#" + digest
  }

  ghost predicate WellFormedListed(kind: Kind, m: Listed) {
    kind == Drafts && m.content.Some? ==> |m.content.value| == 16
  }

  /** Takes one listed element, holding our own label writes over what the listing reports. */
  function Consume(b: Box, c: Collected, holds: map<Msg, Hold>, m: Listed, now: real)
    : (Collected, map<Msg, Hold>)
  {
    if m.id in c.seen then (c, holds)
    else
      var seen := c.seen + {m.id};
      match KindOf(b.view)
      case Messages =>
        var (labels, holds') := EffectiveLabels(holds, Msg(b.inbox, m.id), m.labels, now);
        if labels * Excluded(b.view) != {} then (Collected(seen, c.entries), holds')
        else (Collected(seen, c.entries + [Entry(m.date, m.id, m.id, MessageFlags(labels), labels, m.env)]), holds')
      case Drafts =>
        if m.content.None? then (Collected(seen, c.entries), holds)
        else
          var key := ContentKey(m.id, m.content.value);
          (Collected(seen, c.entries + [Entry(m.date, m.id, key, DRAFT_FLAGS, m.labels, m.env)]), holds)
  }

  // ----- pins ----------------------------------------------------------------------------------

  datatype Pin = Pin(entry: Entry, expires: real)

  /** Dictionary assignment: an existing key keeps its position. */
  function SetPin(pins: seq<Pin>, p: Pin): seq<Pin> {
    if pins == [] then [p]
    else if pins[0].entry.key == p.entry.key then [p] + pins[1..]
    else [pins[0]] + SetPin(pins[1..], p)
  }

  function RemovePin(pins: seq<Pin>, key: string): seq<Pin> {
    if pins == [] then []
    else if pins[0].entry.key == key then pins[1..]
    else [pins[0]] + RemovePin(pins[1..], key)
  }

  /** The place of a key among the pins, or their number. */
  function PinIndex(pins: seq<Pin>, key: string): (i: nat)
    ensures i <= |pins| && (i < |pins| ==> pins[i].entry.key == key)
    ensures forall j :: 0 <= j < i ==> pins[j].entry.key != key
  {
    if pins == [] || pins[0].entry.key == key then 0 else 1 + PinIndex(pins[1..], key)
  }

  /** Exactly the key's slot goes, if it has one, and the others keep their order. */
  lemma {:induction false} RemovePinIsOne(pins: seq<Pin>, key: string)
    ensures var i := PinIndex(pins, key);
            RemovePin(pins, key) == if i < |pins| then pins[..i] + pins[i+1..] else pins
  {
    if pins != [] && pins[0].entry.key != key {
      RemovePinIsOne(pins[1..], key);
      WithoutOne(pins, PinIndex(pins[1..], key));
    }
  }

  lemma WithoutOne<T>(s: seq<T>, i: nat)
    requires s != [] && i <= |s| - 1
    ensures i < |s| - 1 ==> [s[0]] + (s[1..][..i] + s[1..][i+1..]) == s[..i+1] + s[i+2..]
    ensures [s[0]] + s[1..] == s
  {
  }

  function Keys(entries: seq<Entry>): (r: seq<string>)
    ensures |r| == |entries|
  {
    seq(|entries|, i requires 0 <= i < |entries| => entries[i].key)
  }

  /** A pin survives a listing that does not show its key, until it expires. */
  predicate Kept(p: Pin, listed: set<string>, now: real) {
    p.entry.key !in listed && !(p.expires < now)
  }

  function KeptPins(pins: seq<Pin>, listed: set<string>, now: real): seq<Pin> {
    if pins == [] then []
    else
      var r := KeptPins(pins[..|pins|-1], listed, now);
      if Kept(pins[|pins|-1], listed, now) then r + [pins[|pins|-1]] else r
  }

  function PinEntries(pins: seq<Pin>): (r: seq<Entry>)
    ensures |r| == |pins|
  {
    seq(|pins|, i requires 0 <= i < |pins| => pins[i].entry)
  }

  // ----- the service state and the reconcile step ------------------------------------------------

  datatype Service = Service(latest: map<Box, Snapshot>, versions: map<Box, nat>, generation: map<Box, nat>,
                             pinned: map<Box, seq<Pin>>, holds: map<Msg, Hold>)
  {
    function Pins(b: Box): seq<Pin> { if b in pinned then pinned[b] else [] }
    function Generation(b: Box): nat { if b in generation then generation[b] else 0 }
    function Version(b: Box): nat { if b in versions then versions[b] else 0 }
    function WithPins(b: Box, pins: seq<Pin>): Service { this.(pinned := pinned[b := pins]) }
    function Published(b: Box, snap: Snapshot): Service {
      this.(versions := versions[b := snap.version], latest := latest[b := snap])
    }
    function Bumped(b: Box): Service { this.(generation := generation[b := Generation(b) + 1]) }
  }

  const IDLE := Service(map[], map[], map[], map[], map[])

  predicate EntryLeq(e: Entry, f: Entry) {
    e.date < f.date || (e.date == f.date && StrLeq(e.id, f.id))
  }

  predicate UidLeq(i: Item, j: Item) {
    i.uid <= j.uid
  }

  function SortEntries(entries: seq<Entry>): seq<Entry> { Sort(EntryLeq, entries) }

  function SortItems(items: seq<Item>): seq<Item> { Sort(UidLeq, items) }

  /** What a reconcile works on: the listing and the surviving pins, in (date, id) order. */
  function Ordered(pins: seq<Pin>, listed: seq<Entry>, now: real): seq<Entry> {
    SortEntries(listed + PinEntries(KeptPins(pins, KeySet(listed), now)))
  }

  function KeySet(entries: seq<Entry>): (r: set<string>)
    ensures forall k :: k in r <==> k in Keys(entries)
  {
    set k | k in Keys(entries)
  }

  function Built(entries: seq<Entry>, live: map<string, nat>): (r: seq<Item>)
    requires forall i :: 0 <= i < |entries| ==> entries[i].key in live
    ensures |r| == |entries|
  {
    seq(|entries|, i requires 0 <= i < |entries| => entries[i].Build(live[entries[i].key]))
  }

  function Assigned(d: Disk, b: Box, entries: seq<Entry>, t: Tick): Disk {
    TombstoneMissing(EnsureUids(d, b, Keys(entries), t), b, KeySet(entries))
  }

  /** The tables after a reconcile. */
  function ReconcileDisk(d: Disk, s: Service, b: Box, listed: seq<Entry>, now: real, t: Tick): Disk {
    Assigned(d, b, Ordered(s.Pins(b), listed, now), t)
  }

  function SnapshotOf(d: Disk, b: Box, entries: seq<Entry>, version: nat, at: real, t: Tick): Snapshot {
    var m := EnsureUids(d, b, Keys(entries), t).boxes[b];
    AllKeysLive(d, b, entries, t);
    Snapshot(b, m.uidvalidity, m.nextUid, SortItems(Built(entries, m.live)), version, at)
  }

  function ReconcileSnapshot(d: Disk, s: Service, b: Box, listed: seq<Entry>, now: real, at: real, t: Tick): Snapshot {
    SnapshotOf(d, b, Ordered(s.Pins(b), listed, now), s.Version(b) + 1, at, t)
  }

  function ReconcileService(d: Disk, s: Service, b: Box, listed: seq<Entry>, now: real, at: real, t: Tick): Service {
    var snap := ReconcileSnapshot(d, s, b, listed, now, at, t);
    s.WithPins(b, KeptPins(s.Pins(b), KeySet(listed), now)).Published(b, snap)
  }

  lemma AllKeysLive(d: Disk, b: Box, entries: seq<Entry>, t: Tick)
    ensures var e := EnsureUids(d, b, Keys(entries), t);
            forall i :: 0 <= i < |entries| ==> entries[i].key in e.boxes[b].live
  {
    var e := EnsureMailbox(d, b, t);
    AllocateAllExact(e.boxes[b], Keys(entries));
    forall i | 0 <= i < |entries|
      ensures entries[i].key in AllocateAll(e.boxes[b], Keys(entries)).live {
      assert Keys(entries)[i] == entries[i].key;
    }
  }

  // ----- mutations -------------------------------------------------------------------------------

  /** Allocation and pin of an item we created ourselves: one step in the source. */
  function PinnedDisk(d: Disk, b: Box, e: Entry, t: Tick): Disk {
    EnsureUids(d, b, [e.key], t)
  }

  lemma PinnedIsLive(d: Disk, b: Box, e: Entry, t: Tick)
    ensures e.key in PinnedDisk(d, b, e, t).boxes[b].live
  {
    AllocateAllExact(EnsureMailbox(d, b, t).boxes[b], [e.key]);
    assert e.key in [e.key];
  }

  function Pinned(s: Service, b: Box, e: Entry, now: real): Service {
    s.WithPins(b, SetPin(s.Pins(b), Pin(e, now + PIN_TTL)))
  }

  function ReplaceItem(s: Service, b: Box, updated: Item): Service {
    if b !in s.latest || updated.uid !in s.latest[b].Uids() then s
    else
      var items := s.latest[b].items;
      s.(latest := s.latest[b := s.latest[b].(items :=
      seq(|items|, i requires 0 <= i < |items| => if items[i].uid == updated.uid then updated else items[i]))])
  }

  /** The labels held after adding `trash`: the answer's, or our own guess when it omits the label. */
  function TrashLabels(answer: set<string>, own: set<string>): (r: set<string>)
    ensures "trash" in r
  {
    if "trash" in answer then answer else own + {"trash"}
  }

  // ----- the class -------------------------------------------------------------------------------

  class MailboxService {
    const store: UidStore
    var latest: map<Box, Snapshot>
    var versions: map<Box, nat>
    var generation: map<Box, nat>
    var pinned: map<Box, seq<Pin>>
    var holds: map<Msg, Hold>

    ghost function State(): Service
      reads this
    {
      Service(latest, versions, generation, pinned, holds)
    }

    constructor (store: UidStore)
      ensures State() == IDLE && this.store == store
    {
      this.store := store;
      latest, versions, generation, pinned, holds := map[], map[], map[], map[], map[];
    }

    method Effective(m: Msg, listed: set<string>, now: real) returns (labels: set<string>)
      modifies this`holds
      ensures (labels, holds) == EffectiveLabels(old(holds), m, listed, now)
    {
      if m !in holds {
        return listed;
      }
      var h := holds[m];
      if listed == h.labels || h.expires < now {
        holds := holds - {m};
        return listed;
      }
      labels := h.labels;
    }

    /** One element of a listing, whatever other tasks did to the holds before it. */
    method TakeElement(b: Box, got: Collected, m: Listed, now: real) returns (got': Collected)
      modifies this`holds
      ensures (got', holds) == Consume(b, got, old(holds), m, now)
    {
      if m.id in got.seen {
        return got;
      }
      got' := got.(seen := got.seen + {m.id});
      if KindOf(b.view) == Messages {
        var labels := Effective(Msg(b.inbox, m.id), m.labels, now);
        if labels * Excluded(b.view) == {} {
          got' := got'.(entries := got.entries + [Entry(m.date, m.id, m.id, MessageFlags(labels), labels, m.env)]);
        }
      } else if m.content.Some? {
        var key := ContentKey(m.id, m.content.value);
        got' := got'.(entries := got.entries + [Entry(m.date, m.id, key, DRAFT_FLAGS, m.labels, m.env)]);
      }
    }

    /** `_collect_messages` and `_collect_drafts` over a complete listing that no other task
        interrupts; `None` is a listing refused because an element carries no id. */
    method Collect(b: Box, listing: seq<Listed>, times: seq<real>)
      returns (entries: Option<seq<Entry>>)
      requires |times| == |listing|
      modifies this`holds
      ensures entries.None? <==> exists i :: 0 <= i < |listing| && listing[i].id == ""
      ensures entries.Some? ==>
                var (c, h) := ConsumeAll(b, old(holds), listing, times);
                entries.value == c.entries && holds == h
    {
      var got := Collected({}, []);
      for i := 0 to |listing|
        invariant forall j :: 0 <= j < i ==> listing[j].id != ""
        invariant (got, holds) == ConsumeAll(b, old(holds), listing[..i], times[..i])
      {
        assert listing[..i+1][..i] == listing[..i] && times[..i+1][..i] == times[..i];
        if listing[i].id == "" {
          return None;
        }
        got := TakeElement(b, got, listing[i], times[i]);
      }
      assert listing[..|listing|] == listing && times[..|times|] == times;
      entries := Some(got.entries);
    }

    /** `_apply_pins`: keeps visible what we created and the listing does not show yet. */
    method ApplyPins(b: Box, listed: seq<Entry>, now: real) returns (entries: seq<Entry>)
      modifies this`pinned
      ensures State() == old(State()).WithPins(b, KeptPins(old(State()).Pins(b), KeySet(listed), now))
      ensures entries == listed + PinEntries(KeptPins(old(State()).Pins(b), KeySet(listed), now))
    {
      entries := listed;
      var pins := if b in pinned then pinned[b] else [];
      var shown := KeySet(listed);
      var kept: seq<Pin> := [];
      for i := 0 to |pins|
        invariant kept == KeptPins(pins[..i], shown, now)
        invariant entries == listed + PinEntries(kept)
      {
        assert pins[..i+1][..i] == pins[..i];
        if pins[i].entry.key in shown || pins[i].expires < now {
          continue;
        }
        assert PinEntries(kept + [pins[i]]) == PinEntries(kept) + [pins[i].entry];
        entries := entries + [pins[i].entry];
        kept := kept + [pins[i]];
      }
      assert pins[..|pins|] == pins;
      pinned := pinned[b := kept];
    }

    /** The database half of a reconcile: UIDs for the new keys, tombstones for the missing ones. */
    method AssignUids(b: Box, entries: seq<Entry>, version: nat, at: real, t: Tick) returns (snap: Snapshot)
      modifies store
      ensures store.Tables() == Assigned(old(store.Tables()), b, entries, t)
      ensures snap == SnapshotOf(old(store.Tables()), b, entries, version, at, t)
    {
      AllKeysLive(store.Tables(), b, entries, t);
      var live := store.Ensure(b, Keys(entries), t);
      var _ := store.Tombstone(b, KeySet(entries));
      var uidvalidity, uidnext := store.MailboxInfo(b, t);
      snap := Snapshot(b, uidvalidity, uidnext, SortItems(Built(entries, live)), version, at);
    }

    /** The part of `_do_sync` after the listing is complete: no `await`, so one atomic step. */
    method Reconcile(b: Box, listed: seq<Entry>, now: real, at: real, t: Tick) returns (snap: Snapshot)
      modifies this, store
      ensures store.Tables() == ReconcileDisk(old(store.Tables()), old(State()), b, listed, now, t)
      ensures State() == ReconcileService(old(store.Tables()), old(State()), b, listed, now, at, t)
      ensures snap == ReconcileSnapshot(old(store.Tables()), old(State()), b, listed, now, at, t)
    {
      ghost var s0, d0 := State(), store.Tables();
      var entries := ApplyPins(b, listed, now);
      ghost var s1 := State();
      entries := SortEntries(entries);
      assert entries == Ordered(s0.Pins(b), listed, now);
      var version := (if b in versions then versions[b] else 0) + 1;
      assert version == s0.Version(b) + 1;
      snap := AssignUids(b, entries, version, at, t);
      assert State() == s1;
      assert snap == ReconcileSnapshot(d0, s0, b, listed, now, at, t);
      Publish(b, snap);
    }

    /** The step of `append_draft` after the POST: the UID comes from the create response. */
    method AppendCreated(b: Box, e: Entry, now: real, t: Tick) returns (uidvalidity: nat, uid: nat)
      modifies this, store
      ensures store.Tables() == PinnedDisk(old(store.Tables()), b, e, t)
      ensures State() == Pinned(old(State()), b, e, now).Bumped(b)
      ensures e.key in store.boxes[b].live && uid == store.boxes[b].live[e.key]
      ensures uidvalidity == store.boxes[b].uidvalidity
    {
      PinnedIsLive(store.Tables(), b, e, t);
      uidvalidity, uid := AllocateCreated(b, e.key, t);
      PinEntry(b, e, now);
      Bump(b);
    }

    method PinEntry(b: Box, e: Entry, now: real)
      modifies this`pinned
      ensures State() == Pinned(old(State()), b, e, now)
    {
      pinned := pinned[b := SetPin(if b in pinned then pinned[b] else [], Pin(e, now + PIN_TTL))];
    }

    method HoldFor(m: Msg, labels: set<string>, now: real)
      modifies this`holds
      ensures State() == old(State()).(holds := HoldLabels(old(holds), m, labels, now))
    {
      holds := holds[m := Hold(now + HOLD_TTL, labels)];
    }

    method Unpin(b: Box, key: string)
      modifies this`pinned
      ensures State() == old(State()).WithPins(b, RemovePin(old(State()).Pins(b), key))
      ensures var was, i := old(State()).Pins(b), PinIndex(old(State()).Pins(b), key);
              State().Pins(b) == if i < |was| then was[..i] + was[i+1..] else was
    {
      RemovePinIsOne(State().Pins(b), key);
      pinned := pinned[b := RemovePin(if b in pinned then pinned[b] else [], key)];
    }

    /** A mutation is over: syncs that started before it no longer count as its outcome. */
    method Bump(b: Box)
      modifies this`generation
      ensures State() == old(State()).Bumped(b)
    {
      generation := generation[b := (if b in generation then generation[b] else 0) + 1];
    }

    method Publish(b: Box, snap: Snapshot)
      modifies this`versions, this`latest
      ensures State() == old(State()).Published(b, snap)
    {
      versions := versions[b := snap.version];
      latest := latest[b := snap];
    }

    method AllocateCreated(b: Box, key: string, t: Tick) returns (uidvalidity: nat, uid: nat)
      requires key in EnsureUids(store.Tables(), b, [key], t).boxes[b].live
      modifies store
      ensures store.Tables() == EnsureUids(old(store.Tables()), b, [key], t)
      ensures key in store.boxes[b].live && uid == store.boxes[b].live[key]
      ensures uidvalidity == store.boxes[b].uidvalidity
    {
      var live := store.Ensure(b, [key], t);
      uid := live[key];
      var next;
      uidvalidity, next := store.MailboxInfo(b, t);
    }

    method Replace(b: Box, updated: Item)
      modifies this`latest
      ensures State() == ReplaceItem(old(State()), b, updated)
    {
      if b !in latest || updated.uid !in latest[b].Uids() {
        return;
      }
      var items := latest[b].items;
      var out: seq<Item> := [];
      for i := 0 to |items|
        invariant |out| == i
        invariant forall j :: 0 <= j < i ==> out[j] == if items[j].uid == updated.uid then updated else items[j]
      {
        out := out + [if items[i].uid == updated.uid then updated else items[i]];
      }
      assert out == ReplaceItem(State(), b, updated).latest[b].items;
      latest := latest[b := latest[b].(items := out)];
    }
  }

  function ConsumeAll(b: Box, holds: map<Msg, Hold>, listing: seq<Listed>, times: seq<real>)
    : (Collected, map<Msg, Hold>)
    requires |times| == |listing|
  {
    if listing == [] then (Collected({}, []), holds)
    else
      var n := |listing| - 1;
      var (c, h) := ConsumeAll(b, holds, listing[..n], times[..n]);
      Consume(b, c, h, listing[n], times[n])
  }
}
