/** The durable UID store: its tables, its transactions, and the sidecar watermark. */
module UidStores {
  import opened Types

  const MAX_UIDVALIDITY: nat := 0xFFFF_FFFF

  /** A row of `uid_map` without the columns nothing reads back. */
  datatype Row = Row(uid: nat, key: string)

  /** A row of `mailbox` with the rows of `uid_map` that reference it: `live` holds those whose
      `vanished_at` is null, by the unique index on their key, and `dead` holds the tombstones. */
  datatype Mailbox = Mailbox(uidvalidity: nat, nextUid: nat, live: map<string, nat>, dead: set<Row>)
  {
    /** Every UID ever allocated lies below the frontier and names one row. */
    ghost predicate Valid() {
      && 1 <= nextUid
      && (forall k :: k in live ==> 1 <= live[k] < nextUid)
      && (forall k, l :: k in live && l in live && live[k] == live[l] ==> k == l)
      && (forall r :: r in dead ==> 1 <= r.uid < nextUid)
      && (forall r, s :: r in dead && s in dead && r.uid == s.uid ==> r == s)
      && (forall r, k :: r in dead && k in live ==> r.uid != live[k])
    }

    /** The row `uid` exists, live or tombstoned, and carries `key`. */
    ghost predicate Binds(uid: nat, key: string) {
      (key in live && live[key] == uid) || Row(uid, key) in dead
    }
  }

  /** The primary key `(inbox_id, name, uid)` of `deleted_mark`. */
  datatype Name = Name(box: Box, uid: nat)

  /** What the environment decides during one call: the wall clock in whole seconds, and whether the
      best-effort sidecar write succeeds. */
  datatype Tick = Tick(clock: int, sidecarWritten: bool)

  /** `deleted_uids`: the marked UIDs of a mailbox. */
  function MarkedIn(marks: set<Name>, b: Box): (r: set<nat>)
    ensures forall u :: u in r <==> Name(b, u) in marks
  {
    set n | n in marks && n.box == b :: n.uid
  }

  datatype Disk = Disk(boxes: map<Box, Mailbox>, marks: set<Name>, watermark: nat)
  {
    ghost predicate Valid() {
      forall b :: b in boxes ==> boxes[b].Valid()
    }

    function Live(b: Box): map<string, nat> {
      if b in boxes then boxes[b].live else map[]
    }

    function Marked(b: Box): set<nat> { MarkedIn(marks, b) }
  }

  const EMPTY := Disk(map[], {}, 0)

  // ----- transactions as functions of the tables ------------------------------------------------

  function Max(x: int, y: int): int { if x < y then y else x }
  function Min(x: int, y: int): int { if x < y then x else y }

  function NextUidvalidity(watermark: nat, clock: int): nat {
    Min(Max(Max(1, clock), watermark + 1), MAX_UIDVALIDITY)
  }

  /** What a new value must be: in range, not behind the clock, and above what the sidecar remembers. */
  predicate Usable(v: nat, watermark: nat, clock: int) {
    1 <= v <= 0xFFFF_FFFF && v >= clock && v > watermark
  }

  /** A new value exceeds everything the sidecar remembers exactly until the 32-bit ceiling has been
      issued; from then on every new mailbox row gets that ceiling again. */
  lemma FreshValidityIff(watermark: nat, clock: int)
    requires watermark <= 0xFFFF_FFFF
    ensures NextUidvalidity(watermark, clock) > watermark <==> watermark < 0xFFFF_FFFF
  {
  }

  function EnsureMailbox(d: Disk, b: Box, t: Tick): (r: Disk)
    ensures b in r.boxes
    ensures d.Valid() ==> r.Valid()
  {
    if b in d.boxes then d
    else
      var v := NextUidvalidity(d.watermark, t.clock);
      d.(boxes := d.boxes[b := Mailbox(v, 1, map[], {})],
      watermark := if t.sidecarWritten then v else d.watermark)
  }

  function Allocate(m: Mailbox, key: string): (r: Mailbox)
    ensures m.Valid() ==> r.Valid()
  {
    if key in m.live then m
    else m.(live := m.live[key := m.nextUid], nextUid := m.nextUid + 1)
  }

  function AllocateAll(m: Mailbox, keys: seq<string>): (r: Mailbox)
    ensures m.Valid() ==> r.Valid()
  {
    if keys == [] then m else Allocate(AllocateAll(m, keys[..|keys|-1]), keys[|keys|-1])
  }

  function EnsureUids(d: Disk, b: Box, keys: seq<string>, t: Tick): (r: Disk)
    ensures b in r.boxes
    ensures d.Valid() ==> r.Valid()
  {
    var e := EnsureMailbox(d, b, t);
    e.(boxes := e.boxes[b := AllocateAll(e.boxes[b], keys)])
  }

  function Bury(m: Mailbox, present: set<string>): (r: Mailbox)
    ensures m.Valid() ==> r.Valid()
  {
    m.(live := map k | k in m.live && k in present :: m.live[k],
    dead := m.dead + set k | k in m.live && k !in present :: Row(m.live[k], k))
  }

  function GoneUids(live: map<string, nat>, present: set<string>): set<nat> {
    set k | k in live && k !in present :: live[k]
  }

  function Unmarked(marks: set<Name>, b: Box, gone: set<nat>): set<Name> {
    set n | n in marks && !(n.box == b && n.uid in gone)
  }

  function TombstoneMissing(d: Disk, b: Box, present: set<string>): (r: Disk)
    requires b in d.boxes
    ensures r.boxes.Keys == d.boxes.Keys
    ensures d.Valid() ==> r.Valid()
  {
    d.(boxes := d.boxes[b := Bury(d.boxes[b], present)],
    marks := Unmarked(d.marks, b, GoneUids(d.boxes[b].live, present)))
  }

  function SetDeleted(d: Disk, b: Box, uids: set<nat>, value: bool): Disk {
    var names := set u | u in uids :: Name(b, u);
    d.(marks := if value then d.marks + names else d.marks - names)
  }

  /** A database that was lost or set aside as corrupt; the sidecar next to it survives. */
  function LoseDatabase(d: Disk): Disk {
    EMPTY.(watermark := d.watermark)
  }

  // ----- what an allocation does ---------------------------------------------------------------

  /** Keys of the list that have no live UID yet, each once, in list order. */
  ghost function NewKeys(keys: seq<string>, live: map<string, nat>): seq<string> {
    if keys == [] then []
    else
      var r := NewKeys(keys[..|keys|-1], live);
      var k := keys[|keys|-1];
      if k in live || k in r then r else r + [k]
  }

  /** The keys `added` were numbered consecutively from the frontier of `m`; nothing else changed. */
  ghost predicate Allocated(m: Mailbox, r: Mailbox, keys: seq<string>, added: seq<string>) {
    && r.uidvalidity == m.uidvalidity && r.dead == m.dead
    && r.nextUid == m.nextUid + |added|
    && (forall k :: k in r.live <==> k in m.live || k in keys)
    && (forall k :: k in m.live ==> r.live[k] == m.live[k])
    && (forall i :: 0 <= i < |added| ==>
          added[i] !in m.live && added[i] in r.live && r.live[added[i]] == m.nextUid + i)
    && (forall k :: k in keys && k !in m.live ==> k in added)
  }

  /** Allocation keeps every row and numbers the unseen keys consecutively, in list order, from the
      frontier. */
  lemma {:induction false} AllocateAllExact(m: Mailbox, keys: seq<string>)
    ensures Allocated(m, AllocateAll(m, keys), keys, NewKeys(keys, m.live))
  {
    if keys != [] {
      hide Allocated, Allocate;
      var front := keys[..|keys|-1];
      AllocateAllExact(m, front);
      assert keys == front + [keys[|keys|-1]];
      AllocatesOne(m, AllocateAll(m, front), front, NewKeys(front, m.live), keys[|keys|-1]);
    }
  }

  lemma AllocatesOne(m: Mailbox, r: Mailbox, keys: seq<string>, added: seq<string>, key: string)
    requires Allocated(m, r, keys, added)
    ensures Allocated(m, Allocate(r, key), keys + [key], if key in m.live || key in added then added else added + [key])
  {
  }

  // ----- the class -----------------------------------------------------------------------------

  class UidStore {
    var boxes: map<Box, Mailbox>
    var marks: set<Name>
    var watermark: nat

    ghost function Tables(): Disk
      reads this
    {
      Disk(boxes, marks, watermark)
    }

    constructor ()
      ensures Tables() == EMPTY && Tables().Valid()
    {
      boxes, marks, watermark := map[], {}, 0;
    }

    method NextValidity(t: Tick) returns (value: nat)
      modifies this
      ensures value == NextUidvalidity(old(watermark), t.clock)
      ensures 1 <= value <= 0xFFFF_FFFF && (value >= t.clock || value == 0xFFFF_FFFF)
      ensures value > old(watermark) <==> old(watermark) < 0xFFFF_FFFF
      ensures forall v :: Usable(v, old(watermark), t.clock) ==> value <= v
      ensures Tables() == old(Tables()).(watermark := if t.sidecarWritten then value else old(watermark))
    {
      value := Min(Max(Max(1, t.clock), watermark + 1), MAX_UIDVALIDITY);
      if t.sidecarWritten {
        watermark := value;
      }
    }

    method MailboxInfo(b: Box, t: Tick) returns (uidvalidity: nat, nextUid: nat)
      modifies this
      ensures Tables() == EnsureMailbox(old(Tables()), b, t)
      ensures uidvalidity == boxes[b].uidvalidity && nextUid == boxes[b].nextUid
    {
      if b !in boxes {
        var v := NextValidity(t);
        boxes := boxes[b := Mailbox(v, 1, map[], {})];
      }
      uidvalidity, nextUid := boxes[b].uidvalidity, boxes[b].nextUid;
    }

    /** Allocates UIDs for the unseen keys in the given order and returns the complete live map. The
        frontier is written once, at the end. */
    method Ensure(b: Box, keys: seq<string>, t: Tick) returns (live: map<string, nat>)
      modifies this
      ensures Tables() == EnsureUids(old(Tables()), b, keys, t)
      ensures live == Tables().Live(b)
    {
      var validity, next := MailboxInfo(b, t);
      live := boxes[b].live;
      ghost var start := boxes[b];
      for i := 0 to |keys|
        invariant AllocateAll(start, keys[..i]) == start.(live := live, nextUid := next)
      {
        assert keys[..i+1][..i] == keys[..i];
        if keys[i] !in live {
          live := live[keys[i] := next];
          next := next + 1;
        }
      }
      assert keys[..|keys|] == keys;
      boxes := boxes[b := boxes[b].(live := live, nextUid := next)];
    }

    /** Marks the live keys that are not present as vanished, drops their marks, and returns their
        UIDs in ascending order. */
    method Tombstone(b: Box, present: set<string>) returns (gone: seq<nat>)
      requires b in boxes
      modifies this
      ensures Tables() == TombstoneMissing(old(Tables()), b, present)
      ensures Ascending(gone) && forall u :: u in gone <==> u in GoneUids(old(boxes[b].live), present)
    {
      var live := boxes[b].live;
      gone := SortedUids(set k | k in live && k !in present :: live[k]);
      var vanished := set k | k in live && k !in present :: Row(live[k], k);
      boxes := boxes[b := boxes[b].(live := map k | k in live && k in present :: live[k],
      dead := boxes[b].dead + vanished)];
      DropMarks(b, gone);
      assert (set u | u in gone) == GoneUids(live, present);
    }

    method DropMarks(b: Box, gone: seq<nat>)
      modifies this`marks
      ensures marks == Unmarked(old(marks), b, set u | u in gone)
    {
      for i := 0 to |gone|
        invariant forall n :: n in marks <==> n in old(marks) && !(n.box == b && n.uid in gone[..i])
      {
        assert gone[..i+1] == gone[..i] + [gone[i]];
        marks := marks - {Name(b, gone[i])};
      }
      assert gone[..|gone|] == gone;
    }

    method Mark(b: Box, uids: seq<nat>, value: bool)
      modifies this
      ensures Tables() == SetDeleted(old(Tables()), b, (set u | u in uids), value)
    {
      for i := 0 to |uids|
        invariant boxes == old(boxes) && watermark == old(watermark)
        invariant marks == old(SetDeleted(Tables(), b, (set u | u in uids[..i]), value)).marks
      {
        assert uids[..i+1] == uids[..i] + [uids[i]];
        marks := if value then marks + {Name(b, uids[i])} else marks - {Name(b, uids[i])};
      }
      assert uids[..|uids|] == uids;
    }
  }

  /** `sorted(...)` over a set of numbers. */
  method SortedUids(s: set<nat>) returns (r: seq<nat>)
    ensures Ascending(r) && forall u :: u in r <==> u in s
  {
    r := [];
    var todo := s;
    while todo != {}
      invariant todo <= s && Ascending(r)
      invariant forall u :: u in r <==> u in s && u !in todo
      invariant forall i, v :: 0 <= i < |r| && v in todo ==> r[i] < v
      decreases |todo|
    {
      var m := Least(todo);
      r := r + [m];
      todo := todo - {m};
    }
  }

  method Least(s: set<nat>) returns (m: nat)
    requires s != {}
    ensures m in s && forall u :: u in s ==> m <= u
  {
    m :| m in s;
    var todo := s - {m};
    while todo != {}
      invariant m in s && todo <= s
      invariant forall u :: u in s && u !in todo ==> m <= u
      decreases |todo|
    {
      var u :| u in todo;
      todo := todo - {u};
      m := Min(m, u);
    }
  }
}
