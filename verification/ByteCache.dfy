/** The byte-budgeted cache: an ordered dictionary, oldest first, and a running byte counter. */
module ByteCaches {
  import opened Types

  datatype Slot = Slot(key: string, data: string)

  function Find(items: seq<Slot>, key: string): (r: Option<string>)
    ensures r.Some? <==> exists i :: 0 <= i < |items| && items[i].key == key
  {
    if items == [] then None
    else if items[0].key == key then Some(items[0].data)
    else Find(items[1..], key)
  }

  /** `pop(key, None)`. */
  function Without(items: seq<Slot>, key: string): seq<Slot> {
    if items == [] then []
    else if items[0].key == key then items[1..]
    else [items[0]] + Without(items[1..], key)
  }

  function Bytes(items: seq<Slot>): nat {
    if items == [] then 0 else |items[0].data| + Bytes(items[1..])
  }

  datatype Cache = Cache(items: seq<Slot>, size: int)

  /** The eviction loop: oldest first until the counter fits or nothing is left. */
  function Evict(c: Cache, max: nat): Cache
    decreases |c.items|
  {
    if c.size > max && c.items != [] then Evict(Cache(c.items[1..], c.size - |c.items[0].data|), max)
    else c
  }

  datatype Op = Get(key: string) | Put(key: string, data: string) | Discard(key: string) | Clear

  /** `_size` after `key` was popped and its bytes subtracted. */
  function SizeWithout(c: Cache, key: string): int {
    match Find(c.items, key) case None => c.size case Some(was) => c.size - |was|
  }

  function Inserted(c: Cache, key: string, data: string): Cache {
    Cache(Without(c.items, key) + [Slot(key, data)], SizeWithout(c, key) + |data|)
  }

  function Step(max: nat, c: Cache, op: Op): Cache {
    match op
    case Get(key) =>
      (match Find(c.items, key)
       case None => c
       case Some(data) => c.(items := Without(c.items, key) + [Slot(key, data)]))
    case Put(key, data) =>
      if |data| > max then c.(items := Without(c.items, key))
      else Evict(Inserted(c, key, data), max)
    case Discard(key) => Cache(Without(c.items, key), SizeWithout(c, key))
    case Clear => Cache([], 0)
  }

  class ByteCache {
    const maxBytes: nat
    var items: seq<Slot>
    var size: int

    ghost function State(): Cache
      reads this
    {
      Cache(items, size)
    }

    constructor (max: int)
      ensures State() == Cache([], 0) && maxBytes == if max < 0 then 0 else max
    {
      maxBytes := if max < 0 then 0 else max;
      items, size := [], 0;
    }

    method Lookup(key: string) returns (data: Option<string>)
      modifies this`items
      ensures State() == Step(maxBytes, old(State()), Get(key)) && data == Find(old(items), key)
    {
      data := Find(items, key);
      if data.Some? {
        items := Without(items, key) + [Slot(key, data.value)];
      }
    }

    method Store(key: string, data: string)
      modifies this
      ensures State() == Step(maxBytes, old(State()), Put(key, data))
    {
      if |data| > maxBytes {
        items := Without(items, key);
        return;
      }
      var was := Find(items, key);
      items := Without(items, key);
      if was.Some? {
        size := size - |was.value|;
      }
      items := items + [Slot(key, data)];
      size := size + |data|;
      ghost var full := State();
      while size > maxBytes && items != []
        invariant Evict(State(), maxBytes) == Evict(full, maxBytes)
        decreases |items|
      {
        var evicted := items[0];
        items := items[1..];
        size := size - |evicted.data|;
      }
    }

    method Drop(key: string)
      modifies this
      ensures State() == Step(maxBytes, old(State()), Discard(key))
    {
      var was := Find(items, key);
      items := Without(items, key);
      if was.Some? {
        size := size - |was.value|;
      }
    }

    method Empty()
      modifies this
      ensures State() == Step(maxBytes, old(State()), Clear)
    {
      items := [];
      size := 0;
    }
  }

  // ----- whole runs -----------------------------------------------------------------------------

  function Run(max: nat, ops: seq<Op>): Cache {
    if ops == [] then Cache([], 0) else Step(max, Run(max, ops[..|ops|-1]), ops[|ops|-1])
  }

  /** The value a key stands for after a run: what the last operation that named it left. */
  function Current(max: nat, ops: seq<Op>, key: string): Option<string> {
    if ops == [] then None
    else
      match ops[|ops|-1]
      case Put(k, data) =>
        if k != key then Current(max, ops[..|ops|-1], key) else if |data| > max then None else Some(data)
      case Discard(k) => if k == key then None else Current(max, ops[..|ops|-1], key)
      case Clear => None
      case Get(_) => Current(max, ops[..|ops|-1], key)
  }

  /** One more than the position of the last read or write of `key`. */
  function LastUse(ops: seq<Op>, key: string): (r: nat)
    ensures r <= |ops|
  {
    if ops == [] then 0
    else
      var op := ops[|ops|-1];
      if (op.Get? || op.Put?) && op.key == key then |ops| else LastUse(ops[..|ops|-1], key)
  }

  /** Bytes that left through an oversize write over an existing key, which drops the entry without
      correcting the counter. Only `Clear` forgets them. */
  function Leak(max: nat, ops: seq<Op>): nat {
    if ops == [] then 0
    else
      var before := Leak(max, ops[..|ops|-1]);
      match ops[|ops|-1]
      case Put(key, data) =>
        if |data| > max then
          match Find(Run(max, ops[..|ops|-1]).items, key) case None => before case Some(was) => before + |was|
        else before
      case Clear => 0
      case Get(_) => before
      case Discard(_) => before
  }

  ghost predicate Distinct(items: seq<Slot>) {
    forall i, j :: 0 <= i < j < |items| ==> items[i].key != items[j].key
  }

  // ----- the ordered dictionary ----------------------------------------------------------------

  lemma {:induction false} FindMember(items: seq<Slot>, i: nat)
    requires Distinct(items) && i < |items|
    ensures Find(items, items[i].key) == Some(items[i].data)
  {
    if i > 0 {
      assert items[i] == items[1..][i-1];
      FindMember(items[1..], i - 1);
    }
  }

  lemma {:induction false} FoundAt(items: seq<Slot>, key: string) returns (i: nat)
    requires Find(items, key).Some?
    ensures i < |items| && items[i] == Slot(key, Find(items, key).value)
  {
    if items[0].key == key { return 0; }
    var j := FoundAt(items[1..], key);
    return j + 1;
  }

  lemma {:induction false} BytesAppend(a: seq<Slot>, b: seq<Slot>)
    ensures Bytes(a + b) == Bytes(a) + Bytes(b)
  {
    if a == [] {
      assert a + b == b;
    } else {
      BytesAppend(a[1..], b);
      assert (a + b)[1..] == a[1..] + b;
    }
  }

  /** Popping a key removes its slot and nothing else, in order. */
  lemma {:induction false} WithoutExact(items: seq<Slot>, key: string) returns (at: nat)
    ensures Find(items, key).None? ==> Without(items, key) == items && at == |items|
    ensures Find(items, key).Some? ==>
              at < |items| && items[at] == Slot(key, Find(items, key).value)
                  && Without(items, key) == items[..at] + items[at+1..]
  {
    if items == [] { return 0; }
    if items[0].key == key { return 0; }
    var j := WithoutExact(items[1..], key);
    at := j + 1;
    if Find(items, key).Some? {
      assert Without(items, key) == [items[0]] + Without(items[1..], key);
      hide *;
      CutOne(items, j);
    } else {
      assert [items[0]] + items[1..] == items;
    }
  }

  lemma CutOne<T>(s: seq<T>, j: nat)
    requires j + 1 < |s|
    ensures s[..j+1] + s[j+2..] == [s[0]] + (s[1..][..j] + s[1..][j+1..])
  {
  }

  lemma {:induction false} WithoutBytes(items: seq<Slot>, key: string)
    ensures Bytes(Without(items, key)) == Bytes(items) - if Find(items, key).Some? then |Find(items, key).value| else 0
  {
    if items != [] && items[0].key != key {
      WithoutBytes(items[1..], key);
      assert Without(items, key)[1..] == Without(items[1..], key);
    }
  }

  lemma WithoutDistinct(items: seq<Slot>, key: string)
    requires Distinct(items)
    ensures Distinct(Without(items, key))
  {
    hide Without;
    var at := WithoutExact(items, key);
  }

  /** The survivors are what is left after the shortest prefix that brings the counter down. */
  lemma {:induction false} EvictExact(c: Cache, max: nat) returns (n: nat)
    ensures n <= |c.items| && Evict(c, max) == Cache(c.items[n..], c.size - Bytes(c.items[..n]))
    ensures n < |c.items| ==> c.size - Bytes(c.items[..n]) <= max
    ensures forall m :: 0 <= m < n ==> c.size - Bytes(c.items[..m]) > max
    decreases |c.items|
  {
    if c.size > max && c.items != [] {
      var d := Cache(c.items[1..], c.size - |c.items[0].data|);
      var k := EvictExact(d, max);
      n := k + 1;
      assert c.items[1..][k..] == c.items[n..];
      forall m | 0 < m <= n ensures Bytes(c.items[..m]) == |c.items[0].data| + Bytes(d.items[..m-1]) {
        assert c.items[..m][1..] == d.items[..m-1];
      }
    } else {
      n := 0;
      assert c.items[0..] == c.items;
    }
  }

  // ----- the counter and the bytes held -----------------------------------------------------------

  ghost predicate Accounted(max: nat, c: Cache, leak: nat) {
    Distinct(c.items) && c.size == Bytes(c.items) + leak && c.size <= max
  }

  lemma InsertAccounted(max: nat, c: Cache, leak: nat, key: string, data: string)
    requires Accounted(max, c, leak)
    ensures var d := Inserted(c, key, data);
            Distinct(d.items) && d.size == Bytes(d.items) + leak && d.items[|d.items|-1] == Slot(key, data)
  {
    WithoutBytes(c.items, key);
    WithoutValues(c.items, key);
    WithoutDistinct(c.items, key);
    var rest := Without(c.items, key);
    hide Without, Find;
    assert forall i :: 0 <= i < |rest| ==> rest[i] in rest;
    BytesAppend(rest, [Slot(key, data)]);
  }

  lemma EvictAccounted(max: nat, c: Cache, leak: nat) returns (n: nat)
    requires Distinct(c.items) && c.size == Bytes(c.items) + leak && leak <= max
    ensures Accounted(max, Evict(c, max), leak)
    ensures n <= |c.items| && Evict(c, max).items == c.items[n..]
    ensures n < |c.items| ==> leak + Bytes(c.items[n..]) <= max
    ensures n > 0 ==> leak + Bytes(c.items[n-1..]) > max
  {
    hide Evict, Bytes, Distinct;
    n := EvictExact(c, max);
    NoBytes(c.items);
    DistinctFrom(c.items, n);
    BytesCut(c.items, n);
    if n > 0 {
      BytesCut(c.items, n - 1);
    }
  }

  lemma NoBytes(items: seq<Slot>)
    ensures Bytes([]) == 0 && items[|items|..] == []
  {
  }

  lemma BytesCut(items: seq<Slot>, n: nat)
    requires n <= |items|
    ensures Bytes(items) == Bytes(items[..n]) + Bytes(items[n..])
  {
    hide Bytes;
    BytesAppend(items[..n], items[n..]);
    assert items[..n] + items[n..] == items;
  }

  lemma DistinctFrom(items: seq<Slot>, n: nat)
    requires Distinct(items) && n <= |items|
    ensures Distinct(items[n..])
  {
  }

  lemma StepAccounted(max: nat, c: Cache, leak: nat, op: Op)
    requires Accounted(max, c, leak)
    ensures Accounted(max, Step(max, c, op),
                      if op.Clear? then 0
                      else if op.Put? && |op.data| > max && Find(c.items, op.key).Some?
                          then leak + |Find(c.items, op.key).value|
                      else leak)
  {
    match op
    case Clear =>
    case Discard(key) =>
      WithoutBytes(c.items, key);
      WithoutDistinct(c.items, key);
    case Get(key) =>
      WithoutBytes(c.items, key);
      if Find(c.items, key).Some? {
        InsertAccounted(max, c, leak, key, Find(c.items, key).value);
      }
    case Put(key, data) =>
      if |data| > max {
        WithoutBytes(c.items, key);
        WithoutDistinct(c.items, key);
      } else {
        InsertAccounted(max, c, leak, key, data);
        var n := EvictAccounted(max, Inserted(c, key, data), leak);
      }
  }

  /** After every run the counter is the bytes held plus the bytes leaked, and neither exceeds the
      budget: so it never undercounts, and it is exact if and only if nothing has leaked since the last
      `Clear`. */
  lemma {:induction false} CounterIsHeldPlusLeak(max: nat, ops: seq<Op>)
    ensures var c := Run(max, ops);
            && Distinct(c.items)
            && c.size == Bytes(c.items) + Leak(max, ops)
            && Bytes(c.items) <= c.size <= max
            && (c.size == Bytes(c.items) <==> Leak(max, ops) == 0)
  {
    if ops != [] {
      var before := ops[..|ops|-1];
      CounterIsHeldPlusLeak(max, before);
      StepAccounted(max, Run(max, before), Leak(max, before), ops[|ops|-1]);
    }
  }

  /** One oversize write is enough: nothing is held and the counter reads 2. */
  lemma OversizeWriteLeaks()
    ensures var c := Run(2, [Put("k", "ab"), Put("k", "abc")]); c.items == [] && c.size == 2
  {
    var one := [Put("k", "ab")];
    var two := [Put("k", "ab"), Put("k", "abc")];
    assert two[..1] == one && one[..0] == [];
    assert Run(2, one) == Cache([Slot("k", "ab")], 2) by {
      assert Without([], "k") + [Slot("k", "ab")] == [Slot("k", "ab")];
      assert Run(2, []) == Cache([], 0);
    }
  }

  // ----- what a hit returns ----------------------------------------------------------------------

  lemma WithoutValues(items: seq<Slot>, key: string)
    requires Distinct(items)
    ensures forall s :: s in Without(items, key) ==> s in items && s.key != key
  {
    var at := WithoutExact(items, key);
    if Find(items, key).None? {
      forall s | s in items ensures s.key != key {
      }
    }
  }

  /** A hit returns what was last put under that key, whatever happened in between. */
  lemma {:induction false} HeldIsCurrent(max: nat, ops: seq<Op>, s: Slot)
    requires s in Run(max, ops).items
    ensures Current(max, ops, s.key) == Some(s.data)
  {
    if ops != [] {
      var before, op := ops[..|ops|-1], ops[|ops|-1];
      var c := Run(max, before);
      CounterIsHeldPlusLeak(max, before);
      if !op.Clear? {
        WithoutValues(c.items, op.key);
        if op.Get? && Find(c.items, op.key).Some? {
          var i := FoundAt(c.items, op.key);
        }
        if op.Put? && |op.data| <= max {
          var n := EvictExact(Inserted(c, op.key, op.data), max);
        }
        if s in c.items {
          HeldIsCurrent(max, before, s);
        }
      }
    }
  }

  lemma HitIsLastPut(max: nat, ops: seq<Op>, key: string)
    requires Find(Run(max, ops).items, key).Some?
    ensures Current(max, ops, key) == Find(Run(max, ops).items, key)
  {
    var i := FoundAt(Run(max, ops).items, key);
    HeldIsCurrent(max, ops, Run(max, ops).items[i]);
  }

  /** A value just put can be read back if and only if it fits beside the leaked bytes. */
  lemma PutIsKeptIff(max: nat, ops: seq<Op>, key: string, data: string)
    requires |data| <= max
    ensures Find(Run(max, ops + [Put(key, data)]).items, key) == Some(data) <==> Leak(max, ops) + |data| <= max
    ensures Leak(max, ops) + |data| > max ==> Run(max, ops + [Put(key, data)]).items == []
  {
    var c, leak := Run(max, ops), Leak(max, ops);
    assert (ops + [Put(key, data)])[..|ops|] == ops;
    CounterIsHeldPlusLeak(max, ops);
    InsertAccounted(max, c, leak, key, data);
    var d := Inserted(c, key, data);
    assert Run(max, ops + [Put(key, data)]) == Evict(d, max);
    hide *;
    LastIsKeptIff(max, d, leak, Slot(key, data));
  }

  /** Eviction keeps the newest entry exactly when it fits beside the leaked bytes. */
  lemma LastIsKeptIff(max: nat, d: Cache, leak: nat, s: Slot)
    requires Distinct(d.items) && d.size == Bytes(d.items) + leak && leak <= max
    requires d.items != [] && d.items[|d.items|-1] == s
    ensures Find(Evict(d, max).items, s.key) == Some(s.data) <==> leak + |s.data| <= max
    ensures leak + |s.data| > max ==> Evict(d, max).items == []
  {
    hide Bytes, Evict, Accounted, Distinct, Find;
    var n := EvictAccounted(max, d, leak);
    FindNothing(s.key);
    if n < |d.items| {
      LastOf(d.items, n);
    } else {
      LastAlone(d.items);
    }
  }

  lemma LastAlone(items: seq<Slot>)
    requires items != []
    ensures items[|items|..] == [] && Bytes(items[|items|-1..]) == |items[|items|-1].data|
  {
    assert items[|items|-1..] == [items[|items|-1]];
    OneSlotBytes(items[|items|-1]);
  }

  lemma LastOf(items: seq<Slot>, n: nat)
    requires n < |items| && Distinct(items)
    ensures var s := items[|items|-1]; Bytes(items[n..]) >= |s.data| && Find(items[n..], s.key) == Some(s.data)
  {
    hide Bytes, Distinct, Find;
    var last := |items| - 1;
    LastAlone(items);
    BytesCut(items[n..], last - n);
    assert items[n..][last - n..] == items[last..];
    DistinctFrom(items, n);
    FindMember(items[n..], last - n);
  }

  lemma OneSlotBytes(s: Slot)
    ensures Bytes([s]) == |s.data|
  {
  }

  lemma FindNothing(key: string)
    ensures Find([], key) == None
  {
  }

  // ----- least recent use ---------------------------------------------------------------------------

  ghost predicate ByUse(items: seq<Slot>, ops: seq<Op>) {
    forall i, j :: 0 <= i < j < |items| ==> LastUse(ops, items[i].key) < LastUse(ops, items[j].key)
  }

  lemma UseStep(ops: seq<Op>, op: Op, key: string)
    ensures LastUse(ops + [op], key) == if (op.Get? || op.Put?) && op.key == key then |ops| + 1 else LastUse(ops, key)
  {
    assert (ops + [op])[..|ops|] == ops;
  }

  lemma WithoutByUse(items: seq<Slot>, ops: seq<Op>, key: string)
    requires ByUse(items, ops)
    ensures ByUse(Without(items, key), ops)
  {
    var at := WithoutExact(items, key);
    hide Without, LastUse, Find;
    if Find(items, key).Some? {
      assert forall i :: 0 <= i < |items| - 1 ==> Without(items, key)[i] == if i < at then items[i] else items[i+1];
    }
  }

  /** An operation on a key leaves the order of all other keys alone. */
  lemma RemovedStays(items: seq<Slot>, ops: seq<Op>, op: Op)
    requires Distinct(items) && ByUse(items, ops) && !op.Clear?
    ensures ByUse(Without(items, op.key), ops + [op])
    ensures forall s :: s in Without(items, op.key) ==> LastUse(ops + [op], s.key) <= |ops|
  {
    WithoutByUse(items, ops, op.key);
    WithoutValues(items, op.key);
    var rest := Without(items, op.key);
    hide Without, LastUse, Find;
    forall s | s in rest ensures LastUse(ops + [op], s.key) == LastUse(ops, s.key) <= |ops| {
      UseStep(ops, op, s.key);
    }
    assert forall i :: 0 <= i < |rest| ==> rest[i] in rest;
  }

  /** Moving the key just used to the end keeps the order of last use. */
  lemma UsedLast(items: seq<Slot>, ops: seq<Op>, op: Op, data: string)
    requires Distinct(items) && ByUse(items, ops) && (op.Get? || op.Put?)
    ensures ByUse(Without(items, op.key) + [Slot(op.key, data)], ops + [op])
  {
    RemovedStays(items, ops, op);
    UseStep(ops, op, op.key);
    var rest := Without(items, op.key);
    hide Without, LastUse;
    assert forall i :: 0 <= i < |rest| ==> rest[i] in rest;
  }

  /** After every run the entries lie in the order of their last use. */
  lemma {:induction false} OrderIsLastUse(max: nat, ops: seq<Op>)
    ensures ByUse(Run(max, ops).items, ops)
  {
    if ops != [] {
      var before, op := ops[..|ops|-1], ops[|ops|-1];
      var c := Run(max, before);
      OrderIsLastUse(max, before);
      CounterIsHeldPlusLeak(max, before);
      assert ops == before + [op];
      match op
      case Clear =>
      case Discard(key) => RemovedStays(c.items, before, op);
      case Get(key) =>
        if Find(c.items, key).Some? {
          UsedLast(c.items, before, op, Find(c.items, key).value);
        } else {
          RemovedStays(c.items, before, op);
          var at := WithoutExact(c.items, key);
        }
      case Put(key, data) =>
        if |data| > max {
          RemovedStays(c.items, before, op);
        } else {
          UsedLast(c.items, before, op, data);
          var n := EvictExact(Inserted(c, key, data), max);
        }
    }
  }

  lemma RunPut(max: nat, ops: seq<Op>, key: string, data: string)
    requires |data| <= max
    ensures Run(max, ops + [Put(key, data)]) == Evict(Inserted(Run(max, ops), key, data), max)
  {
    hide Evict, Inserted;
    assert (ops + [Put(key, data)])[..|ops|] == ops;
  }

  /** What a write throws out: every entry it drops was used less recently than every entry it keeps,
      and keeping the last one dropped as well would have gone over the budget. */
  lemma EvictsLeastRecent(max: nat, ops: seq<Op>, key: string, data: string) returns (n: nat)
    requires |data| <= max
    ensures var full := Without(Run(max, ops).items, key) + [Slot(key, data)];
            var ops' := ops + [Put(key, data)];
            && n <= |full| && Run(max, ops').items == full[n..]
            && (forall i, j :: 0 <= i < n <= j < |full| ==> LastUse(ops', full[i].key) < LastUse(ops', full[j].key))
            && (n > 0 ==> Bytes(full[n-1..]) + Leak(max, ops) > max)
  {
    hide Run, Evict, Without, Distinct, LastUse, Leak, Bytes, SizeWithout;
    var c := Run(max, ops);
    RunPut(max, ops, key, data);
    CounterIsHeldPlusLeak(max, ops);
    OrderIsLastUse(max, ops);
    UsedLast(c.items, ops, Put(key, data), data);
    InsertAccounted(max, c, Leak(max, ops), key, data);
    n := EvictAccounted(max, Inserted(c, key, data), Leak(max, ops));
  }
}
