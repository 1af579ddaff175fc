/** RFC822.SIZE and bodies of one received message: once reported, a size is remembered in the byte
    cache and nothing of another length is served. */
module Sizes {
  import opened Types
  import opened Decimal
  import opened ByteCaches

  function IntText(n: int): string { if n < 0 then "-" + Digits(-n) else Digits(n) }

  /** `int(text)`; `None` is a ValueError. */
  function ReadInt(s: string): Option<int> {
    if s != "" && AllDigits(s) then Some(ParseDigits(s))
    else if |s| > 1 && s[0] == '-' && AllDigits(s[1..]) then Some(0 - ParseDigits(s[1..]))
    else None
  }

  lemma IntReadsBack(n: int)
    ensures ReadInt(IntText(n)) == Some(n)
  {
    ParseUndoesDigits(if n < 0 then -n else n);
    hide Digits, ParseDigits;
    if n < 0 { assert !IsDigit(IntText(n)[0]); }
  }

  /** The cache keys of one message. */
  datatype Message = Message(inbox: string, key: string)
  {
    function BodyKey(): string { inbox + "\0body\0" + key }
    function SizeKey(): string { inbox + "\0size\0" + key }

    lemma KeysDiffer()
      ensures BodyKey() != SizeKey()
    {
      assert BodyKey()[|inbox| + 1] == 'b';
      assert SizeKey()[|inbox| + 1] == 's';
    }
  }

  datatype Reply = Served(body: string) | Reported(size: int) | Refused

  /** A call with what upstream would answer, the announced size and the downloaded bytes, each absent on a
      failed request, and with what the other users of the cache do while the call waits for that answer.
      Anything that happens to the cache between two calls is an `Elsewhere`. */
  datatype Call =
    | Body(announced: Option<int>, download: Option<string>, metaWait: seq<Op>, downloadWait: seq<Op>)
    | SizeOf(announced: Option<int>, metaWait: seq<Op>)
    | Elsewhere(op: Op)

  ghost predicate Foreign(m: Message, op: Op) {
    op.Clear? || (op.key != m.BodyKey() && op.key != m.SizeKey())
  }

  ghost predicate AllForeign(m: Message, ops: seq<Op>) {
    forall i :: 0 <= i < |ops| ==> Foreign(m, ops[i])
  }

  ghost predicate ForeignCall(m: Message, call: Call) {
    match call
    case Elsewhere(op) => Foreign(m, op)
    case Body(_, _, first, second) => AllForeign(m, first) && AllForeign(m, second)
    case SizeOf(_, wait) => AllForeign(m, wait)
  }

  function Others(max: nat, c: Cache, ops: seq<Op>): Cache {
    if ops == [] then c else Step(max, Others(max, c, ops[..|ops|-1]), ops[|ops|-1])
  }

  function Serve(max: nat, m: Message, c: Cache, call: Call): (Cache, Reply) {
    match call
    case Elsewhere(op) => (Step(max, c, op), Refused)
    case Body(announced, download, first, second) =>
      var body, looked := Find(c.items, m.BodyKey()), Step(max, c, Get(m.BodyKey()));
      if body.Some? then (looked, Served(body.value))
      else Fetched(max, m, Others(max, looked, first), announced, download, second)
    case SizeOf(announced, wait) =>
      var body, looked := Find(c.items, m.BodyKey()), Step(max, c, Get(m.BodyKey()));
      if body.Some? then (looked, Reported(|body.value|))
      else
        var size, asked := Find(looked.items, m.SizeKey()), Step(max, looked, Get(m.SizeKey()));
        if size.Some? then (asked, match ReadInt(size.value) case None => Refused case Some(n) => Reported(n))
        else Announced(max, m, Others(max, asked, wait), announced)
  }

  /** The size request has come back. */
  function Announced(max: nat, m: Message, c: Cache, announced: Option<int>): (Cache, Reply) {
    if announced.None? then (c, Refused)
    else (Step(max, c, Put(m.SizeKey(), IntText(announced.value))), Reported(announced.value))
  }

  /** The size request of a download has come back: the size is checked, then the download waits. */
  function Fetched(max: nat, m: Message, c: Cache, announced: Option<int>, download: Option<string>, wait: seq<Op>)
    : (Cache, Reply)
  {
    if announced.None? then (c, Refused)
    else
      var size, asked := Find(c.items, m.SizeKey()), Step(max, c, Get(m.SizeKey()));
      if size.Some? && ReadInt(size.value) != announced then (asked, Refused)
      else Downloaded(max, m, Others(max, asked, wait), announced.value, download)
  }

  function Downloaded(max: nat, m: Message, c: Cache, announced: int, download: Option<string>): (Cache, Reply) {
    if download.None? || |download.value| != announced then (c, Refused)
    else (KeptBoth(max, m, c, download.value), Served(download.value))
  }

  /** Both entries are written, the body first. */
  function KeptBoth(max: nat, m: Message, c: Cache, body: string): Cache {
    Step(max, Step(max, c, Put(m.BodyKey(), body)), Put(m.SizeKey(), IntText(|body|)))
  }

  /** The two operations on a shared cache. */
  class SizeService {
    const cache: ByteCache
    const m: Message

    constructor (cache: ByteCache, m: Message)
      ensures this.cache == cache && this.m == m
    {
      this.cache, this.m := cache, m;
    }

    /** The call is suspended, and other calls use the cache. */
    method Wait(ops: seq<Op>)
      modifies cache
      ensures cache.State() == Others(cache.maxBytes, old(cache.State()), ops)
    {
      for i := 0 to |ops|
        invariant cache.State() == Others(cache.maxBytes, old(cache.State()), ops[..i])
      {
        assert ops[..i+1][..i] == ops[..i];
        match ops[i]
        case Get(key) => var data := cache.Lookup(key);
        case Put(key, data) => cache.Store(key, data);
        case Discard(key) => cache.Drop(key);
        case Clear => cache.Empty();
      }
      assert ops[..|ops|] == ops;
    }

    method Raw(announced: Option<int>, download: Option<string>, first: seq<Op>, second: seq<Op>)
      returns (r: Reply)
      modifies cache
      ensures (cache.State(), r) == Serve(cache.maxBytes, m, old(cache.State()),
              Body(announced, download, first, second))
    {
      var body := cache.Lookup(m.BodyKey());
      if body.Some? {
        return Served(body.value);
      }
      Wait(first);
      if announced.None? {
        return Refused;
      }
      var size := cache.Lookup(m.SizeKey());
      if size.Some? && ReadInt(size.value) != announced {
        return Refused;
      }
      Wait(second);
      if download.None? || |download.value| != announced.value {
        return Refused;
      }
      cache.Store(m.BodyKey(), download.value);
      cache.Store(m.SizeKey(), IntText(|download.value|));
      r := Served(download.value);
    }

    method Size(announced: Option<int>, wait: seq<Op>) returns (r: Reply)
      modifies cache
      ensures (cache.State(), r) == Serve(cache.maxBytes, m, old(cache.State()), SizeOf(announced, wait))
    {
      var body := cache.Lookup(m.BodyKey());
      if body.Some? {
        return Reported(|body.value|);
      }
      var size := cache.Lookup(m.SizeKey());
      if size.Some? {
        var n := ReadInt(size.value);
        return if n.Some? then Reported(n.value) else Refused;
      }
      Wait(wait);
      if announced.None? {
        return Refused;
      }
      cache.Store(m.SizeKey(), IntText(announced.value));
      r := Reported(announced.value);
    }
  }

  // ----- what one cache operation does to one key ---------------------------------------------------

  ghost predicate Sound(max: nat, c: Cache) {
    exists leak: nat :: Accounted(max, c, leak)
  }

  lemma StepSound(max: nat, c: Cache, op: Op)
    requires Sound(max, c)
    ensures Sound(max, Step(max, c, op))
  {
    var leak: nat :| Accounted(max, c, leak);
    StepAccounted(max, c, leak, op);
  }

  /** An operation leaves a key's value, drops it, or is the write of a new one. */
  lemma StepFinds(max: nat, c: Cache, op: Op, key: string)
    requires Sound(max, c)
    ensures var was, now := Find(c.items, key), Find(Step(max, c, op).items, key);
            || now == None
            || now == (if op.Put? && op.key == key then Some(op.data) else was)
  {
    var now := Find(Step(max, c, op).items, key);
    if now.Some? {
      var i := FoundAt(Step(max, c, op).items, key);
      var s := Step(max, c, op).items[i];
      StepMembers(max, c, op, s);
      if s in c.items {
        var j :| 0 <= j < |c.items| && c.items[j] == s;
        FindMember(c.items, j);
      }
    }
  }

  lemma StepMembers(max: nat, c: Cache, op: Op, s: Slot)
    requires Sound(max, c) && s in Step(max, c, op).items
    ensures s in c.items || (op.Put? && s == Slot(op.key, op.data))
    ensures op.Put? && s.key == op.key ==> s == Slot(op.key, op.data)
  {
    if !op.Clear? {
      WithoutValues(c.items, op.key);
      if op.Get? && Find(c.items, op.key).Some? {
        var i := FoundAt(c.items, op.key);
      }
      if op.Put? && |op.data| <= max {
        var n := EvictExact(Inserted(c, op.key, op.data), max);
      }
      hide Without, Evict, Find;
    }
  }

  lemma ReadKeeps(max: nat, c: Cache, key: string, other: string)
    requires Sound(max, c)
    ensures Find(Step(max, c, Get(key)).items, other) == Find(c.items, other)
  {
    StepFinds(max, c, Get(key), other);
    if Find(c.items, other).Some? && Find(c.items, key).Some? {
      var i := FoundAt(c.items, other);
      var at := WithoutExact(c.items, key);
      var after := Step(max, c, Get(key)).items;
      hide Without, Find;
      if key == other {
        assert after[|after|-1].key == other;
      } else {
        assert after[if i < at then i else i - 1].key == other;
      }
    }
  }

  // ----- stability -----------------------------------------------------------------------------------

  /** Whatever the cache says about the message says length `n`. */
  ghost predicate Says(m: Message, c: Cache, n: int) {
    && (var body := Find(c.items, m.BodyKey()); body.Some? ==> |body.value| == n)
    && (var size := Find(c.items, m.SizeKey()); size.Some? ==> ReadInt(size.value) == Some(n))
  }

  ghost predicate Remembers(m: Message, c: Cache) {
    Find(c.items, m.BodyKey()).Some? || Find(c.items, m.SizeKey()).Some?
  }

  /** The size a client learns from a reply. */
  function Learned(r: Reply): Option<int> {
    match r case Served(b) => Some(|b|) case Reported(n) => Some(n) case Refused => None
  }

  lemma StepSays(max: nat, m: Message, c: Cache, op: Op, n: int)
    requires Sound(max, c) && Says(m, c, n)
    requires op.Put? && op.key == m.BodyKey() ==> |op.data| == n
    requires op.Put? && op.key == m.SizeKey() ==> ReadInt(op.data) == Some(n)
    ensures Sound(max, Step(max, c, op)) && Says(m, Step(max, c, op), n)
  {
    hide Step, Find, ReadInt, Sound;
    StepSound(max, c, op);
    StepFinds(max, c, op, m.BodyKey());
    StepFinds(max, c, op, m.SizeKey());
  }

  lemma {:induction false} OthersSay(max: nat, m: Message, c: Cache, ops: seq<Op>, n: int)
    requires Sound(max, c) && Says(m, c, n) && AllForeign(m, ops)
    ensures Sound(max, Others(max, c, ops)) && Says(m, Others(max, c, ops), n)
    decreases |ops|
  {
    hide Says, Sound, Step;
    if ops != [] {
      OthersSay(max, m, c, ops[..|ops|-1], n);
      StepSays(max, m, Others(max, c, ops[..|ops|-1]), ops[|ops|-1], n);
    }
  }

  lemma KeptBothSay(max: nat, m: Message, c: Cache, body: string)
    requires Sound(max, c) && Says(m, c, |body|)
    ensures Sound(max, KeptBoth(max, m, c, body)) && Says(m, KeptBoth(max, m, c, body), |body|)
  {
    hide Says, Sound, Step, ReadInt, IntText;
    m.KeysDiffer();
    IntReadsBack(|body|);
    StepSays(max, m, c, Put(m.BodyKey(), body), |body|);
    StepSays(max, m, Step(max, c, Put(m.BodyKey(), body)), Put(m.SizeKey(), IntText(|body|)), |body|);
  }

  lemma LookupSays(max: nat, m: Message, c: Cache, key: string, n: int)
    requires Sound(max, c) && Says(m, c, n)
    ensures Sound(max, Step(max, c, Get(key))) && Says(m, Step(max, c, Get(key)), n)
    ensures Find(Step(max, c, Get(key)).items, m.BodyKey()) == Find(c.items, m.BodyKey())
    ensures Find(Step(max, c, Get(key)).items, m.SizeKey()) == Find(c.items, m.SizeKey())
  {
    hide Says, Sound, Step, Find;
    StepSays(max, m, c, Get(key), n);
    ReadKeeps(max, c, key, m.BodyKey());
    ReadKeeps(max, c, key, m.SizeKey());
  }

  /** The message is remembered when the call starts, and a download finds the size still remembered after
      its first wait. */
  ghost predicate RemembersThrough(max: nat, m: Message, c: Cache, call: Call) {
    && Remembers(m, c)
    && (call.Body? && Find(c.items, m.BodyKey()).None? ==>
          Find(Others(max, Step(max, c, Get(m.BodyKey())), call.metaWait).items, m.SizeKey()).Some?)
  }

  lemma SizeOfSays(max: nat, m: Message, c: Cache, call: Call, n: int)
    requires Sound(max, c) && call.SizeOf? && ForeignCall(m, call) && Says(m, c, n)
    requires Remembers(m, c) || Learned(Serve(max, m, c, call).1) in {None, Some(n)}
    ensures Learned(Serve(max, m, c, call).1) in {None, Some(n)}
    ensures Sound(max, Serve(max, m, c, call).0) && Says(m, Serve(max, m, c, call).0, n)
  {
    hide Step, Find, ReadInt, IntText, Sound, Others, Foreign;
    var looked := Step(max, c, Get(m.BodyKey()));
    LookupSays(max, m, c, m.BodyKey(), n);
    var asked := Step(max, looked, Get(m.SizeKey()));
    LookupSays(max, m, looked, m.SizeKey(), n);
    OthersSay(max, m, asked, call.metaWait, n);
    if call.announced == Some(n) {
      IntReadsBack(n);
      m.KeysDiffer();
      StepSays(max, m, Others(max, asked, call.metaWait), Put(m.SizeKey(), IntText(n)), n);
    }
  }

  lemma BodySays(max: nat, m: Message, c: Cache, call: Call, n: int)
    requires Sound(max, c) && call.Body? && ForeignCall(m, call) && Says(m, c, n)
    requires RemembersThrough(max, m, c, call) || Learned(Serve(max, m, c, call).1) in {None, Some(n)}
    ensures Learned(Serve(max, m, c, call).1) in {None, Some(n)}
    ensures Sound(max, Serve(max, m, c, call).0) && Says(m, Serve(max, m, c, call).0, n)
  {
    hide Step, Find, ReadInt, IntText, Sound, Others, Foreign, KeptBoth;
    var looked := Step(max, c, Get(m.BodyKey()));
    LookupSays(max, m, c, m.BodyKey(), n);
    var told := Others(max, looked, call.metaWait);
    OthersSay(max, m, looked, call.metaWait, n);
    var asked := Step(max, told, Get(m.SizeKey()));
    LookupSays(max, m, told, m.SizeKey(), n);
    var got := Others(max, asked, call.downloadWait);
    OthersSay(max, m, asked, call.downloadWait, n);
    if call.download.Some? && |call.download.value| == n {
      KeptBothSay(max, m, got, call.download.value);
    }
  }

  /** A call that teaches `n` leaves a cache that says `n`; so does any call if the cache said `n` and
      still remembered it, and then it teaches nothing else. */
  lemma ServeSays(max: nat, m: Message, c: Cache, call: Call, n: int)
    requires Sound(max, c) && ForeignCall(m, call) && Says(m, c, n)
    requires RemembersThrough(max, m, c, call) || Learned(Serve(max, m, c, call).1) in {None, Some(n)}
    ensures Learned(Serve(max, m, c, call).1) in {None, Some(n)}
    ensures Sound(max, Serve(max, m, c, call).0) && Says(m, Serve(max, m, c, call).0, n)
  {
    hide Step, Find, Sound, Says;
    match call
    case Elsewhere(op) => StepSays(max, m, c, op, n);
    case SizeOf(_, _) => SizeOfSays(max, m, c, call, n);
    case Body(_, _, _, _) => BodySays(max, m, c, call, n);
  }

  /** While the cache remembers a size, no answer of upstream to an undisturbed call can change it; once it
      has forgotten, some answer can. */
  lemma SizeIsFixedIff(max: nat, m: Message, c: Cache, n: int)
    requires Sound(max, c) && Says(m, c, n)
    ensures Remembers(m, c) <==> forall call :: Undisturbed(call) ==>
            Learned(Serve(max, m, c, call).1) in {None, Some(n)}
  {
    hide Sound, Says, Step, Find;
    ReadKeeps(max, c, m.BodyKey(), m.SizeKey());
    if Remembers(m, c) {
      forall call | Undisturbed(call) ensures Learned(Serve(max, m, c, call).1) in {None, Some(n)} {
        var looked := Step(max, c, Get(m.BodyKey()));
        assert call.Body? ==> Others(max, looked, call.metaWait) == looked;
        ServeSays(max, m, c, call, n);
      }
    } else {
      var call := SizeOf(Some(n + 1), []);
      assert Undisturbed(call) && Learned(Serve(max, m, c, call).1) == Some(n + 1);
    }
  }

  ghost predicate Undisturbed(call: Call) {
    match call
    case Elsewhere(_) => false
    case Body(_, _, first, second) => first == [] && second == []
    case SizeOf(_, wait) => wait == []
  }

  /** Exactly what a call answers. A size is reported from the body, else as remembered, else as announced. A body is
      served from the cache, or downloaded when announced and downloaded length agree with each other and with what
      is remembered once the announcement has come. Everything else is refused. */
  lemma RepliesAre(max: nat, m: Message, c: Cache, call: Call)
    requires Sound(max, c)
    ensures call.SizeOf? ==>
              var body, size := Find(c.items, m.BodyKey()), Find(c.items, m.SizeKey());
              Serve(max, m, c, call).1 ==
              if body.Some? then Reported(|body.value|)
              else if size.Some? then
                (if ReadInt(size.value).Some? then Reported(ReadInt(size.value).value) else Refused)
              else if call.announced.Some? then Reported(call.announced.value)
              else Refused
    ensures call.Body? ==>
              var body := Find(c.items, m.BodyKey());
              var size := Find(Others(max, Step(max, c, Get(m.BodyKey())), call.metaWait).items, m.SizeKey());
              Serve(max, m, c, call).1 ==
              if body.Some? then Served(body.value)
              else if call.announced.Some? && call.download.Some? && |call.download.value| == call.announced.value
                      && (size.Some? ==> ReadInt(size.value) == call.announced)
                   then Served(call.download.value)
              else Refused
  {
    hide Step, Find, ReadInt, IntText, Sound, Others, KeptBoth;
    ReadKeeps(max, c, m.BodyKey(), m.SizeKey());
  }

  /** What is remembered is answered: a remembered size is reported again, and a download that agrees with it is
      served. */
  lemma RememberedIsAnswered(max: nat, m: Message, c: Cache, call: Call, n: nat)
    requires Sound(max, c) && Says(m, c, n) && ForeignCall(m, call)
    ensures call.SizeOf? && Remembers(m, c) ==> Serve(max, m, c, call).1 == Reported(n)
    ensures call.Body? && call.announced == Some(n) && call.download.Some? && |call.download.value| == n ==>
              Serve(max, m, c, call).1 == Served(call.download.value)
              || exists b :: Find(c.items, m.BodyKey()) == Some(b) && Serve(max, m, c, call).1 == Served(b)
  {
    hide Step, Find, ReadInt, IntText, Sound, Others, KeptBoth, Foreign, Serve;
    RepliesAre(max, m, c, call);
    if call.Body? {
      LookupSays(max, m, c, m.BodyKey(), n);
      OthersSay(max, m, Step(max, c, Get(m.BodyKey())), call.metaWait, n);
    }
  }

  // ----- what is kept of an answer ------------------------------------------------------------------------

  lemma PutKeeps(max: nat, c: Cache, key: string, data: string) returns (leak: nat)
    requires Sound(max, c)
    ensures Accounted(max, Step(max, c, Put(key, data)), leak)
    ensures Find(Step(max, c, Put(key, data)).items, key) == Some(data) <==> |data| + leak <= max
  {
    var was: nat :| Accounted(max, c, was);
    StepAccounted(max, c, was, Put(key, data));
    if |data| > max {
      leak := if Find(c.items, key).Some? then was + |Find(c.items, key).value| else was;
      OversizeGone(max, c, key, data);
    } else {
      leak := was;
      InsertAccounted(max, c, was, key, data);
      LastIsKeptIff(max, Inserted(c, key, data), was, Slot(key, data));
    }
  }

  lemma OversizeGone(max: nat, c: Cache, key: string, data: string)
    requires Sound(max, c) && |data| > max
    ensures Find(Step(max, c, Put(key, data)).items, key) == None
  {
    WithoutValues(c.items, key);
    if Find(Without(c.items, key), key).Some? {
      var i := FoundAt(Without(c.items, key), key);
    }
  }

  /** The size that upstream announces to a size request, or that of a download, is remembered afterwards exactly if it
      fits the budget beside what has leaked. */
  lemma AnswerIsRemembered(max: nat, m: Message, c: Cache, call: Call, n: int) returns (leak: nat)
    requires Sound(max, c) && Find(c.items, m.BodyKey()).None?
    requires (call.SizeOf? && Find(c.items, m.SizeKey()).None? && Serve(max, m, c, call).1 == Reported(n))
             || (call.Body? && Serve(max, m, c, call).1.Served? && |Serve(max, m, c, call).1.body| == n)
    ensures var after := Serve(max, m, c, call).0;
            && Accounted(max, after, leak)
            && (Find(after.items, m.SizeKey()) == Some(IntText(n)) <==> |IntText(n)| + leak <= max)
  {
    hide Step, Find, IntText, ReadInt, Sound, Accounted;
    var looked := Step(max, c, Get(m.BodyKey()));
    StepSound(max, c, Get(m.BodyKey()));
    ReadKeeps(max, c, m.BodyKey(), m.SizeKey());
    if call.SizeOf? {
      StepSound(max, looked, Get(m.SizeKey()));
      OthersSound(max, Step(max, looked, Get(m.SizeKey())), call.metaWait);
      leak := PutKeeps(max, Others(max, Step(max, looked, Get(m.SizeKey())), call.metaWait), m.SizeKey(), IntText(n));
    } else {
      var first := Others(max, looked, call.metaWait);
      OthersSound(max, looked, call.metaWait);
      StepSound(max, first, Get(m.SizeKey()));
      var d := Others(max, Step(max, first, Get(m.SizeKey())), call.downloadWait);
      OthersSound(max, Step(max, first, Get(m.SizeKey())), call.downloadWait);
      var body := call.download.value;
      StepSound(max, d, Put(m.BodyKey(), body));
      leak := PutKeeps(max, Step(max, d, Put(m.BodyKey(), body)), m.SizeKey(), IntText(n));
    }
  }

  lemma {:induction false} OthersSound(max: nat, c: Cache, ops: seq<Op>)
    requires Sound(max, c)
    ensures Sound(max, Others(max, c, ops))
    decreases |ops|
  {
    hide Sound, Step;
    if ops != [] {
      OthersSound(max, c, ops[..|ops|-1]);
      StepSound(max, Others(max, c, ops[..|ops|-1]), ops[|ops|-1]);
    }
  }

  /** A body just downloaded is remembered too, if both entries fit. */
  lemma BodyIsRemembered(max: nat, m: Message, c: Cache, leak: nat, body: string)
    requires Accounted(max, c, leak) && |body| + |IntText(|body|)| + leak <= max
    ensures Find(KeptBoth(max, m, c, body).items, m.BodyKey()) == Some(body)
  {
    var text := IntText(|body|);
    m.KeysDiffer();
    hide IntText, Message.BodyKey, Message.SizeKey;
    LastTwo(max, c, leak, Slot(m.BodyKey(), body), Slot(m.SizeKey(), text));
  }

  lemma LastTwo(max: nat, c: Cache, leak: nat, s: Slot, t: Slot)
    requires Accounted(max, c, leak) && s.key != t.key && |s.data| + |t.data| + leak <= max
    ensures Find(Step(max, Step(max, c, Put(s.key, s.data)), Put(t.key, t.data)).items, s.key) == Some(s.data)
  {
    hide Without, Find, Evict, Bytes, Distinct, Accounted, Step, Inserted;
    var d := Step(max, c, Put(s.key, s.data));
    EndsWith(max, c, leak, s);
    InsertAccounted(max, d, leak, t.key, t.data);
    var full := Inserted(d, t.key, t.data);
    EndsWithTwo(d, s, t);
    InsertsEvicts(max, d, leak, t);
    var n := EvictAccounted(max, full, leak);
    if n > 0 { TwoBytes(full.items, n, s, t); }
    DistinctFrom(full.items, n);
    FindMember(full.items[n..], |full.items| - 2 - n);
  }

  lemma EndsWithTwo(d: Cache, s: Slot, t: Slot)
    requires d.items != [] && d.items[|d.items|-1] == s && s.key != t.key
    ensures var full := Inserted(d, t.key, t.data).items; |full| >= 2 && full[|full|-2..] == [s, t]
  {
    hide Without, Find;
    var at := WithoutExact(d.items, t.key);
    var rest := Without(d.items, t.key);
    assert rest[|rest|-1] == s;
  }

  lemma InsertsEvicts(max: nat, d: Cache, leak: nat, t: Slot)
    requires |t.data| <= max && Accounted(max, d, leak)
    ensures Step(max, d, Put(t.key, t.data)) == Evict(Inserted(d, t.key, t.data), max) && leak <= max
  {
    hide Evict, Inserted;
  }

  /** What a write that fits leaves ends with the written entry. */
  lemma EndsWith(max: nat, c: Cache, leak: nat, s: Slot)
    requires Accounted(max, c, leak) && |s.data| + leak <= max
    ensures var d := Step(max, c, Put(s.key, s.data));
            Accounted(max, d, leak) && d.items != [] && d.items[|d.items|-1] == s
  {
    InsertAccounted(max, c, leak, s.key, s.data);
    var full := Inserted(c, s.key, s.data);
    hide Without, Find, Evict, Bytes, Distinct;
    var n := EvictAccounted(max, full, leak);
    LastAlone(full.items);
  }

  /** Evicting further than the last two would have been too much. */
  lemma TwoBytes(items: seq<Slot>, n: nat, s: Slot, t: Slot)
    requires |items| >= 2 && items[|items|-2..] == [s, t] && 0 < n
    ensures n == |items| ==> Bytes(items[n-1..]) == |t.data|
    ensures n == |items| - 1 ==> Bytes(items[n-1..]) == |s.data| + |t.data|
  {
    var two := items[|items|-2..];
    assert two[1..] == items[|items|-1..] == [t];
    OneSlotBytes(t);
    assert Bytes(two) == |s.data| + Bytes(two[1..]);
  }

  // ----- runs -----------------------------------------------------------------------------------------------

  function Replies(max: nat, m: Message, c: Cache, calls: seq<Call>): (r: seq<Reply>)
    ensures |r| == |calls|
    decreases calls
  {
    if calls == [] then []
    else
      var (d, r) := Serve(max, m, c, calls[0]);
      [r] + Replies(max, m, d, calls[1..])
  }

  /** No call for the message finds it forgotten. */
  ghost predicate NeverForgotten(max: nat, m: Message, c: Cache, calls: seq<Call>)
    decreases calls
  {
    calls == [] ||
    ((calls[0].Elsewhere? || RemembersThrough(max, m, c, calls[0]))
     && NeverForgotten(max, m, Serve(max, m, c, calls[0]).0, calls[1..]))
  }

  /** The same from the first report on. */
  ghost predicate KeptOnceReported(max: nat, m: Message, c: Cache, calls: seq<Call>)
    decreases calls
  {
    calls == [] ||
    (var (d, r) := Serve(max, m, c, calls[0]);
     if Learned(r).Some? then NeverForgotten(max, m, d, calls[1..]) else KeptOnceReported(max, m, d, calls[1..]))
  }

  ghost predicate ForeignCalls(m: Message, calls: seq<Call>) {
    forall i :: 0 <= i < |calls| ==> ForeignCall(m, calls[i])
  }

  /** Every reply that teaches a size teaches `n`. */
  ghost predicate Uniform(replies: seq<Reply>, n: int) {
    forall r :: r in replies ==> Learned(r) in {None, Some(n)}
  }

  lemma {:induction false} StableOnceKnown(max: nat, m: Message, c: Cache, calls: seq<Call>, n: int)
    requires Sound(max, c) && Says(m, c, n) && ForeignCalls(m, calls)
    requires NeverForgotten(max, m, c, calls)
    ensures Uniform(Replies(max, m, c, calls), n)
    decreases calls
  {
    hide Serve, Says, Sound, RemembersThrough, ForeignCall;
    if calls != [] {
      if calls[0].Elsewhere? { ElsewhereTeachesNothing(max, m, c, calls[0]); }
      ServeSays(max, m, c, calls[0], n);
      StableOnceKnown(max, m, Serve(max, m, c, calls[0]).0, calls[1..], n);
    }
  }

  lemma ElsewhereTeachesNothing(max: nat, m: Message, c: Cache, call: Call)
    requires call.Elsewhere?
    ensures Learned(Serve(max, m, c, call).1).None?
  {
  }

  /** All sizes reported and all bodies served for a message have one length, whatever upstream
      announces, truncates or substitutes, and whatever else the cache is used for between the calls and
      while they wait, as long as the message is not forgotten. */
  lemma {:induction false} SizesAreStable(max: nat, m: Message, c: Cache, calls: seq<Call>) returns (n: int)
    requires Sound(max, c) && !Remembers(m, c) && ForeignCalls(m, calls)
    requires KeptOnceReported(max, m, c, calls)
    ensures Uniform(Replies(max, m, c, calls), n)
    decreases calls
  {
    hide Serve, Says, Sound, Remembers, Learned, ForeignCall;
    if calls == [] { return 0; }
    var (d, r) := Serve(max, m, c, calls[0]);
    if Learned(r).Some? {
      n := Learned(r).value;
      SaysAnything(m, c, n);
      ServeSays(max, m, c, calls[0], n);
      StableOnceKnown(max, m, d, calls[1..], n);
    } else {
      StillUnknown(max, m, c, calls[0]);
      n := SizesAreStable(max, m, d, calls[1..]);
    }
  }

  /** A cache that remembers nothing of the message says every length, and only such a cache does. */
  lemma SaysAnything(m: Message, c: Cache, n: int)
    requires !Remembers(m, c)
    ensures Says(m, c, n)
  {
  }

  lemma SaysTwo(m: Message, c: Cache)
    requires Says(m, c, 0) && Says(m, c, 1)
    ensures !Remembers(m, c)
  {
    hide Find, ReadInt;
  }

  lemma StillUnknown(max: nat, m: Message, c: Cache, call: Call)
    requires Sound(max, c) && !Remembers(m, c) && ForeignCall(m, call)
    requires Learned(Serve(max, m, c, call).1).None?
    ensures Sound(max, Serve(max, m, c, call).0) && !Remembers(m, Serve(max, m, c, call).0)
  {
    hide *;
    SaysAnything(m, c, 0);
    SaysAnything(m, c, 1);
    ServeSays(max, m, c, call, 0);
    ServeSays(max, m, c, call, 1);
    SaysTwo(m, Serve(max, m, c, call).0);
  }

  /** Upstream doubles the announced size after the entries were evicted: two different reports. */
  lemma ForgottenSizeChanges(m: Message)
    ensures var calls := [SizeOf(Some(1), []), Elsewhere(Clear), SizeOf(Some(2), [])];
            var r := Replies(100, m, Cache([], 0), calls);
            r[0] == Reported(1) && r[2] == Reported(2)
  {
    var none := Cache([], 0);
    var calls := [SizeOf(Some(1), []), Elsewhere(Clear), SizeOf(Some(2), [])];
    var c1 := Serve(100, m, none, calls[0]).0;
    assert calls[1..] == [calls[1], calls[2]] && calls[1..][1..] == [calls[2]];
    assert Serve(100, m, c1, calls[1]).0 == none;
    assert Replies(100, m, none, calls)[2] == Replies(100, m, c1, calls[1..])[1] ==
        Replies(100, m, none, [calls[2]])[0];
  }

  /** The same without an eviction between the calls: the size is evicted while a download waits for the
      announced size, and a body of another length is served. */
  lemma ForgottenWhileWaiting(m: Message)
    ensures var calls := [SizeOf(Some(1), []), Body(Some(2), Some("ab"), [Clear], [])];
            var r := Replies(100, m, Cache([], 0), calls);
            r[0] == Reported(1) && r[1] == Served("ab")
  {
    var none := Cache([], 0);
    var calls := [SizeOf(Some(1), []), Body(Some(2), Some("ab"), [Clear], [])];
    var c1 := Serve(100, m, none, calls[0]).0;
    m.KeysDiffer();
    assert c1 == Step(100, none, Put(m.SizeKey(), "1"));
    assert calls[1..] == [calls[1]] && [Clear][..0] == [];
    assert Others(100, Step(100, c1, Get(m.BodyKey())), [Clear]) == none;
    assert Serve(100, m, c1, calls[1]).1 == Served("ab");
  }
}
