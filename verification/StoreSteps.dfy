/** STORE as it is scheduled: it can be left between any two steps, and while a label change waits for
    upstream's answer. */
module StoreSteps {
  import opened Types
  import opened UidStores
  import opened Mailboxes
  import opened StoreFlags

  /** Where the command is with one message: the next flag is number `k`, and `answer` is what upstream
      answered to a label change that has not come back yet. */
  datatype Doing = Doing(item: Item, current: set<Flag>, wanted: set<Flag>, k: nat, answer: Option<set<string>>)

  /** A command in flight: the snapshot and the marks it captured, and the targets it has dealt with. */
  datatype Running = Running(c: Command, known: map<nat, Item>, deleted: set<nat>, n: nat, doing: Option<Doing>)
  {
    predicate Over() { n >= |c.targets| }

    function Left(v: View): nat {
      if doing.None? then 2 * |Permanent(v)| + 2
      else if doing.value.k >= |Permanent(v)| then 0
      else 2 * (|Permanent(v)| - doing.value.k) + if doing.value.answer.None? then 1 else 0
    }
  }

  function Accepted(v: View, c: Command): bool {
    !c.readOnly && c.flags <= PermanentSet(v)
  }

  /** What the command captures before its first target. */
  function Captured(b: Box, st: Mail, c: Command): Running {
    Running(c, IndexByUid(st.Items(b)), st.Marked(b), 0, None)
  }

  function Enters(v: View, r: Running): Running
    requires !r.Over()
  {
    var u := r.c.targets[r.n];
    if u !in r.known then r.(n := r.n + 1)
    else
      var current := FlagsOf(r.known[u], r.deleted);
      r.(doing := Some(Doing(r.known[u], current, Wanted(r.c.mode, r.c.flags, PermanentSet(v), current), 0, None)))
  }

  /** The next flag: nothing to do, a mark, a label change applied upstream, or its answer taken in. */
  function FlagStep(b: Box, st: Mail, r: Running, d: Doing, now: real): (Mail, Running)
    requires d.k < |Permanent(b.view)|
  {
    var flag := Permanent(b.view)[d.k];
    var after := flag in d.wanted;
    if (flag in d.current) == after then (st, r.(doing := Some(d.(k := d.k + 1))))
    else if flag == Deleted then
      (st.(marks := MarkOne(st.marks, b, d.item.uid, after)),
       r.(deleted := if after then r.deleted + {d.item.uid} else r.deleted - {d.item.uid},
          doing := Some(d.(k := d.k + 1))))
    else if d.answer.None? then
      var answer := Patched(st.Own(d.item.id), flag, after);
      (st.(labels := st.labels[d.item.id := answer]), r.(doing := Some(d.(answer := Some(answer)))))
    else
      var it := Relabelled(d.item, Outcome(d.answer.value, d.item, flag, after));
      (st.(service := ReplaceItem(Held(st.service, Msg(b.inbox, it.id), it.labels, now), b, it)),
       r.(doing := Some(d.(item := it, k := d.k + 1, answer := None))))
  }

  /** One step of a command in flight. */
  function StoreStep(b: Box, st: Mail, r: Running, now: real): (Mail, Running)
    requires !r.Over()
  {
    match r.doing
    case None => (st, Enters(b.view, r))
    case Some(d) =>
      if d.k >= |Permanent(b.view)| then (st, r.(n := r.n + 1, doing := None)) else FlagStep(b, st, r, d, now)
  }

  // ----- a command nobody interrupts ---------------------------------------------------------------------

  /** The command carried to its end without an interruption. */
  function ToEnd(b: Box, st: Mail, r: Running, now: real): Mail
    decreases |r.c.targets| - r.n, r.Left(b.view)
  {
    if r.Over() then st
    else
      var (s, next) := StoreStep(b, st, r, now);
      ToEnd(b, s, next, now)
  }

  /** A label change and its answer are one flag of the flag loop. */
  lemma FlagToEnd(b: Box, st: Mail, r: Running, d: Doing, now: real)
    requires !r.Over() && r.doing == Some(d) && d.answer.None? && d.k < |Permanent(b.view)|
    requires r.deleted == st.Marked(b)
    ensures var flag := Permanent(b.view)[d.k];
            var (s, it) := OneFlag(st, b, d.item, flag, flag in d.current, flag in d.wanted, now);
            ToEnd(b, st, r, now) ==
            ToEnd(b, s, r.(deleted := s.Marked(b), doing := Some(d.(item := it, k := d.k + 1))), now)
  {
    hide Patched, MessageFlags, ReplaceItem, Permanent, HoldLabels;
    var flag := Permanent(b.view)[d.k];
    var (s, it) := OneFlag(st, b, d.item, flag, flag in d.current, flag in d.wanted, now);
    var (s1, r1) := StoreStep(b, st, r, now);
    if (flag in d.current) != (flag in d.wanted) && flag != Deleted {
      assert StoreStep(b, s1, r1, now) == (s, r.(doing := Some(d.(item := it, k := d.k + 1))));
    } else {
      assert s1 == s && r1 == r.(deleted := s.Marked(b), doing := Some(d.(item := it, k := d.k + 1)));
    }
  }

  lemma {:induction false} FlagsToEnd(b: Box, st: Mail, r: Running, d: Doing, k: nat, now: real)
    requires !r.Over() && r.doing == Some(d) && d.answer.None? && d.k == 0 && k <= |Permanent(b.view)|
    requires r.deleted == st.Marked(b)
    ensures var (s, it) := FlagLoop(st, b, d.item, d.current, d.wanted, k, now);
            ToEnd(b, st, r, now) == ToEnd(b, s, r.(deleted := s.Marked(b), doing := Some(d.(item := it, k := k))), now)
  {
    hide ToEnd, OneFlag;
    if k > 0 {
      FlagsToEnd(b, st, r, d, k - 1, now);
      var (s, it) := FlagLoop(st, b, d.item, d.current, d.wanted, k - 1, now);
      FlagToEnd(b, s, r.(deleted := s.Marked(b), doing := Some(d.(item := it, k := k - 1))), d.(item := it, k := k - 1),
                now);
    }
  }

  lemma TargetToEnd(b: Box, st: Mail, r: Running)
    requires !r.Over() && r.doing.None? && r.deleted == st.Marked(b)
    ensures var u := r.c.targets[r.n];
            var s := if u in r.known then StoreOne(st, b, r.known[u], r.c.mode, r.c.flags, r.c.now).0 else st;
            ToEnd(b, st, r, r.c.now) == ToEnd(b, s, r.(n := r.n + 1, deleted := s.Marked(b)), r.c.now)
  {
    hide FlagLoop, FlagStep, Permanent, Wanted, MarkedIn;
    var u, r1 := r.c.targets[r.n], Enters(b.view, r);
    assert ToEnd(b, st, r, r.c.now) == ToEnd(b, st, r1, r.c.now);
    if u in r.known {
      var d, all := r1.doing.value, |Permanent(b.view)|;
      FlagsToEnd(b, st, r1, d, all, r.c.now);
      var (s, it) := FlagLoop(st, b, d.item, d.current, d.wanted, all, r.c.now);
      var r2 := r1.(deleted := s.Marked(b), doing := Some(d.(item := it, k := all)));
      assert StoreStep(b, s, r2, r.c.now) == (s, r.(n := r.n + 1, deleted := s.Marked(b)));
    }
  }

  lemma {:induction false} TargetsToEnd(b: Box, st: Mail, c: Command, n: nat)
    requires n <= |c.targets|
    ensures var s := StoreTargets(st, b, IndexByUid(st.Items(b)), c, n).mail;
            ToEnd(b, st, Captured(b, st, c), c.now) ==
            ToEnd(b, s, Captured(b, st, c).(n := n, deleted := s.Marked(b)), c.now)
  {
    hide ToEnd, StoreOne;
    if n > 0 {
      TargetsToEnd(b, st, c, n - 1);
      var s := StoreTargets(st, b, IndexByUid(st.Items(b)), c, n - 1).mail;
      TargetToEnd(b, s, Captured(b, st, c).(n := n - 1, deleted := s.Marked(b)));
    }
  }

  /** Step by step a command that nobody interrupts does what `Store` says. */
  lemma StepsMakeStore(b: Box, st: Mail, c: Command)
    requires Accepted(b.view, c)
    ensures ToEnd(b, st, Captured(b, st, c), c.now) == StoreFlags.After(st, b, c)
  {
    TargetsToEnd(b, st, c, |c.targets|);
    hide ToEnd, StoreTargets;
    AtEnd(b, StoreTargets(st, b, IndexByUid(st.Items(b)), c, |c.targets|).mail, c,
          Captured(b, st, c).(n := |c.targets|,
          deleted := StoreTargets(st, b, IndexByUid(st.Items(b)), c, |c.targets|).mail.Marked(b)));
  }

  lemma AtEnd(b: Box, st: Mail, c: Command, r: Running)
    requires r.Over()
    ensures ToEnd(b, st, r, c.now) == st
  {
  }
}
