/** One session's numbered view of its mailbox, and the client on the other end of the wire. */
module Sessions {
  import opened Types
  import opened Sorting
  import opened UidStores
  import opened Mailboxes

  datatype Selected = Selected(box: Box, readOnly: bool, uids: seq<nat>, seqOf: map<nat, nat>,
                               viewVersion: nat, flagsSeen: FlagTable)

  /** The untagged responses that change a client's view. */
  datatype Response = Expunge(n: nat) | Exists(n: nat) | Fetch(n: nat, uid: nat, flags: set<Flag>)

  /** The position of each UID, counted from 1. */
  function SeqOf(uids: seq<nat>): map<nat, nat> {
    if uids == [] then map[] else SeqOf(uids[..|uids|-1])[uids[|uids|-1] := |uids|]
  }

  function FromSnapshot(snap: Snapshot, readOnly: bool, deleted: set<nat>): Selected {
    var byUid := snap.ByUid();
    Selected(snap.box, readOnly, snap.Uids(), SeqOf(snap.Uids()), snap.version,
             map u | u in byUid :: FlagsOf(byUid[u], deleted))
  }

  // ----- flush_pending as a function --------------------------------------------------------------

  /** One EXPUNGE for each vanished UID among the first `n`, highest position first. */
  function Expunges(uids: seq<nat>, live: set<nat>, n: nat): seq<Response>
    requires n <= |uids|
  {
    if n == 0 then []
    else (if uids[n-1] in live then [] else [Expunge(n)]) + Expunges(uids, live, n - 1)
  }

  function Only(uids: seq<nat>, keep: set<nat>): seq<nat> {
    if uids == [] then []
    else (if uids[0] in keep then [uids[0]] else []) + Only(uids[1..], keep)
  }

  function Except(uids: seq<nat>, drop: set<nat>): seq<nat> {
    if uids == [] then []
    else (if uids[0] in drop then [] else [uids[0]]) + Except(uids[1..], drop)
  }

  /** The session's list after vanished UIDs are deleted and new ones appended and sorted in. */
  function Renumbered(uids: seq<nat>, latest: seq<nat>): seq<nat> {
    var left := Only(uids, AsSet(latest));
    var added := Except(latest, AsSet(left));
    if added == [] then left else Sort(NatLeq, left + added)
  }

  /** The session's record of flags after the first `n` messages were looked at. */
  function FlagsAfter(uids: seq<nat>, byUid: map<nat, Item>, deleted: set<nat>, seen: FlagTable, n: nat): FlagTable
    requires n <= |uids|
  {
    if n == 0 then seen
    else
      var r, u := FlagsAfter(uids, byUid, deleted, seen, n - 1), uids[n-1];
      if u in byUid then r[u := FlagsOf(byUid[u], deleted)] else r
  }

  function FlagFetch(n: nat, u: nat, byUid: map<nat, Item>, deleted: set<nat>, record: FlagTable): seq<Response> {
    if u in byUid && u in record && record[u] != FlagsOf(byUid[u], deleted)
        then [Fetch(n, u, FlagsOf(byUid[u], deleted))] else []
  }

  /** FETCH FLAGS for those of the first `n` messages whose flags differ from the record. */
  function FlagFetches(uids: seq<nat>, byUid: map<nat, Item>, deleted: set<nat>, seen: FlagTable, n: nat): seq<Response>
    requires n <= |uids|
  {
    if n == 0 then []
    else
      FlagFetches(uids, byUid, deleted, seen, n - 1)
      + FlagFetch(n, uids[n-1], byUid, deleted, FlagsAfter(uids, byUid, deleted, seen, n - 1))
  }

  /** The record without the vanished UIDs among the first `n`. */
  function Forget(seen: FlagTable, uids: seq<nat>, live: set<nat>, n: nat): FlagTable
    requires n <= |uids|
    decreases n
  {
    if n == 0 then seen
    else Forget(if uids[n-1] in live then seen else seen - {uids[n-1]}, uids, live, n - 1)
  }

  function Announced(left: seq<nat>, uids: seq<nat>): seq<Response> {
    if uids == left then [] else [Exists(|uids|)]
  }

  /** The responses of a flush, and the record it leaves, from the lists alone. */
  function Responses(before: seq<nat>, latest: seq<nat>, byUid: map<nat, Item>, deleted: set<nat>, seen: FlagTable)
    : seq<Response>
  {
    var live, uids := AsSet(latest), Renumbered(before, latest);
    Expunges(before, live, |before|) + Announced(Only(before, live), uids)
    + FlagFetches(uids, byUid, deleted, Forget(seen, before, live, |before|), |uids|)
  }

  function Record(before: seq<nat>, latest: seq<nat>, byUid: map<nat, Item>, deleted: set<nat>, seen: FlagTable)
    : FlagTable
  {
    var uids := Renumbered(before, latest);
    FlagsAfter(uids, byUid, deleted, Forget(seen, before, AsSet(latest), |before|), |uids|)
  }

  function Flushed(sel: Selected, latest: Snapshot, deleted: set<nat>): Selected {
    var uids := Renumbered(sel.uids, latest.Uids());
    sel.(uids := uids, seqOf := SeqOf(uids), viewVersion := latest.version,
    flagsSeen := Record(sel.uids, latest.Uids(), latest.ByUid(), deleted, sel.flagsSeen))
  }

  function FlushResponses(sel: Selected, latest: Snapshot, deleted: set<nat>): seq<Response> {
    Responses(sel.uids, latest.Uids(), latest.ByUid(), deleted, sel.flagsSeen)
  }

  // ----- the client ---------------------------------------------------------------------------------

  /** A client's numbered list. A position holds the UID the client has learned for it, if any. */
  type Client = seq<Option<nat>>

  predicate Acceptable(c: Client, r: Response) {
    match r
    case Expunge(n) => 1 <= n <= |c|
    case Exists(n) => |c| <= n
    case Fetch(n, uid, _) => 1 <= n <= |c| && (c[n-1].Some? ==> c[n-1].value == uid)
  }

  function Unknown(n: nat): (r: Client)
    ensures |r| == n
  {
    seq(n, _ => None)
  }

  function Obey(c: Client, r: Response): Client
    requires Acceptable(c, r)
  {
    match r
    case Expunge(n) => c[..n-1] + c[n..]
    case Exists(n) => c + Unknown(n - |c|)
    case Fetch(n, uid, _) => c[n-1 := Some(uid)]
  }

  /** The client's list after the responses, or nothing if one of them makes no sense to it. */
  function ObeyAll(c: Client, rs: seq<Response>): Option<Client>
    decreases |rs|
  {
    if rs == [] then Some(c)
    else if Acceptable(c, rs[0]) then ObeyAll(Obey(c, rs[0]), rs[1..])
    else None
  }

  ghost predicate Aligned(c: Client, uids: seq<nat>) {
    |c| == |uids| && forall i :: 0 <= i < |c| && c[i].Some? ==> c[i].value == uids[i]
  }

  lemma {:induction false} ObeyConcat(c: Client, rs: seq<Response>, more: seq<Response>)
    ensures ObeyAll(c, rs).Some? ==> ObeyAll(c, rs + more) == ObeyAll(ObeyAll(c, rs).value, more)
    decreases |rs|
  {
    if rs == [] {
      assert rs + more == more;
    } else if Acceptable(c, rs[0]) {
      assert (rs + more)[1..] == rs[1..] + more;
      ObeyConcat(Obey(c, rs[0]), rs[1..], more);
    }
  }

  lemma {:induction false} OnlySnoc(uids: seq<nat>, u: nat, keep: set<nat>)
    ensures Only(uids + [u], keep) == Only(uids, keep) + (if u in keep then [u] else [])
  {
    if uids == [] {
      assert [] + [u] == [u];
    } else {
      assert (uids + [u])[1..] == uids[1..] + [u];
      OnlySnoc(uids[1..], u, keep);
      var first, rest := if uids[0] in keep then [uids[0]] else [], Only(uids[1..], keep);
      var last := if u in keep then [u] else [];
      assert Only(uids + [u], keep) == first + (rest + last) && Only(uids, keep) == first + rest;
      hide Only;
      assert first + (rest + last) == (first + rest) + last;
    }
  }

  lemma SnocCons<T>(s: seq<T>, n: nat, tail: seq<T>)
    requires 0 < n <= |s|
    ensures s[..n-1] + ([s[n-1]] + tail) == s[..n] + tail
  {
  }

  lemma OnlyUpTo(uids: seq<nat>, keep: set<nat>, n: nat)
    requires 0 < n <= |uids|
    ensures Only(uids[..n], keep) == if uids[n-1] in keep then Only(uids[..n-1], keep) + [uids[n-1]]
            else Only(uids[..n-1], keep)
  {
    assert uids[..n] == uids[..n-1] + [uids[n-1]];
    OnlySnoc(uids[..n-1], uids[n-1], keep);
  }

  lemma ExpungesStep(uids: seq<nat>, live: set<nat>, n: nat)
    requires 0 < n <= |uids|
    ensures Expunges(uids, live, n) == if uids[n-1] in live then Expunges(uids, live, n - 1)
            else [Expunge(n)] + Expunges(uids, live, n - 1)
  {
  }

  lemma ObeyFirst(c: Client, r: Response, rs: seq<Response>)
    requires Acceptable(c, r)
    ensures ObeyAll(c, [r] + rs) == ObeyAll(Obey(c, r), rs)
  {
    assert ([r] + rs)[1..] == rs;
  }

  lemma NoExpunges(c: Client, uids: seq<nat>, live: set<nat>)
    ensures ObeyAll(c, Expunges(uids, live, 0)) == Some(c) && Only(uids[..0], live) == uids[..0]
  {
  }

  lemma ObeyOne(c: Client, uids: seq<nat>, n: nat, tail: seq<nat>)
    requires 0 < n <= |uids| && Aligned(c, uids[..n] + tail)
    ensures Acceptable(c, Expunge(n)) && Aligned(Obey(c, Expunge(n)), uids[..n-1] + tail)
  {
    var c' := Obey(c, Expunge(n));
    assert forall i :: 0 <= i < |c'| ==> c'[i] == (if i < n - 1 then c[i] else c[i+1]);
  }

  /** Deleting from the highest position down keeps the lower positions where they are. `tail` is
      the part of the list that was already handled. */
  lemma {:induction false} ObeyExpunges(c: Client, uids: seq<nat>, live: set<nat>, n: nat, tail: seq<nat>)
    requires n <= |uids| && Aligned(c, uids[..n] + tail)
    ensures var after := ObeyAll(c, Expunges(uids, live, n));
            after.Some? && Aligned(after.value, Only(uids[..n], live) + tail)
    decreases n
  {
    hide *;
    if n == 0 {
      NoExpunges(c, uids, live);
    } else {
      var u := uids[n-1];
      OnlyUpTo(uids, live, n);
      ExpungesStep(uids, live, n);
      if u in live {
        SnocCons(uids, n, tail);
        ObeyExpunges(c, uids, live, n - 1, [u] + tail);
        MovesOver(Only(uids[..n-1], live), u, tail);
      } else {
        ObeyOne(c, uids, n, tail);
        ObeyExpunges(Obey(c, Expunge(n)), uids, live, n - 1, tail);
        ObeyFirst(c, Expunge(n), Expunges(uids, live, n - 1));
      }
    }
  }

  lemma ObeyFetch(c: Client, uids: seq<nat>, n: nat, byUid: map<nat, Item>, deleted: set<nat>, record: FlagTable)
    requires 0 < n <= |uids| && Aligned(c, uids)
    ensures var after := ObeyAll(c, FlagFetch(n, uids[n-1], byUid, deleted, record));
            after.Some? && Aligned(after.value, uids)
  {
    var rs := FlagFetch(n, uids[n-1], byUid, deleted, record);
    if rs != [] {
      assert rs[1..] == [];
      assert ObeyAll(c, rs) == Some(Obey(c, rs[0]));
    }
  }

  lemma {:induction false} ObeyFetches(c: Client, uids: seq<nat>, byUid: map<nat, Item>, deleted: set<nat>,
      seen: FlagTable, n: nat)
    requires n <= |uids| && Aligned(c, uids)
    ensures var after := ObeyAll(c, FlagFetches(uids, byUid, deleted, seen, n));
            after.Some? && Aligned(after.value, uids)
  {
    hide Aligned, FlagFetch, Acceptable, Obey, FlagsOf;
    if n > 0 {
      ObeyFetches(c, uids, byUid, deleted, seen, n - 1);
      var rs := FlagFetches(uids, byUid, deleted, seen, n - 1);
      var record := FlagsAfter(uids, byUid, deleted, seen, n - 1);
      ObeyFetch(ObeyAll(c, rs).value, uids, n, byUid, deleted, record);
      ObeyConcat(c, rs, FlagFetch(n, uids[n-1], byUid, deleted, record));
    }
  }

  // ----- renumbering ----------------------------------------------------------------------------------

  /** New UIDs are above every UID the session still shows: the order the store guarantees. */
  ghost predicate ArriveAbove(uids: seq<nat>, latest: seq<nat>) {
    forall u, v :: u in uids && u in latest && v in latest && v !in uids ==> u < v
  }

  lemma {:induction false} AscendingUnique(s: seq<nat>, t: seq<nat>)
    requires Ascending(s) && Ascending(t) && forall u :: u in s <==> u in t
    ensures s == t
  {
    assert s != [] ==> s[0] in t;
    assert t != [] ==> t[0] in s;
    if s != [] {
      assert s[0] == t[0];
      forall u ensures u in s[1..] <==> u in t[1..] {
        if u in s[1..] { assert u in s && s[0] < u; assert u in t; }
        if u in t[1..] { assert u in t && t[0] < u; assert u in s; }
      }
      AscendingUnique(s[1..], t[1..]);
      assert s == [s[0]] + s[1..] && t == [t[0]] + t[1..];
    }
  }

  lemma {:induction false} OnlyIs(uids: seq<nat>, keep: set<nat>)
    ensures forall u :: u in Only(uids, keep) <==> u in uids && u in keep
    ensures Ascending(uids) ==> Ascending(Only(uids, keep))
  {
    if uids != [] {
      OnlyIs(uids[1..], keep);
      assert uids == [uids[0]] + uids[1..];
      if Ascending(uids) {
        var rest := Only(uids[1..], keep);
        forall i | 0 <= i < |rest| ensures uids[0] < rest[i] {
          assert rest[i] in rest;
          assert rest[i] in uids[1..];
        }
      }
    }
  }

  lemma {:induction false} ExceptIs(uids: seq<nat>, drop: set<nat>)
    ensures forall u :: u in Except(uids, drop) <==> u in uids && u !in drop
    ensures Ascending(uids) ==> Ascending(Except(uids, drop))
  {
    if uids != [] {
      ExceptIs(uids[1..], drop);
      assert uids == [uids[0]] + uids[1..];
      if Ascending(uids) {
        var rest := Except(uids[1..], drop);
        forall i | 0 <= i < |rest| ensures uids[0] < rest[i] {
          assert rest[i] in rest;
          assert rest[i] in uids[1..];
        }
      }
    }
  }

  lemma AscendingConcat(s: seq<nat>, t: seq<nat>)
    requires Ascending(s) && Ascending(t) && forall u, v :: u in s && v in t ==> u < v
    ensures Ascending(s + t)
  {
    forall i, j | 0 <= i < j < |s + t| ensures (s + t)[i] < (s + t)[j] {
      if i < |s| <= j {
        assert s[i] in s && t[j - |s|] in t;
      }
    }
  }

  /** A sorted list is left alone by the sort. */
  lemma {:induction false} SortKeepsAscending(s: seq<nat>)
    requires Ascending(s)
    ensures Sort(NatLeq, s) == s
  {
    if s != [] {
      SortKeepsAscending(s[1..]);
      assert s == [s[0]] + s[1..];
      assert s[1..] == [] || NatLeq(s[0], s[1..][0]);
    }
  }

  /** When arrivals come above, the sort after `extend` moves nothing, and the list becomes exactly
      the snapshot's. */
  lemma RenumberedIs(uids: seq<nat>, latest: seq<nat>)
    requires Ascending(uids) && Ascending(latest) && ArriveAbove(uids, latest)
    ensures Renumbered(uids, latest) == Only(uids, AsSet(latest)) + Except(latest, AsSet(Only(uids, AsSet(latest))))
    ensures Renumbered(uids, latest) == latest
  {
    var left := Only(uids, AsSet(latest));
    var added := Except(latest, AsSet(left));
    OnlyIs(uids, AsSet(latest));
    ExceptIs(latest, AsSet(left));
    AscendingConcat(left, added);
    SortKeepsAscending(left + added);
    AscendingUnique(left + added, latest);
    assert added == [] ==> left + added == left;
  }

  /** EXISTS extends the list when it grew, and is not sent otherwise. */
  lemma ObeyExists(c: Client, left: seq<nat>, uids: seq<nat>)
    requires Aligned(c, left) && left <= uids
    ensures var after := ObeyAll(c, Announced(left, uids));
            after.Some? && Aligned(after.value, uids)
  {
    if uids != left {
      var rs := [Exists(|uids|)];
      assert Acceptable(c, rs[0]);
      assert rs[1..] == [];
      assert ObeyAll(c, rs) == Some(c + Unknown(|uids| - |c|));
    }
  }

  /** Three batches of responses, each of which the client can follow. */
  lemma ObeyInTurn(c: Client, r1: seq<Response>, r2: seq<Response>, r3: seq<Response>)
    requires ObeyAll(c, r1).Some? && ObeyAll(ObeyAll(c, r1).value, r2).Some?
    ensures ObeyAll(c, r1 + r2 + r3) == ObeyAll(ObeyAll(ObeyAll(c, r1).value, r2).value, r3)
  {
    ObeyConcat(c, r1, r2);
    ObeyConcat(c, r1 + r2, r3);
  }

  lemma ResponsesKeepMirror(before: seq<nat>, latest: seq<nat>, byUid: map<nat, Item>, deleted: set<nat>,
      seen: FlagTable, c: Client)
    requires Aligned(c, before)
    requires Ascending(before) && Ascending(latest) && ArriveAbove(before, latest)
    ensures var after := ObeyAll(c, Responses(before, latest, byUid, deleted, seen));
            after.Some? && Aligned(after.value, latest)
  {
    var live, n := AsSet(latest), |before|;
    var left, uids := Only(before, live), Renumbered(before, latest);
    RenumberedIs(before, latest);
    assert before[..n] == before && before + [] == before && left + [] == left;
    ObeyExpunges(c, before, live, n, []);
    var c1 := ObeyAll(c, Expunges(before, live, n)).value;
    assert left <= uids;
    ObeyExists(c1, left, uids);
    var c2 := ObeyAll(c1, Announced(left, uids)).value;
    var seen' := Forget(seen, before, live, n);
    ObeyFetches(c2, uids, byUid, deleted, seen', |uids|);
    ObeyInTurn(c, Expunges(before, live, n), Announced(left, uids), FlagFetches(uids, byUid, deleted, seen', |uids|));
  }

  /** After the responses of one flush an aligned client is aligned with the new list, which is the
      snapshot's, and the position index is its inverse. */
  lemma FlushKeepsMirror(sel: Selected, latest: Snapshot, deleted: set<nat>, c: Client)
    requires Aligned(c, sel.uids)
    requires Ascending(sel.uids) && Ascending(latest.Uids()) && ArriveAbove(sel.uids, latest.Uids())
    ensures var after := ObeyAll(c, FlushResponses(sel, latest, deleted));
            after.Some? && Aligned(after.value, Flushed(sel, latest, deleted).uids)
    ensures Flushed(sel, latest, deleted).uids == latest.Uids()
    ensures Inverse(Flushed(sel, latest, deleted))
  {
    ResponsesKeepMirror(sel.uids, latest.Uids(), latest.ByUid(), deleted, sel.flagsSeen, c);
    RenumberedIs(sel.uids, latest.Uids());
    InverseOf(latest.Uids());
  }

  /** `seq_of` and `uids` are inverse to each other. */
  ghost predicate Inverse(sel: Selected) {
    && (forall u :: u in sel.seqOf <==> u in sel.uids)
    && (forall i :: 0 <= i < |sel.uids| ==> sel.uids[i] in sel.seqOf && sel.seqOf[sel.uids[i]] == i + 1)
  }

  lemma {:induction false} InverseOf(uids: seq<nat>)
    requires Ascending(uids)
    ensures forall u :: u in SeqOf(uids) <==> u in uids
    ensures forall i :: 0 <= i < |uids| ==> uids[i] in SeqOf(uids) && SeqOf(uids)[uids[i]] == i + 1
  {
    if uids != [] {
      var front := uids[..|uids|-1];
      InverseOf(front);
      assert uids == front + [uids[|uids|-1]];
    }
  }

  // ----- flags ---------------------------------------------------------------------------------------

  /** What the client was told about flags, by UID. */
  function Told(told: FlagTable, rs: seq<Response>): FlagTable {
    if rs == [] then told
    else
      var before := Told(told, rs[..|rs|-1]);
      match rs[|rs|-1]
      case Fetch(_, uid, flags) => before[uid := flags]
      case _ => before
  }

  /** The record holds what the client was told about listed messages, and the current flags of the first
      `n`. */
  ghost predicate Recorded(after: FlagTable, record: FlagTable, uids: seq<nat>,
                           byUid: map<nat, Item>, deleted: set<nat>, n: nat)
    requires n <= |uids|
  {
    && (forall u :: u in after && u in uids ==> u in record && record[u] == after[u])
    && (forall u :: u in uids[..n] && u in byUid ==> u in record && record[u] == FlagsOf(byUid[u], deleted))
  }

  lemma {:induction false} ToldFetches(told: FlagTable, pre: seq<Response>, uids: seq<nat>,
                                       byUid: map<nat, Item>, deleted: set<nat>, seen: FlagTable, n: nat)
    requires n <= |uids| && forall i :: 0 <= i < |pre| ==> !pre[i].Fetch?
    requires forall u :: u in told && u in uids ==> u in seen && seen[u] == told[u]
    ensures Recorded(Told(told, pre + FlagFetches(uids, byUid, deleted, seen, n)),
                     FlagsAfter(uids, byUid, deleted, seen, n), uids, byUid, deleted, n)
  {
    hide *;
    if n == 0 {
      FetchNothing(pre, uids, byUid, deleted, seen);
      ToldNothing(told, pre);
      RecordedAtFirst(told, seen, uids, byUid, deleted);
    } else {
      ToldFetches(told, pre, uids, byUid, deleted, seen, n - 1);
      FetchesStep(pre, uids, byUid, deleted, seen, n);
      var rs := pre + FlagFetches(uids, byUid, deleted, seen, n - 1);
      var record := FlagsAfter(uids, byUid, deleted, seen, n - 1);
      ToldFetch(told, rs, n, uids[n-1], byUid, deleted, record);
      ToldRecord(Told(told, rs), record, uids, byUid, deleted, n);
    }
  }

  lemma FetchNothing(pre: seq<Response>, uids: seq<nat>, byUid: map<nat, Item>, deleted: set<nat>, seen: FlagTable)
    ensures pre + FlagFetches(uids, byUid, deleted, seen, 0) == pre && FlagsAfter(uids, byUid, deleted, seen, 0) == seen
  {
  }

  lemma RecordedAtFirst(told: FlagTable, seen: FlagTable, uids: seq<nat>, byUid: map<nat, Item>, deleted: set<nat>)
    requires forall u :: u in told && u in uids ==> u in seen && seen[u] == told[u]
    ensures Recorded(told, seen, uids, byUid, deleted, 0)
  {
  }

  lemma FetchesStep(pre: seq<Response>, uids: seq<nat>, byUid: map<nat, Item>, deleted: set<nat>,
                    seen: FlagTable, n: nat)
    requires 0 < n <= |uids|
    ensures var record, u := FlagsAfter(uids, byUid, deleted, seen, n - 1), uids[n-1];
            && pre + FlagFetches(uids, byUid, deleted, seen, n) ==
               pre + FlagFetches(uids, byUid, deleted, seen, n - 1) + FlagFetch(n, u, byUid, deleted, record)
            && FlagsAfter(uids, byUid, deleted, seen, n) ==
               if u in byUid then record[u := FlagsOf(byUid[u], deleted)] else record
  {
    hide FlagFetch, FlagsOf;
  }

  lemma ToldRecord(after: FlagTable, record: FlagTable, uids: seq<nat>, byUid: map<nat, Item>,
                   deleted: set<nat>, n: nat)
    requires 0 < n <= |uids| && Recorded(after, record, uids, byUid, deleted, n - 1)
    ensures var u := uids[n-1];
            var silent := FlagFetch(n, u, byUid, deleted, record) == [];
            Recorded(if silent then after else after[u := FlagsOf(byUid[u], deleted)],
                     if u in byUid then record[u := FlagsOf(byUid[u], deleted)] else record,
                     uids, byUid, deleted, n)
  {
    hide FlagsOf;
    assert uids[..n] == uids[..n-1] + [uids[n-1]];
  }

  lemma ToldFetch(told: FlagTable, rs: seq<Response>, n: nat, u: nat, byUid: map<nat, Item>,
      deleted: set<nat>, record: FlagTable)
    ensures var last := FlagFetch(n, u, byUid, deleted, record);
            Told(told, rs + last) == if last == [] then Told(told, rs)
                else Told(told, rs)[u := FlagsOf(byUid[u], deleted)]
  {
    var last := FlagFetch(n, u, byUid, deleted, record);
    if last == [] {
      assert rs + last == rs;
    } else {
      assert (rs + last)[..|rs|] == rs;
    }
  }

  lemma {:induction false} ToldNothing(told: FlagTable, rs: seq<Response>)
    requires forall i :: 0 <= i < |rs| ==> !rs[i].Fetch?
    ensures Told(told, rs) == told
  {
    if rs != [] {
      ToldNothing(told, rs[..|rs|-1]);
    }
  }

  lemma {:induction false} ForgetKeeps(seen: FlagTable, uids: seq<nat>, live: set<nat>, n: nat, u: nat)
    requires n <= |uids| && u in seen && u in live
    ensures u in Forget(seen, uids, live, n) && Forget(seen, uids, live, n)[u] == seen[u]
    decreases n
  {
    if n > 0 {
      ForgetKeeps(if uids[n-1] in live then seen else seen - {uids[n-1]}, uids, live, n - 1, u);
    }
  }

  /** The responses before the flag fetches are no fetches, and what is still listed is not forgotten. */
  lemma BeforeFetches(before: seq<nat>, live: set<nat>, uids: seq<nat>, told: FlagTable, seen: FlagTable,
                      pre: seq<Response>, left: FlagTable)
    requires forall u :: u in told ==> u in seen && seen[u] == told[u]
    requires forall u :: u in uids ==> u in live
    requires pre == Expunges(before, live, |before|) + Announced(Only(before, live), uids)
    requires left == Forget(seen, before, live, |before|)
    ensures forall i :: 0 <= i < |pre| ==> !pre[i].Fetch?
    ensures forall u :: u in told && u in uids ==> u in left && left[u] == told[u]
  {
    hide Expunges, Forget, Only;
    ExpungesOnly(before, live, |before|);
    forall u | u in told && u in uids ensures u in left && left[u] == told[u] {
      ForgetKeeps(seen, before, live, |before|, u);
    }
  }

  lemma ResponsesRecorded(before: seq<nat>, latest: seq<nat>, byUid: map<nat, Item>, deleted: set<nat>,
                          seen: FlagTable, told: FlagTable)
    requires forall u :: u in told ==> u in seen && seen[u] == told[u]
    requires Renumbered(before, latest) == latest
    ensures Recorded(Told(told, Responses(before, latest, byUid, deleted, seen)),
                     Record(before, latest, byUid, deleted, seen), latest, byUid, deleted, |latest|)
  {
    hide Told, FlagFetches, FlagsAfter, Renumbered, Only, Recorded, Forget, Expunges, Announced;
    var live := AsSet(latest);
    var pre, left := Expunges(before, live, |before|) + Announced(Only(before, live), latest),
        Forget(seen, before, live, |before|);
    BeforeFetches(before, live, latest, told, seen, pre, left);
    ToldFetches(told, pre, latest, byUid, deleted, left, |latest|);
  }

  lemma RecordedTells(after: FlagTable, record: FlagTable, uids: seq<nat>, byUid: map<nat, Item>, deleted: set<nat>,
                      u: nat)
    requires Recorded(after, record, uids, byUid, deleted, |uids|) && u in uids && u in byUid
    ensures u in record && record[u] == FlagsOf(byUid[u], deleted)
    ensures u in after ==> after[u] == FlagsOf(byUid[u], deleted)
  {
    hide FlagsOf;
    assert uids[..|uids|] == uids;
  }

  /** A client whose knowledge matched the session's record before the flush knows the current flags
      of every message it was ever told about, and the record holds the current flags of all. */
  lemma FlushTellsFlags(sel: Selected, latest: Snapshot, deleted: set<nat>, told: FlagTable, x: Item)
    requires Ascending(sel.uids) && Ascending(latest.Uids()) && ArriveAbove(sel.uids, latest.Uids())
    requires forall u :: u in told ==> u in sel.flagsSeen && sel.flagsSeen[u] == told[u]
    requires x in latest.items
    ensures var after := Told(told, FlushResponses(sel, latest, deleted));
            x.uid in after ==> after[x.uid] == FlagsOf(x, deleted)
    ensures var record := Flushed(sel, latest, deleted).flagsSeen;
            x.uid in record && record[x.uid] == FlagsOf(x, deleted)
  {
    hide Told, Responses, Record, Recorded, Renumbered, FlagsOf, Ascending, ArriveAbove, SeqOf;
    RenumberedIs(sel.uids, latest.Uids());
    ByUidIs(latest, x);
    ResponsesRecorded(sel.uids, latest.Uids(), latest.ByUid(), deleted, sel.flagsSeen, told);
    RecordedTells(Told(told, FlushResponses(sel, latest, deleted)), Flushed(sel, latest, deleted).flagsSeen,
                  latest.Uids(), latest.ByUid(), deleted, x.uid);
  }

  lemma ByUidIs(snap: Snapshot, x: Item)
    requires Ascending(snap.Uids()) && x in snap.items
    ensures x.uid in snap.ByUid() && snap.ByUid()[x.uid] == x && x.uid in snap.Uids()
  {
    var i :| 0 <= i < |snap.items| && snap.items[i] == x;
    assert snap.Uids()[i] == x.uid;
    assert snap.items[i].uid in snap.ByUid();
    var j :| 0 <= j < |snap.items| && snap.items[j] == snap.ByUid()[x.uid];
    assert snap.Uids()[j] == snap.Uids()[i];
  }

  lemma {:induction false} ExpungesOnly(uids: seq<nat>, live: set<nat>, n: nat)
    requires n <= |uids|
    ensures forall i :: 0 <= i < |Expunges(uids, live, n)| ==> Expunges(uids, live, n)[i].Expunge?
  {
    if n > 0 {
      ExpungesOnly(uids, live, n - 1);
    }
  }

  lemma {:induction false} ForgottenKeys(seen: FlagTable, uids: seq<nat>, live: set<nat>, n: nat)
    requires n <= |uids|
    ensures forall u :: u in Forget(seen, uids, live, n) <==> u in seen && (u in uids[..n] ==> u in live)
    decreases n
  {
    if n > 0 {
      ForgottenKeys(if uids[n-1] in live then seen else seen - {uids[n-1]}, uids, live, n - 1);
      assert uids[..n] == uids[..n-1] + [uids[n-1]];
    }
  }

  lemma {:induction false} FlagsAfterKeys(uids: seq<nat>, byUid: map<nat, Item>, deleted: set<nat>, seen: FlagTable,
                                          n: nat)
    requires n <= |uids|
    ensures forall u :: u in FlagsAfter(uids, byUid, deleted, seen, n) <==> u in seen || (u in uids[..n] && u in byUid)
  {
    if n > 0 {
      FlagsAfterKeys(uids, byUid, deleted, seen, n - 1);
      assert uids[..n] == uids[..n-1] + [uids[n-1]];
    }
  }

  /** The record is about the messages of the view and no others: what vanished is forgotten. */
  lemma RecordIsOfView(sel: Selected, latest: Snapshot, deleted: set<nat>)
    requires Ascending(sel.uids) && Ascending(latest.Uids()) && ArriveAbove(sel.uids, latest.Uids())
    requires forall u :: u in sel.flagsSeen ==> u in sel.uids
    ensures var after := Flushed(sel, latest, deleted);
            forall u :: u in after.flagsSeen <==> u in after.uids
  {
    hide Forget, FlagsAfter, Renumbered, Ascending, ArriveAbove, SeqOf, FlagsOf;
    var live, byUid := AsSet(latest.Uids()), latest.ByUid();
    RenumberedIs(sel.uids, latest.Uids());
    ForgottenKeys(sel.flagsSeen, sel.uids, live, |sel.uids|);
    var left := Forget(sel.flagsSeen, sel.uids, live, |sel.uids|);
    FlagsAfterKeys(latest.Uids(), byUid, deleted, left, |latest.Uids()|);
    assert sel.uids[..|sel.uids|] == sel.uids && latest.Uids()[..|latest.Uids()|] == latest.Uids();
    forall u | u in latest.Uids() ensures u in byUid {
      var i :| 0 <= i < |latest.items| && latest.Uids()[i] == u;
      assert latest.items[i].uid == u;
    }
  }

  /** After arrivals the list is sorted, whatever order it and the snapshot were in; without arrivals it keeps its
      order. Either way it holds what is left and what arrived. */
  lemma RenumberedSorts(uids: seq<nat>, latest: seq<nat>)
    ensures var left, after := Only(uids, AsSet(latest)), Renumbered(uids, latest);
            var added := Except(latest, AsSet(left));
            && multiset(after) == multiset(left) + multiset(added)
            && if added == [] then after == left else forall i, j :: 0 <= i < j < |after| ==> after[i] <= after[j]
  {
    var left := Only(uids, AsSet(latest));
    var added := Except(latest, AsSet(left));
    SortKeepsBag(NatLeq, left + added);
    SortSorts(NatLeq, left + added);
  }

  // ----- the silent drop of CLOSE ------------------------------------------------------------------------

  /** What CLOSE does to the view before it reports a failed removal: vanished UIDs are dropped without
      a word, and the mailbox stays selected. */
  function SilentDrop(sel: Selected, latest: Snapshot): Selected {
    var uids := Only(sel.uids, AsSet(latest.Uids()));
    sel.(uids := uids, seqOf := SeqOf(uids), viewVersion := latest.version)
  }

  /** A client stays in step with a silent drop exactly when there was nothing to drop. */
  lemma SilentDropIff(sel: Selected, latest: Snapshot, c: Client)
    requires Aligned(c, sel.uids)
    ensures SilentDrop(sel, latest).viewVersion == latest.version && SilentDrop(sel, latest).readOnly == sel.readOnly
    ensures forall u :: u in SilentDrop(sel, latest).uids <==> u in sel.uids && u in latest.Uids()
    ensures Aligned(c, SilentDrop(sel, latest).uids) <==> forall u :: u in sel.uids ==> u in latest.Uids()
  {
    OnlyShrinks(sel.uids, AsSet(latest.Uids()));
    OnlyIs(sel.uids, AsSet(latest.Uids()));
  }

  lemma {:induction false} OnlyShrinks(uids: seq<nat>, keep: set<nat>)
    ensures |Only(uids, keep)| <= |uids|
    ensures |Only(uids, keep)| == |uids| <==> forall u :: u in uids ==> u in keep
    ensures |Only(uids, keep)| == |uids| ==> Only(uids, keep) == uids
  {
    if uids != [] {
      OnlyShrinks(uids[1..], keep);
      assert uids == [uids[0]] + uids[1..];
    }
  }

  /** A fresh selection: the index is the inverse of the list, and the record holds every item's flags. */
  lemma SelectsView(snap: Snapshot, readOnly: bool, deleted: set<nat>)
    requires Ascending(snap.Uids())
    ensures var sel := FromSnapshot(snap, readOnly, deleted);
            && Inverse(sel)
            && forall x :: x in snap.items ==> x.uid in sel.flagsSeen && sel.flagsSeen[x.uid] == FlagsOf(x, deleted)
  {
    InverseOf(snap.Uids());
    forall x | x in snap.items ensures x.uid in snap.ByUid() && snap.ByUid()[x.uid] == x {
      ByUidIs(snap, x);
    }
  }

  // ----- the class ------------------------------------------------------------------------------------

  class Session {
    const mailboxes: MailboxService
    var selected: Option<Selected>
    var out: seq<Response>

    constructor (mailboxes: MailboxService)
      ensures this.mailboxes == mailboxes && selected == None && out == []
    {
      this.mailboxes := mailboxes;
      selected, out := None, [];
    }

    method ApplySnapshot(snap: Snapshot, readOnly: bool)
      modifies this`selected
      ensures selected == Some(FromSnapshot(snap, readOnly, mailboxes.store.Tables().Marked(snap.box)))
      ensures selected.value.uids == snap.Uids() && selected.value.box == snap.box
      ensures selected.value.readOnly == readOnly && selected.value.viewVersion == snap.version
      ensures Ascending(snap.Uids()) ==>
                && Inverse(selected.value)
                && forall x :: x in snap.items ==>
                     && x.uid in selected.value.flagsSeen
                     && selected.value.flagsSeen[x.uid] == FlagsOf(x, mailboxes.store.Tables().Marked(snap.box))
    {
      if Ascending(snap.Uids()) {
        SelectsView(snap, readOnly, MarkedIn(mailboxes.store.marks, snap.box));
      }
      var deleted := MarkedIn(mailboxes.store.marks, snap.box);
      selected := Some(FromSnapshot(snap, readOnly, deleted));
    }

    method RecordFlags(uid: nat, flags: set<Flag>)
      modifies this`selected
      ensures selected == match old(selected)
                          case None => None
                          case Some(s) => Some(s.(flagsSeen := s.flagsSeen[uid := flags]))
    {
      if selected.Some? {
        selected := Some(selected.value.(flagsSeen := selected.value.flagsSeen[uid := flags]));
      }
    }

    /** Announces what changed since the client last heard from us. */
    method FlushPending()
      modifies this
      ensures old(selected).None? || old(selected).value.box !in mailboxes.latest ==>
                selected == old(selected) && out == old(out)
      ensures old(selected).Some? && old(selected).value.box in mailboxes.latest ==>
                var sel := old(selected).value;
                var latest, deleted := mailboxes.latest[sel.box], mailboxes.store.Tables().Marked(sel.box);
                && selected == Some(Flushed(sel, latest, deleted))
                && out == old(out) + FlushResponses(sel, latest, deleted)
                && selected.value.box == sel.box && selected.value.readOnly == sel.readOnly
                && selected.value.viewVersion == latest.version
    {
      if selected.None? || selected.value.box !in mailboxes.latest {
        return;
      }
      var box := selected.value.box;
      var deleted := MarkedIn(mailboxes.store.marks, box);
      assert deleted == mailboxes.store.Tables().Marked(box);
      Announce(mailboxes.latest[box], deleted);
    }

    method Announce(latest: Snapshot, deleted: set<nat>)
      requires selected.Some?
      modifies this
      ensures selected == Some(Flushed(old(selected).value, latest, deleted))
      ensures out == old(out) + FlushResponses(old(selected).value, latest, deleted)
    {
      var sel := selected.value;
      ghost var live := AsSet(latest.Uids());
      var uids, seen := DropVanished(sel, AsSet(latest.Uids()));
      ghost var left, kept := uids, seen;
      uids := AnnounceArrivals(sel.uids, uids, latest.Uids());
      seen := AnnounceFlags(uids, latest.ByUid(), deleted, seen);
      assert out == old(out) + FlushResponses(sel, latest, deleted) by {
        Associates(old(out), Expunges(sel.uids, live, |sel.uids|), Announced(left, uids),
                   FlagFetches(uids, latest.ByUid(), deleted, kept, |uids|));
      }
      selected := Some(sel.(uids := uids, seqOf := SeqOf(uids), viewVersion := latest.version, flagsSeen := seen));
    }

    /** The arrivals: appended, sorted in, and counted in one EXISTS. */
    method AnnounceArrivals(ghost before: seq<nat>, left: seq<nat>, latest: seq<nat>) returns (uids: seq<nat>)
      requires left == Only(before, AsSet(latest))
      modifies this`out
      ensures uids == Renumbered(before, latest) && out == old(out) + Announced(left, uids)
    {
      uids := left;
      var known := AsSet(uids);
      var added := Except(latest, known);
      if added != [] {
        uids := Sort(NatLeq, uids + added);
        out := out + [Exists(|uids|)];
        GrownDiffers(left, added);
      }
    }

    /** The last loop: FETCH FLAGS where the flags differ from what this client was last told. */
    method AnnounceFlags(uids: seq<nat>, byUid: map<nat, Item>, deleted: set<nat>, seen: FlagTable)
      returns (flags: FlagTable)
      modifies this`out
      ensures flags == FlagsAfter(uids, byUid, deleted, seen, |uids|)
      ensures out == old(out) + FlagFetches(uids, byUid, deleted, seen, |uids|)
    {
      flags := seen;
      for i := 0 to |uids|
        invariant out == old(out) + FlagFetches(uids, byUid, deleted, seen, i)
        invariant flags == FlagsAfter(uids, byUid, deleted, seen, i)
      {
        var u := uids[i];
        if u in byUid {
          var now := FlagsOf(byUid[u], deleted);
          if u in flags && flags[u] != now {
            out := out + [Fetch(i + 1, u, now)];
          }
          flags := flags[u := now];
        }
      }
    }

    /** The first loop: EXPUNGE and delete, from the last position to the first. */
    method DropVanished(sel: Selected, live: set<nat>) returns (uids: seq<nat>, seen: FlagTable)
      modifies this`out
      ensures uids == Only(sel.uids, live) && seen == Forget(sel.flagsSeen, sel.uids, live, |sel.uids|)
      ensures out == old(out) + Expunges(sel.uids, live, |sel.uids|)
    {
      hide Only, Expunges, Forget;
      uids, seen := sel.uids, sel.flagsSeen;
      var n := |uids|;
      NothingDropped(sel.uids, live);
      while n > 0
        invariant 0 <= n <= |sel.uids|
        invariant uids == sel.uids[..n] + Only(sel.uids[n..], live)
        invariant Forget(seen, sel.uids, live, n) == Forget(sel.flagsSeen, sel.uids, live, |sel.uids|)
        invariant out + Expunges(sel.uids, live, n) == old(out) + Expunges(sel.uids, live, |sel.uids|)
      {
        DropStep(sel.uids, live, n);
        ForgetStep(seen, sel.uids, live, n);
        ExpungesStep(sel.uids, live, n);
        var u := uids[n-1];
        if u !in live {
          MovesOver(out, Expunge(n), Expunges(sel.uids, live, n - 1));
          out := out + [Expunge(n)];
          uids := uids[..n-1] + uids[n..];
          seen := seen - {u};
        }
        n := n - 1;
      }
      assert sel.uids[0..] == sel.uids && sel.uids[..0] == [];
    }
  }

  lemma NothingDropped(uids: seq<nat>, live: set<nat>)
    ensures uids[..|uids|] + Only(uids[|uids|..], live) == uids && Expunges(uids, live, 0) == []
    ensures forall seen :: Forget(seen, uids, live, 0) == seen
  {
  }

  lemma MovesOver<T>(a: seq<T>, x: T, b: seq<T>)
    ensures a + ([x] + b) == (a + [x]) + b
  {
  }

  lemma ForgetStep(seen: FlagTable, uids: seq<nat>, live: set<nat>, n: nat)
    requires 0 < n <= |uids|
    ensures Forget(seen, uids, live, n) == Forget(if uids[n-1] in live then seen
            else seen - {uids[n-1]}, uids, live, n - 1)
  {
  }

  lemma DropStep(uids: seq<nat>, live: set<nat>, n: nat)
    requires 0 < n <= |uids|
    ensures var now, next := uids[..n] + Only(uids[n..], live), uids[..n-1] + Only(uids[n-1..], live);
            now[n-1] == uids[n-1] && next == if uids[n-1] in live then now else now[..n-1] + now[n..]
  {
    assert uids[n-1..][1..] == uids[n..];
    assert uids[..n] == uids[..n-1] + [uids[n-1]];
  }

  lemma Associates<T>(a: seq<T>, b: seq<T>, c: seq<T>, d: seq<T>)
    ensures ((a + b) + c) + d == a + ((b + c) + d)
  {
  }

  lemma GrownDiffers(left: seq<nat>, added: seq<nat>)
    requires added != []
    ensures Sort(NatLeq, left + added) != left
  {
    SortPermutes(NatLeq, left + added);
  }
}
