/** The values the gateway passes around: mailboxes, items, listing entries and snapshots. */
module Types {

  datatype Option<+T> = None | Some(value: T)

  datatype Result<+T, +E> = Ok(value: T) | Err(error: E)

  /** The mailboxes every inbox shows. */
  datatype View = InboxView | DraftsView | SentView | TrashView | SpamView

  /** A mailbox of one inbox: the key `(inbox_id, name)` of every table and dictionary. */
  datatype Box = Box(inbox: string, view: View)

  datatype Flag = Seen | Answered | Flagged | Deleted | Draft

  /** Flags by UID. */
  type FlagTable = map<nat, set<Flag>>

  /** Item fields that the protocol carries along and never interprets. */
  datatype Envelope = Envelope(sizeHint: Option<nat>, sender: string, recipients: seq<string>, subject: string)

  datatype Item = Item(uid: nat, key: string, id: string, flags: set<Flag>, date: int,
                       labels: set<string>, env: Envelope)

  /** One line of a complete listing. `date` and `id` are the sort key; `Build` is the closure that
      turns the line into an item once its UID is known. */
  datatype Entry = Entry(date: int, id: string, key: string, flags: set<Flag>,
                         labels: set<string>, env: Envelope)
  {
    function Build(uid: nat): Item {
      Item(uid, key, id, flags, date, labels, env)
    }
  }

  datatype Snapshot = Snapshot(box: Box, uidvalidity: nat, uidnext: nat, items: seq<Item>,
                               version: nat, syncedAt: real)
  {
    function Uids(): (r: seq<nat>)
      ensures |r| == |items|
    {
      seq(|items|, i requires 0 <= i < |items| => items[i].uid)
    }

    function ByUid(): map<nat, Item> {
      IndexByUid(items)
    }

    ghost predicate Names(uid: nat, key: string) {
      exists i :: 0 <= i < |items| && items[i].uid == uid && items[i].key == key
    }
  }

  /** The items by UID; a later item wins. */
  function IndexByUid(items: seq<Item>): (r: map<nat, Item>)
    ensures forall u :: u in r ==> r[u] in items && r[u].uid == u
    ensures forall i :: 0 <= i < |items| ==> items[i].uid in r
  {
    if items == [] then map[]
    else
      var last := items[|items|-1];
      assert items == items[..|items|-1] + [last];
      IndexByUid(items[..|items|-1])[last.uid := last]
  }

  function AsSet(s: seq<nat>): set<nat> {
    set u | u in s
  }

  ghost predicate Ascending(s: seq<nat>) {
    forall i, j :: 0 <= i < j < |s| ==> s[i] < s[j]
  }
}
