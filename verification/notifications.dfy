/**
 * The notification list store: the signed-in user's notifications plus a
 * cached count of the unread ones. Every action first awaits its server call
 * and only then touches local state, so each action is modelled as a pure
 * transition from the current state and the settled outcome of that call.
 */
module NotificationStore {
  import opened Wrappers
  import opened ApiTypes

  /** The store's state. `unreadCount` is a cache, maintained by hand. */
  datatype State = State(items: seq<Notification>, unreadCount: int)

  /** The state the store starts in. */
  const Initial: State := State([], 0)

  /** The unread notifications of `items`, in list order. */
  function Unread(items: seq<Notification>): (r: seq<Notification>)
    ensures |r| <= |items|
    ensures forall k :: 0 <= k < |r| ==> !r[k].isRead
    ensures forall k :: 0 <= k < |r| ==> r[k] in items
    ensures forall k :: 0 <= k < |items| && !items[k].isRead ==> items[k] in r
  {
    if items == [] then []
    else (if items[0].isRead then [] else [items[0]]) + Unread(items[1..])
  }

  /** Reference reading of "the unread notifications": the positions holding one. */
  ghost function UnreadPositions(items: seq<Notification>): set<int> {
    set i | 0 <= i < |items| && !items[i].isRead
  }

  /** The store's invariant: the cached count agrees with the list. */
  predicate Consistent(s: State) {
    s.unreadCount == |Unread(s.items)|
  }

  /** `i` is the position JavaScript's `find`/`findIndex` report for `id`. */
  predicate FirstWithId(items: seq<Notification>, id: int, i: int) {
    && 0 <= i < |items|
    && items[i].id == id
    && forall j :: 0 <= j < i ==> items[j].id != id
  }

  /** No notification in `items` carries `id`. */
  predicate Absent(items: seq<Notification>, id: int) {
    forall j :: 0 <= j < |items| ==> items[j].id != id
  }

  /** The first position holding a notification with `id`, if any. */
  function FindIndex(items: seq<Notification>, id: int): (r: Option<nat>)
    ensures r.Some? ==> FirstWithId(items, id, r.value)
    ensures r.None? <==> Absent(items, id)
  {
    if items == [] then None
    else if items[0].id == id then Some(0)
    else
      match FindIndex(items[1..], id)
      case None => None
      case Some(k) => Some(k + 1)
  }

  /** `fetch`: on success the list is replaced and the count recomputed. */
  function Fetch(s: State, reply: Result<PaginatedResponse<Notification>, FetchError>): (r: State)
    ensures reply.Failure? ==> r == s
    ensures reply.Success? ==> r.items == reply.value.data && Consistent(r)
  {
    match reply
    case Failure(_) => s
    case Success(res) => State(res.data, |Unread(res.data)|)
  }

  /** `markAsRead(id)`: flags the first notification with `id` as read, if it was unread. */
  function MarkAsRead(s: State, id: int, reply: Result<(), FetchError>): (r: State)
    ensures reply.Failure? ==> r == s
    ensures Absent(s.items, id) ==> r == s
    ensures forall i :: FirstWithId(s.items, id, i) && s.items[i].isRead ==> r == s
    ensures forall i :: reply.Success? && FirstWithId(s.items, id, i) && !s.items[i].isRead ==>
              && r.items == s.items[i := s.items[i].(isRead := true)]
              && r.unreadCount == s.unreadCount - 1
  {
    if reply.Failure? then s
    else
      match FindIndex(s.items, id)
      case None => s
      case Some(i) =>
        if s.items[i].isRead then s
        else State(s.items[i := s.items[i].(isRead := true)], s.unreadCount - 1)
  }

  /** `markAllAsRead`: every notification becomes read and the count drops to zero. */
  function MarkAllAsRead(s: State, reply: Result<(), FetchError>): (r: State)
    ensures reply.Failure? ==> r == s
    ensures reply.Success? ==>
              && |r.items| == |s.items|
              && (forall i :: 0 <= i < |r.items| ==> r.items[i] == s.items[i].(isRead := true))
              && r.unreadCount == 0
  {
    if reply.Failure? then s
    else State(seq(|s.items|, i requires 0 <= i < |s.items| => s.items[i].(isRead := true)), 0)
  }

  /** `remove(id)`: deletes the first notification with `id`, adjusting the count if it was unread. */
  function Remove(s: State, id: int, reply: Result<(), FetchError>): (r: State)
    ensures reply.Failure? ==> r == s
    ensures Absent(s.items, id) ==> r == s
    ensures forall i :: reply.Success? && FirstWithId(s.items, id, i) ==>
              && r.items == s.items[..i] + s.items[i + 1..]
              && r.unreadCount == s.unreadCount - (if s.items[i].isRead then 0 else 1)
  {
    if reply.Failure? then s
    else
      match FindIndex(s.items, id)
      case None => s
      case Some(i) =>
        State(s.items[..i] + s.items[i + 1..],
              if s.items[i].isRead then s.unreadCount else s.unreadCount - 1)
  }

  // ---------------------------------------------------------------------------
  // Lemmas about the unread count

  /** Filtering distributes over concatenation. */
  lemma {:induction false} UnreadAppend(a: seq<Notification>, b: seq<Notification>)
    ensures Unread(a + b) == Unread(a) + Unread(b)
  {
    if a == [] {
      assert a + b == b;
    } else {
      assert (a + b)[1..] == a[1..] + b;
      UnreadAppend(a[1..], b);
    }
  }

  /** The filtered length equals the number of unread positions. */
  lemma {:induction false} UnreadCountIsPositionCount(items: seq<Notification>)
    ensures |Unread(items)| == |UnreadPositions(items)|
  {
    if items == [] {
      assert UnreadPositions(items) == {};
    } else {
      var n := |items| - 1;
      var init := items[..n];
      assert items == init + [items[n]];
      UnreadAppend(init, [items[n]]);
      UnreadCountIsPositionCount(init);
      if items[n].isRead {
        assert UnreadPositions(items) == UnreadPositions(init);
      } else {
        assert UnreadPositions(items) == UnreadPositions(init) + {n};
        assert n !in UnreadPositions(init);
      }
    }
  }

  /** Replacing one notification changes the unread count by the difference in flags. */
  lemma UnreadAfterUpdate(items: seq<Notification>, i: int, v: Notification)
    requires 0 <= i < |items|
    ensures |Unread(items[i := v])| ==
            |Unread(items)| - (if items[i].isRead then 0 else 1) + (if v.isRead then 0 else 1)
  {
    assert items == items[..i] + [items[i]] + items[i + 1..];
    assert items[i := v] == items[..i] + [v] + items[i + 1..];
    UnreadAppend(items[..i] + [items[i]], items[i + 1..]);
    UnreadAppend(items[..i], [items[i]]);
    UnreadAppend(items[..i] + [v], items[i + 1..]);
    UnreadAppend(items[..i], [v]);
  }

  /** Deleting one notification lowers the unread count exactly when it was unread. */
  lemma UnreadAfterDelete(items: seq<Notification>, i: int)
    requires 0 <= i < |items|
    ensures |Unread(items[..i] + items[i + 1..])| == |Unread(items)| - (if items[i].isRead then 0 else 1)
  {
    assert items == items[..i] + [items[i]] + items[i + 1..];
    UnreadAppend(items[..i] + [items[i]], items[i + 1..]);
    UnreadAppend(items[..i], [items[i]]);
    UnreadAppend(items[..i], items[i + 1..]);
  }

  /** A list with every notification read has nothing unread. */
  lemma {:induction false} NothingUnreadWhenAllRead(items: seq<Notification>)
    requires forall i :: 0 <= i < |items| ==> items[i].isRead
    ensures Unread(items) == []
  {
    if items != [] {
      NothingUnreadWhenAllRead(items[1..]);
    }
  }

  // ---------------------------------------------------------------------------
  // The invariant is established by `fetch` and kept by every other action

  /** The invariant, restated as "count == number of unread positions". */
  lemma ConsistentMeansCountOfUnread(s: State)
    ensures Consistent(s) <==> s.unreadCount == |UnreadPositions(s.items)|
  {
    UnreadCountIsPositionCount(s.items);
  }

  lemma InitialIsConsistent()
    ensures Consistent(Initial) && Initial.items == []
  {
  }

  lemma MarkAsReadPreservesConsistency(s: State, id: int, reply: Result<(), FetchError>)
    requires Consistent(s)
    ensures Consistent(MarkAsRead(s, id, reply))
  {
    var r := MarkAsRead(s, id, reply);
    if reply.Success? {
      var k := FindIndex(s.items, id);
      if k.Some? && !s.items[k.value].isRead {
        UnreadAfterUpdate(s.items, k.value, s.items[k.value].(isRead := true));
      }
    }
  }

  lemma MarkAllAsReadPreservesConsistency(s: State, reply: Result<(), FetchError>)
    requires Consistent(s)
    ensures Consistent(MarkAllAsRead(s, reply))
  {
    if reply.Success? {
      NothingUnreadWhenAllRead(MarkAllAsRead(s, reply).items);
    }
  }

  lemma RemovePreservesConsistency(s: State, id: int, reply: Result<(), FetchError>)
    requires Consistent(s)
    ensures Consistent(Remove(s, id, reply))
  {
    if reply.Success? {
      var k := FindIndex(s.items, id);
      if k.Some? {
        UnreadAfterDelete(s.items, k.value);
      }
    }
  }
}
