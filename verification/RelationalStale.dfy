/** The item table: events are never forgotten, and positions follow the updates. But a
    replacement by another event leaves the position of the replaced one behind; what becomes
    of it, and when that event can be pushed again. */
module RelationalStale {
  import opened LinkedChunkModel
  import opened Wrappers
  import opened Tables
  import opened Relational
  import opened RelationalIsolation

  /** Where the item table says an event is. */
  function Recorded(items: ItemTable, lc: string, id: string): Option<Position> {
    var known := KnownItems(items, lc);
    if id in known then known[id].position else None
  }

  /** How many items an update pushes, up to the first that is refused. */
  function PushedBy(st: Store, lc: string, u: Update): nat {
    if u.PushItems? then Pushed(st, lc, u.at, u.items) else 0
  }

  function IndexOfEvent(items: seq<Event>, id: string): nat {
    if items == [] || items[0].id == id then 0 else 1 + IndexOfEvent(items[1..], id)
  }

  /** What an update of its linked chunk, of which `pushed` items are pushed, does to the
      recorded position of an event. */
  function Follow(p: Option<Position>, id: string, u: Update, pushed: nat): Option<Position> {
    match u
    case PushItems(at, items) =>
      var i := IndexOfEvent(items, id);
      if i < pushed then Some(Position(at.chunk, at.index + i)) else p
    case ReplaceItem(at, item) => if item.id == id then Some(at) else p
    case _ => if p.None? || Frees(p.value, u) then None else Some(Moved(p.value, id, u))
  }

  predicate Frees(p: Position, u: Update) {
    match u
    case RemoveItem(at) => p == at
    case DetachLastItems(at) => IsDetached(p, at)
    case Clear => true
    case _ => false
  }

  function Moved(p: Position, id: string, u: Update): Position {
    match u
    case RemoveItem(at) => if ShiftsAt(p, at) then Position(at.chunk, p.index - 1) else p
    case ReplaceItem(at, item) => if item.id == id then at else p
    case _ => p
  }

  // --- One update ------------------------------------------------------------------------

  lemma RecordedRefresh(items: ItemTable, e: Event, lc: string, id: string)
    ensures Recorded(Refresh(items, e), lc, id) == Recorded(items, lc, id)
  {
  }

  lemma RecordedPush(st: Store, who: string, at: Position, e: Event, lc: string, id: string)
    ensures var o := PushItem(st, who, at, e);
            && !o.Panicked?
            && Recorded(o.store.items, lc, id) ==
               if o.Applied? && who == lc && e.id == id then Some(at) else Recorded(st.items, lc, id)
    ensures Recorded(st.items, who, e.id).Some? ==> PushItem(st, who, at, e).Failed?
  {
    hide Refresh;
    var known := KnownItems(st.items, who);
    RecordedRefresh(st.items[who := known[e.id := Stored(e, Some(at))]], e, lc, id);
  }

  lemma {:induction false} RecordedPushAll(st: Store, who: string, at: Position, items: seq<Event>, lc: string,
                                           id: string)
    ensures var o, i := PushAll(st, who, at, items), IndexOfEvent(items, id);
            && !o.Panicked?
            && Recorded(o.store.items, lc, id) ==
               if who == lc && i < Pushed(st, lc, at, items) then Some(Position(at.chunk, at.index + i))
               else Recorded(st.items, lc, id)
    ensures Recorded(st.items, lc, id).Some? ==> Pushed(st, lc, at, items) <= IndexOfEvent(items, id)
    decreases |items|
  {
    hide PushItem, Recorded;
    if items != [] {
      RecordedPush(st, who, at, items[0], lc, id);
      RecordedPush(st, lc, at, items[0], lc, id);
      var o := PushItem(st, who, at, items[0]);
      if o.Applied? {
        RecordedPushAll(o.store, who, Position(at.chunk, at.index + 1), items[1..], lc, id);
      }
      var o' := PushItem(st, lc, at, items[0]);
      if o'.Applied? {
        RecordedPushAll(o'.store, lc, Position(at.chunk, at.index + 1), items[1..], lc, id);
      }
    }
  }

  lemma RecordedReplace(st: Store, who: string, at: Position, e: Event, lc: string, id: string)
    requires Replace(st, who, at, e).Applied?
    ensures Recorded(Replace(st, who, at, e).store.items, lc, id) ==
            if who == lc && e.id == id then Some(at) else Recorded(st.items, lc, id)
  {
    hide Refresh, FindAny;
    var known := KnownItems(st.items, who);
    RecordedRefresh(st.items[who := known[e.id := Stored(e, Some(at))]], e, lc, id);
  }

  /** Every update does to recorded positions what `Follow` says, and nothing to those of
      other linked chunks. */
  lemma RecordedFollows(st: Store, who: string, u: Update, lc: string, id: string)
    requires !ApplyUpdate(st, who, u).Panicked?
    ensures Recorded(ApplyUpdate(st, who, u).store.items, lc, id) ==
            if who == lc then Follow(Recorded(st.items, lc, id), id, u, PushedBy(st, lc, u))
                else Recorded(st.items, lc, id)
  {
    hide Find, FindAny, PushAll, Pushed, Refresh, InsertChunk, RemoveChunkRow, MaxIndex, ShiftRows, Keep, IndexOfEvent;
    match u {
      case PushItems(at, items) => RecordedPushAll(st, who, at, items, lc, id);
      case ReplaceItem(at, item) => RecordedReplace(st, who, at, item, lc, id);
      case _ =>
    }
  }

  // --- Events are never forgotten ----------------------------------------------------------

  /** The events that an update brings. */
  function Brings(st: Store, lc: string, u: Update): seq<Event> {
    if u.ReplaceItem? then [u.item] else Brought(st, lc, u)
  }

  /** The last of these with this identifier, or else `x`. */
  function Newest(id: string, x: Event, es: seq<Event>): Event
    decreases |es|
  {
    if es == [] then x else Newest(id, if es[0].id == id then es[0] else x, es[1..])
  }

  function IdsOf(es: seq<Event>): set<string> {
    set e | e in es :: e.id
  }

  /** What is known of a linked chunk's events: those that were known, each in the newest
      version that was brought, and, if they were brought to it, the new ones. */
  ghost predicate KnowsAll(was: map<string, Stored>, now: map<string, Stored>, es: seq<Event>, own: bool) {
    && now.Keys == was.Keys + (if own then IdsOf(es) else {})
    && (forall id | id in was :: now[id].event == Newest(id, was[id].event, es))
    && (forall id | id in now && id !in was :: now[id].event in es && now[id].event.id == id)
  }

  lemma KnownPush(st: Store, who: string, at: Position, e: Event, lc: string)
    ensures var o := PushItem(st, who, at, e);
            && !o.Panicked?
            && KnowsAll(KnownItems(st.items, lc), KnownItems(o.store.items, lc), if o.Applied? then [e]
                        else [], who == lc)
  {
    hide KnowsAll, Refresh;
    var o := PushItem(st, who, at, e);
    if o.Applied? {
      KnownRefresh(st.items, who, at, e, lc);
    } else {
      KnowsNothingNew(KnownItems(st.items, lc), KnownItems(o.store.items, lc), who == lc);
    }
  }

  lemma NewestOfOne(id: string, x: Event, e: Event)
    ensures Newest(id, x, [e]) == if e.id == id then e else x
  {
    assert [e][1..] == [];
  }

  lemma KnownRefresh(items: ItemTable, who: string, at: Position, e: Event, lc: string)
    ensures var items' := Refresh(items[who := KnownItems(items, who)[e.id := Stored(e, Some(at))]], e);
            KnowsAll(KnownItems(items, lc), KnownItems(items', lc), [e], who == lc)
  {
    hide Newest;
    assert IdsOf([e]) == {e.id};
    var was := KnownItems(items, lc);
    forall id | id in was ensures Newest(id, was[id].event, [e]) == if e.id == id then e else was[id].event {
      NewestOfOne(id, was[id].event, e);
    }
  }

  lemma {:induction false} KnowsMore(was: map<string, Stored>, mid: map<string, Stored>, now: map<string, Stored>,
                                     e: Event, es: seq<Event>, own: bool)
    requires KnowsAll(was, mid, [e], own) && KnowsAll(mid, now, es, own)
    ensures KnowsAll(was, now, [e] + es, own)
  {
    var all := [e] + es;
    assert all[1..] == es;
    assert forall x :: x in all <==> x == e || x in es;
    assert IdsOf(all) == IdsOf([e]) + IdsOf(es);
    forall id | id in was ensures now[id].event == Newest(id, was[id].event, all) {
      NewestOfOne(id, was[id].event, e);
    }
    forall id | id in now && id !in was ensures now[id].event in all && now[id].event.id == id {
      if id in mid { NewestIsOne(id, e, es); }
    }
  }

  lemma {:induction false} NewestIsOne(id: string, x: Event, es: seq<Event>)
    ensures Newest(id, x, es) == x || (Newest(id, x, es) in es && Newest(id, x, es).id == id)
    decreases |es|
  {
    if es != [] { NewestIsOne(id, if es[0].id == id then es[0] else x, es[1..]); }
  }

  lemma KnowsNothingNew(was: map<string, Stored>, now: map<string, Stored>, own: bool)
    requires now.Keys == was.Keys && forall id | id in was :: now[id].event == was[id].event
    ensures KnowsAll(was, now, [], own)
  {
  }

  lemma {:induction false} KnownPushAll(st: Store, who: string, at: Position, items: seq<Event>, lc: string)
    ensures Pushed(st, who, at, items) <= |items|
    ensures var o := PushAll(st, who, at, items);
            && !o.Panicked?
            && KnowsAll(KnownItems(st.items, lc), KnownItems(o.store.items, lc), items[..Pushed(st, who, at, items)],
                        who == lc)
    decreases |items|
  {
    hide PushItem, KnowsAll, KnownItems;
    var was := KnownItems(st.items, lc);
    if items == [] {
      KnowsNothingNew(was, was, who == lc);
    } else {
      KnownPush(st, who, at, items[0], lc);
      var o, next := PushItem(st, who, at, items[0]), Position(at.chunk, at.index + 1);
      if o.Applied? {
        KnownPushAll(o.store, who, next, items[1..], lc);
        var n := Pushed(o.store, who, next, items[1..]);
        assert items[..n + 1] == [items[0]] + items[1..][..n];
        KnowsMore(was, KnownItems(o.store.items, lc), KnownItems(PushAll(st, who, at, items).store.items, lc),
                  items[0], items[1..][..n], who == lc);
      }
    }
  }

  lemma KnownReplace(st: Store, who: string, at: Position, e: Event, lc: string)
    requires Replace(st, who, at, e).Applied?
    ensures KnowsAll(KnownItems(st.items, lc), KnownItems(Replace(st, who, at, e).store.items, lc), [e], who == lc)
  {
    hide FindAny, KnowsAll, Refresh;
    KnownRefresh(st.items, who, at, e, lc);
  }

  /** Whatever the update, and whether or not it succeeds: no linked chunk's event is
      forgotten, not even when it loses its position, and no event changes unless a version
      of it is brought, to whichever linked chunk. */
  lemma EventsAreKept(st: Store, who: string, u: Update, lc: string)
    requires !ApplyUpdate(st, who, u).Panicked?
    ensures KnowsAll(KnownItems(st.items, lc), KnownItems(ApplyUpdate(st, who, u).store.items, lc), Brings(st, who, u),
                     who == lc)
  {
    hide Find, FindAny, PushAll, Pushed, Refresh, InsertChunk, RemoveChunkRow, MaxIndex, ShiftRows, Keep, KnowsAll;
    var was, now := KnownItems(st.items, lc), KnownItems(ApplyUpdate(st, who, u).store.items, lc);
    match u {
      case PushItems(at, items) => KnownPushAll(st, who, at, items, lc);
      case ReplaceItem(at, item) => KnownReplace(st, who, at, item, lc);
      case _ => KnowsNothingNew(was, now, who == lc);
    }
  }

  // --- Whole runs ------------------------------------------------------------------------

  /** An update of any linked chunk in the store. */
  datatype Change = Change(lc: string, update: Update)

  /** A failed update stays half done; the next ones still come. */
  ghost predicate ChangesAt(changes: seq<Change>, stores: seq<Store>, i: nat) {
    && i < |changes| < |stores|
    && var o := ApplyUpdate(stores[i], changes[i].lc, changes[i].update);
       !o.Panicked? && stores[i + 1] == o.store
  }

  ghost predicate IsRun(changes: seq<Change>, stores: seq<Store>) {
    |stores| == |changes| + 1 && forall i | 0 <= i < |changes| :: ChangesAt(changes, stores, i)
  }

  function FollowAll(p: Option<Position>, lc: string, id: string, changes: seq<Change>, stores: seq<Store>,
                     j: nat): Option<Position>
    requires j <= |changes| < |stores|
  {
    if j == 0 then p
    else
      var q, change := FollowAll(p, lc, id, changes, stores, j - 1), changes[j - 1];
      if change.lc == lc then Follow(q, id, change.update, PushedBy(stores[j - 1], lc, change.update)) else q
  }

  lemma {:induction false} RecordedFollowsAll(lc: string, id: string, changes: seq<Change>, stores: seq<Store>, j: nat)
    requires IsRun(changes, stores) && j <= |changes|
    ensures Recorded(stores[j].items, lc, id) ==
            FollowAll(Recorded(stores[0].items, lc, id), lc, id, changes, stores, j)
  {
    hide Recorded, Follow, ApplyUpdate, PushedBy;
    if j > 0 {
      RecordedFollowsAll(lc, id, changes, stores, j - 1);
      assert ChangesAt(changes, stores, j - 1);
      RecordedFollows(stores[j - 1], changes[j - 1].lc, changes[j - 1].update, lc, id);
    }
  }

  predicate IsRefused(st: Store, lc: string, p: Position, e: Event) {
    var o := PushItem(st, lc, p, e);
    o.Failed? && o.error == ItemAlreadyInLinkedChunk
  }

  /** An event that was replaced by another one is refused, wherever it is pushed and
      whatever happened since, exactly as long as there is a position recorded for it. */
  lemma {:induction false} RefusedIffRecorded(st: Store, lc: string, cs: seq<Chunk>, at: Position, e: Event,
                                              again: Event, p: Position,
                           changes: seq<Change>, stores: seq<Store>)
    requires Holds(st, lc, cs) && At(cs, at).Some? && Replace(st, lc, at, e).Applied?
    requires again.id == At(cs, at).value.id != e.id
    requires IsRun(changes, stores) && stores[0] == Replace(st, lc, at, e).store
    ensures IsRefused(stores[|changes|], lc, p, again) <==>
            FollowAll(Some(at), lc, again.id, changes, stores, |changes|).Some?
  {
    hide Follow, ApplyUpdate, PushedBy, RowsOk, LinksOk, At, Replace, FindAny;
    assert Recorded(st.items, lc, again.id) == Some(at);
    RecordedReplace(st, lc, at, e, lc, again.id);
    RecordedFollowsAll(lc, again.id, changes, stores, |changes|);
  }

  /** In a room with one event that is replaced by another one, the old event is refused at
      every position, although the room does not have it. */
  lemma {:induction false} ReplacedEventIsRefused(x: Event, y: Event, other: Event, p: Position)
    requires x.id != y.id && other.id != x.id
    ensures Holds(TwoRooms(x, y), "a", OneEvent(x)) && Replace(TwoRooms(x, y), "a", Here, other).Applied?
    ensures IsRefused(Replace(TwoRooms(x, y), "a", Here, other).store, "a", p, x)
    ensures Row("a", Here, ItemCell(x.id)) !in Replace(TwoRooms(x, y), "a", Here, other).store.rows
  {
    hide Holds, IsRefused, OneEvent;
    var st := TwoRooms(x, y);
    TwoRoomsHold(x, y);
    assert FindAny(st.rows, Here) == 0;
    OneEventAt(x, Here, 0);
    RefusedIffRecorded(st, "a", OneEvent(x), Here, other, x, p, [], [Replace(st, "a", Here, other).store]);
  }

  /** Where the stale position has moved. */
  function StaleAt(at: Position, lc: string, id: string, changes: seq<Change>, j: nat): Position
    requires j <= |changes|
  {
    if j == 0 then at
    else
      var p, change := StaleAt(at, lc, id, changes, j - 1), changes[j - 1];
      if change.lc == lc then Moved(p, id, change.update) else p
  }

  /** The linked chunk is cleared, or an item removed at the stale position, or the items
      from there or from before on detached. */
  predicate FreesAt(at: Position, lc: string, id: string, changes: seq<Change>, j: nat) {
    j < |changes| && changes[j].lc == lc && Frees(StaleAt(at, lc, id, changes, j), changes[j].update)
  }

  predicate Stores(u: Update, id: string) {
    match u
    case PushItems(_, items) => exists i :: 0 <= i < |items| && items[i].id == id
    case ReplaceItem(_, item) => item.id == id
    case _ => false
  }

  /** Nothing stores the event again once its position is free. */
  ghost predicate NotStoredAgain(at: Position, lc: string, id: string, changes: seq<Change>) {
    forall i, j | 0 <= i < j < |changes| && FreesAt(at, lc, id, changes, i) && changes[j].lc == lc ::
        !Stores(changes[j].update, id)
  }

  lemma {:induction false} IndexOfStored(items: seq<Event>, id: string)
    ensures IndexOfEvent(items, id) <= |items|
    ensures IndexOfEvent(items, id) < |items| ==> items[IndexOfEvent(items, id)].id == id
  {
    if items != [] && items[0].id != id { IndexOfStored(items[1..], id); }
  }

  lemma {:induction false} PushedAtMost(st: Store, lc: string, at: Position, items: seq<Event>)
    ensures Pushed(st, lc, at, items) <= |items|
    decreases |items|
  {
    if items != [] {
      var o := PushItem(st, lc, at, items[0]);
      if o.Applied? { PushedAtMost(o.store, lc, Position(at.chunk, at.index + 1), items[1..]); }
    }
  }

  /** An update that finds the event recorded keeps that position or frees it; one that
      does not store the event cannot record it. */
  lemma FollowIs(st: Store, lc: string, id: string, u: Update)
    ensures var q := Recorded(st.items, lc, id);
            && (q.Some? ==> Follow(q, id, u, PushedBy(st, lc, u)) ==
                            if Frees(q.value, u) then None else Some(Moved(q.value, id, u)))
            && (q.None? && !Stores(u, id) ==> Follow(q, id, u, PushedBy(st, lc, u)).None?)
  {
    hide Recorded, Pushed, IndexOfEvent;
    if u.PushItems? {
      RecordedPushAll(st, lc, u.at, u.items, lc, id);
      IndexOfStored(u.items, id);
      PushedAtMost(st, lc, u.at, u.items);
    }
  }

  lemma {:induction false} FreedIff(at: Position, lc: string, id: string, changes: seq<Change>, stores: seq<Store>,
                                    j: nat)
    requires IsRun(changes, stores) && Recorded(stores[0].items, lc, id) == Some(at) && j <= |changes|
    requires NotStoredAgain(at, lc, id, changes)
    ensures FollowAll(Some(at), lc, id, changes, stores, j) ==
            if exists i :: 0 <= i < j && FreesAt(at, lc, id, changes, i) then None
            else Some(StaleAt(at, lc, id, changes, j))
  {
    hide Recorded, Follow, Frees, Moved, Stores, PushedBy, ApplyUpdate;
    if j > 0 {
      FreedIff(at, lc, id, changes, stores, j - 1);
      RecordedFollowsAll(lc, id, changes, stores, j - 1);
      FollowIs(stores[j - 1], lc, id, changes[j - 1].update);
      if i :| 0 <= i < j - 1 && FreesAt(at, lc, id, changes, i) {
        assert changes[j - 1].lc == lc ==> !Stores(changes[j - 1].update, id);
      } else {
        assert FollowAll(Some(at), lc, id, changes, stores, j - 1) == Some(StaleAt(at, lc, id, changes, j - 1));
        assert (exists i :: 0 <= i < j && FreesAt(at, lc, id, changes, i)) <==> FreesAt(at, lc, id, changes, j - 1);
      }
    }
  }

  /** So a replaced event can be pushed again exactly if, since then, the linked chunk was
      cleared, or an item removed or items detached where the event's position had got to. */
  lemma {:induction false} ReplacedIsRefusedIff(st: Store, lc: string, cs: seq<Chunk>, at: Position, e: Event,
                                                again: Event, p: Position,
                             changes: seq<Change>, stores: seq<Store>)
    requires Holds(st, lc, cs) && At(cs, at).Some? && Replace(st, lc, at, e).Applied?
    requires again.id == At(cs, at).value.id != e.id
    requires IsRun(changes, stores) && stores[0] == Replace(st, lc, at, e).store
    requires NotStoredAgain(at, lc, again.id, changes)
    ensures IsRefused(stores[|changes|], lc, p, again) <==>
            forall i | 0 <= i < |changes| :: !FreesAt(at, lc, again.id, changes, i)
  {
    hide ApplyUpdate, RowsOk, LinksOk, At, Replace, FindAny, NotStoredAgain, IsRefused, FreesAt, FollowAll;
    assert Recorded(st.items, lc, again.id) == Some(at);
    RecordedReplace(st, lc, at, e, lc, again.id);
    RefusedIffRecorded(st, lc, cs, at, e, again, p, changes, stores);
    FreedIff(at, lc, again.id, changes, stores, |changes|);
  }
}
