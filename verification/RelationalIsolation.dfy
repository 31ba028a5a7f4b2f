/** Several linked chunks in one store: an update of one of them leaves the others
    as they were, and exactly when `ReplaceItem` does not. */
module RelationalIsolation {
  import opened LinkedChunkModel
  import opened Wrappers
  import opened Tables
  import opened Relational
  import opened RelationalItems
  import opened LinkedChunkOps
  import opened RelationalTruth

  /** Another linked chunk that already has the event has it with the same body. */
  predicate AgreesOn(cs: seq<Chunk>, e: Event) {
    forall x | x in Flat(cs) && x.id == e.id :: x == e
  }

  /** The same, as far as the store knows. */
  predicate AgreesWithStored(st: Store, lc: string, e: Event) {
    var known := KnownItems(st.items, lc);
    e.id in known && known[e.id].position.Some? ==> known[e.id].event == e
  }

  lemma {:induction false} HasPosition(cs: seq<Chunk>, e: Event) returns (p: Position)
    requires DistinctIds(cs) && e in Flat(cs)
    ensures At(cs, p) == Some(e)
  {
    var rest := cs[1..];
    if e in ItemsOf(cs[0]) {
      var i :| 0 <= i < |ItemsOf(cs[0])| && ItemsOf(cs[0])[i] == e;
      p := Position(cs[0].id, i);
    } else {
      assert forall i | 0 <= i < |rest| :: rest[i] == cs[i + 1];
      p := HasPosition(rest, e);
    }
  }

  lemma StoredAgrees(st: Store, lc: string, cs: seq<Chunk>, e: Event)
    requires Holds(st, lc, cs) && AgreesWithStored(st, lc, e)
    ensures AgreesOn(cs, e)
  {
    hide LinksOk, RowsOk, PlacesOk, At;
    forall x | x in Flat(cs) && x.id == e.id ensures x == e {
      var p := HasPosition(cs, x);
    }
  }

  predicate Agrees(cs: seq<Chunk>, u: Update) {
    match u
    case PushItems(_, items) => forall e | e in items :: AgreesOn(cs, e)
    case ReplaceItem(_, item) => AgreesOn(cs, item)
    case _ => true
  }

  // --- Rows of another linked chunk ------------------------------------------------

  lemma {:induction false} GetPushOther<K, V>(rows: seq<Row<K, V>>, row: Row<K, V>, lc: string, key: K)
    requires lc != row.lc
    ensures Get(rows + [row], lc, key) == Get(rows, lc, key)
  {
    if rows == [] {
      assert rows + [row] == [row];
    } else {
      assert (rows + [row])[1..] == rows[1..] + [row];
      GetPushOther(rows[1..], row, lc, key);
    }
  }

  /** Both tables agree on the rows of `lc`. */
  ghost predicate SameRows<K(!new), V>(rows: seq<Row<K, V>>, rows': seq<Row<K, V>>, lc: string) {
    Unique(rows, lc) ==> Unique(rows', lc) && forall key: K :: Get(rows', lc, key) == Get(rows, lc, key)
  }

  lemma PushOther<K(!new), V>(rows: seq<Row<K, V>>, row: Row<K, V>, lc: string)
    requires lc != row.lc
    ensures SameRows(rows, rows + [row], lc)
  {
    var rows' := rows + [row];
    assert forall i | 0 <= i < |rows| :: rows'[i] == rows[i];
    forall key: K ensures Get(rows', lc, key) == Get(rows, lc, key) { GetPushOther(rows, row, lc, key); }
  }

  lemma SetOther<K(!new), V>(rows: seq<Row<K, V>>, k: nat, v: V, lc: string)
    requires k < |rows| && rows[k].lc != lc
    ensures SameRows(rows, rows[k := rows[k].(value := v)], lc)
  {
    var rows' := rows[k := rows[k].(value := v)];
    if Unique(rows, lc) { UniqueSet(rows, k, v, lc); }
    forall key: K ensures Get(rows', lc, key) == Get(rows, lc, key) { SameKeys(rows, rows', lc, key); }
  }

  lemma RemoveOther<K(!new), V>(rows: seq<Row<K, V>>, k: nat, lc: string)
    requires k < |rows| && rows[k].lc != lc
    ensures SameRows(rows, RemoveRow(rows, k), lc)
  {
    if Unique(rows, lc) {
      UniqueRemove(rows, k, lc);
      forall key: K ensures Get(RemoveRow(rows, k), lc, key) == Get(rows, lc, key) { GetRemove(rows, k, lc, key); }
    }
  }

  lemma KeepOther<K(!new), V>(rows: seq<Row<K, V>>, keep: Row<K, V> -> bool, lc: string)
    requires forall r: Row<K, V> | r in rows && r.lc == lc :: keep(r)
    ensures SameRows(rows, Keep(rows, keep), lc)
  {
    if Unique(rows, lc) {
      UniqueKeep(rows, keep, lc);
      forall key: K ensures Get(Keep(rows, keep), lc, key) == Get(rows, lc, key) {
        GetKeep(rows, keep, lc, key);
        var g := Get(rows, lc, key);
        if g.Some? { GetIn(rows, lc, key, g.value); }
      }
    }
  }

  lemma SameRowsTrans<K(!new), V>(a: seq<Row<K, V>>, b: seq<Row<K, V>>, c: seq<Row<K, V>>, lc: string)
    requires SameRows(a, b, lc) && SameRows(b, c, lc)
    ensures SameRows(a, c, lc)
  {
  }

  lemma SetNextOther(rows: ChunkRows, lc: string, id: nat, next: Option<nat>, other: string)
    requires lc != other && SetNext(rows, lc, id, next).Some?
    ensures SameRows(rows, SetNext(rows, lc, id, next).value, other)
  {
    var k := Find(rows, lc, id);
    SetOther(rows, k, Links(rows[k].value.previous, next), other);
  }

  lemma SetPreviousOther(rows: ChunkRows, lc: string, id: nat, previous: Option<nat>, other: string)
    requires lc != other && SetPrevious(rows, lc, id, previous).Some?
    ensures SameRows(rows, SetPrevious(rows, lc, id, previous).value, other)
  {
    var k := Find(rows, lc, id);
    SetOther(rows, k, Links(previous, rows[k].value.next), other);
  }

  lemma InsertChunkOther(rows: ChunkRows, lc: string, previous: Option<nat>, new_: nat, next: Option<nat>,
                         other: string)
    requires lc != other
    ensures SameRows(rows, InsertChunk(rows, lc, previous, new_, next).rows, other)
  {
    hide SameRows, SetNext, SetPrevious;
    SameRowsSelf(rows, other);
    var r1 := if previous.None? then Some(rows) else SetNext(rows, lc, previous.value, Some(new_));
    if r1.Some? {
      if previous.Some? { SetNextOther(rows, lc, previous.value, Some(new_), other); }
      var r2 := if next.None? then r1 else SetPrevious(r1.value, lc, next.value, Some(new_));
      if r2.Some? {
        SameRowsSelf(r1.value, other);
        if next.Some? { SetPreviousOther(r1.value, lc, next.value, Some(new_), other); }
        SameRowsTrans(rows, r1.value, r2.value, other);
        var row := Row(lc, new_, Links(previous, next));
        PushOther(r2.value, row, other);
        SameRowsTrans(rows, r2.value, r2.value + [row], other);
      }
    }
  }

  lemma SameRowsSelf<K(!new), V>(rows: seq<Row<K, V>>, lc: string)
    ensures SameRows(rows, rows, lc)
  {
  }

  lemma RemoveChunkRowOther(rows: ChunkRows, lc: string, id: nat, other: string)
    requires lc != other && RemoveChunkRow(rows, lc, id).Some?
    ensures SameRows(rows, RemoveChunkRow(rows, lc, id).value, other)
  {
    hide SameRows, SetNext, SetPrevious;
    var k := Find(rows, lc, id);
    var links := rows[k].value;
    var r0 := RemoveRow(rows, k);
    RemoveOther(rows, k, other);
    var r1 := if links.previous.None? then Some(r0) else SetNext(r0, lc, links.previous.value, links.next);
    SameRowsSelf(r0, other);
    if links.previous.Some? { SetNextOther(r0, lc, links.previous.value, links.next, other); }
    SameRowsTrans(rows, r0, r1.value, other);
    if links.next.Some? {
      SetPreviousOther(r1.value, lc, links.next.value, links.previous, other);
      SameRowsTrans(rows, r1.value, SetPrevious(r1.value, lc, links.next.value, links.previous).value, other);
    }
  }

  lemma ShiftOther(rows: ItemRows, lc: string, at: Position, other: string)
    requires lc != other
    ensures SameRows(rows, ShiftRows(rows, lc, at), other)
  {
    var rows' := ShiftRows(rows, lc, at);
    assert forall i | 0 <= i < |rows| && rows[i].lc == other :: rows'[i] == rows[i];
    forall p: Position ensures Get(rows', other, p) == Get(rows, other, p) { ShiftGetOther(rows, lc, at, other, p); }
  }

  lemma {:induction false} ShiftGetOther(rows: ItemRows, lc: string, at: Position, other: string, p: Position)
    requires lc != other
    ensures Get(ShiftRows(rows, lc, at), other, p) == Get(rows, other, p)
  {
    if rows != [] {
      assert ShiftRows(rows, lc, at)[1..] == ShiftRows(rows[1..], lc, at);
      ShiftGetOther(rows[1..], lc, at, other, p);
    }
  }

  // --- Items of another linked chunk ----------------------------------------------

  function RefreshEvent(x: Event, e: Event): Event {
    if x.id == e.id then e else x
  }

  function RefreshItems(items: seq<Event>, e: Event): seq<Event> {
    seq(|items|, i requires 0 <= i < |items| => RefreshEvent(items[i], e))
  }

  function RefreshChunk(c: Chunk, e: Event): Chunk {
    if c.content.Items? then Chunk(c.id, Items(RefreshItems(c.content.items, e))) else c
  }

  /** The chunks with this version of an event, wherever they have another. */
  function Refreshed(cs: seq<Chunk>, e: Event): seq<Chunk> {
    seq(|cs|, i requires 0 <= i < |cs| => RefreshChunk(cs[i], e))
  }

  /** With all of these, one after the other. */
  function RefreshedBy(cs: seq<Chunk>, es: seq<Event>): seq<Chunk>
    decreases |es|
  {
    if es == [] then cs else RefreshedBy(Refreshed(cs, es[0]), es[1..])
  }

  lemma {:induction false} SameIndex(cs: seq<Chunk>, cs': seq<Chunk>, id: nat)
    requires |cs| == |cs'| && forall i | 0 <= i < |cs| :: cs[i].id == cs'[i].id
    ensures IndexOf(cs, id) == IndexOf(cs', id)
  {
    if cs != [] { SameIndex(cs[1..], cs'[1..], id); }
  }

  lemma RefreshedAt(cs: seq<Chunk>, e: Event, p: Position)
    ensures At(Refreshed(cs, e), p) == if At(cs, p).Some? then Some(RefreshEvent(At(cs, p).value, e)) else None
    ensures CellOf(Refreshed(cs, e), p) == CellOf(cs, p)
  {
    hide IndexOf;
    SameIndex(cs, Refreshed(cs, e), p.chunk);
  }

  lemma RefreshedLinks(cs: seq<Chunk>, e: Event, id: nat)
    ensures LinksOf(Refreshed(cs, e), id) == LinksOf(cs, id)
  {
    hide IndexOf;
    SameIndex(cs, Refreshed(cs, e), id);
  }

  lemma RefreshedTables(st: Store, lc: string, cs: seq<Chunk>, e: Event)
    ensures DistinctIds(cs) <==> DistinctIds(Refreshed(cs, e))
    ensures LinksOk(st.chunks, lc, cs) <==> LinksOk(st.chunks, lc, Refreshed(cs, e))
    ensures RowsOk(st.rows, lc, cs) <==> RowsOk(st.rows, lc, Refreshed(cs, e))
    ensures PlacesOk(st.positions, lc, cs) <==> PlacesOk(st.positions, lc, Refreshed(cs, e))
  {
    hide Refreshed, At, CellOf, LinksOf, Get, Unique;
    assert DistinctIds(cs) <==> DistinctIds(Refreshed(cs, e)) by { RefreshedIds(cs, e); }
    forall id: nat ensures LinksOf(Refreshed(cs, e), id) == LinksOf(cs, id) { RefreshedLinks(cs, e, id); }
    forall p: Position
      ensures CellOf(Refreshed(cs, e), p) == CellOf(cs, p) && At(Refreshed(cs, e), p).Some? == At(cs, p).Some?
    {
      RefreshedAt(cs, e, p);
    }
  }

  lemma RefreshedIds(cs: seq<Chunk>, e: Event)
    ensures DistinctIds(cs) <==> DistinctIds(Refreshed(cs, e))
  {
    var cs' := Refreshed(cs, e);
    assert |cs'| == |cs| && forall i | 0 <= i < |cs| :: cs'[i].id == cs[i].id;
  }

  lemma RefreshContent(items: ItemTable, lc: string, known: map<string, Stored>, e: Event, other: string,
                       cs: seq<Chunk>)
    requires lc != other && ContentOk(KnownItems(items, other), cs)
    ensures ContentOk(KnownItems(Refresh(items[lc := known], e), other), Refreshed(cs, e))
  {
    hide At, Refreshed;
    var was := KnownItems(items, other);
    assert KnownItems(Refresh(items[lc := known], e), other) == RefreshOne(was, e);
    forall p: Position
      ensures At(Refreshed(cs, e), p) == if At(cs, p).Some? then Some(RefreshEvent(At(cs, p).value, e)) else None
    {
      RefreshedAt(cs, e, p);
    }
  }

  lemma AgreedStays(cs: seq<Chunk>, e: Event)
    requires AgreesOn(cs, e)
    ensures Refreshed(cs, e) == cs
  {
    forall i | 0 <= i < |cs| ensures RefreshChunk(cs[i], e) == cs[i] {
      if cs[i].content.Items? {
        var items := cs[i].content.items;
        forall j | 0 <= j < |items| ensures RefreshEvent(items[j], e) == items[j] { InFlat(cs, i, j); }
        assert RefreshItems(items, e) == items;
      }
    }
  }

  lemma {:induction false} AllAgreedStay(cs: seq<Chunk>, es: seq<Event>)
    requires forall e | e in es :: AgreesOn(cs, e)
    ensures RefreshedBy(cs, es) == cs
    decreases |es|
  {
    if es != [] {
      AgreedStays(cs, es[0]);
      AllAgreedStay(cs, es[1..]);
    }
  }

  lemma {:induction false} RefreshedByConcat(cs: seq<Chunk>, a: seq<Event>, b: seq<Event>)
    ensures RefreshedBy(cs, a + b) == RefreshedBy(RefreshedBy(cs, a), b)
    decreases |a|
  {
    if a == [] {
      assert a + b == b;
    } else {
      assert (a + b)[0] == a[0] && (a + b)[1..] == a[1..] + b;
      RefreshedByConcat(Refreshed(cs, a[0]), a[1..], b);
    }
  }

  // --- Isolation ---------------------------------------------------------------------

  /** A push of an event refreshes it wherever another linked chunk has it, and changes
      nothing else there; a push that is refused changes nothing. */
  lemma PushItemRefreshes(st: Store, lc: string, at: Position, e: Event, other: string, cs: seq<Chunk>)
    requires lc != other && Holds(st, other, cs)
    ensures var o := PushItem(st, lc, at, e);
            !o.Panicked? && Holds(o.store, other, if o.Applied? then Refreshed(cs, e) else cs)
  {
    hide Get, Unique, RowsOk, LinksOk, PlacesOk, ContentOk, Refresh, Refreshed, DistinctIds;
    var o := PushItem(st, lc, at, e);
    if o.Applied? {
      PushOther(st.rows, Row(lc, at, ItemCell(e.id)), other);
      RefreshContent(st.items, lc, KnownItems(st.items, lc)[e.id := Stored(e, Some(at))], e, other, cs);
      SameRowsOk(st.rows, o.store.rows, other, cs);
      SamePlacesOk(st.positions, lc, at, other, cs);
      RefreshedTables(o.store, other, cs, e);
    } else {
      assert KnownItems(o.store.items, other) == KnownItems(st.items, other);
    }
  }

  lemma SamePlacesOk(positions: set<(string, Position)>, lc: string, at: Position, other: string, cs: seq<Chunk>)
    requires lc != other && PlacesOk(positions, other, cs)
    ensures PlacesOk(positions + {(lc, at)}, other, cs)
  {
  }

  /** So the other one stays as it was exactly if it has no other version of the event. */
  lemma PushIsolatedIff(st: Store, lc: string, at: Position, e: Event, other: string, cs: seq<Chunk>)
    requires lc != other && Holds(st, other, cs) && PushItem(st, lc, at, e).Applied?
    ensures Holds(PushItem(st, lc, at, e).store, other, cs) <==> AgreesOn(cs, e)
  {
    hide Holds, PushItem, Refreshed;
    PushItemRefreshes(st, lc, at, e, other, cs);
    var st' := PushItem(st, lc, at, e).store;
    if AgreesOn(cs, e) {
      AgreedStays(cs, e);
    } else if Holds(st', other, cs) {
      var x :| x in Flat(cs) && x.id == e.id && x != e;
      HasDistinctIds(st, other, cs);
      var p := HasPosition(cs, x);
      RefreshedAt(cs, e, p);
      OneEventThere(st', other, cs, Refreshed(cs, e), p);
    }
  }

  lemma OneEventThere(st: Store, lc: string, cs: seq<Chunk>, cs': seq<Chunk>, p: Position)
    requires Holds(st, lc, cs) && Holds(st, lc, cs') && At(cs, p).Some? && At(cs', p).Some?
    requires At(cs, p).value.id == At(cs', p).value.id
    ensures At(cs, p) == At(cs', p)
  {
    hide At, LinksOk, RowsOk, PlacesOk;
  }

  lemma SameRowsOk(rows: ItemRows, rows': ItemRows, lc: string, cs: seq<Chunk>)
    requires RowsOk(rows, lc, cs) && SameRows(rows, rows', lc)
    ensures RowsOk(rows', lc, cs)
  {
  }

  lemma SameLinksOk(rows: ChunkRows, rows': ChunkRows, lc: string, cs: seq<Chunk>)
    requires LinksOk(rows, lc, cs) && SameRows(rows, rows', lc)
    ensures LinksOk(rows', lc, cs)
  {
  }

  lemma {:induction false} PushAllRefreshes(st: Store, lc: string, at: Position, items: seq<Event>, other: string,
                                            cs: seq<Chunk>)
    requires lc != other && Holds(st, other, cs)
    ensures Pushed(st, lc, at, items) <= |items|
    ensures var o := PushAll(st, lc, at, items);
            !o.Panicked? && Holds(o.store, other, RefreshedBy(cs, items[..Pushed(st, lc, at, items)]))
    decreases |items|
  {
    hide Holds, PushItem, Refreshed;
    if items != [] {
      PushItemRefreshes(st, lc, at, items[0], other, cs);
      var o := PushItem(st, lc, at, items[0]);
      if o.Applied? {
        var next := Position(at.chunk, at.index + 1);
        PushAllRefreshes(o.store, lc, next, items[1..], other, Refreshed(cs, items[0]));
        var n := Pushed(o.store, lc, next, items[1..]);
        assert items[..n + 1][0] == items[0] && items[..n + 1][1..] == items[1..][..n];
      }
    }
  }

  lemma NewChunkIsolated(st: Store, lc: string, previous: Option<nat>, new_: nat, next: Option<nat>, other: string,
                         cs: seq<Chunk>)
    requires lc != other && Holds(st, other, cs)
    ensures Holds(NewChunk(st, lc, previous, new_, next).store, other, cs)
  {
    hide SameRows, InsertChunk, LinksOk, RowsOk, PlacesOk, ContentOk;
    InsertChunkOther(st.chunks, lc, previous, new_, next, other);
    SameLinksOk(st.chunks, InsertChunk(st.chunks, lc, previous, new_, next).rows, other, cs);
  }

  lemma RemoveIsolated(st: Store, lc: string, at: Position, other: string, cs: seq<Chunk>)
    requires lc != other && Holds(st, other, cs) && !Remove(st, lc, at).Panicked?
    ensures Holds(Remove(st, lc, at).store, other, cs)
  {
    hide SameRows, LinksOk, RowsOk, ContentOk, ShiftRows, RemoveRow;
    var k := Find(st.rows, lc, at);
    ShiftOther(st.rows, lc, at, other);
    assert ShiftRows(st.rows, lc, at)[k].lc == lc by { ShiftedRow(st.rows, lc, at, k); }
    RemoveOther(ShiftRows(st.rows, lc, at), k, other);
    SameRowsTrans(st.rows, ShiftRows(st.rows, lc, at), RemoveRow(ShiftRows(st.rows, lc, at), k), other);
    SameRowsOk(st.rows, RemoveRow(ShiftRows(st.rows, lc, at), k), other, cs);
  }

  lemma ShiftedRow(rows: ItemRows, lc: string, at: Position, k: nat)
    requires k < |rows|
    ensures |ShiftRows(rows, lc, at)| == |rows| && ShiftRows(rows, lc, at)[k].lc == rows[k].lc
  {
  }

  lemma DropIsolated(st: Store, lc: string, u: Update, other: string, cs: seq<Chunk>)
    requires lc != other && Holds(st, other, cs) && ApplyUpdate(st, lc, u).Applied?
    requires u.RemoveChunk? || u.DetachLastItems? || u.Clear?
    ensures Holds(ApplyUpdate(st, lc, u).store, other, cs)
  {
    hide SameRows, LinksOk, RowsOk, ContentOk, Keep, RemoveChunkRow;
    var st' := ApplyUpdate(st, lc, u).store;
    match u {
      case RemoveChunk(id) =>
        RemoveChunkRowOther(st.chunks, lc, id, other);
        KeepOther(st.rows, (r: Row<Position, Cell>) => !(r.lc == lc && r.key.chunk == id), other);
        SameLinksOk(st.chunks, st'.chunks, other, cs);
      case DetachLastItems(at) =>
        KeepOther(st.rows, (r: Row<Position, Cell>) => !(r.lc == lc && IsDetached(r.key, at)), other);
      case Clear =>
        KeepOther(st.chunks, (r: Row<nat, Links>) => r.lc != lc, other);
        KeepOther(st.rows, (r: Row<Position, Cell>) => r.lc != lc, other);
        SameLinksOk(st.chunks, st'.chunks, other, cs);
    }
    SameRowsOk(st.rows, st'.rows, other, cs);
  }

  /** The events that an update brings, up to one that is refused. */
  function Brought(st: Store, lc: string, u: Update): seq<Event> {
    if u.PushItems? && Pushed(st, lc, u.at, u.items) <= |u.items| then u.items[..Pushed(st, lc, u.at, u.items)] else []
  }

  /** Any update but a replacement, successful or not, does nothing to any other linked
      chunk of the store but refresh the events it brings. */
  lemma UpdateRefreshes(st: Store, lc: string, u: Update, other: string, cs: seq<Chunk>)
    requires lc != other && Holds(st, other, cs)
    requires !u.ReplaceItem? && !ApplyUpdate(st, lc, u).Panicked?
    ensures Holds(ApplyUpdate(st, lc, u).store, other, RefreshedBy(cs, Brought(st, lc, u)))
  {
    hide Holds, NewChunk, PushAll, Remove, Pushed, Refreshed;
    match u {
      case NewItemsChunk(previous, new_, next) => NewChunkIsolated(st, lc, previous, new_, next, other, cs);
      case NewGapChunk(previous, new_, next, gap) => NewGapIsolated(st, lc, previous, new_, next, gap, other, cs);
      case PushItems(at, items) => PushAllRefreshes(st, lc, at, items, other, cs);
      case RemoveItem(at) => RemoveIsolated(st, lc, at, other, cs);
      case RemoveChunk(_) => DropIsolated(st, lc, u, other, cs);
      case DetachLastItems(_) => DropIsolated(st, lc, u, other, cs);
      case Clear => DropIsolated(st, lc, u, other, cs);
      case _ =>
    }
  }

  /** So it leaves the other one as it was if it brings no other version of its events. */
  lemma UpdateIsolated(st: Store, lc: string, u: Update, other: string, cs: seq<Chunk>)
    requires lc != other && Holds(st, other, cs) && Agrees(cs, u)
    requires !u.ReplaceItem? && !ApplyUpdate(st, lc, u).Panicked?
    ensures Holds(ApplyUpdate(st, lc, u).store, other, cs)
  {
    hide Holds, ApplyUpdate, AgreesOn, RefreshedBy, Pushed;
    UpdateRefreshes(st, lc, u, other, cs);
    AllAgreedStay(cs, Brought(st, lc, u));
  }

  lemma NewGapIsolated(st: Store, lc: string, previous: Option<nat>, new_: nat, next: Option<nat>, gap: string,
                       other: string, cs: seq<Chunk>)
    requires lc != other && Holds(st, other, cs)
    ensures Holds(ApplyUpdate(st, lc, NewGapChunk(previous, new_, next, gap)).store, other, cs)
  {
    hide SameRows, LinksOk, RowsOk, PlacesOk, ContentOk;
    NewChunkIsolated(st, lc, previous, new_, next, other, cs);
    var o := NewChunk(st, lc, previous, new_, next);
    if o.Applied? {
      var row := Row(lc, Position(new_, 0), GapCell(gap));
      PushOther(o.store.rows, row, other);
      SameRowsOk(o.store.rows, o.store.rows + [row], other, cs);
    }
  }

  // --- Replacing is not isolated -------------------------------------------------------

  /** A replacement finds its row by position only. It panics exactly when the first
      row at that position, in any linked chunk, is a gap. */
  lemma ReplacePanicsIff(st: Store, lc: string, cs: seq<Chunk>, at: Position, e: Event)
    requires Holds(st, lc, cs) && At(cs, at).Some?
    ensures FindAny(st.rows, at) < |st.rows|
    ensures Replace(st, lc, at, e).Panicked? <==> st.rows[FindAny(st.rows, at)].value.GapCell?
  {
    hide LinksOk, PlacesOk, ContentOk;
    assert Get(st.rows, lc, at) == CellOf(cs, at);
    assert st.rows[Find(st.rows, lc, at)].key == at;
  }

  /** It does nothing to another linked chunk but refresh the event, if and only if the
      first row at that position does not belong to it, or has the same event there. */
  lemma ReplaceRefreshesIff(st: Store, lc: string, at: Position, e: Event, other: string, cs: seq<Chunk>)
    requires lc != other && Holds(st, other, cs) && Replace(st, lc, at, e).Applied?
    ensures var first := st.rows[FindAny(st.rows, at)];
            Holds(Replace(st, lc, at, e).store, other, Refreshed(cs, e)) <==>
            (first.lc == other ==> first.value == ItemCell(e.id))
  {
    hide LinksOk, ContentOk, Refresh, IndexOf, Refreshed, PlacesOk, DistinctIds;
    var k := FindAny(st.rows, at);
    var st' := Replace(st, lc, at, e).store;
    RefreshContent(st.items, lc, KnownItems(st.items, lc)[e.id := Stored(e, Some(at))], e, other, cs);
    RefreshedTables(st', other, cs, e);
    if st.rows[k].lc != other {
      SetOther(st.rows, k, ItemCell(e.id), other);
      SameRowsOk(st.rows, st'.rows, other, cs);
    } else {
      FindIs(st.rows, other, k);
      UniqueSet(st.rows, k, ItemCell(e.id), other);
      forall p: Position
        ensures Get(st'.rows, other, p) == if p == at then Some(ItemCell(e.id)) else Get(st.rows, other, p)
      {
        GetSet(st.rows, k, ItemCell(e.id), other, p);
      }
      assert Get(st.rows, other, at) == CellOf(cs, at) && Get(st'.rows, other, at) == Some(ItemCell(e.id));
    }
  }

  /** So if that one has no other version of the event, it stays as it was exactly then. */
  lemma ReplaceIsolatedIff(st: Store, lc: string, at: Position, e: Event, other: string, cs: seq<Chunk>)
    requires lc != other && Holds(st, other, cs) && AgreesOn(cs, e)
    requires Replace(st, lc, at, e).Applied?
    ensures var first := st.rows[FindAny(st.rows, at)];
            Holds(Replace(st, lc, at, e).store, other, cs) <==> (first.lc == other ==> first.value == ItemCell(e.id))
  {
    hide Holds, Replace, FindAny;
    AgreedStays(cs, e);
    ReplaceRefreshesIff(st, lc, at, e, other, cs);
  }

  /** A replacement by an event with another identifier leaves the position of the
      replaced event behind: the store holds the linked chunk only if both are the same. */
  lemma ReplaceKeepsOrderIff(st: Store, lc: string, cs: seq<Chunk>, at: Position, e: Event)
    requires Holds(st, lc, cs) && At(cs, at).Some? && Replace(st, lc, at, e).Applied?
    ensures Holds(Replace(st, lc, at, e).store, lc, Apply(cs, ReplaceItem(at, e)).value) <==>
            At(cs, at).value.id == e.id
  {
    hide Holds, Replace, ApplyUpdate, Flat;
    var was := At(cs, at).value;
    Around(cs, at.chunk);
    var k := IndexOf(cs, at.chunk);
    var l, c, r := cs[..k], cs[k], cs[k + 1..];
    if was.id == e.id {
      assert ReplaceFindsAnItem(st, at) by { AppliedFindsAnItem(st, lc, at, e); }
      ReplaceHolds(st, lc, l, c, r, at.index, e);
    } else {
      StaleIsKept(st, lc, cs, at, e);
      var cs' := Apply(cs, ReplaceItem(at, e)).value;
      assert At(cs', at) == Some(e) by {
        HasDistinctIds(st, lc, cs);
        SameIds(l, c, WithItems(c, c.content.items[at.index := e]), r);
        AtMiddle(l, WithItems(c, c.content.items[at.index := e]), r, at.index);
      }
      if Holds(Replace(st, lc, at, e).store, lc, cs') {
        RecordedIsThere(Replace(st, lc, at, e).store, lc, cs', was.id, at);
      }
    }
  }

  lemma AppliedFindsAnItem(st: Store, lc: string, at: Position, e: Event)
    requires Replace(st, lc, at, e).Applied?
    ensures ReplaceFindsAnItem(st, at)
  {
  }

  lemma HasDistinctIds(st: Store, lc: string, cs: seq<Chunk>)
    requires Holds(st, lc, cs)
    ensures DistinctIds(cs)
  {
  }

  lemma StaleIsKept(st: Store, lc: string, cs: seq<Chunk>, at: Position, e: Event)
    requires Holds(st, lc, cs) && At(cs, at).Some? && Replace(st, lc, at, e).Applied? && At(cs, at).value.id != e.id
    ensures var known, id := KnownItems(Replace(st, lc, at, e).store.items, lc), At(cs, at).value.id;
            id in known && known[id].position == Some(at)
  {
    hide IndexOf, RowsOk, LinksOk, FindAny, At;
  }

  lemma RecordedIsThere(st: Store, lc: string, cs: seq<Chunk>, id: string, at: Position)
    requires Holds(st, lc, cs) && id in KnownItems(st.items, lc) && KnownItems(st.items, lc)[id].position == Some(at)
    ensures At(cs, at).Some? && At(cs, at).value.id == id
  {
    hide At, RowsOk, LinksOk, PlacesOk;
  }

  // --- Two rooms -------------------------------------------------------------------------

  const Here: Position := Position(0, 0)

  /** Two rooms with one event each, both at the first position of their first chunk. */
  function TwoRooms(x: Event, y: Event): Store {
    Store([Row("a", 0, Links(None, None)), Row("b", 0, Links(None, None))],
          [Row("a", Here, ItemCell(x.id)), Row("b", Here, ItemCell(y.id))],
          {("a", Here), ("b", Here)},
          map["a" := map[x.id := Stored(x, Some(Here))], "b" := map[y.id := Stored(y, Some(Here))]])
  }

  function OneEvent(e: Event): seq<Chunk> {
    [Chunk(0, Items([e]))]
  }

  lemma OneEventAt(e: Event, p: Position, id: nat)
    ensures At(OneEvent(e), p) == if p == Here then Some(e) else None
    ensures CellOf(OneEvent(e), p) == if p == Here then Some(ItemCell(e.id)) else None
    ensures LinksOf(OneEvent(e), id) == if id == 0 then Some(Links(None, None)) else None
  {
    var cs := OneEvent(e);
    assert IndexOf(cs, 0) == 0 && cs[1..] == [];
    assert id != 0 ==> IndexOf(cs, id) == 1;
    assert p.chunk != 0 ==> IndexOf(cs, p.chunk) == 1;
  }

  lemma GetTwo<K, V>(a: Row<K, V>, b: Row<K, V>, lc: string, key: K)
    ensures Get([a, b], lc, key) ==
            if a.lc == lc && a.key == key then Some(a.value) else if b.lc == lc && b.key == key then Some(b.value)
                else None
  {
    var rows := [a, b];
    assert rows[1..] == [b] && [b][1..] == [];
    assert Find([b], lc, key) == if b.lc == lc && b.key == key then 0 else 1;
  }

  lemma TwoRoomsHold(x: Event, y: Event)
    requires x.id != y.id
    ensures Holds(TwoRooms(x, y), "a", OneEvent(x)) && Holds(TwoRooms(x, y), "b", OneEvent(y))
  {
    hide Get, At, CellOf, LinksOf, OneEvent;
    var st := TwoRooms(x, y);
    forall id: nat
      ensures Get(st.chunks, "a", id) == LinksOf(OneEvent(x), id) && Get(st.chunks, "b", id) == LinksOf(OneEvent(y), id)
    {
      GetTwo(st.chunks[0], st.chunks[1], "a", id);
      GetTwo(st.chunks[0], st.chunks[1], "b", id);
      OneEventAt(x, Here, id);
      OneEventAt(y, Here, id);
    }
    forall p: Position
      ensures Get(st.rows, "a", p) == CellOf(OneEvent(x), p) && Get(st.rows, "b", p) == CellOf(OneEvent(y), p)
      ensures At(OneEvent(x), p) == (if p == Here then Some(x) else None)
              && At(OneEvent(y), p) == (if p == Here then Some(y) else None)
    {
      GetTwo(st.rows[0], st.rows[1], "a", p);
      GetTwo(st.rows[0], st.rows[1], "b", p);
      OneEventAt(x, p, 0);
      OneEventAt(y, p, 0);
    }
    assert DistinctIds(OneEvent(x)) && DistinctIds(OneEvent(y)) by { OneId(x); OneId(y); }
  }

  lemma OneEventAgrees(x: Event, e: Event)
    requires x.id != e.id
    ensures AgreesOn(OneEvent(x), e)
  {
    FlatOne(Chunk(0, Items([x])));
  }

  lemma OneId(e: Event)
    ensures DistinctIds(OneEvent(e))
  {
  }

  /** Replacing the event of one room by a newer version of itself changes the other: that
      room's row now names an event it does not have. */
  lemma ReplacementReachesOtherRoom(x: Event, y: Event, newer: Event)
    requires x.id != y.id && newer.id == y.id
    ensures var o := Replace(TwoRooms(x, y), "b", Here, newer);
            && o.Applied? && !Holds(o.store, "a", OneEvent(x))
            && o.store.rows[0] == Row("a", Here, ItemCell(y.id)) && y.id !in KnownItems(o.store.items, "a")
  {
    hide Holds, OneEvent, At;
    TwoRoomsHold(x, y);
    var st := TwoRooms(x, y);
    assert FindAny(st.rows, Here) == 0;
    assert AgreesOn(OneEvent(x), newer) by { OneEventAgrees(x, newer); }
    ReplaceIsolatedIff(st, "b", Here, newer, "a", OneEvent(x));
  }

  // --- A gap in the way --------------------------------------------------------------------

  const There: Position := Position(1, 0)
  const ToGap: seq<Update> := [NewItemsChunk(None, 0, None), NewGapChunk(Some(0), 1, None, "token")]
  const WithGap: seq<Chunk> := [Chunk(0, Items([])), Chunk(1, Gap("token"))]

  function ToItem(e: Event): seq<Update> {
    [NewItemsChunk(None, 0, None), NewItemsChunk(Some(0), 1, None), PushItems(There, [e])]
  }

  function WithItem(e: Event): seq<Chunk> {
    [Chunk(0, Items([])), Chunk(1, Items([e]))]
  }

  /** A store that has been told of one room with a gap, and of another with an item at the
      same place. */
  lemma GapAndItem(e: Event) returns (st1: Store, st: Store)
    ensures ApplyUpdates(Empty, "a", ToGap) == Applied(st1) && ApplyUpdates(st1, "b", ToItem(e)) == Applied(st)
    ensures st.rows == [Row("a", There, GapCell("token")), Row("b", There, ItemCell(e.id))]
  {
    hide FindAny, Refresh;
    st1 := GapStored();
    st := ItemStored(st1, e);
  }

  lemma GapStored() returns (st: Store)
    ensures ApplyUpdates(Empty, "a", ToGap) == Applied(st)
    ensures st ==
            Store([Row("a", 0, Links(None, Some(1))), Row("a", 1, Links(Some(0), None))],
                  [Row("a", There, GapCell("token"))], {}, map[])
  {
    var first := Row("a", 0, Links(None, None));
    assert ApplyUpdate(Empty, "a", ToGap[0]) == Applied(Empty.(chunks := [first])) by {
      assert [] + [first] == [first];
    }
    assert Find([first], "a", 0) == 0;
    st := ApplyUpdate(Empty.(chunks := [first]), "a", ToGap[1]).store;
    assert ToGap[1..] == [ToGap[1]] && ToGap[1..][1..] == [];
  }

  lemma ItemStored(st1: Store, e: Event) returns (st: Store)
    requires st1 ==
             Store([Row("a", 0, Links(None, Some(1))), Row("a", 1, Links(Some(0), None))],
                   [Row("a", There, GapCell("token"))], {}, map[])
    ensures ApplyUpdates(st1, "b", ToItem(e)) == Applied(st)
    ensures st.rows == [Row("a", There, GapCell("token")), Row("b", There, ItemCell(e.id))]
  {
    hide Refresh, Find;
    var us := ToItem(e);
    var st2 := ApplyUpdate(st1, "b", us[0]).store;
    assert st2.chunks == st1.chunks + [Row("b", 0, Links(None, None))];
    assert "a"[0] != "b"[0];
    assert Find(st2.chunks, "b", 0) == 2 by {
      assert st2.chunks[0].lc == "a" && st2.chunks[1].lc == "a" && st2.chunks[2].lc == "b" && st2.chunks[2].key == 0;
    }
    var st3 := ApplyUpdate(st2, "b", us[1]).store;
    assert ApplyUpdate(st2, "b", us[1]) == Applied(st3) && st3.rows == st1.rows && st3.positions == {}
           && st3.items == map[];
    var o := PushItem(st3, "b", There, e);
    st := o.store;
    assert o == Applied(st);
    assert PushAll(st3, "b", There, [e]) == Applied(st) by { assert [e][1..] == []; }
    assert ApplyUpdates(st3, "b", [us[2]]) == Applied(st) by { assert [us[2]][1..] == []; }
    assert us[1..] == [us[1], us[2]] && us[1..][1..] == [us[2]];
    assert ApplyUpdates(st2, "b", us[1..]) == Applied(st);
  }

  /** Both rooms are stored correctly, and replacing the item by a newer version of itself
      panics: the first row found there is the gap of the other room. */
  lemma ReplacementPanics(e: Event, newer: Event) returns (st1: Store, st: Store)
    requires newer.id == e.id
    ensures ApplyUpdates(Empty, "a", ToGap) == Applied(st1) && ApplyUpdates(st1, "b", ToItem(e)) == Applied(st)
    ensures Holds(st, "a", WithGap) && Holds(st, "b", WithItem(e)) && At(WithItem(e), There) == Some(e)
    ensures ApplyUpdate(st, "b", ReplaceItem(There, newer)).Panicked?
  {
    hide Holds, ApplyUpdates, ApplyUpdate, Leads, Apply, At;
    st1, st := GapAndItem(e);
    EmptyHolds("a");
    EmptyHolds("b");
    GapLeads();
    ItemLeads(e);
    assert NoForeignGaps(Empty, "a", ToGap) && NoForeignGaps(st1, "b", ToItem(e));
    UpdatesKept(Empty, "a", [], ToGap, WithGap);
    UpdatesIsolated(Empty, "a", ToGap, "b", []);
    UpdatesKept(st1, "b", [], ToItem(e), WithItem(e));
    assert Flat(WithGap) == [] by { assert WithGap[1..] == [WithGap[1]] && WithGap[1..][1..] == []; }
    UpdatesIsolated(st1, "b", ToItem(e), "a", WithGap);
    assert At(WithItem(e), There) == Some(e) by { ItemThere(e); }
    assert FindAny(st.rows, There) == 0;
    ReplacePanicsIff(st, "b", WithItem(e), There, newer);
    assert ApplyUpdate(st, "b", ReplaceItem(There, newer)) == Replace(st, "b", There, newer) by {
      ReplaceIsReplace(st, "b", There, newer);
    }
  }

  lemma ReplaceIsReplace(st: Store, lc: string, at: Position, e: Event)
    ensures ApplyUpdate(st, lc, ReplaceItem(at, e)) == Replace(st, lc, at, e)
  {
  }

  lemma ItemThere(e: Event)
    ensures At(WithItem(e), There) == Some(e)
  {
    assert IndexOf(WithItem(e), 1) == 1;
  }

  lemma FirstChunk() returns (cs: seq<Chunk>)
    ensures cs == [Chunk(0, Items([]))] && Apply([], NewItemsChunk(None, 0, None)) == Some(cs)
    ensures IndexOf(cs, 0) == 0 && IndexOf(cs, 1) == 1
  {
    var none: seq<Chunk> := [];
    cs := [Chunk(0, Items([]))];
    assert none[..0] + cs + none[0..] == cs;
  }

  lemma GapLeads()
    ensures Leads([], ToGap, WithGap, true)
  {
    var cs1 := FirstChunk();
    assert cs1[..1] + [WithGap[1]] + cs1[1..] == WithGap;
    assert Apply(cs1, ToGap[1]) == Some(WithGap);
    LeadsOne(cs1, ToGap[1], WithGap, true);
    assert ToGap[1..] == [ToGap[1]];
  }

  lemma ItemLeads(e: Event)
    ensures Leads([], ToItem(e), WithItem(e), true)
  {
    var us := ToItem(e);
    var cs1 := FirstChunk();
    var cs2 := [Chunk(0, Items([])), Chunk(1, Items([]))];
    assert cs1[..1] + [cs2[1]] + cs1[1..] == cs2;
    assert Apply(cs1, us[1]) == Some(cs2);
    assert IndexOf(cs2, 1) == 1;
    assert Flat(cs2) == [] by { assert cs2[1..] == [cs2[1]] && cs2[1..][1..] == []; }
    assert [] + [e] == [e];
    assert Splice(cs2, 1, [Chunk(1, Items([e]))]) == WithItem(e);
    assert Apply(cs2, us[2]) == Some(WithItem(e));
    LeadsOne(cs2, us[2], WithItem(e), true);
    assert us[1..] == [us[1], us[2]] && us[1..][1..] == [us[2]];
  }

  /** The events that a sequence of updates brings, up to one that fails. */
  function BroughtBy(st: Store, lc: string, us: seq<Update>): seq<Event>
    decreases |us|
  {
    if us == [] then []
    else
      Brought(st, lc, us[0]) +
      match ApplyUpdate(st, lc, us[0])
      case Applied(st') => BroughtBy(st', lc, us[1..])
      case _ => []
  }

  /** Whole sequences of updates, also those that end in an error. */
  lemma {:induction false} UpdatesRefresh(st: Store, lc: string, us: seq<Update>, other: string, cs: seq<Chunk>)
    requires lc != other && Holds(st, other, cs) && !ApplyUpdates(st, lc, us).Panicked?
    requires forall i | 0 <= i < |us| :: !us[i].ReplaceItem?
    ensures Holds(ApplyUpdates(st, lc, us).store, other, RefreshedBy(cs, BroughtBy(st, lc, us)))
    decreases |us|
  {
    hide Holds, ApplyUpdate, Brought, RefreshedBy;
    if us == [] {
      AllAgreedStay(cs, []);
    } else {
      UpdateRefreshes(st, lc, us[0], other, cs);
      assert forall i | 0 <= i < |us[1..]| :: us[1..][i] == us[i + 1];
      var o, b := ApplyUpdate(st, lc, us[0]), Brought(st, lc, us[0]);
      if o.Applied? {
        UpdatesRefresh(o.store, lc, us[1..], other, RefreshedBy(cs, b));
        RefreshedByConcat(cs, b, BroughtBy(o.store, lc, us[1..]));
      } else {
        assert b + [] == b;
      }
    }
  }

  lemma {:induction false} UpdatesIsolated(st: Store, lc: string, us: seq<Update>, other: string, cs: seq<Chunk>)
    requires lc != other && Holds(st, other, cs) && !ApplyUpdates(st, lc, us).Panicked?
    requires forall i | 0 <= i < |us| :: Agrees(cs, us[i]) && !us[i].ReplaceItem?
    ensures Holds(ApplyUpdates(st, lc, us).store, other, cs)
    decreases |us|
  {
    hide Holds, ApplyUpdate, Agrees;
    if us != [] {
      UpdateIsolated(st, lc, us[0], other, cs);
      assert forall i | 0 <= i < |us[1..]| :: us[1..][i] == us[i + 1];
      if ApplyUpdate(st, lc, us[0]).Applied? {
        UpdatesIsolated(ApplyUpdate(st, lc, us[0]).store, lc, us[1..], other, cs);
      }
    }
  }
}
