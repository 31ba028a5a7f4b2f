/** The item rows, positions and contents of the store follow the items. */
module RelationalItems {
  import opened LinkedChunkModel
  import opened Wrappers
  import opened LinkedChunkOps
  import opened Tables
  import opened Relational
  import opened RelationalLinks

  // --- What a position points to ---------------------------------------------------

  /** A chunk without items does not change what positions point to. */
  lemma AtAfterNew(l: seq<Chunk>, c: Chunk, r: seq<Chunk>, p: Position)
    requires DistinctIds(l + [c] + r) && ItemsOf(c) == []
    ensures At(l + [c] + r, p) == At(l + r, p)
  {
    var cs, cs' := l + r, l + [c] + r;
    if p.chunk == c.id {
      IndexOfAround(l, c, r);
      NotThere(l, c, r);
    } else {
      IndexAfterNew(l, c, r, p.chunk);
      var i := IndexOf(cs, p.chunk);
      if i < |cs| { assert cs'[if i < |l| then i else i + 1] == cs[i]; }
    }
  }

  lemma GapAfterNew(l: seq<Chunk>, c: Chunk, r: seq<Chunk>, id: nat)
    requires DistinctIds(l + [c] + r)
    ensures GapAt(l + [c] + r, id) == if id == c.id then (if c.content.Gap? then Some(c.content.token) else None)
                                     else GapAt(l + r, id)
    ensures GapAt(l + r, c.id).None?
  {
    var cs, cs' := l + r, l + [c] + r;
    NotThere(l, c, r);
    if id == c.id {
      IndexOfAround(l, c, r);
    } else {
      IndexAfterNew(l, c, r, id);
      var i := IndexOf(cs, id);
      if i < |cs| { assert cs'[if i < |l| then i else i + 1] == cs[i]; }
    }
  }

  lemma {:induction false} IndexSame(a: seq<Chunk>, b: seq<Chunk>, id: nat)
    requires |a| == |b| && forall i | 0 <= i < |a| :: a[i].id == b[i].id
    ensures IndexOf(a, id) == IndexOf(b, id)
  {
    if a != [] { IndexSame(a[1..], b[1..], id); }
  }

  /** Only positions in chunk `c` are affected by an edit of its items. */
  lemma AtEdited(l: seq<Chunk>, c: Chunk, r: seq<Chunk>, items: seq<Event>, p: Position)
    requires DistinctIds(l + [c] + r) && c.content.Items?
    ensures At(l + [WithItems(c, items)] + r, p)
         == if p.chunk != c.id then At(l + [c] + r, p) else if p.index < |items| then Some(items[p.index]) else None
    ensures GapAt(l + [WithItems(c, items)] + r, p.chunk) == GapAt(l + [c] + r, p.chunk)
  {
    var c' := WithItems(c, items);
    var cs, cs' := l + [c] + r, l + [c'] + r;
    IndexSame(cs, cs', p.chunk);
    IndexOfAround(l, c, r);
    var i := IndexOf(cs, p.chunk);
    if i < |cs| {
      if i == |l| { assert cs'[i] == c'; } else { assert cs'[i] == cs[i]; }
    }
  }

  lemma AtMiddle(l: seq<Chunk>, c: Chunk, r: seq<Chunk>, index: nat)
    requires DistinctIds(l + [c] + r)
    ensures At(l + [c] + r, Position(c.id, index)) == if index < |ItemsOf(c)| then Some(ItemsOf(c)[index]) else None
    ensures GapAt(l + [c] + r, c.id) == if c.content.Gap? then Some(c.content.token) else None
  {
    IndexOfAround(l, c, r);
  }

  /** The links do not depend on the items. */
  lemma LinksEdited(rows: ChunkRows, lc: string, l: seq<Chunk>, c: Chunk, c': Chunk, r: seq<Chunk>)
    requires c.id == c'.id && LinksOk(rows, lc, l + [c] + r)
    ensures LinksOk(rows, lc, l + [c'] + r)
  {
    var cs, cs' := l + [c] + r, l + [c'] + r;
    forall id: nat ensures LinksOf(cs', id) == LinksOf(cs, id) {
      IndexSame(cs, cs', id);
      var i := IndexOf(cs, id);
      assert forall j :: IdAt(cs, j) == IdAt(cs', j);
    }
  }

  // --- New and removed chunks --------------------------------------------------------

  /** Item rows, positions and contents only depend on what positions point to. */
  lemma SameItems(st: Store, lc: string, cs: seq<Chunk>, cs': seq<Chunk>)
    requires PlacesOk(st.positions, lc, cs) && ContentOk(KnownItems(st.items, lc), cs)
    requires forall p: Position :: At(cs', p) == At(cs, p)
    ensures PlacesOk(st.positions, lc, cs') && ContentOk(KnownItems(st.items, lc), cs')
  {
  }

  lemma NewItemsChunkHolds(st: Store, lc: string, l: seq<Chunk>, c: Chunk, r: seq<Chunk>)
    requires Holds(st, lc, l + r) && DistinctIds(l + [c] + r) && c.content == Items([])
    ensures var o := NewChunk(st, lc, IdAt(l, |l| - 1), c.id, IdAt(r, 0)); o.Applied? && Holds(o.store, lc, l + [c] + r)
  {
    hide LinksOk, InsertChunk;
    InsertChunkLinks(st.chunks, lc, l, c, r);
    var cs, cs' := l + r, l + [c] + r;
    forall p: Position ensures At(cs', p) == At(cs, p) && CellOf(cs', p) == CellOf(cs, p) {
      AtAfterNew(l, c, r, p);
      GapAfterNew(l, c, r, p.chunk);
    }
    SameItems(st, lc, cs, cs');
  }

  lemma NewGapChunkHolds(st: Store, lc: string, l: seq<Chunk>, c: Chunk, r: seq<Chunk>)
    requires Holds(st, lc, l + r) && DistinctIds(l + [c] + r) && c.content.Gap?
    ensures var o := ApplyUpdate(st, lc, NewGapChunk(IdAt(l, |l| - 1), c.id, IdAt(r, 0), c.content.token));
            o.Applied? && Holds(o.store, lc, l + [c] + r)
  {
    hide LinksOk, InsertChunk, Get, Unique, IndexOf;
    InsertChunkLinks(st.chunks, lc, l, c, r);
    var cs, cs' := l + r, l + [c] + r;
    var row := Row(lc, Position(c.id, 0), GapCell(c.content.token));
    forall p: Position ensures At(cs', p) == At(cs, p)
                       ensures CellOf(cs', p) == if p == row.key then Some(row.value) else CellOf(cs, p)
    {
      AtAfterNew(l, c, r, p);
      GapAfterNew(l, c, r, p.chunk);
      AtMiddle(l, c, r, p.index);
    }
    SameItems(st, lc, cs, cs');
    assert RowsOk(st.rows + [row], lc, cs') by {
      assert Get(st.rows, lc, row.key).None? by {
        AtAfterNew(l, c, r, row.key);
        GapAfterNew(l, c, r, c.id);
        AtMiddle(l, c, r, 0);
      }
      UniquePush(st.rows, row, lc);
      forall p: Position ensures Get(st.rows + [row], lc, p) == CellOf(cs', p) { GetPush(st.rows, row, lc, p); }
    }
  }

  lemma RemoveChunkHolds(st: Store, lc: string, l: seq<Chunk>, c: Chunk, r: seq<Chunk>)
    requires Holds(st, lc, l + [c] + r) && ItemsOf(c) == [] && DistinctIds(l + r)
    ensures var o := ApplyUpdate(st, lc, RemoveChunk(c.id)); o.Applied? && Holds(o.store, lc, l + r)
  {
    hide LinksOk, RemoveChunkRow, Get, Unique, IndexOf, Keep;
    RemoveChunkLinks(st.chunks, lc, l, c, r);
    var cs, cs' := l + [c] + r, l + r;
    forall p: Position ensures At(cs', p) == At(cs, p)
                       ensures CellOf(cs', p) == if p.chunk == c.id then None else CellOf(cs, p)
    {
      AtAfterNew(l, c, r, p);
      GapAfterNew(l, c, r, p.chunk);
      AtMiddle(l, c, r, p.index);
    }
    SameItems(st, lc, cs, cs');
    var keep := (x: Row<Position, Cell>) => !(x.lc == lc && x.key.chunk == c.id);
    assert RowsOk(Keep(st.rows, keep), lc, cs') by {
      UniqueKeep(st.rows, keep, lc);
      forall p: Position ensures Get(Keep(st.rows, keep), lc, p) == CellOf(cs', p) { GetKeep(st.rows, keep, lc, p); }
    }
  }

  // --- Pushing -----------------------------------------------------------------------

  lemma AtInFlat(cs: seq<Chunk>, p: Position)
    requires At(cs, p).Some?
    ensures At(cs, p).value in Flat(cs)
  {
    var i := IndexOf(cs, p.chunk);
    InFlat(cs, i, p.index);
  }

  lemma {:induction false} InFlat(cs: seq<Chunk>, i: nat, j: nat)
    requires i < |cs| && j < |ItemsOf(cs[i])|
    ensures ItemsOf(cs[i])[j] in Flat(cs)
  {
    if i > 0 { InFlat(cs[1..], i - 1, j); }
  }

  lemma PushItemRows(rows: ItemRows, lc: string, l: seq<Chunk>, c: Chunk, r: seq<Chunk>, e: Event)
    requires RowsOk(rows, lc, l + [c] + r) && DistinctIds(l + [c] + r) && c.content.Items?
    ensures RowsOk(rows + [Row(lc, Position(c.id, |c.content.items|), ItemCell(e.id))], lc,
                   l + [WithItems(c, c.content.items + [e])] + r)
  {
    hide Get, Unique, IndexOf;
    var at := Position(c.id, |c.content.items|);
    var row := Row(lc, at, ItemCell(e.id));
    var cs, cs' := l + [c] + r, l + [WithItems(c, c.content.items + [e])] + r;
    AtMiddle(l, c, r, at.index);
    assert Get(rows, lc, at).None?;
    UniquePush(rows, row, lc);
    forall p: Position ensures Get(rows + [row], lc, p) == CellOf(cs', p) {
      GetPush(rows, row, lc, p);
      AtEdited(l, c, r, c.content.items + [e], p);
      AtMiddle(l, c, r, p.index);
    }
  }

  lemma PushItemContent(known: map<string, Stored>, l: seq<Chunk>, c: Chunk, r: seq<Chunk>, e: Event)
    requires ContentOk(known, l + [c] + r) && DistinctIds(l + [c] + r) && c.content.Items?
    requires DisjointEvents(Flat(l + [c] + r), [e])
    ensures e.id in known ==> known[e.id].position.None?
    ensures ContentOk(known[e.id := Stored(e, Some(Position(c.id, |c.content.items|)))],
                      l + [WithItems(c, c.content.items + [e])] + r)
  {
    hide IndexOf, Flat;
    var at := Position(c.id, |c.content.items|);
    var cs, cs' := l + [c] + r, l + [WithItems(c, c.content.items + [e])] + r;
    var known' := known[e.id := Stored(e, Some(at))];
    forall p: Position ensures At(cs', p) == if p == at then Some(e) else At(cs, p) {
      AtEdited(l, c, r, c.content.items + [e], p);
      AtMiddle(l, c, r, p.index);
    }
    forall p: Position | At(cs, p).Some? ensures At(cs, p).value.id != e.id {
      AtInFlat(cs, p);
      assert e in [e];
    }
    AtMiddle(l, c, r, at.index);
  }

  lemma PushItemHolds(st: Store, lc: string, l: seq<Chunk>, c: Chunk, r: seq<Chunk>, e: Event)
    requires Holds(st, lc, l + [c] + r) && c.content.Items? && DisjointEvents(Flat(l + [c] + r), [e])
    ensures var o := PushItem(st, lc, Position(c.id, |c.content.items|), e);
            o.Applied? && Holds(o.store, lc, l + [WithItems(c, c.content.items + [e])] + r)
  {
    hide Flat, IndexOf, RowsOk, ContentOk, LinksOk;
    var at := Position(c.id, |c.content.items|);
    var cs, c' := l + [c] + r, WithItems(c, c.content.items + [e]);
    PushItemRows(st.rows, lc, l, c, r, e);
    PushItemContent(KnownItems(st.items, lc), l, c, r, e);
    LinksEdited(st.chunks, lc, l, c, c', r);
    SameIds(l, c, c', r);
    forall p: Position ensures At(l + [c'] + r, p).Some? <==> (p == at || At(cs, p).Some?) {
      AtEdited(l, c, r, c.content.items + [e], p);
      AtMiddle(l, c, r, p.index);
    }
    AtMiddle(l, c, r, at.index);
    var known' := KnownItems(st.items, lc)[e.id := Stored(e, Some(at))];
    assert RefreshOne(known', e) == known';
    assert KnownItems(Refresh(st.items[lc := known'], e), lc) == known';
  }

  lemma RestIsNew(l: seq<Chunk>, c: Chunk, r: seq<Chunk>, e: Event, rest: seq<Event>)
    requires c.content.Items? && DisjointEvents(Flat(l + [c] + r), [e] + rest) && DisjointEvents([e], rest)
    ensures DisjointEvents(Flat(l + [c] + r), [e])
            && DisjointEvents(Flat(l + [WithItems(c, c.content.items + [e])] + r), rest)
  {
    hide Flat;
    var c1 := WithItems(c, c.content.items + [e]);
    FlatAround(l, [c], r);
    FlatAround(l, [c1], r);
    FlatOne(c);
    FlatOne(c1);
  }

  lemma {:induction false} PushAllHolds(st: Store, lc: string, l: seq<Chunk>, c: Chunk, r: seq<Chunk>,
                                        items: seq<Event>)
    requires Holds(st, lc, l + [c] + r) && c.content.Items?
    requires DistinctEvents(items) && DisjointEvents(Flat(l + [c] + r), items)
    ensures var o := PushAll(st, lc, Position(c.id, |c.content.items|), items);
            o.Applied? && Holds(o.store, lc, l + [WithItems(c, c.content.items + items)] + r)
    decreases |items|
  {
    hide Holds, PushItem, Flat;
    if items == [] {
      assert WithItems(c, c.content.items + items) == c;
    } else {
      var e, rest := items[0], items[1..];
      var c1 := WithItems(c, c.content.items + [e]);
      assert items == [e] + rest;
      DistinctConcat([e], rest);
      assert DisjointEvents(Flat(l + [c]+ r), [e]) && DisjointEvents(Flat(l + [c1] + r), rest) by {
        RestIsNew(l, c, r, e, rest);
      }
      PushItemHolds(st, lc, l, c, r, e);
      var st1 := PushItem(st, lc, Position(c.id, |c.content.items|), e).store;
      PushAllHolds(st1, lc, l, c1, r, rest);
      assert c.content.items + [e] + rest == c.content.items + items;
    }
  }

  // --- Replacing ---------------------------------------------------------------------

  /** The first row at this position, in whichever linked chunk, is not a gap. */
  predicate ReplaceFindsAnItem(st: Store, at: Position) {
    var k := FindAny(st.rows, at);
    k < |st.rows| && st.rows[k].value.ItemCell?
  }

  lemma ReplaceRows(rows: ItemRows, lc: string, at: Position, id: string)
    requires Unique(rows, lc) && Get(rows, lc, at) == Some(ItemCell(id)) && FindAny(rows, at) < |rows|
    ensures var k := FindAny(rows, at);
            var rows' := rows[k := rows[k].(value := ItemCell(id))];
            Unique(rows', lc) && forall p: Position :: Get(rows', lc, p) == Get(rows, lc, p)
  {
    var k := FindAny(rows, at);
    var rows' := rows[k := rows[k].(value := ItemCell(id))];
    UniqueSet(rows, k, ItemCell(id), lc);
    if rows[k].lc == lc { FindIs(rows, lc, k); }
    forall p: Position ensures Get(rows', lc, p) == Get(rows, lc, p) {
      SameKeys(rows, rows', lc, p);
    }
  }

  lemma ReplaceContent(known: map<string, Stored>, l: seq<Chunk>, c: Chunk, r: seq<Chunk>, index: nat, e: Event)
    requires ContentOk(known, l + [c] + r) && DistinctIds(l + [c] + r) && c.content.Items?
    requires index < |c.content.items| && c.content.items[index].id == e.id
    ensures ContentOk(known[e.id := Stored(e, Some(Position(c.id, index)))],
                      l + [WithItems(c, c.content.items[index := e])] + r)
  {
    hide IndexOf;
    var at := Position(c.id, index);
    var cs, cs' := l + [c] + r, l + [WithItems(c, c.content.items[index := e])] + r;
    AtMiddle(l, c, r, index);
    forall p: Position ensures At(cs', p) == if p == at then Some(e) else At(cs, p) {
      AtEdited(l, c, r, c.content.items[index := e], p);
      AtMiddle(l, c, r, p.index);
    }
    forall p: Position | p != at && At(cs, p).Some? ensures At(cs, p).value.id != e.id {
      assert known[At(cs, p).value.id].position == Some(p) && known[e.id].position == Some(at);
    }
  }

  lemma ReplaceHolds(st: Store, lc: string, l: seq<Chunk>, c: Chunk, r: seq<Chunk>, index: nat, e: Event)
    requires Holds(st, lc, l + [c] + r) && c.content.Items?
    requires index < |c.content.items| && c.content.items[index].id == e.id
    requires ReplaceFindsAnItem(st, Position(c.id, index))
    ensures var o := Replace(st, lc, Position(c.id, index), e);
            o.Applied? && Holds(o.store, lc, l + [WithItems(c, c.content.items[index := e])] + r)
  {
    hide IndexOf, ContentOk, LinksOk, Get, Unique, Find;
    var at := Position(c.id, index);
    var cs, c' := l + [c] + r, WithItems(c, c.content.items[index := e]);
    AtMiddle(l, c, r, index);
    ReplaceRows(st.rows, lc, at, e.id);
    ReplaceContent(KnownItems(st.items, lc), l, c, r, index, e);
    LinksEdited(st.chunks, lc, l, c, c', r);
    SameIds(l, c, c', r);
    forall p: Position
      ensures CellOf(l + [c'] + r, p) == CellOf(cs, p) && (At(l + [c'] + r, p).Some? <==> At(cs, p).Some?)
    {
      AtEdited(l, c, r, c'.content.items, p);
      AtMiddle(l, c, r, p.index);
    }
    var known' := KnownItems(st.items, lc)[e.id := Stored(e, Some(at))];
    assert RefreshOne(known', e) == known';
    assert KnownItems(Refresh(st.items[lc := known'], e), lc) == known';
  }

  // --- Removing ----------------------------------------------------------------------

  /** Where the row that ends up at `p` was before the removal at `at`. */
  function Unshift(p: Position, at: Position): Position {
    if p.chunk == at.chunk && p.index >= at.index then Position(p.chunk, p.index + 1) else p
  }

  lemma UniqueRemoved(rows: ItemRows, lc: string, at: Position, k: nat)
    requires Unique(rows, lc) && k < |rows| && rows[k].lc == lc && rows[k].key == at
    ensures Unique(RemoveRow(ShiftRows(rows, lc, at), k), lc)
  {
    var rows' := RemoveRow(ShiftRows(rows, lc, at), k);
    forall i, j | 0 <= i < j < |rows'| && rows'[i].lc == lc && rows'[j].lc == lc ensures rows'[i].key != rows'[j].key {
      var i', j' := if i < k then i else i + 1, if j < k then j else j + 1;
      assert rows'[i] == ShiftRow(rows[i'], lc, at) && rows'[j] == ShiftRow(rows[j'], lc, at);
      assert rows[i'].key != rows[j'].key;
      assert i' < k ==> rows[i'].key != rows[k].key;
      assert i' > k ==> rows[k].key != rows[i'].key;
      assert j' < k ==> rows[j'].key != rows[k].key;
      assert j' > k ==> rows[k].key != rows[j'].key;
    }
  }

  lemma GetRemoved(rows: ItemRows, lc: string, at: Position, k: nat, p: Position)
    requires Unique(rows, lc) && k < |rows| && rows[k].lc == lc && rows[k].key == at
    ensures Get(RemoveRow(ShiftRows(rows, lc, at), k), lc, p) == Get(rows, lc, Unshift(p, at))
  {
    hide Unique;
    var rows' := RemoveRow(ShiftRows(rows, lc, at), k);
    UniqueRemoved(rows, lc, at, k);
    var i, j := Find(rows', lc, p), Find(rows, lc, Unshift(p, at));
    if i < |rows'| { RemovedCameFrom(rows, lc, at, k, i); }
    if j < |rows| {
      var j' := if j < k then j else j - 1;
      assert rows'[j'] == ShiftRow(rows[j], lc, at);
      FindIs(rows', lc, j');
    }
  }

  lemma RemovedCameFrom(rows: ItemRows, lc: string, at: Position, k: nat, i: nat)
    requires Unique(rows, lc) && k < |rows| && rows[k].lc == lc && rows[k].key == at
    requires var rows' := RemoveRow(ShiftRows(rows, lc, at), k); i < |rows'| && rows'[i].lc == lc
    ensures var rows' := RemoveRow(ShiftRows(rows, lc, at), k);
            Get(rows, lc, Unshift(rows'[i].key, at)) == Some(rows'[i].value)
  {
    var rows' := RemoveRow(ShiftRows(rows, lc, at), k);
    var i' := if i < k then i else i + 1;
    assert rows'[i] == ShiftRow(rows[i'], lc, at);
    assert rows[i'].key != at by {
      if i' < k { assert rows[i'].key != rows[k].key; } else { assert rows[k].key != rows[i'].key; }
    }
    FindIs(rows, lc, i');
  }

  lemma {:induction false} MaxIndexIs(rows: ItemRows, lc: string, chunk: nat)
    ensures var m := MaxIndex(rows, lc, chunk);
            && (forall r | r in rows && r.lc == lc && r.key.chunk == chunk :: m.Some? && r.key.index <= m.value)
            && (m.Some? ==> exists r :: r in rows && r.lc == lc && r.key == Position(chunk, m.value))
  {
    if rows != [] {
      var init, r := rows[..|rows| - 1], rows[|rows| - 1];
      assert rows == init + [r];
      MaxIndexIs(init, lc, chunk);
      var m := MaxIndex(init, lc, chunk);
      if m.Some? {
        var x :| x in init && x.lc == lc && x.key == Position(chunk, m.value);
        assert x in rows;
      }
      assert r in rows && r.key == Position(r.key.chunk, r.key.index);
    }
  }

  lemma LargestIndex(rows: ItemRows, lc: string, chunk: nat, n: nat)
    requires Unique(rows, lc) && n > 0
    requires forall j: nat :: Get(rows, lc, Position(chunk, j)).Some? <==> j < n
    ensures MaxIndex(rows, lc, chunk) == Some(n - 1)
  {
    MaxIndexIs(rows, lc, chunk);
    var k := Find(rows, lc, Position(chunk, n - 1));
    assert Get(rows, lc, Position(chunk, n - 1)).Some?;
    assert rows[k] in rows;
    var m := MaxIndex(rows, lc, chunk).value;
    var r :| r in rows && r.lc == lc && r.key == Position(chunk, m);
    GetIn(rows, lc, r.key, r.value);
    assert r == Row(lc, r.key, r.value);
  }

  lemma RemoveContent(known: map<string, Stored>, cs: seq<Chunk>, cs': seq<Chunk>, at: Position)
    requires ContentOk(known, cs) && At(cs, at).Some?
    requires forall p: Position :: At(cs', p) == At(cs, Unshift(p, at))
    ensures ContentOk(map id | id in known :: ShiftStored(known[id], at), cs')
  {
    var known' := map id | id in known :: ShiftStored(known[id], at);
    forall p: Position | At(cs', p).Some?
      ensures At(cs', p).value.id in known' && known'[At(cs', p).value.id] == Stored(At(cs', p).value, Some(p))
    {
      assert At(cs, Unshift(p, at)).Some?;
    }
    forall id | id in known' && known'[id].position.Some?
      ensures At(cs', known'[id].position.value).Some? && At(cs', known'[id].position.value).value.id == id
    {
      var q := known[id].position.value;
      assert At(cs, q).Some? && Unshift(known'[id].position.value, at) == q;
    }
  }

  lemma RemoveMoves(l: seq<Chunk>, c: Chunk, r: seq<Chunk>, index: nat, p: Position)
    requires DistinctIds(l + [c] + r) && c.content.Items? && index < |c.content.items|
    ensures var cs' := l + [WithItems(c, c.content.items[..index] + c.content.items[index + 1..])] + r;
            var q := Unshift(p, Position(c.id, index));
            At(cs', p) == At(l + [c] + r, q) && CellOf(cs', p) == CellOf(l + [c] + r, q)
  {
    hide IndexOf;
    AtEdited(l, c, r, c.content.items[..index] + c.content.items[index + 1..], p);
    AtMiddle(l, c, r, p.index);
    AtMiddle(l, c, r, p.index + 1);
  }

  lemma RemoveRows(rows: ItemRows, lc: string, l: seq<Chunk>, c: Chunk, r: seq<Chunk>, index: nat)
    requires RowsOk(rows, lc, l + [c] + r) && DistinctIds(l + [c] + r) && c.content.Items? && index < |c.content.items|
    ensures var at, k := Position(c.id, index), Find(rows, lc, Position(c.id, index));
            && k < |rows| && Find(rows[k + 1..], lc, at) == |rows| - k - 1
            && RowsOk(RemoveRow(ShiftRows(rows, lc, at), k), lc,
                      l + [WithItems(c, c.content.items[..index] + c.content.items[index + 1..])] + r)
  {
    hide IndexOf, Unique, Find;
    var at, k := Position(c.id, index), Find(rows, lc, Position(c.id, index));
    AtMiddle(l, c, r, index);
    assert Get(rows, lc, at).Some?;
    FoundOnce(rows, lc, at);
    UniqueRemoved(rows, lc, at, k);
    forall p: Position
      ensures Get(RemoveRow(ShiftRows(rows, lc, at), k), lc, p)
           == CellOf(l + [WithItems(c, c.content.items[..index] + c.content.items[index + 1..])] + r, p)
    {
      GetRemoved(rows, lc, at, k, p);
      RemoveMoves(l, c, r, index, p);
    }
  }

  lemma RemoveHolds(st: Store, lc: string, l: seq<Chunk>, c: Chunk, r: seq<Chunk>, index: nat)
    requires Holds(st, lc, l + [c] + r) && c.content.Items? && index < |c.content.items|
    ensures var left := c.content.items[..index] + c.content.items[index + 1..];
            var o := Remove(st, lc, Position(c.id, index));
            o.Applied? && Holds(o.store, lc, l + [WithItems(c, left)] + r)
  {
    hide IndexOf, ContentOk, LinksOk, RowsOk, PlacesOk, Find, ShiftRows;
    var at, left := Position(c.id, index), c.content.items[..index] + c.content.items[index + 1..];
    var cs, cs' := l + [c] + r, l + [WithItems(c, left)] + r;
    LinksEdited(st.chunks, lc, l, c, WithItems(c, left), r);
    SameIds(l, c, WithItems(c, left), r);
    RemoveRows(st.rows, lc, l, c, r, index);
    RemovePlaces(st, lc, l, c, r, index);
    assert ContentOk(map id | id in KnownItems(st.items, lc) :: ShiftStored(KnownItems(st.items, lc)[id], at), cs') by {
      forall p: Position ensures At(cs', p) == At(cs, Unshift(p, at)) { RemoveMoves(l, c, r, index, p); }
      AtMiddle(l, c, r, index);
      RemoveContent(KnownItems(st.items, lc), cs, cs', at);
    }
  }

  lemma FoundOnce(rows: ItemRows, lc: string, at: Position)
    requires Unique(rows, lc) && Find(rows, lc, at) < |rows|
    ensures var k := Find(rows, lc, at); Find(rows[k + 1..], lc, at) == |rows| - k - 1
  {
    var k := Find(rows, lc, at);
    var rest := rows[k + 1..];
    assert forall i | 0 <= i < |rest| :: rest[i] == rows[k + 1 + i];
  }

  lemma RemovePlaces(st: Store, lc: string, l: seq<Chunk>, c: Chunk, r: seq<Chunk>, index: nat)
    requires Holds(st, lc, l + [c] + r) && c.content.Items? && index < |c.content.items|
    ensures MaxIndex(st.rows, lc, c.id) == Some(|c.content.items| - 1)
    ensures PlacesOk(st.positions - {(lc, Position(c.id, |c.content.items| - 1))}, lc,
                     l + [WithItems(c, c.content.items[..index] + c.content.items[index + 1..])] + r)
  {
    hide IndexOf, ContentOk, LinksOk, Unique;
    var left := c.content.items[..index] + c.content.items[index + 1..];
    var cs, cs' := l + [c] + r, l + [WithItems(c, left)] + r;
    forall j: nat ensures Get(st.rows, lc, Position(c.id, j)).Some? <==> j < |c.content.items| { AtMiddle(l, c, r, j); }
    LargestIndex(st.rows, lc, c.id, |c.content.items|);
    forall p: Position
      ensures At(cs', p).Some? <==> At(cs, p).Some? && p != Position(c.id, |c.content.items| - 1)
    {
      AtEdited(l, c, r, left, p);
      AtMiddle(l, c, r, p.index);
    }
  }

  // --- Detaching and clearing --------------------------------------------------------

  lemma DetachHolds(st: Store, lc: string, l: seq<Chunk>, c: Chunk, r: seq<Chunk>, index: nat)
    requires Holds(st, lc, l + [c] + r) && c.content.Items? && index <= |c.content.items|
    ensures Holds(Detach(st, lc, Position(c.id, index)), lc, l + [WithItems(c, c.content.items[..index])] + r)
  {
    hide IndexOf, LinksOk, Unique, Keep;
    var at, c' := Position(c.id, index), WithItems(c, c.content.items[..index]);
    var cs, cs' := l + [c] + r, l + [c'] + r;
    forall p: Position
      ensures At(cs', p) == if IsDetached(p, at) then None else At(cs, p)
      ensures CellOf(cs', p) == if IsDetached(p, at) then None else CellOf(cs, p)
    {
      AtEdited(l, c, r, c'.content.items, p);
      AtMiddle(l, c, r, p.index);
    }
    LinksEdited(st.chunks, lc, l, c, c', r);
    SameIds(l, c, c', r);
    var keep := (x: Row<Position, Cell>) => !(x.lc == lc && IsDetached(x.key, at));
    assert RowsOk(Keep(st.rows, keep), lc, cs') by {
      UniqueKeep(st.rows, keep, lc);
      forall p: Position ensures Get(Keep(st.rows, keep), lc, p) == CellOf(cs', p) { GetKeep(st.rows, keep, lc, p); }
    }
    var st' := Detach(st, lc, at);
    forall p: Position ensures (lc, p) in st'.positions <==> At(cs', p).Some? {
      if At(cs, p).Some? && IsDetached(p, at) {
        var cell := CellOf(cs, p).value;
        GetIn(st.rows, lc, p, cell);
        assert Row(lc, p, cell) in st.rows;
      }
    }
  }

  /** Whatever was stored, well or not: nothing is left of a linked chunk that is cleared. */
  lemma {:induction false} ClearHolds(st: Store, lc: string)
    ensures Holds(ClearAll(st, lc), lc, [])
  {
    var rows1 := Keep(st.chunks, (r: Row<nat, Links>) => r.lc != lc);
    var rows2 := Keep(st.rows, (r: Row<Position, Cell>) => r.lc != lc);
    KeepIn(st.chunks, (r: Row<nat, Links>) => r.lc != lc);
    KeepIn(st.rows, (r: Row<Position, Cell>) => r.lc != lc);
    forall i | 0 <= i < |rows1| ensures rows1[i].lc != lc { assert rows1[i] in rows1; }
    forall i | 0 <= i < |rows2| ensures rows2[i].lc != lc { assert rows2[i] in rows2; }
  }
}
