/** A store that receives the updates of a linked chunk holds that linked chunk,
    and leaves the other linked chunks alone, except where it does not. */
module RelationalTruth {
  import opened LinkedChunkModel
  import opened Wrappers
  import opened LinkedChunkOps
  import opened LinkedChunkTruth
  import opened Tables
  import opened Relational
  import opened RelationalLinks
  import opened RelationalItems

  /** No other linked chunk has a gap where an item is going to be replaced. */
  predicate NoForeignGap(st: Store, lc: string, u: Update) {
    u.ReplaceItem? ==> forall r | r in st.rows && r.lc != lc && r.key == u.at :: r.value.ItemCell?
  }

  // --- One update ------------------------------------------------------------------

  lemma NewChunkKept(st: Store, lc: string, cs: seq<Chunk>, previous: Option<nat>, c: Chunk, next: Option<nat>)
    requires Holds(st, lc, cs) && ItemsOf(c) == [] && (c.content.Items? ==> c.content.items == [])
    requires ApplyNew(cs, previous, c, next).Some?
    ensures var o := ApplyUpdate(st, lc, NewUpdate(previous, c, next));
            o.Applied? && Holds(o.store, lc, ApplyNew(cs, previous, c, next).value)
  {
    hide Holds, NewChunk;
    var k := if previous.None? then 0 else IndexOf(cs, previous.value) + 1;
    var l, r := cs[..k], cs[k..];
    assert cs == l + r;
    assert IdAt(l, |l| - 1) == previous && IdAt(r, 0) == next;
    assert DistinctIds(l + [c] + r) by { AddedIds(st, lc, l, c, r); }
    if c.content.Items? {
      NewItemsChunkHolds(st, lc, l, c, r);
    } else {
      NewGapChunkHolds(st, lc, l, c, r);
    }
  }

  lemma AddedIds(st: Store, lc: string, l: seq<Chunk>, c: Chunk, r: seq<Chunk>)
    requires Holds(st, lc, l + r) && IndexOf(l + r, c.id) == |l + r|
    ensures DistinctIds(l + [c] + r)
  {
    hide LinksOk, RowsOk, PlacesOk, ContentOk;
    var cs, cs' := l + r, l + [c] + r;
    forall i, j | 0 <= i < j < |cs'| ensures cs'[i].id != cs'[j].id {
      var i', j' := if i < |l| then i else i - 1, if j < |l| then j else j - 1;
      assert i != |l| ==> cs'[i] == cs[i'];
      assert j != |l| ==> cs'[j] == cs[j'];
    }
  }

  /** The list around the chunk an update addresses. */
  lemma Around(cs: seq<Chunk>, id: nat)
    requires IndexOf(cs, id) < |cs|
    ensures var k := IndexOf(cs, id); cs == cs[..k] + [cs[k]] + cs[k + 1..] && cs[k].id == id
  {
    SpliceSame(cs, IndexOf(cs, id));
  }

  lemma RemoveChunkKept(st: Store, lc: string, cs: seq<Chunk>, id: nat)
    requires Holds(st, lc, cs) && Apply(cs, RemoveChunk(id)).Some?
    ensures var o := ApplyUpdate(st, lc, RemoveChunk(id));
            o.Applied? && Holds(o.store, lc, Apply(cs, RemoveChunk(id)).value)
  {
    hide Holds;
    Around(cs, id);
    var k := IndexOf(cs, id);
    var l, c, r := cs[..k], cs[k], cs[k + 1..];
    assert l + [] + r == l + r;
    assert DistinctIds(l + r) by { WithoutIds(st, lc, l, c, r); }
    RemoveChunkHolds(st, lc, l, c, r);
  }

  lemma WithoutIds(st: Store, lc: string, l: seq<Chunk>, c: Chunk, r: seq<Chunk>)
    requires Holds(st, lc, l + [c] + r)
    ensures DistinctIds(l + r)
  {
    hide LinksOk, RowsOk, PlacesOk, ContentOk;
    IndexAfterNew(l, c, r, c.id + 1);
  }

  lemma EditKept(st: Store, lc: string, cs: seq<Chunk>, u: Update)
    requires Holds(st, lc, cs) && Apply(cs, u).Some? && KeepsEventsDistinct(cs, u) && NoForeignGap(st, lc, u)
    requires u.PushItems? || u.ReplaceItem? || u.RemoveItem? || u.DetachLastItems?
    ensures var o := ApplyUpdate(st, lc, u); o.Applied? && Holds(o.store, lc, Apply(cs, u).value)
  {
    hide Holds, PushAll, Replace, Remove, Detach, Flat;
    Around(cs, u.at.chunk);
    var k := IndexOf(cs, u.at.chunk);
    var l, c, r := cs[..k], cs[k], cs[k + 1..];
    match u
    case PushItems(at, items) => PushAllHolds(st, lc, l, c, r, items);
    case ReplaceItem(at, item) =>
      assert ReplaceFindsAnItem(st, at) by { FindsAnItem(st, lc, cs, at, item); }
      ReplaceHolds(st, lc, l, c, r, at.index, item);
    case RemoveItem(at) => RemoveHolds(st, lc, l, c, r, at.index);
    case DetachLastItems(at) => DetachHolds(st, lc, l, c, r, at.index);
  }

  lemma FindsAnItem(st: Store, lc: string, cs: seq<Chunk>, at: Position, item: Event)
    requires Holds(st, lc, cs) && At(cs, at).Some? && NoForeignGap(st, lc, ReplaceItem(at, item))
    ensures ReplaceFindsAnItem(st, at)
  {
    hide LinksOk, PlacesOk, ContentOk;
    assert Get(st.rows, lc, at) == CellOf(cs, at);
    var j, k := Find(st.rows, lc, at), FindAny(st.rows, at);
    assert st.rows[j].key == at;
    assert k < |st.rows| && st.rows[k] in st.rows;
    if st.rows[k].lc == lc { FindIs(st.rows, lc, k); }
  }

  /** Every update that fits the linked chunk succeeds, and the store then holds
      the updated linked chunk. */
  lemma UpdateKept(st: Store, lc: string, cs: seq<Chunk>, u: Update)
    requires Holds(st, lc, cs) && Apply(cs, u).Some? && KeepsEventsDistinct(cs, u) && NoForeignGap(st, lc, u)
    ensures var o := ApplyUpdate(st, lc, u); o.Applied? && Holds(o.store, lc, Apply(cs, u).value)
  {
    match u {
      case NewItemsChunk(previous, new_, next) => NewChunkKept(st, lc, cs, previous, Chunk(new_, Items([])), next);
      case NewGapChunk(previous, new_, next, gap) => NewChunkKept(st, lc, cs, previous, Chunk(new_, Gap(gap)), next);
      case RemoveChunk(id) => RemoveChunkKept(st, lc, cs, id);
      case Clear => ClearHolds(st, lc);
      case StartReattachItems =>
      case EndReattachItems =>
      case _ => EditKept(st, lc, cs, u);
    }
  }

  // --- Whole runs --------------------------------------------------------------------

  /** Rows of other linked chunks keep their position, and never become gaps. */
  lemma ForeignRowsKept(st: Store, lc: string, u: Update, v: Update)
    requires NoForeignGap(st, lc, v) && ApplyUpdate(st, lc, u).Applied?
    ensures NoForeignGap(ApplyUpdate(st, lc, u).store, lc, v)
  {
    if v.ReplaceItem? {
      hide Find, InsertChunk, RemoveChunkRow, Refresh;
      var st' := ApplyUpdate(st, lc, u).store;
      match u {
        case PushItems(at, items) => ForeignRowsAfterPush(st, lc, at, items, v);
        case RemoveChunk(id) => KeepIn(st.rows, (r: Row<Position, Cell>) => !(r.lc == lc && r.key.chunk == id));
        case DetachLastItems(at) => KeepIn(st.rows, (r: Row<Position, Cell>) => !(r.lc == lc && IsDetached(r.key, at)));
        case Clear => KeepIn(st.rows, (r: Row<Position, Cell>) => r.lc != lc);
        case RemoveItem(at) =>
          forall r | r in st'.rows && r.lc != lc ensures r in st.rows {
            ForeignRowAfterRemove(st.rows, lc, at, Find(st.rows, lc, at), r);
          }
        case _ =>
      }
    }
  }

  lemma ForeignRowAfterRemove(rows: ItemRows, lc: string, at: Position, k: nat, r: Row<Position, Cell>)
    requires k < |rows| && r in RemoveRow(ShiftRows(rows, lc, at), k) && r.lc != lc
    ensures r in rows
  {
    var rows' := RemoveRow(ShiftRows(rows, lc, at), k);
    var i :| 0 <= i < |rows'| && rows'[i] == r;
    assert rows'[i] == ShiftRow(rows[if i < k then i else i + 1], lc, at);
  }

  lemma {:induction false} ForeignRowsAfterPush(st: Store, lc: string, at: Position, items: seq<Event>, v: Update)
    requires NoForeignGap(st, lc, v) && PushAll(st, lc, at, items).Applied?
    ensures NoForeignGap(PushAll(st, lc, at, items).store, lc, v)
    decreases |items|
  {
    if items != [] {
      ForeignRowsAfterPush(PushItem(st, lc, at, items[0]).store, lc, Position(at.chunk, at.index + 1), items[1..], v);
    }
  }

  predicate NoForeignGaps(st: Store, lc: string, us: seq<Update>) {
    forall i | 0 <= i < |us| :: NoForeignGap(st, lc, us[i])
  }

  /** Any sequence of updates that leads from `cs` to `cs'` turns a store that holds
      `cs` into one that holds `cs'`. */
  lemma {:induction false} UpdatesKept(st: Store, lc: string, cs: seq<Chunk>, us: seq<Update>, cs': seq<Chunk>)
    requires Holds(st, lc, cs) && Leads(cs, us, cs', true) && NoForeignGaps(st, lc, us)
    ensures var o := ApplyUpdates(st, lc, us); o.Applied? && Holds(o.store, lc, cs')
    decreases |us|
  {
    hide Holds, ApplyUpdate, Apply, NoForeignGap, KeepsEventsDistinct;
    if us != [] {
      UpdateKept(st, lc, cs, us[0]);
      var st1 := ApplyUpdate(st, lc, us[0]).store;
      forall i | 0 <= i < |us[1..]| ensures NoForeignGap(st1, lc, us[1..][i]) {
        assert us[1..][i] == us[i + 1];
        ForeignRowsKept(st, lc, us[0], us[i + 1]);
      }
      UpdatesKept(st1, lc, Apply(cs, us[0]).value, us[1..], cs');
    }
  }

  /** The empty store holds no chunk, whichever the linked chunk. */
  lemma EmptyHolds(lc: string)
    ensures Holds(Empty, lc, [])
  {
  }

  /** Operations and their store: whatever is done to a linked chunk that is
      stored, also partially loaded, its updates bring the store up to date. */
  lemma StepStored(st: Store, lc: string, pre: seq<Chunk>, s: State, cap: nat, op: Op)
    requires 0 < cap && Linked(pre, s, cap) && KeepsDistinct(pre + s.chunks, op)
    requires Holds(st, lc, pre + s.chunks) && NoForeignGaps(st, lc, Step(cap, s, op).updates)
    ensures var step := Step(cap, s, op);
            var o := ApplyUpdates(st, lc, step.updates);
            o.Applied? && Holds(o.store, lc, pre + step.state.chunks)
  {
    hide Holds, Leads, ApplyUpdates, NoForeignGaps, Step, KeepsDistinct, Linked;
    StepTold(pre, s, cap, op, true);
    UpdatesKept(st, lc, pre + s.chunks, Step(cap, s, op).updates, pre + Step(cap, s, op).state.chunks);
  }

  // --- Updates that do not fit -----------------------------------------------------------

  lemma ChunkIsKnown(st: Store, lc: string, cs: seq<Chunk>, id: nat)
    requires Holds(st, lc, cs)
    ensures Find(st.chunks, lc, id) < |st.chunks| <==> IndexOf(cs, id) < |cs|
  {
    hide RowsOk, PlacesOk, ContentOk, IndexOf;
    assert Get(st.chunks, lc, id) == LinksOf(cs, id);
  }

  lemma NotKnown(st: Store, lc: string, cs: seq<Chunk>, id: nat)
    requires Holds(st, lc, cs) && IndexOf(cs, id) == |cs|
    ensures SetNext(st.chunks, lc, id, None).None? && Find(st.chunks, lc, id) == |st.chunks|
  {
    ChunkIsKnown(st, lc, cs, id);
  }

  /** Linking a chunk to a new one changes nothing else. */
  lemma PointsOn(st: Store, lc: string, cs: seq<Chunk>, id: nat, new_: nat)
    requires Holds(st, lc, cs) && IndexOf(cs, id) < |cs|
    ensures var r := SetNext(st.chunks, lc, id, Some(new_));
            && r.Some? && Get(r.value, lc, id) == Some(Links(LinksOf(cs, id).value.previous, Some(new_)))
            && forall o: nat | o != id :: Get(r.value, lc, o) == LinksOf(cs, o)
  {
    hide RowsOk, PlacesOk, ContentOk, IndexOf;
    ChunkIsKnown(st, lc, cs, id);
    var k := Find(st.chunks, lc, id);
    var links := Links(st.chunks[k].value.previous, Some(new_));
    assert Get(st.chunks, lc, id) == Some(st.chunks[k].value);
    forall o: nat ensures Get(st.chunks[k := st.chunks[k].(value := links)], lc, o)
                          == if o == id then Some(links) else LinksOf(cs, o)
    {
      GetSet(st.chunks, k, links, lc, o);
    }
  }

  /** What refusing a new chunk leaves behind: nothing, or a chunk that points to it. */
  ghost predicate IsLeft(st: Store, lc: string, cs: seq<Chunk>, previous: Option<nat>, new_: nat, left: Store) {
    if previous.None? then left == st
    else
      && left == st.(chunks := left.chunks)
      && forall id: nat :: Get(left.chunks, lc, id) == if id == previous.value && LinksOf(cs, id).Some?
                                                       then Some(Links(LinksOf(cs, id).value.previous, Some(new_)))
                                                       else LinksOf(cs, id)
  }

  /** A new chunk is refused exactly if a neighbour it names is not there; the previous one is
      looked for first, and already points to the new chunk when the next one is missing. */
  lemma NewChunkRefusedIff(st: Store, lc: string, cs: seq<Chunk>, previous: Option<nat>, new_: nat, next: Option<nat>)
    requires Holds(st, lc, cs)
    ensures var o := NewChunk(st, lc, previous, new_, next);
            var noPrevious := previous.Some? && IndexOf(cs, previous.value) == |cs|;
            var noNext := next.Some? && IndexOf(cs, next.value) == |cs|;
            && !o.Panicked? && (o.Failed? <==> noPrevious || noNext)
            && (noPrevious ==> o.error == Relational.Error.InvalidChunkIdentifier(previous.value) && o.store == st)
            && (!noPrevious && noNext ==> o.error == Relational.Error.InvalidChunkIdentifier(next.value)
                                          && IsLeft(st, lc, cs, previous, new_, o.store))
  {
    hide Holds, LinksOk, IndexOf, Find, Get, IsLeft;
    if previous.None? {
      if next.Some? { NoneBeforeRefusedIff(st, lc, cs, new_, next.value); }
    } else if IndexOf(cs, previous.value) == |cs| {
      NotKnown(st, lc, cs, previous.value);
    } else {
      PointsOn(st, lc, cs, previous.value, new_);
      if next.Some? { SomeBeforeRefusedIff(st, lc, cs, previous.value, new_, next.value); }
    }
  }

  lemma NoneBeforeRefusedIff(st: Store, lc: string, cs: seq<Chunk>, new_: nat, next: nat)
    requires Holds(st, lc, cs)
    ensures var o := NewChunk(st, lc, None, new_, Some(next));
            && !o.Panicked? && (o.Failed? <==> IndexOf(cs, next) == |cs|)
            && (o.Failed? ==> o.error == Relational.Error.InvalidChunkIdentifier(next)
                              && IsLeft(st, lc, cs, None, new_, o.store))
  {
    hide Holds, LinksOk, IndexOf;
    ChunkIsKnown(st, lc, cs, next);
  }

  lemma SomeBeforeRefusedIff(st: Store, lc: string, cs: seq<Chunk>, previous: nat, new_: nat, next: nat)
    requires Holds(st, lc, cs) && IndexOf(cs, previous) < |cs|
    ensures var o := NewChunk(st, lc, Some(previous), new_, Some(next));
            && !o.Panicked? && (o.Failed? <==> IndexOf(cs, next) == |cs|)
            && (o.Failed? ==> o.error == Relational.Error.InvalidChunkIdentifier(next)
                              && IsLeft(st, lc, cs, Some(previous), new_, o.store))
  {
    hide Holds, LinksOk, IndexOf, SetNext, Find;
    PointsOn(st, lc, cs, previous, new_);
    var rows := SetNext(st.chunks, lc, previous, Some(new_)).value;
    assert Get(rows, lc, next).Some? <==> IndexOf(cs, next) < |cs|;
  }

  /** An event is refused exactly if the linked chunk has it already, or has one there. */
  lemma PushRefusedIff(st: Store, lc: string, cs: seq<Chunk>, at: Position, e: Event)
    requires Holds(st, lc, cs)
    ensures var o := PushItem(st, lc, at, e);
            var has := exists p: Position :: At(cs, p).Some? && At(cs, p).value.id == e.id;
            && !o.Panicked? && (o.Failed? <==> has || At(cs, at).Some?)
            && (o.Failed? ==> o.error == if has then ItemAlreadyInLinkedChunk else PositionAlreadyOccupied)
            && (o.Failed? ==> o.store == st.(items := o.store.items) && o.store.items.Keys == st.items.Keys + {lc}
                              && forall name :: KnownItems(o.store.items, name) == KnownItems(st.items, name))
  {
    hide RowsOk, LinksOk, At, Refresh;
    var known := KnownItems(st.items, lc);
    if p: Position :| At(cs, p).Some? && At(cs, p).value.id == e.id {
      assert known[e.id].position == Some(p);
    }
  }

  /** Removing panics exactly if there is nothing to remove. */
  lemma RemovePanicsIff(st: Store, lc: string, cs: seq<Chunk>, at: Position, id: nat)
    requires Holds(st, lc, cs)
    ensures Remove(st, lc, at).Panicked? <==> CellOf(cs, at).None?
    ensures RemoveChunkRow(st.chunks, lc, id).None? <==> IndexOf(cs, id) == |cs|
  {
    assert Remove(st, lc, at).Panicked? <==> CellOf(cs, at).None? by { RemoveItemPanicsIff(st, lc, cs, at); }
    RemoveChunkPanicsIff(st, lc, cs, id);
  }

  lemma RemoveItemPanicsIff(st: Store, lc: string, cs: seq<Chunk>, at: Position)
    requires Holds(st, lc, cs)
    ensures Remove(st, lc, at).Panicked? <==> CellOf(cs, at).None?
  {
    hide LinksOk, PlacesOk, ContentOk, CellOf, ShiftRows, MaxIndex;
    assert Get(st.rows, lc, at) == CellOf(cs, at);
    var k := Find(st.rows, lc, at);
    if k < |st.rows| {
      var tail := st.rows[k + 1..];
      forall i | 0 <= i < |tail| && tail[i].lc == lc ensures tail[i].key != at { assert tail[i] == st.rows[k + 1 + i]; }
      FindNone(tail, lc, at);
      HasLargest(st.rows, lc, at.chunk, k);
    }
  }

  lemma {:induction false} HasLargest(rows: ItemRows, lc: string, chunk: nat, k: nat)
    requires k < |rows| && rows[k].lc == lc && rows[k].key.chunk == chunk
    ensures MaxIndex(rows, lc, chunk).Some?
  {
    if k < |rows| - 1 { HasLargest(rows[..|rows| - 1], lc, chunk, k); }
  }

  lemma RemoveChunkPanicsIff(st: Store, lc: string, cs: seq<Chunk>, id: nat)
    requires Holds(st, lc, cs)
    ensures RemoveChunkRow(st.chunks, lc, id).None? <==> IndexOf(cs, id) == |cs|
  {
    hide RowsOk, PlacesOk, ContentOk, IndexOf, Get, Find;
    ChunkIsKnown(st, lc, cs, id);
    var i := IndexOf(cs, id);
    if i < |cs| {
      Around(cs, id);
      RemoveChunkLinks(st.chunks, lc, cs[..i], cs[i], cs[i + 1..]);
    }
  }
}
