/** `RelationalLinkedChunk`: a store that keeps linked chunks as rows and learns
    about changes through updates only. */
module Relational {
  import opened LinkedChunkModel
  import opened Wrappers
  import opened Tables

  datatype Links = Links(previous: Option<nat>, next: Option<nat>)
  datatype Cell = ItemCell(id: string) | GapCell(token: string)
  datatype Stored = Stored(event: Event, position: Option<Position>)

  type ChunkRows = seq<Row<nat, Links>>
  type ItemRows = seq<Row<Position, Cell>>
  type ItemTable = map<string, map<string, Stored>>

  datatype Store = Store(chunks: ChunkRows, rows: ItemRows, positions: set<(string, Position)>, items: ItemTable)

  datatype Error = InvalidChunkIdentifier(id: nat) | ItemAlreadyInLinkedChunk | PositionAlreadyOccupied

  /** The store after an update. A failed update leaves behind what it has already
      written. */
  datatype Outcome = Applied(store: Store) | Failed(error: Error, store: Store) | Panicked

  const Empty: Store := Store([], [], {}, map[])

  function KnownItems(items: ItemTable, lc: string): map<string, Stored> {
    if lc in items then items[lc] else map[]
  }

  // --- Chunk rows --------------------------------------------------------------

  function SetNext(rows: ChunkRows, lc: string, id: nat, next: Option<nat>): Option<ChunkRows> {
    var k := Find(rows, lc, id);
    if k == |rows| then None else Some(rows[k := rows[k].(value := Links(rows[k].value.previous, next))])
  }

  function SetPrevious(rows: ChunkRows, lc: string, id: nat, previous: Option<nat>): Option<ChunkRows> {
    var k := Find(rows, lc, id);
    if k == |rows| then None else Some(rows[k := rows[k].(value := Links(previous, rows[k].value.next))])
  }

  datatype Inserted = Inserted(rows: ChunkRows, error: Option<Error>)

  /** `insert_chunk`. */
  function InsertChunk(rows: ChunkRows, lc: string, previous: Option<nat>, new_: nat, next: Option<nat>): Inserted {
    var r1 := if previous.None? then Some(rows) else SetNext(rows, lc, previous.value, Some(new_));
    if r1.None? then Inserted(rows, Some(InvalidChunkIdentifier(previous.value)))
    else
      var r2 := if next.None? then r1 else SetPrevious(r1.value, lc, next.value, Some(new_));
      if r2.None? then Inserted(r1.value, Some(InvalidChunkIdentifier(next.value)))
      else Inserted(r2.value + [Row(lc, new_, Links(previous, next))], None)
  }

  /** `remove_chunk`; `None` where it panics. */
  function RemoveChunkRow(rows: ChunkRows, lc: string, id: nat): Option<ChunkRows> {
    var k := Find(rows, lc, id);
    if k == |rows| then None
    else
      var links := rows[k].value;
      var r0 := RemoveRow(rows, k);
      var r1 := if links.previous.None? then Some(r0) else SetNext(r0, lc, links.previous.value, links.next);
      if r1.None? || links.next.None? then r1 else SetPrevious(r1.value, lc, links.next.value, links.previous)
  }

  // --- Item rows ---------------------------------------------------------------

  /** The first row at a position, whichever linked chunk it belongs to. */
  function FindAny(rows: ItemRows, at: Position): (r: nat)
    ensures r <= |rows|
    ensures r < |rows| ==> rows[r].key == at
    ensures forall i | 0 <= i < r :: rows[i].key != at
  {
    if rows == [] then 0 else if rows[0].key == at then 0 else 1 + FindAny(rows[1..], at)
  }

  /** An event is refreshed wherever the store knows it. */
  function Refresh(items: ItemTable, e: Event): ItemTable {
    map lc | lc in items :: RefreshOne(items[lc], e)
  }

  function RefreshOne(known: map<string, Stored>, e: Event): map<string, Stored> {
    if e.id in known then known[e.id := Stored(e, known[e.id].position)] else known
  }

  function PushItem(st: Store, lc: string, at: Position, e: Event): Outcome {
    var known := KnownItems(st.items, lc);
    var st0 := st.(items := st.items[lc := known]);
    if e.id in known && known[e.id].position.Some? then Failed(ItemAlreadyInLinkedChunk, st0)
    else if (lc, at) in st.positions then Failed(PositionAlreadyOccupied, st0)
    else Applied(Store(st.chunks, st.rows + [Row(lc, at, ItemCell(e.id))], st.positions + {(lc, at)},
                       Refresh(st.items[lc := known[e.id := Stored(e, Some(at))]], e)))
  }

  function PushAll(st: Store, lc: string, at: Position, items: seq<Event>): Outcome
    decreases |items|
  {
    if items == [] then Applied(st)
    else match PushItem(st, lc, at, items[0])
      case Applied(st') => PushAll(st', lc, Position(at.chunk, at.index + 1), items[1..])
      case failed => failed
  }

  /** How many items are pushed, up to the first that is refused. */
  function Pushed(st: Store, lc: string, at: Position, items: seq<Event>): nat
    decreases |items|
  {
    if items == [] then 0
    else match PushItem(st, lc, at, items[0])
      case Applied(st') => 1 + Pushed(st', lc, Position(at.chunk, at.index + 1), items[1..])
      case _ => 0
  }

  /** `Update::ReplaceItem`: the row is looked up by position alone. */
  function Replace(st: Store, lc: string, at: Position, e: Event): Outcome {
    var k := FindAny(st.rows, at);
    if k == |st.rows| || st.rows[k].value.GapCell? then Panicked
    else
      var known := KnownItems(st.items, lc);
      Applied(st.(rows := st.rows[k := st.rows[k].(value := ItemCell(e.id))],
                  items := Refresh(st.items[lc := known[e.id := Stored(e, Some(at))]], e)))
  }

  /** The largest index of a row of the chunk. */
  function MaxIndex(rows: ItemRows, lc: string, chunk: nat): Option<nat> {
    if rows == [] then None
    else
      var r, m := rows[|rows| - 1], MaxIndex(rows[..|rows| - 1], lc, chunk);
      if r.lc == lc && r.key.chunk == chunk && (m.None? || m.value < r.key.index) then Some(r.key.index) else m
  }

  predicate ShiftsAt(p: Position, at: Position) {
    p.chunk == at.chunk && p.index > at.index
  }

  function ShiftRow(r: Row<Position, Cell>, lc: string, at: Position): Row<Position, Cell> {
    if r.lc == lc && ShiftsAt(r.key, at) then r.(key := Position(at.chunk, r.key.index - 1)) else r
  }

  function ShiftRows(rows: ItemRows, lc: string, at: Position): ItemRows {
    seq(|rows|, i requires 0 <= i < |rows| => ShiftRow(rows[i], lc, at))
  }

  function ShiftStored(s: Stored, at: Position): Stored {
    match s.position
    case None => s
    case Some(p) =>
      if p == at then s.(position := None)
      else if ShiftsAt(p, at) then s.(position := Some(Position(at.chunk, p.index - 1)))
      else s
  }

  function Remove(st: Store, lc: string, at: Position): Outcome {
    var k := Find(st.rows, lc, at);
    if k == |st.rows| || Find(st.rows[k + 1..], lc, at) < |st.rows| - k - 1 then Panicked
    else
      var largest := MaxIndex(st.rows, lc, at.chunk);
      if largest.None? then Panicked
      else
        Applied(Store(st.chunks, RemoveRow(ShiftRows(st.rows, lc, at), k),
                      st.positions - {(lc, Position(at.chunk, largest.value))},
                      if lc in st.items
                      then st.items[lc := map id | id in st.items[lc] :: ShiftStored(st.items[lc][id], at)]
                      else st.items))
  }

  predicate IsDetached(p: Position, at: Position) {
    p.chunk == at.chunk && p.index >= at.index
  }

  function DetachStored(s: Stored, at: Position): Stored {
    if s.position.Some? && IsDetached(s.position.value, at) then s.(position := None) else s
  }

  function Detach(st: Store, lc: string, at: Position): Store {
    var gone := set r | r in st.rows && r.lc == lc && IsDetached(r.key, at) :: (lc, r.key);
    Store(st.chunks, Keep(st.rows, (r: Row<Position, Cell>) => !(r.lc == lc && IsDetached(r.key, at))),
          st.positions - gone,
          if lc in st.items
          then st.items[lc := map id | id in st.items[lc] :: DetachStored(st.items[lc][id], at)]
          else st.items)
  }

  function ClearStored(s: Stored): Stored {
    s.(position := None)
  }

  function ClearAll(st: Store, lc: string): Store {
    Store(Keep(st.chunks, (r: Row<nat, Links>) => r.lc != lc), Keep(st.rows, (r: Row<Position, Cell>) => r.lc != lc),
          set x | x in st.positions && x.0 != lc,
          if lc in st.items then st.items[lc := map id | id in st.items[lc] :: ClearStored(st.items[lc][id])]
              else st.items)
  }

  // --- Updates -----------------------------------------------------------------

  function NewChunk(st: Store, lc: string, previous: Option<nat>, new_: nat, next: Option<nat>): Outcome {
    var r := InsertChunk(st.chunks, lc, previous, new_, next);
    if r.error.Some? then Failed(r.error.value, st.(chunks := r.rows)) else Applied(st.(chunks := r.rows))
  }

  /** One round of the loop of `apply_updates`. */
  function ApplyUpdate(st: Store, lc: string, u: Update): Outcome {
    match u
    case NewItemsChunk(previous, new_, next) => NewChunk(st, lc, previous, new_, next)
    case NewGapChunk(previous, new_, next, gap) =>
      (match NewChunk(st, lc, previous, new_, next)
       case Applied(st') => Applied(st'.(rows := st'.rows + [Row(lc, Position(new_, 0), GapCell(gap))]))
       case failed => failed)
    case RemoveChunk(id) =>
      var rows := RemoveChunkRow(st.chunks, lc, id);
      if rows.None? then Panicked
      else Applied(st.(chunks := rows.value,
                       rows := Keep(st.rows, (r: Row<Position, Cell>) => !(r.lc == lc && r.key.chunk == id))))
    case PushItems(at, items) => PushAll(st, lc, at, items)
    case ReplaceItem(at, item) => Replace(st, lc, at, item)
    case RemoveItem(at) => Remove(st, lc, at)
    case DetachLastItems(at) => Applied(Detach(st, lc, at))
    case StartReattachItems => Applied(st)
    case EndReattachItems => Applied(st)
    case Clear => Applied(ClearAll(st, lc))
  }

  function ApplyUpdates(st: Store, lc: string, us: seq<Update>): Outcome
    decreases |us|
  {
    if us == [] then Applied(st)
    else match ApplyUpdate(st, lc, us[0])
      case Applied(st') => ApplyUpdates(st', lc, us[1..])
      case failed => failed
  }

  // --- What a store says about a linked chunk ------------------------------------

  function LinksOf(cs: seq<Chunk>, id: nat): Option<Links> {
    var i := IndexOf(cs, id);
    if i < |cs| then Some(Links(IdAt(cs, i - 1), IdAt(cs, i + 1))) else None
  }

  function CellOf(cs: seq<Chunk>, p: Position): Option<Cell> {
    if At(cs, p).Some? then Some(ItemCell(At(cs, p).value.id))
    else if p.index == 0 && GapAt(cs, p.chunk).Some? then Some(GapCell(GapAt(cs, p.chunk).value))
    else None
  }

  ghost predicate LinksOk(rows: ChunkRows, lc: string, cs: seq<Chunk>) {
    Unique(rows, lc) && forall id: nat :: Get(rows, lc, id) == LinksOf(cs, id)
  }

  ghost predicate RowsOk(rows: ItemRows, lc: string, cs: seq<Chunk>) {
    Unique(rows, lc) && forall p: Position :: Get(rows, lc, p) == CellOf(cs, p)
  }

  ghost predicate PlacesOk(positions: set<(string, Position)>, lc: string, cs: seq<Chunk>) {
    forall p: Position :: (lc, p) in positions <==> At(cs, p).Some?
  }

  /** Every event is stored with its position, and no other event has one. */
  ghost predicate ContentOk(known: map<string, Stored>, cs: seq<Chunk>) {
    && (forall p: Position | At(cs, p).Some? ::
          At(cs, p).value.id in known && known[At(cs, p).value.id] == Stored(At(cs, p).value, Some(p)))
    && (forall id | id in known && known[id].position.Some? ::
          At(cs, known[id].position.value).Some? && At(cs, known[id].position.value).value.id == id)
  }

  /** The store holds exactly the linked chunk `cs` under the name `lc`. */
  ghost predicate Holds(st: Store, lc: string, cs: seq<Chunk>) {
    && DistinctIds(cs)
    && LinksOk(st.chunks, lc, cs)
    && RowsOk(st.rows, lc, cs)
    && PlacesOk(st.positions, lc, cs)
    && ContentOk(KnownItems(st.items, lc), cs)
  }
}
