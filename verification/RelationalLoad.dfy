/** Reading chunks back from the store. */
module RelationalLoad {
  import opened LinkedChunkModel
  import opened Wrappers
  import opened Tables
  import opened Relational

  datatype RawChunk = RawChunk(content: Content, previous: Option<nat>, id: nat, next: Option<nat>)

  datatype Loaded<T> = Ok(value: T) | Malformed

  datatype Entry = Entry(id: string, index: nat)

  function Entries(rows: ItemRows): seq<Entry>
    requires forall r | r in rows :: r.value.ItemCell?
  {
    seq(|rows|, i requires 0 <= i < |rows| => Entry(rows[i].value.id, rows[i].key.index))
  }

  /** `sort_unstable_by_key` on the index. */
  function Sorted(es: seq<Entry>): seq<Entry> {
    if es == [] then [] else Insert(es[0], Sorted(es[1..]))
  }

  function Insert(e: Entry, es: seq<Entry>): seq<Entry> {
    if es == [] || e.index <= es[0].index then [e] + es else [es[0]] + Insert(e, es[1..])
  }

  /** The events behind the entries; an unknown identifier is skipped. */
  function Events(es: seq<Entry>, known: map<string, Stored>): seq<Event> {
    if es == [] then []
    else (if es[0].id in known then [known[es[0].id].event] else []) + Events(es[1..], known)
  }

  function RowsOfChunk(st: Store, lc: string, chunk: nat): ItemRows {
    Keep(st.rows, (r: Row<Position, Cell>) => r.lc == lc && r.key.chunk == chunk)
  }

  /** `load_raw_chunk`. */
  function LoadContent(st: Store, lc: string, chunk: nat): Loaded<Content> {
    var rows := RowsOfChunk(st, lc, chunk);
    if rows == [] then Ok(Items([]))
    else if rows[0].value.GapCell? then
      if |rows| > 1 then Malformed else Ok(Gap(rows[0].value.token))
    else if exists r | r in rows :: r.value.GapCell? then Malformed
    else Ok(Items(Events(Sorted(Entries(rows)), KnownItems(st.items, lc))))
  }

  /** A chunk is malformed exactly if it has a gap and something else. */
  lemma MalformedIff(st: Store, lc: string, chunk: nat)
    ensures var rows := RowsOfChunk(st, lc, chunk);
            LoadContent(st, lc, chunk).Malformed? <==> |rows| > 1 && exists r :: r in rows && r.value.GapCell?
  {
    hide RowsOfChunk, Sorted, Events;
    var rows := RowsOfChunk(st, lc, chunk);
    if rows != [] { assert rows[0] in rows; }
    if |rows| == 1 { assert forall r | r in rows :: r == rows[0]; }
  }

  function LoadRaw(st: Store, row: Row<nat, Links>): Loaded<RawChunk> {
    match LoadContent(st, row.lc, row.key)
    case Malformed => Malformed
    case Ok(content) => Ok(RawChunk(content, row.value.previous, row.key, row.value.next))
  }

  // --- Sorting -----------------------------------------------------------------------

  predicate Increasing(es: seq<Entry>) {
    forall i, j | 0 <= i < j < |es| :: es[i].index < es[j].index
  }

  predicate DistinctIndices(es: seq<Entry>) {
    forall i, j | 0 <= i < j < |es| :: es[i].index != es[j].index
  }

  lemma {:induction false} InsertKeeps(e: Entry, es: seq<Entry>)
    requires Increasing(es) && forall x | x in es :: x.index != e.index
    ensures Increasing(Insert(e, es))
    ensures forall x :: x in Insert(e, es) <==> x == e || x in es
  {
    if es != [] {
      assert es == [es[0]] + es[1..];
      if e.index <= es[0].index {
        assert es[0] in es;
      } else {
        assert forall i | 0 <= i < |es[1..]| :: es[1..][i] == es[i + 1];
        InsertKeeps(e, es[1..]);
        var rest := Insert(e, es[1..]);
        forall j | 0 <= j < |rest| ensures es[0].index < rest[j].index {
          assert rest[j] in rest;
        }
      }
    }
  }

  lemma {:induction false} SortedKeeps(es: seq<Entry>)
    requires DistinctIndices(es)
    ensures Increasing(Sorted(es))
    ensures forall x :: x in Sorted(es) <==> x in es
  {
    if es != [] {
      assert es == [es[0]] + es[1..];
      assert forall i | 0 <= i < |es[1..]| :: es[1..][i] == es[i + 1];
      SortedKeeps(es[1..]);
      InsertKeeps(es[0], Sorted(es[1..]));
    }
  }

  /** Increasing entries that are exactly those of `evs` from `lo` on give `evs` back. */
  lemma {:induction false} EventsInOrder(es: seq<Entry>, evs: seq<Event>, lo: nat, known: map<string, Stored>)
    requires lo <= |evs| && Increasing(es)
    requires forall x | x in es :: lo <= x.index < |evs| && x.id == evs[x.index].id
    requires forall j | lo <= j < |evs| :: Entry(evs[j].id, j) in es
    requires forall j | 0 <= j < |evs| :: evs[j].id in known && known[evs[j].id].event == evs[j]
    ensures Events(es, known) == evs[lo..]
    decreases |evs| - lo
  {
    if lo < |evs| {
      assert Entry(evs[lo].id, lo) in es && es[0] in es;
      var rest := es[1..];
      assert forall i | 0 <= i < |rest| :: rest[i] == es[i + 1];
      assert es == [es[0]] + rest && es[0] == Entry(evs[lo].id, lo);
      assert Increasing(rest) && forall x | x in rest :: lo + 1 <= x.index by { RestIsLater(es); }
      hide Increasing;
      EventsInOrder(rest, evs, lo + 1, known);
      DropFirst(evs, lo);
    }
  }

  lemma DropFirst(evs: seq<Event>, lo: nat)
    requires lo < |evs|
    ensures evs[lo..] == [evs[lo]] + evs[lo + 1..]
  {
  }

  lemma RestIsLater(es: seq<Entry>)
    requires Increasing(es) && es != []
    ensures Increasing(es[1..]) && forall x | x in es[1..] :: es[0].index < x.index
  {
    var rest := es[1..];
    assert forall i | 0 <= i < |rest| :: rest[i] == es[i + 1];
  }

  // --- Reading a chunk back ------------------------------------------------------------

  lemma RowsOfChunkAre(st: Store, lc: string, cs: seq<Chunk>, chunk: nat, p: Position, cell: Cell)
    requires Holds(st, lc, cs)
    ensures Row(lc, p, cell) in RowsOfChunk(st, lc, chunk) <==> p.chunk == chunk && CellOf(cs, p) == Some(cell)
  {
    hide LinksOk, PlacesOk, ContentOk, Keep;
    KeepIn(st.rows, (r: Row<Position, Cell>) => r.lc == lc && r.key.chunk == chunk);
    GetIn(st.rows, lc, p, cell);
  }

  lemma ChunkRowIs(st: Store, lc: string, cs: seq<Chunk>, chunk: nat, r: Row<Position, Cell>)
    requires Holds(st, lc, cs) && r in RowsOfChunk(st, lc, chunk)
    ensures r.lc == lc && r.key.chunk == chunk && CellOf(cs, r.key) == Some(r.value)
  {
    KeepIn(st.rows, (x: Row<Position, Cell>) => x.lc == lc && x.key.chunk == chunk);
    assert r == Row(lc, r.key, r.value);
    RowsOfChunkAre(st, lc, cs, chunk, r.key, r.value);
  }

  lemma PositionsInChunk(cs: seq<Chunk>, i: nat, j: nat)
    requires DistinctIds(cs) && i < |cs|
    ensures At(cs, Position(cs[i].id, j)) == if j < |ItemsOf(cs[i])| then Some(ItemsOf(cs[i])[j]) else None
    ensures GapAt(cs, cs[i].id) == if cs[i].content.Gap? then Some(cs[i].content.token) else None
  {
    IndexOfAt(cs, i);
  }

  lemma LoadGap(st: Store, lc: string, cs: seq<Chunk>, i: nat)
    requires Holds(st, lc, cs) && i < |cs| && cs[i].content.Gap?
    ensures LoadContent(st, lc, cs[i].id) == Ok(cs[i].content)
  {
    hide LinksOk, PlacesOk, ContentOk, IndexOf, RowsOk, Keep;
    var id, rows := cs[i].id, RowsOfChunk(st, lc, cs[i].id);
    var row := Row(lc, Position(id, 0), GapCell(cs[i].content.token));
    PositionsInChunk(cs, i, 0);
    RowsOfChunkAre(st, lc, cs, id, row.key, row.value);
    forall r | r in rows ensures r == row {
      ChunkRowIs(st, lc, cs, id, r);
      PositionsInChunk(cs, i, r.key.index);
    }
    ChunkRowsUnique(st, lc, cs, id);
    assert rows[0] in rows && rows[|rows| - 1] in rows;
    FindIs(rows, lc, 0);
    FindIs(rows, lc, |rows| - 1);
  }

  lemma ChunkRowsUnique(st: Store, lc: string, cs: seq<Chunk>, chunk: nat)
    requires Holds(st, lc, cs)
    ensures Unique(RowsOfChunk(st, lc, chunk), lc)
  {
    UniqueKeep(st.rows, (r: Row<Position, Cell>) => r.lc == lc && r.key.chunk == chunk, lc);
  }

  lemma LoadItems(st: Store, lc: string, cs: seq<Chunk>, i: nat)
    requires Holds(st, lc, cs) && i < |cs| && cs[i].content.Items?
    ensures LoadContent(st, lc, cs[i].id) == Ok(cs[i].content)
  {
    hide LinksOk, PlacesOk, IndexOf, RowsOk, RowsOfChunk;
    var id, evs := cs[i].id, cs[i].content.items;
    var rows := RowsOfChunk(st, lc, id);
    forall r | r in rows
      ensures r.lc == lc && r.key.chunk == id && r.key.index < |evs| && r.value == ItemCell(evs[r.key.index].id)
    {
      ChunkRowIs(st, lc, cs, id, r);
      PositionsInChunk(cs, i, r.key.index);
    }
    forall j | 0 <= j < |evs| ensures Row(lc, Position(id, j), ItemCell(evs[j].id)) in rows {
      PositionsInChunk(cs, i, j);
      RowsOfChunkAre(st, lc, cs, id, Position(id, j), ItemCell(evs[j].id));
    }
    var known := KnownItems(st.items, lc);
    forall j | 0 <= j < |evs| ensures evs[j].id in known && known[evs[j].id].event == evs[j] {
      PositionsInChunk(cs, i, j);
      assert At(cs, Position(id, j)) == Some(evs[j]);
    }
    ChunkRowsUnique(st, lc, cs, id);
    EntriesSorted(rows, lc, id, evs, known);
    assert rows == [] || rows[0] in rows;
  }

  lemma EntriesSorted(rows: ItemRows, lc: string, id: nat, evs: seq<Event>, known: map<string, Stored>)
    requires Unique(rows, lc)
    requires forall r | r in rows ::
             r.lc == lc && r.key.chunk == id && r.key.index < |evs| && r.value == ItemCell(evs[r.key.index].id)
    requires forall j | 0 <= j < |evs| :: Row(lc, Position(id, j), ItemCell(evs[j].id)) in rows
    requires forall j | 0 <= j < |evs| :: evs[j].id in known && known[evs[j].id].event == evs[j]
    ensures Events(Sorted(Entries(rows)), known) == evs
  {
    hide Sorted, Events;
    var es := Entries(rows);
    forall i, j | 0 <= i < j < |es| ensures es[i].index != es[j].index {
      assert rows[i] in rows && rows[j] in rows;
      assert rows[i].key != rows[j].key;
    }
    SortedKeeps(es);
    forall x | x in Sorted(es) ensures 0 <= x.index < |evs| && x.id == evs[x.index].id {
      var i :| 0 <= i < |es| && es[i] == x;
      assert rows[i] in rows;
    }
    forall j | 0 <= j < |evs| ensures Entry(evs[j].id, j) in Sorted(es) {
      var i :| 0 <= i < |rows| && rows[i] == Row(lc, Position(id, j), ItemCell(evs[j].id));
      assert es[i] == Entry(evs[j].id, j);
    }
    EventsInOrder(Sorted(es), evs, 0, known);
  }

  /** What the store loads for a chunk it holds is that chunk. */
  lemma {:induction false} LoadRawIs(st: Store, lc: string, cs: seq<Chunk>, row: Row<nat, Links>)
    requires Holds(st, lc, cs) && row in st.chunks && row.lc == lc
    ensures var i := IndexOf(cs, row.key);
            && i < |cs| && row.value == Links(IdAt(cs, i - 1), IdAt(cs, i + 1))
            && LoadRaw(st, row) == Ok(RawChunk(cs[i].content, IdAt(cs, i - 1), cs[i].id, IdAt(cs, i + 1)))
  {
    hide RowsOk, PlacesOk, ContentOk, LoadContent;
    assert row == Row(lc, row.key, row.value);
    GetIn(st.chunks, lc, row.key, row.value);
    assert LinksOf(cs, row.key) == Some(row.value);
    var i := IndexOf(cs, row.key);
    assert LoadContent(st, lc, cs[i].id) == Ok(cs[i].content) by {
      if cs[i].content.Gap? { LoadGap(st, lc, cs, i); } else { LoadItems(st, lc, cs, i); }
    }
  }

  /** And every chunk it holds has a row. */
  lemma RowExists(st: Store, lc: string, cs: seq<Chunk>, i: nat)
    requires Holds(st, lc, cs) && i < |cs|
    ensures Row(lc, cs[i].id, Links(IdAt(cs, i - 1), IdAt(cs, i + 1))) in st.chunks
  {
    hide RowsOk, PlacesOk, ContentOk;
    IndexOfAt(cs, i);
    assert Get(st.chunks, lc, cs[i].id) == LinksOf(cs, cs[i].id);
    GetIn(st.chunks, lc, cs[i].id, Links(IdAt(cs, i - 1), IdAt(cs, i + 1)));
  }

  // --- load_last_chunk and load_previous_chunk ---------------------------------------

  /** Chunk `i` with its links, as a store hands it out. */
  function RawAt(cs: seq<Chunk>, i: nat): RawChunk
    requires i < |cs|
  {
    RawChunk(cs[i].content, IdAt(cs, i - 1), cs[i].id, IdAt(cs, i + 1))
  }

  /** `id` is the largest identifier in use; 0 when there is none. */
  ghost predicate IsLargest(id: nat, cs: seq<Chunk>) {
    IdsUpTo(cs, id) && if cs == [] then id == 0 else exists i :: 0 <= i < |cs| && cs[i].id == id
  }

  /** The last chunk if any, and where the generator of identifiers has to start. */
  ghost predicate IsLast(r: Loaded<(Option<RawChunk>, nat)>, cs: seq<Chunk>) {
    && r.Ok?
    && r.value.0 == (if cs == [] then None else Some(RawAt(cs, |cs| - 1)))
    && IsLargest(r.value.1, cs)
  }

  method LargestIdentifier(st: Store, lc: string) returns (largest: nat)
    ensures forall cs: seq<Chunk> | Holds(st, lc, cs) :: IsLargest(largest, cs)
  {
    largest := 0;
    ghost var k := -1;
    for i := 0 to |st.chunks|
      invariant forall j | 0 <= j < i && st.chunks[j].lc == lc :: k >= 0 && st.chunks[j].key <= largest
      invariant -1 <= k < i
      invariant if k < 0 then largest == 0 else st.chunks[k].lc == lc && st.chunks[k].key == largest
    {
      if st.chunks[i].lc == lc && (largest == 0 || st.chunks[i].key > largest) {
        largest, k := st.chunks[i].key, i;
      }
    }
    forall cs: seq<Chunk> | Holds(st, lc, cs) ensures IsLargest(largest, cs) {
      LargestIs(st, lc, cs, largest, k);
    }
  }

  lemma LargestIs(st: Store, lc: string, cs: seq<Chunk>, largest: nat, k: int)
    requires Holds(st, lc, cs) && -1 <= k < |st.chunks|
    requires forall j | 0 <= j < |st.chunks| && st.chunks[j].lc == lc :: k >= 0 && st.chunks[j].key <= largest
    requires if k < 0 then largest == 0 else st.chunks[k].lc == lc && st.chunks[k].key == largest
    ensures IsLargest(largest, cs)
  {
    hide Holds;
    forall i | 0 <= i < |cs| ensures cs[i].id <= largest {
      RowExists(st, lc, cs, i);
    }
    if cs != [] { RowExists(st, lc, cs, 0); }
    if k >= 0 {
      LoadRawIs(st, lc, cs, st.chunks[k]);
      assert cs[IndexOf(cs, largest)].id == largest;
    }
  }

  /** There are chunks, but each has a next one. */
  predicate HasNoLast(st: Store, lc: string) {
    && (exists row :: row in st.chunks && row.lc == lc)
    && (forall row | row in st.chunks && row.lc == lc :: row.value.next.Some?)
  }

  /** `load_last_chunk`. */
  method LoadLastChunk(st: Store, lc: string) returns (r: Loaded<(Option<RawChunk>, nat)>)
    ensures forall cs: seq<Chunk> | Holds(st, lc, cs) :: IsLast(r, cs)
    ensures (forall row | row in st.chunks :: row.lc != lc) <==> r.Ok? && r.value.0.None?
    ensures HasNoLast(st, lc) ==> r.Malformed?
  {
    hide Holds, LoadRaw, IsLargest;
    var largest := LargestIdentifier(st, lc);
    var number, k := 0, 0;
    while k < |st.chunks| && !(st.chunks[k].lc == lc && st.chunks[k].value.next.None?)
      invariant k <= |st.chunks|
      invariant forall j | 0 <= j < k && st.chunks[j].lc == lc :: st.chunks[j].value.next.Some? && number > 0
      invariant number > 0 ==> exists j :: 0 <= j < k && st.chunks[j].lc == lc
    {
      if st.chunks[k].lc == lc { number := number + 1; }
      k := k + 1;
    }
    if k == |st.chunks| {
      r := if number == 0 then Ok((None, largest)) else Malformed;
    } else {
      var raw := LoadRaw(st, st.chunks[k]);
      r := if raw.Ok? then Ok((Some(raw.value), largest)) else Malformed;
    }
    forall cs: seq<Chunk> | Holds(st, lc, cs) ensures IsLast(r, cs) {
      if cs != [] {
        RowExists(st, lc, cs, |cs| - 1);
        assert k < |st.chunks|;
        LoadRawIs(st, lc, cs, st.chunks[k]);
      } else {
        NoRows(st, lc);
      }
    }
  }

  lemma NoRows(st: Store, lc: string)
    requires Holds(st, lc, [])
    ensures forall j | 0 <= j < |st.chunks| :: st.chunks[j].lc != lc
  {
    forall j | 0 <= j < |st.chunks| ensures st.chunks[j].lc != lc {
      if st.chunks[j].lc == lc { LoadRawIs(st, lc, [], st.chunks[j]); }
    }
  }

  /** `load_previous_chunk`: the chunk whose next one is `before`. */
  method LoadPreviousChunk(st: Store, lc: string, before: nat) returns (r: Loaded<Option<RawChunk>>)
    ensures forall cs: seq<Chunk>, i: nat | Holds(st, lc, cs) && i < |cs| && cs[i].id == before ::
              r == Ok(if i == 0 then None else Some(RawAt(cs, i - 1)))
  {
    hide Holds, LoadRaw;
    var k := 0;
    while k < |st.chunks| && !(st.chunks[k].lc == lc && st.chunks[k].value.next == Some(before))
      invariant k <= |st.chunks|
      invariant forall j | 0 <= j < k && st.chunks[j].lc == lc :: st.chunks[j].value.next != Some(before)
    {
      k := k + 1;
    }
    if k == |st.chunks| {
      r := Ok(None);
    } else {
      var raw := LoadRaw(st, st.chunks[k]);
      r := if raw.Ok? then Ok(Some(raw.value)) else Malformed;
    }
    forall cs: seq<Chunk>, i: nat | Holds(st, lc, cs) && i < |cs| && cs[i].id == before
      ensures r == Ok(if i == 0 then None else Some(RawAt(cs, i - 1)))
    {
      assert DistinctIds(cs) by { HoldsDistinct(st, lc, cs); }
      if i > 0 {
        RowExists(st, lc, cs, i - 1);
        assert k < |st.chunks|;
      }
      if k < |st.chunks| {
        LoadRawIs(st, lc, cs, st.chunks[k]);
        IndexOfAt(cs, i);
        var n := IndexOf(cs, st.chunks[k].key);
        assert IdAt(cs, n + 1) == Some(before);
        IndexOfAt(cs, n + 1);
      }
    }
  }

  lemma HoldsDistinct(st: Store, lc: string, cs: seq<Chunk>)
    requires Holds(st, lc, cs)
    ensures DistinctIds(cs)
  {
  }
}
