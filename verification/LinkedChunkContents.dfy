/** What the operations of a linked chunk mean to its users, who see one sequence of
    items and gaps: where it is cut into chunks must not matter. */
module LinkedChunkContents {
  import opened LinkedChunkModel
  import opened Wrappers
  import opened LinkedChunkOps

  datatype Entry = Item(event: Event) | Hole(token: string)

  function Entries(items: seq<Event>): (r: seq<Entry>)
    ensures |r| == |items| && forall i | 0 <= i < |items| :: r[i] == Item(items[i])
  {
    seq(|items|, i requires 0 <= i < |items| => Item(items[i]))
  }

  function ChunkEntries(c: Chunk): seq<Entry> {
    match c.content
    case Items(items) => Entries(items)
    case Gap(token) => [Hole(token)]
  }

  function Contents(cs: seq<Chunk>): seq<Entry> {
    if cs == [] then [] else ChunkEntries(cs[0]) + Contents(cs[1..])
  }

  /** Where chunk `k` starts. */
  function StartOf(cs: seq<Chunk>, k: nat): nat
    requires k <= |cs|
  {
    |Contents(cs[..k])|
  }

  /** The sequence after an operation; `None` if the operation does not apply. */
  function Meaning(cs: seq<Chunk>, op: Op): Option<seq<Entry>> {
    var all := Contents(cs);
    match op
    case PushItemsBack(items) => Some(all + Entries(items))
    case PushGapBack(gap) => Some(all + [Hole(gap)])
    case InsertItemsAt(p, items) =>
      EditAt(cs, p, |LengthAt(cs, p.chunk)| == 1 && p.index <= LengthAt(cs, p.chunk)[0], 0, Entries(items))
    case RemoveItemAt(p) => EditAt(cs, p, At(cs, p).Some?, 1, [])
    case ReplaceItemAt(p, item) => EditAt(cs, p, At(cs, p).Some?, 1, [Item(item)])
    case InsertGapAt(gap, p) =>
      EditAt(cs, p, |LengthAt(cs, p.chunk)| == 1 && (p.index == 0 || At(cs, p).Some?), 0, [Hole(gap)])
    case RemoveEmptyChunkAt(id) =>
      EditAt(cs, Position(id, 0), |cs| > 1 && (GapAt(cs, id).Some? || LengthAt(cs, id) == [0]),
             if GapAt(cs, id).Some? then 1 else 0, [])
    case ReplaceGapAt(items, id) => EditAt(cs, Position(id, 0), GapAt(cs, id).Some?, 1, Entries(items))
  }

  /** The length of an items chunk, if it is one. */
  function LengthAt(cs: seq<Chunk>, id: nat): seq<nat> {
    var k := IndexOf(cs, id);
    if k < |cs| && cs[k].content.Items? then [|cs[k].content.items|] else []
  }

  /** Replace the `n` entries at a position by others. */
  function EditAt(cs: seq<Chunk>, p: Position, applies: bool, n: nat, entries: seq<Entry>): Option<seq<Entry>> {
    var all, i := Contents(cs), StartOf(cs, IndexOf(cs, p.chunk)) + p.index;
    if applies && i + n <= |all| then Some(all[..i] + entries + all[i + n..]) else None
  }

  // --- Chunks and their contents ---------------------------------------------------------

  lemma {:induction false} ContentsConcat(a: seq<Chunk>, b: seq<Chunk>)
    ensures Contents(a + b) == Contents(a) + Contents(b)
  {
    if a == [] {
      assert a + b == b;
    } else {
      assert (a + b)[1..] == a[1..] + b;
      ContentsConcat(a[1..], b);
    }
  }

  lemma ContentsOne(c: Chunk)
    ensures Contents([c]) == ChunkEntries(c)
  {
    assert Contents([c][1..]) == [];
  }

  lemma ContentsAround(l: seq<Chunk>, mid: seq<Chunk>, r: seq<Chunk>)
    ensures Contents(l + mid + r) == Contents(l) + Contents(mid) + Contents(r)
  {
    ContentsConcat(l + mid, r);
    ContentsConcat(l, mid);
  }

  lemma EntriesConcat(a: seq<Event>, b: seq<Event>)
    ensures Entries(a + b) == Entries(a) + Entries(b)
  {
  }

  /** However a push spreads items over chunks, it adds exactly them. */
  lemma {:induction false} SpillContents(cap: nat, c: Chunk, next: Option<nat>, items: seq<Event>, gen: nat)
    requires 0 < cap
    ensures Contents(Spill(cap, c, next, items, gen).chunks) == ChunkEntries(c) + Entries(items)
    decreases |items|, if FreeSpace(c, cap) > 0 then 0 else 1
  {
    hide Entries;
    if items == [] {
      ContentsOne(c);
      assert Entries([]) == [];
    } else if c.content.Items? && |items| <= FreeSpace(c, cap) {
      ContentsOne(WithItems(c, c.content.items + items));
      EntriesConcat(c.content.items, items);
    } else {
      var free := FreeSpace(c, cap);
      var e := Chunk(gen + 1, Items([]));
      SpillContents(cap, e, next, items[free..], gen + 1);
      assert ChunkEntries(e) == [];
      ContentsConcat([Fill(c, items[..free])], Spill(cap, e, next, items[free..], gen + 1).chunks);
      ContentsOne(Fill(c, items[..free]));
      FillContents(c, items[..free]);
      EntriesConcat(items[..free], items[free..]);
      assert items == items[..free] + items[free..];
    }
  }

  lemma FillContents(c: Chunk, items: seq<Event>)
    requires items != [] ==> c.content.Items?
    ensures ChunkEntries(Fill(c, items)) == ChunkEntries(c) + Entries(items)
  {
    hide Entries;
    if items == [] {
      assert Entries([]) == [];
    } else {
      EntriesConcat(c.content.items, items);
    }
  }

  // --- Around the chunk that an operation is about ----------------------------------------

  /** Replacing chunk `k` replaces its entries. */
  lemma SpliceContents(cs: seq<Chunk>, k: nat, mid: seq<Chunk>)
    requires k < |cs|
    ensures var all := Contents(cs);
            var (i, n) := (StartOf(cs, k), |ChunkEntries(cs[k])|);
            && i + n <= |all| && all[i..i + n] == ChunkEntries(cs[k])
            && Contents(Splice(cs, k, mid)) == all[..i] + Contents(mid) + all[i + n..]
  {
    hide ChunkEntries, Contents;
    var l, r := cs[..k], cs[k + 1..];
    SpliceSame(cs, k);
    ContentsAround(l, [cs[k]], r);
    ContentsOne(cs[k]);
    ContentsAround(l, mid, r);
  }

  lemma PushContents(cap: nat, s: State, k: nat, items: seq<Event>)
    requires 0 < cap && k < |s.chunks|
    ensures var all := Contents(s.chunks);
            var i := StartOf(s.chunks, k) + |ChunkEntries(s.chunks[k])|;
            i <= |all| && Contents(Push(cap, s, k, items).state.chunks) == all[..i] + Entries(items) + all[i..]
  {
    hide ChunkEntries, Contents, Spill, Entries;
    var c := s.chunks[k];
    var r := Spill(cap, c, IdAt(s.chunks, k + 1), items, s.gen);
    SpliceContents(s.chunks, k, r.chunks);
    SpillContents(cap, c, IdAt(s.chunks, k + 1), items, s.gen);
    var all, i, n := Contents(s.chunks), StartOf(s.chunks, k), |ChunkEntries(c)|;
    assert all[..i + n] == all[..i] + all[i..i + n];
  }

  lemma EditInside(all: seq<Entry>, start: nat, len: nat, index: nat, n: nat, entries: seq<Entry>)
    requires start + len <= |all| && index + n <= len
    ensures var mine := all[start..start + len];
            all[..start] + (mine[..index] + entries + mine[index + n..]) + all[start + len..]
            == all[..start + index] + entries + all[start + index + n..]
  {
    var mine := all[start..start + len];
    assert all[..start + index] == all[..start] + mine[..index];
    assert all[start + index + n..] == mine[index + n..] + all[start + len..];
  }

  /** Editing the items of one chunk. */
  lemma EditedChunk(cs: seq<Chunk>, k: nat, mid: seq<Chunk>, index: nat, n: nat, entries: seq<Entry>)
    requires k < |cs| && index + n <= |ChunkEntries(cs[k])|
    requires Contents(mid) == ChunkEntries(cs[k])[..index] + entries + ChunkEntries(cs[k])[index + n..]
    ensures var all, i := Contents(cs), StartOf(cs, k) + index;
            i + n <= |all| && Contents(Splice(cs, k, mid)) == all[..i] + entries + all[i + n..]
  {
    hide ChunkEntries, Contents;
    SpliceContents(cs, k, mid);
    EditInside(Contents(cs), StartOf(cs, k), |ChunkEntries(cs[k])|, index, n, entries);
  }

  // --- Every operation ---------------------------------------------------------------------

  /** An operation fails exactly when its meaning is undefined; then nothing changes.
      Otherwise it does to the sequence of items and gaps what it is supposed to. */
  ghost predicate MeansIt(cs: seq<Chunk>, o: Outcome, op: Op) {
    && (o.reply.Failed? <==> Meaning(cs, op).None?)
    && (o.reply.Failed? ==> o.state.chunks == cs && o.updates == [])
    && (!o.reply.Failed? ==> Meaning(cs, op) == Some(Contents(o.state.chunks)))
  }

  lemma PushMeansIt(cap: nat, s: State, items: seq<Event>)
    requires 0 < cap && s.chunks != []
    ensures MeansIt(s.chunks, Push(cap, s, |s.chunks| - 1, items), PushItemsBack(items))
  {
    hide Contents, Spill, Entries;
    var k := |s.chunks| - 1;
    PushContents(cap, s, k, items);
    SpliceContents(s.chunks, k, [s.chunks[k]]);
    assert StartOf(s.chunks, k) + |ChunkEntries(s.chunks[k])| == |Contents(s.chunks)| by {
      ContentsConcat(s.chunks[..k], [s.chunks[k]]);
      ContentsOne(s.chunks[k]);
      assert s.chunks == s.chunks[..k] + [s.chunks[k]];
    }
    var all := Contents(s.chunks);
    assert all[..|all|] + Entries(items) + all[|all|..] == all + Entries(items);
  }

  lemma PushGapMeansIt(s: State, gap: string)
    requires s.chunks != []
    ensures MeansIt(s.chunks, PushGap(s, gap), PushGapBack(gap))
  {
    hide Contents;
    ContentsConcat(s.chunks, [Chunk(s.gen + 1, Gap(gap))]);
    ContentsOne(Chunk(s.gen + 1, Gap(gap)));
  }

  lemma LengthOf(cs: seq<Chunk>, k: nat)
    requires k < |cs|
    ensures StartOf(cs, k) + |ChunkEntries(cs[k])| <= |Contents(cs)|
  {
    hide Contents;
    SpliceContents(cs, k, []);
  }

  lemma InsertItemsMeansIt(cap: nat, s: State, p: Position, items: seq<Event>)
    requires 0 < cap
    ensures MeansIt(s.chunks, InsertItems(cap, s, p, items), InsertItemsAt(p, items))
  {
    hide Contents, Spill, Entries, IndexOf, StartOf, InsertInside, Push;
    var k := IndexOf(s.chunks, p.chunk);
    if ItemsError(s, p.chunk).None? && p.index <= |s.chunks[k].content.items| {
      LengthOf(s.chunks, k);
      if p.index == |s.chunks[k].content.items| {
        PushContents(cap, s, k, items);
        PushSucceeds(cap, s, k, items);
      } else {
        InsideContents(cap, s, k, p.index, items);
      }
    }
  }

  lemma PushSucceeds(cap: nat, s: State, k: nat, items: seq<Event>)
    requires 0 < cap && k < |s.chunks|
    ensures Push(cap, s, k, items).reply == Done
  {
  }

  lemma InsideContents(cap: nat, s: State, k: nat, index: nat, items: seq<Event>)
    requires 0 < cap && k < |s.chunks| && s.chunks[k].content.Items? && index < |s.chunks[k].content.items|
    ensures var all, i := Contents(s.chunks), StartOf(s.chunks, k) + index;
            && i <= |all| && InsertInside(cap, s, k, index, items).reply == Done
            && Contents(InsertInside(cap, s, k, index, items).state.chunks) == all[..i] + Entries(items) + all[i..]
  {
    hide Contents, Spill, Entries, StartOf;
    var c, next := s.chunks[k], IdAt(s.chunks, k + 1);
    var cut := WithItems(c, c.content.items[..index]);
    var r1 := Spill(cap, cut, next, items, s.gen);
    var r2 := Spill(cap, Last(r1.chunks), next, c.content.items[index..], r1.gen);
    var front := r1.chunks[..|r1.chunks| - 1];
    var head, tail := Entries(c.content.items[..index]), Entries(c.content.items[index..]);
    SpillContents(cap, cut, next, items, s.gen);
    SpillContents(cap, Last(r1.chunks), next, c.content.items[index..], r1.gen);
    assert Contents(front) + ChunkEntries(Last(r1.chunks)) == head + Entries(items) by {
      assert r1.chunks == front + [Last(r1.chunks)];
      ContentsConcat(front, [Last(r1.chunks)]);
      ContentsOne(Last(r1.chunks));
    }
    assert Contents(front + r2.chunks) == head + Entries(items) + tail by { ContentsConcat(front, r2.chunks); }
    CutEntries(c.content.items, index, 0);
    EditedChunk(s.chunks, k, front + r2.chunks, index, 0, Entries(items));
  }

  lemma CutEntries(items: seq<Event>, index: nat, n: nat)
    requires index + n <= |items|
    ensures Entries(items)[..index] == Entries(items[..index])
            && Entries(items)[index + n..] == Entries(items[index + n..])
  {
  }

  lemma RemainingEntries(c: Chunk, index: nat, mid: seq<Chunk>)
    requires c.content.Items? && index < |c.content.items|
    requires var left := c.content.items[..index] + c.content.items[index + 1..];
             mid == [WithItems(c, left)] || (mid == [] && left == [])
    ensures Contents(mid) == ChunkEntries(c)[..index] + [] + ChunkEntries(c)[index + 1..]
  {
    hide Contents, Entries;
    var cur := c.content.items;
    var left := cur[..index] + cur[index + 1..];
    CutEntries(cur, index, 1);
    EntriesConcat(cur[..index], cur[index + 1..]);
    if mid == [] { NoContents(); } else { ContentsOne(mid[0]); }
  }

  lemma RemoveItemMeansIt(s: State, p: Position)
    ensures MeansIt(s.chunks, RemoveItemOp(s, p), RemoveItemAt(p))
    ensures At(s.chunks, p).Some? ==> RemoveItemOp(s, p).reply == Removed(At(s.chunks, p).value)
  {
    hide Contents, Entries, IndexOf, StartOf, Splice;
    var k := IndexOf(s.chunks, p.chunk);
    if At(s.chunks, p).Some? {
      var cur := s.chunks[k].content.items;
      var left := cur[..p.index] + cur[p.index + 1..];
      var mid := if left == [] && k > 0 then [] else [WithItems(s.chunks[k], left)];
      RemainingEntries(s.chunks[k], p.index, mid);
      EditedChunk(s.chunks, k, mid, p.index, 1, []);
    }
  }

  lemma ReplaceItemMeansIt(s: State, p: Position, item: Event)
    ensures MeansIt(s.chunks, ReplaceItemOp(s, p, item), ReplaceItemAt(p, item))
  {
    hide Contents, Entries, IndexOf, StartOf;
    var k := IndexOf(s.chunks, p.chunk);
    if At(s.chunks, p).Some? {
      var cur := s.chunks[k].content.items;
      var c' := WithItems(s.chunks[k], cur[p.index := item]);
      ContentsOne(c');
      assert Entries(cur[p.index := item]) == Entries(cur)[..p.index] + [Item(item)] + Entries(cur)[p.index + 1..];
      EditedChunk(s.chunks, k, [c'], p.index, 1, [Item(item)]);
    }
  }

  lemma InsertGapMeansIt(cap: nat, s: State, gap: string, p: Position)
    requires 0 < cap
    ensures MeansIt(s.chunks, InsertGap(cap, s, gap, p), InsertGapAt(gap, p))
  {
    hide Contents, Spill, Entries, IndexOf, StartOf, InsertGapInside;
    var k := IndexOf(s.chunks, p.chunk);
    if ItemsError(s, p.chunk).None? {
      LengthOf(s.chunks, k);
      if p.index == 0 {
        var c, g := s.chunks[k], Chunk(s.gen + 1, Gap(gap));
        ContentsConcat([g], [c]);
        ContentsOne(g);
        ContentsOne(c);
        assert [g, c] == [g] + [c];
        var e := ChunkEntries(c);
        assert [Hole(gap)] + e == e[..0] + [Hole(gap)] + e[0..];
        EditedChunk(s.chunks, k, [g, c], 0, 0, [Hole(gap)]);
      } else if p.index < |s.chunks[k].content.items| {
        GapInsideContents(cap, s, k, p.index, gap);
      }
    }
  }

  lemma GapInsideContents(cap: nat, s: State, k: nat, index: nat, gap: string)
    requires 0 < cap && k < |s.chunks| && s.chunks[k].content.Items? && 0 < index < |s.chunks[k].content.items|
    ensures var all, i := Contents(s.chunks), StartOf(s.chunks, k) + index;
            && i <= |all| && InsertGapInside(cap, s, k, index, gap).reply == Done
            && Contents(InsertGapInside(cap, s, k, index, gap).state.chunks) == all[..i] + [Hole(gap)] + all[i..]
  {
    hide Contents, Spill, Entries, StartOf;
    var c, next := s.chunks[k], IdAt(s.chunks, k + 1);
    var cut, g, e := WithItems(c, c.content.items[..index]), Chunk(s.gen + 1, Gap(gap)), Chunk(s.gen + 2, Items([]));
    var r := Spill(cap, e, next, c.content.items[index..], s.gen + 2);
    SpillContents(cap, e, next, c.content.items[index..], s.gen + 2);
    assert ChunkEntries(e) == [];
    assert [cut, g] == [cut] + [g];
    ContentsConcat([cut], [g]);
    ContentsOne(cut);
    ContentsOne(g);
    ContentsConcat([cut, g], r.chunks);
    CutEntries(c.content.items, index, 0);
    EditedChunk(s.chunks, k, [cut, g] + r.chunks, index, 0, [Hole(gap)]);
  }

  lemma RemoveEmptyMeansIt(s: State, id: nat)
    requires s.chunks != []
    ensures MeansIt(s.chunks, RemoveEmptyChunk(s, id), RemoveEmptyChunkAt(id))
  {
    hide Contents, IndexOf, StartOf, Splice, ChunkEntries;
    var k := IndexOf(s.chunks, id);
    if k < |s.chunks| && ItemsOf(s.chunks[k]) == [] { EmptyContents(s.chunks, k); }
  }

  lemma EmptyContents(cs: seq<Chunk>, k: nat)
    requires k < |cs| && ItemsOf(cs[k]) == []
    ensures var all, i, n := Contents(cs), StartOf(cs, k), if cs[k].content.Gap? then 1 else 0;
            i + n <= |all| && Contents(Splice(cs, k, [])) == all[..i] + [] + all[i + n..]
  {
    hide Contents, StartOf, Splice;
    var e := ChunkEntries(cs[k]);
    assert Contents([]) == [] by { NoContents(); }
    assert e[..0] + [] + e[|e|..] == [];
    EditedChunk(cs, k, [], 0, |e|, []);
  }

  lemma NoContents()
    ensures Contents([]) == []
  {
  }

  lemma ReplaceGapMeansIt(cap: nat, s: State, items: seq<Event>, id: nat)
    requires 0 < cap
    ensures MeansIt(s.chunks, ReplaceGap(cap, s, items, id), ReplaceGapAt(items, id))
  {
    hide Contents, Spill, Entries, IndexOf, StartOf;
    var k := IndexOf(s.chunks, id);
    if k < |s.chunks| && s.chunks[k].content.Gap? {
      var e := Chunk(s.gen + 1, Items([]));
      var r := Spill(cap, e, IdAt(s.chunks, k + 1), items, s.gen + 1);
      SpillContents(cap, e, IdAt(s.chunks, k + 1), items, s.gen + 1);
      assert ChunkEntries(e) == [];
      EditedChunk(s.chunks, k, r.chunks, 0, 1, Entries(items));
    }
  }

  lemma InitMeansNothing(s: State)
    ensures Contents(Initialized(s).chunks) == Contents(s.chunks)
  {
    if s.chunks == [] { ContentsOne(Chunk(0, Items([]))); }
  }

  /** Whatever the operation, on whatever chunks. */
  lemma StepMeansIt(cap: nat, s: State, op: Op)
    requires 0 < cap
    ensures MeansIt(Initialized(s).chunks, StepInitialized(cap, Initialized(s), op), op)
    ensures Contents(Initialized(s).chunks) == Contents(s.chunks)
  {
    hide MeansIt, Contents, Push, PushGap, InsertItems, RemoveItemOp, ReplaceItemOp, InsertGap, RemoveEmptyChunk;
    hide ReplaceGap;
    InitMeansNothing(s);
    var s1 := Initialized(s);
    match op
    case PushItemsBack(items) => PushMeansIt(cap, s1, items);
    case PushGapBack(gap) => PushGapMeansIt(s1, gap);
    case InsertItemsAt(p, items) => InsertItemsMeansIt(cap, s1, p, items);
    case RemoveItemAt(p) => RemoveItemMeansIt(s1, p);
    case ReplaceItemAt(p, item) => ReplaceItemMeansIt(s1, p, item);
    case InsertGapAt(gap, p) => InsertGapMeansIt(cap, s1, gap, p);
    case RemoveEmptyChunkAt(id) => RemoveEmptyMeansIt(s1, id);
    case ReplaceGapAt(items, id) => ReplaceGapMeansIt(cap, s1, items, id);
  }
}
