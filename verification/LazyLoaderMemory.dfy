/** Loading chunks into nodes in memory: the pointers are written as they are for operations,
    and give what is specified on lists of chunks. */
module LazyLoaderMemory {
  import opened LinkedChunkModel
  import opened Wrappers
  import opened LinkedChunkOps
  import opened LinkedChunkPointers
  import opened LinkedChunkMemory
  import opened RelationalLoad
  import opened LazyLoader

  // --- The first node ------------------------------------------------------------------------

  lemma LazySet(h: Heap, order: seq<Addr>, lazyPrevious: Option<nat>)
    requires LinksOk(h, order) && order != []
    ensures order[0] in h
    ensures var h' := h[order[0] := h[order[0]].(lazyPrevious := lazyPrevious)];
            && LinksOk(h', order) && LazyOf(h', order) == lazyPrevious && ChunksOf(h', order) == ChunksOf(h, order)
  {
    assert NodeOk(h, order, 0);
    var h' := h[order[0] := h[order[0]].(lazyPrevious := lazyPrevious)];
    forall i | 0 <= i < |order| ensures NodeOk(h', order, i) { assert NodeOk(h, order, i); }
  }

  /** A new node before the first one, with its own lazy link. */
  function Prepended(h: Heap, a: Addr, b: Addr, c: RawChunk): Heap
    requires a in h && h[a].previous.None? && b !in h
  {
    var h' := InsertedBefore(h, a, b, c.id, c.content);
    assert b in h';
    h'[b := h'[b].(lazyPrevious := c.previous)]
  }

  lemma PrependedIs(h: Heap, order: seq<Addr>, b: Addr, c: RawChunk)
    requires LinksOk(h, order) && order != [] && b !in h
    ensures order[0] in h && h[order[0]].previous.None?
    ensures var (h', order') := (Prepended(h, order[0], b, c), Inserted(order, 0, b));
            && LinksOk(h', order') && LazyOf(h', order') == c.previous
            && ChunksOf(h', order') == [Chunk(c.id, c.content)] + ChunksOf(h, order)
            && (forall x :: x in h' <==> x in h || x == b)
  {
    hide LinksOk, NodeOk, ChunksOf, LazyOf, InsertedBefore;
    NodeWithNext(h, order, 0);
    BeforeInserted(h, order, 0, b, c.id, c.content);
    BeforeKeys(h, order[0], b, c.id, c.content);
    LazySet(InsertedBefore(h, order[0], b, c.id, c.content), Inserted(order, 0, b), c.previous);
    var cs := ChunksOf(h, order);
    assert cs[..0] + [Chunk(c.id, c.content)] + cs[0..] == [Chunk(c.id, c.content)] + cs;
  }

  /** The writes of `insert_new_first_chunk`, one by one. */
  method LinkFirst(lc: LinkedChunk, c: RawChunk)
    requires lc.Links() && lc.EndsOk() && lc.order != []
    modifies lc
    ensures lc.Links() && lc.EndsOk() && lc.gen == old(lc.gen) && lc.updates == old(lc.updates)
    ensures lc.Chunks() == [Chunk(c.id, c.content)] + old(lc.Chunks()) && LazyOf(lc.heap, lc.order) == c.previous
  {
    hide LinksOk, NodeOk, ChunksOf, LazyOf;
    var a, b := lc.first.value, lc.top;
    PrependedIs(lc.heap, lc.order, b, c);
    ghost var h' := Prepended(lc.heap, a, b, c);
    lc.top := b + 1;
    lc.heap := lc.heap[b := Node(None, None, None, c.id, c.content)];
    lc.heap := lc.heap[a := lc.heap[a].(lazyPrevious := None)];
    lc.heap := lc.heap[b := lc.heap[b].(lazyPrevious := c.previous)];
    lc.heap := lc.heap[a := lc.heap[a].(previous := Some(b))];
    lc.first := Some(b);
    lc.heap := lc.heap[b := lc.heap[b].(next := Some(a))];
    assert lc.heap == h';
    if lc.last.None? {
      lc.last := Some(a);
    }
    lc.order := Inserted(lc.order, 0, b);
  }

  // --- The three functions -------------------------------------------------------------------

  /** `from_last_chunk`. */
  method Build(cap: nat, chunk: Option<RawChunk>, gen: nat) returns (r: Built<Option<LinkedChunk>>)
    requires 0 < cap
    ensures match FromLastChunk(cap, chunk, gen)
            case Refused(e) => r == Refused(e)
            case Built(None) => r == Built(None)
            case Built(Some(s)) =>
              && r.Built? && r.value.Some? && fresh(r.value.value) && r.value.value.cap == cap
              && r.value.value.Links() && r.value.value.EndsOk()
              && r.value.value.View() == s && r.value.value.updates == []
              && (r.value.value.Valid() <==> chunk.value.id <= gen)
  {
    hide LinksOk, ChunksOf, LazyOf;
    if chunk.None? { return Built(None); }
    var c := chunk.value;
    if TooLarge(c.content, cap) { return Refused(ChunkTooLarge(c.id)); }
    if c.next.Some? { return Refused(ChunkIsNotLast(c.id)); }
    var lc := new LinkedChunk.WithChunk(cap, Chunk(c.id, c.content), c.previous, gen);
    r := Built(Some(lc));
  }

  /** `insert_new_first_chunk`. The first chunk is made if there is none, unless the new one
      is too large. The identifier of a chunk that passes all checks may still be taken. */
  method InsertFirst(lc: LinkedChunk, c: RawChunk) returns (r: Built<()>)
    requires lc.Valid()
    modifies lc
    ensures lc.Links() && lc.EndsOk()
    ensures TooLarge(c.content, lc.cap) ==>
              r == Refused(ChunkTooLarge(c.id)) && lc.View() == old(lc.View()) && lc.updates == old(lc.updates)
                  && lc.Valid()
    ensures !TooLarge(c.content, lc.cap) ==>
              var s, us := Initialized(old(lc.View())), old(lc.updates) + InitUpdates(old(lc.View()));
              match InsertNewFirstChunk(lc.cap, s, c)
              case Refused(e) => r == Refused(e) && lc.View() == s && lc.updates == us && lc.Valid()
              case Built(s') =>
                && r == Built(()) && lc.View() == s' && lc.updates == us + FirstChunkUpdates(c, Some(s.chunks[0].id))
                && (lc.Valid() <==> IndexOf(s.chunks, c.id) == |s.chunks| && c.id <= s.gen)
  {
    hide LinksOk, NodeOk, ChunksOf, LazyOf, LinkedChunkOps.Valid, FirstChunkUpdates;
    if TooLarge(c.content, lc.cap) { return Refused(ChunkTooLarge(c.id)); }
    InitIsValid(lc.View(), lc.cap);
    lc.EnsureFirst();
    ghost var s := lc.View();
    if c.previous.Some? {
      var found := HasChunk(lc, c.previous.value);
      if found { return Refused(Cycle(c.id, c.previous.value)); }
    }
    var first := lc.first.value;
    FirstNode(lc.heap, lc.order);
    var expected := lc.heap[first].id;
    if c.next.None? { return Refused(MissingNextChunk(c.id)); }
    if c.next.value != expected { return Refused(CannotConnectTwoChunks(c.id, expected)); }
    if lc.heap[first].lazyPrevious != Some(c.id) { return Refused(CannotConnectTwoChunks(expected, c.id)); }
    LinkFirst(lc, c);
    lc.updates := lc.updates + FirstChunkUpdates(c, Some(expected));
    ValidPrepended(s, c, lc.cap);
    r := Built(());
  }

  /** Is there a chunk with this identifier? From the first one on. */
  method HasChunk(lc: LinkedChunk, id: nat) returns (found: bool)
    requires lc.Links() && lc.EndsOk() && lc.order != []
    ensures found <==> IndexOf(lc.Chunks(), id) < |lc.Chunks()|
  {
    hide LinksOk, NodeOk;
    var current := lc.first;
    ghost var k := 0;
    while current.Some?
      invariant 0 <= k <= |lc.order| && current == AddrAt(lc.order, k)
      invariant forall j | 0 <= j < k :: lc.Chunks()[j].id != id
      decreases |lc.order| - k
    {
      NodeWithNext(lc.heap, lc.order, k);
      if lc.heap[current.value].id == id {
        assert lc.Chunks()[k].id == id;
        return true;
      }
      current := lc.heap[current.value].next;
      k := k + 1;
    }
    return false;
  }

  lemma FirstNode(h: Heap, order: seq<Addr>)
    requires LinksOk(h, order) && order != []
    ensures order[0] in h && LazyOf(h, order) == h[order[0]].lazyPrevious && ChunksOf(h, order)[0].id == h[order[0]].id
  {
    assert NodeOk(h, order, 0);
  }

  lemma InitIsValid(s: State, cap: nat)
    requires LinkedChunkOps.Valid(s, cap)
    ensures LinkedChunkOps.Valid(Initialized(s), cap)
  {
  }

  lemma ValidPrepended(s: State, c: RawChunk, cap: nat)
    requires LinkedChunkOps.Valid(s, cap) && s.chunks != [] && !TooLarge(c.content, cap)
    ensures var s' := s.(chunks := [Chunk(c.id, c.content)] + s.chunks, lazyPrevious := c.previous);
            LinkedChunkOps.Valid(s', cap) <==> IndexOf(s.chunks, c.id) == |s.chunks| && c.id <= s.gen
  {
    hide DistinctIds, IdsUpTo, WithinCapacity, IndexOf;
    DistinctPrepended(Chunk(c.id, c.content), s.chunks);
    BoundsPrepended(Chunk(c.id, c.content), s.chunks, s.gen, cap);
  }

  /** A chunk that is its own previous one, and then one of the same number before it: every
      check passes, and two chunks have one identifier. */
  lemma TakenIdentifierIsAccepted()
    ensures var s := State([Chunk(5, Gap("x"))], Some(5), 5);
            && FromLastChunk(1, Some(RawChunk(Gap("x"), Some(5), 5, None)), 5) == Built(Some(s))
            && LinkedChunkOps.Valid(s, 1)
            && InsertNewFirstChunk(1, s, RawChunk(Gap("y"), None, 5, Some(5))) ==
               Built(State([Chunk(5, Gap("y")), Chunk(5, Gap("x"))], None, 5))
  {
    assert [Chunk(5, Gap("y"))] + [Chunk(5, Gap("x"))] == [Chunk(5, Gap("y")), Chunk(5, Gap("x"))];
  }

  /** For the chunk before those in memory the identifier is never taken. */
  lemma PreviousIsFresh(cs: seq<Chunk>, i: nat, gen: nat)
    requires 0 < i < |cs| && DistinctIds(cs) && IdsUpTo(cs, gen)
    ensures IndexOf(cs[i..], cs[i - 1].id) == |cs[i..]| && cs[i - 1].id <= gen
  {
    forall j | 0 <= j < |cs[i..]| ensures cs[i..][j].id != cs[i - 1].id { assert cs[i..][j] == cs[i + j]; }
    IndexOfAbsent(cs[i..], cs[i - 1].id);
  }

  lemma DistinctPrepended(c: Chunk, cs: seq<Chunk>)
    requires DistinctIds(cs)
    ensures DistinctIds([c] + cs) <==> IndexOf(cs, c.id) == |cs|
  {
    var cs', k := [c] + cs, IndexOf(cs, c.id);
    if k < |cs| {
      assert cs'[0].id == cs'[k + 1].id;
    } else {
      forall i, j | 0 <= i < j < |cs'| ensures cs'[i].id != cs'[j].id {
        assert cs'[j] == cs[j - 1] && (i > 0 ==> cs'[i] == cs[i - 1]);
      }
    }
  }

  lemma BoundsPrepended(c: Chunk, cs: seq<Chunk>, gen: nat, cap: nat)
    requires IdsUpTo(cs, gen) && WithinCapacity(cs, cap) && !TooLarge(c.content, cap)
    ensures (IdsUpTo([c] + cs, gen) <==> c.id <= gen) && WithinCapacity([c] + cs, cap)
  {
    var cs' := [c] + cs;
    assert cs'[0] == c && forall i | 0 < i < |cs'| :: cs'[i] == cs[i - 1];
  }

  /** `replace_with`: every node is freed but the new one; a chunk that is refused changes
      nothing. */
  method Replace(lc: LinkedChunk, chunk: Option<RawChunk>, gen: nat) returns (r: Built<()>)
    requires lc.Valid()
    modifies lc
    ensures lc.Links() && lc.EndsOk()
    ensures match FromLastChunk(lc.cap, chunk, gen)
            case Refused(e) => r == Refused(e) && lc.View() == old(lc.View()) && lc.updates == old(lc.updates)
                && lc.Valid()
            case Built(None) => r == Built(()) && lc.View() == Fresh && lc.updates == [Clear] && lc.Valid()
            case Built(Some(s)) =>
              && r == Built(()) && lc.View() == s && lc.updates == [Clear] + FirstChunkUpdates(chunk.value, None)
              && (lc.Valid() <==> chunk.value.id <= gen)
  {
    hide LinksOk, NodeOk, ChunksOf, LazyOf, FirstChunkUpdates;
    if chunk.None? {
      lc.Clear();
      return Built(());
    }
    var c := chunk.value;
    if TooLarge(c.content, lc.cap) { return Refused(ChunkTooLarge(c.id)); }
    if c.next.Some? { return Refused(ChunkIsNotLast(c.id)); }
    lc.gen := gen;
    var b := lc.top;
    lc.top := b + 1;
    lc.FreeAll();
    lc.heap, lc.first, lc.last, lc.order := map[b := Node(None, c.previous, None, c.id, c.content)], Some(b), None, [b];
    LonelyNode(b, lc.heap[b]);
    lc.updates := [Clear] + FirstChunkUpdates(c, None);
    r := Built(());
  }

  lemma LonelyNode(b: Addr, n: Node)
    requires n.previous.None? && n.next.None?
    ensures LinksOk(map[b := n], [b]) && ChunksOf(map[b := n], [b]) == [ChunkOf(n)]
            && LazyOf(map[b := n], [b]) == n.lazyPrevious
  {
    assert NodeOk(map[b := n], [b], 0);
  }
}
