/** `lazy_loader`: building a linked chunk in memory from its end, one stored chunk
    at a time. */
module LazyLoader {
  import opened LinkedChunkModel
  import opened Wrappers
  import opened LinkedChunkOps
  import opened AsVector
  import opened Relational
  import opened RelationalLoad
  import VD = VectorDiffs

  datatype LazyLoaderError =
    | ChunkTooLarge(id: nat)
    | ChunkIsNotLast(id: nat)
    | Cycle(new_: nat, with_: nat)
    | MissingNextChunk(id: nat)
    | CannotConnectTwoChunks(new_: nat, with_: nat)

  datatype Built<T> = Built(value: T) | Refused(error: LazyLoaderError)

  predicate TooLarge(c: Content, cap: nat) {
    c.Items? && |c.items| > cap
  }

  function FromLastChunk(cap: nat, chunk: Option<RawChunk>, gen: nat): Built<Option<State>> {
    if chunk.None? then Built(None)
    else
      var c := chunk.value;
      if TooLarge(c.content, cap) then Refused(ChunkTooLarge(c.id))
      else if c.next.Some? then Refused(ChunkIsNotLast(c.id))
      else Built(Some(State([Chunk(c.id, c.content)], c.previous, gen)))
  }

  /** What is wrong with putting `c` in front of `s`, in the order it is checked. */
  function FirstChunkError(cap: nat, s: State, c: RawChunk): Option<LazyLoaderError>
    requires s.chunks != []
  {
    var first := s.chunks[0].id;
    if TooLarge(c.content, cap) then Some(ChunkTooLarge(c.id))
    else if c.previous.Some? && IndexOf(s.chunks, c.previous.value) < |s.chunks|
        then Some(Cycle(c.id, c.previous.value))
    else if c.next.None? then Some(MissingNextChunk(c.id))
    else if c.next.value != first then Some(CannotConnectTwoChunks(c.id, first))
    else if s.lazyPrevious != Some(c.id) then Some(CannotConnectTwoChunks(first, c.id))
    else None
  }

  function InsertNewFirstChunk(cap: nat, s: State, c: RawChunk): Built<State>
    requires s.chunks != []
  {
    var e := FirstChunkError(cap, s, c);
    if e.Some? then Refused(e.value)
    else Built(s.(chunks := [Chunk(c.id, c.content)] + s.chunks, lazyPrevious := c.previous))
  }

  /** A chunk fits in front of `s`: it is not too large, the chunk it comes before is the first
      one, which says so too, and the chunk before it is not loaded yet. */
  predicate FitsBefore(cap: nat, s: State, c: RawChunk)
    requires s.chunks != []
  {
    && !TooLarge(c.content, cap) && c.next == Some(s.chunks[0].id) && s.lazyPrevious == Some(c.id)
    && (c.previous.Some? ==> forall i | 0 <= i < |s.chunks| :: s.chunks[i].id != c.previous.value)
  }

  /** What an error says about the chunk. */
  predicate IsWrong(cap: nat, s: State, c: RawChunk, e: LazyLoaderError)
    requires s.chunks != []
  {
    match e
    case ChunkTooLarge(id) => id == c.id && TooLarge(c.content, cap)
    case ChunkIsNotLast(_) => false
    case Cycle(new_, with_) => new_ == c.id && c.previous == Some(with_) && exists i ::
        0 <= i < |s.chunks| && s.chunks[i].id == with_
    case MissingNextChunk(id) => id == c.id && c.next.None?
    case CannotConnectTwoChunks(a, b) =>
      || (a == c.id && b == s.chunks[0].id && c.next.Some? && c.next.value != b)
      || (a == s.chunks[0].id && b == c.id && c.next == Some(a) && s.lazyPrevious != Some(b))
  }

  /** A chunk is accepted exactly if it fits; then it is the first one, and the chunk before it
      is to be loaded next. Otherwise the error says what is wrong, and nothing changes. */
  lemma AcceptedIff(cap: nat, s: State, c: RawChunk)
    requires s.chunks != []
    ensures var r := InsertNewFirstChunk(cap, s, c);
            && (r.Built? <==> FitsBefore(cap, s, c))
            && (r.Built? ==> r.value.chunks == [Chunk(c.id, c.content)] + s.chunks
                             && r.value.lazyPrevious == c.previous && r.value.gen == s.gen)
            && (r.Refused? ==> IsWrong(cap, s, c, r.error))
  {
    hide IndexOf;
  }

  lemma LastAcceptedIff(cap: nat, chunk: Option<RawChunk>, gen: nat)
    ensures var r := FromLastChunk(cap, chunk, gen);
            && (r.Refused? <==> chunk.Some? && (TooLarge(chunk.value.content, cap) || chunk.value.next.Some?))
            && (r.Refused? ==> r.error == if TooLarge(chunk.value.content, cap) then ChunkTooLarge(chunk.value.id)
                                          else ChunkIsNotLast(chunk.value.id))
            && (r.Built? ==> (r.value.Some? <==> chunk.Some?))
            && (r.Built? && chunk.Some? ==>
                  && r.value.value.chunks == [Chunk(chunk.value.id, chunk.value.content)]
                  && r.value.value.lazyPrevious == chunk.value.previous && r.value.value.gen == gen)
  {
  }

  /** `emit_new_first_chunk_updates`. */
  function FirstChunkUpdates(c: RawChunk, next: Option<nat>): seq<Update> {
    match c.content
    case Gap(token) => [NewGapChunk(c.previous, c.id, next, token)]
    case Items(items) => [NewItemsChunk(c.previous, c.id, next), PushItems(Position(c.id, 0), items)]
  }

  // --- Loading a stored linked chunk ---------------------------------------------------

  /** The end of `cs`, from chunk `i` on, as it sits in memory. */
  function LoadedFrom(cs: seq<Chunk>, i: nat, gen: nat): State
    requires i <= |cs|
  {
    State(cs[i..], IdAt(cs, i - 1), gen)
  }

  lemma LastChunkCases(cs: seq<Chunk>, cap: nat, gen: nat)
    requires cs != []
    ensures var n := |cs| - 1;
            FromLastChunk(cap, Some(RawAt(cs, n)), gen) ==
            if |ItemsOf(cs[n])| <= cap then Built(Some(LoadedFrom(cs, n, gen))) else Refused(ChunkTooLarge(cs[n].id))
  {
    assert cs[|cs| - 1..] == [cs[|cs| - 1]];
  }

  lemma LastChunkBuilds(cs: seq<Chunk>, cap: nat, gen: nat)
    requires cs != [] && WithinCapacity(cs, cap)
    ensures FromLastChunk(cap, Some(RawAt(cs, |cs| - 1)), gen) == Built(Some(LoadedFrom(cs, |cs| - 1, gen)))
  {
    LastChunkCases(cs, cap, gen);
    assert |ItemsOf(cs[|cs| - 1])| <= cap;
  }

  lemma PreviousChunkCases(cs: seq<Chunk>, i: nat, cap: nat, gen: nat)
    requires 0 < i < |cs| && DistinctIds(cs)
    ensures InsertNewFirstChunk(cap, LoadedFrom(cs, i, gen), RawAt(cs, i - 1)) ==
            if |ItemsOf(cs[i - 1])| <= cap then Built(LoadedFrom(cs, i - 1, gen))
                else Refused(ChunkTooLarge(cs[i - 1].id))
  {
    var s, c := LoadedFrom(cs, i, gen), RawAt(cs, i - 1);
    assert s.chunks[0] == cs[i];
    assert [cs[i - 1]] + cs[i..] == cs[i - 1..];
    if c.previous.Some? {
      forall j | 0 <= j < |s.chunks| ensures s.chunks[j].id != c.previous.value { assert s.chunks[j] == cs[i + j]; }
      IndexOfAbsent(s.chunks, c.previous.value);
    }
  }

  lemma PreviousChunkInserts(cs: seq<Chunk>, i: nat, cap: nat, gen: nat)
    requires 0 < i < |cs| && DistinctIds(cs) && WithinCapacity(cs, cap)
    ensures InsertNewFirstChunk(cap, LoadedFrom(cs, i, gen), RawAt(cs, i - 1)) == Built(LoadedFrom(cs, i - 1, gen))
  {
    PreviousChunkCases(cs, i, cap, gen);
    assert |ItemsOf(cs[i - 1])| <= cap;
  }

  /** The reading benchmark: load the last chunk, then every previous one. Whatever
      linked chunk the store holds is rebuilt, chunk by chunk and in order; it panics, as
      `None`, exactly if there is nothing to load or a chunk has too many items. */
  method LoadEverything(st: Store, lc: string, cap: nat, ghost cs: seq<Chunk>) returns (r: Option<State>)
    requires Holds(st, lc, cs)
    ensures r.None? <==> cs == [] || !WithinCapacity(cs, cap)
    ensures r.Some? ==> r.value.chunks == cs && r.value.lazyPrevious.None? && IsLargest(r.value.gen, cs)
  {
    hide Holds, IsLargest, FromLastChunk, InsertNewFirstChunk;
    HoldsDistinct(st, lc, cs);
    var last := LoadLastChunk(st, lc);
    assert IsLast(last, cs);
    var built := FromLastChunk(cap, last.value.0, last.value.1);
    assert cs == [] ==> built == Built(None) by { NothingBuilds(cap, last.value.1); }
    if cs != [] { LastChunkCases(cs, cap, last.value.1); }
    if built.Refused? || built.value.None? { return None; }
    var s := built.value.value;
    ghost var i := |cs| - 1;
    var current := s.chunks[0].id;
    var previous := LoadPreviousChunk(st, lc, current);
    while previous.value.Some?
      invariant 0 <= i < |cs| && s == LoadedFrom(cs, i, last.value.1) && current == cs[i].id
      invariant forall j | i <= j < |cs| :: |ItemsOf(cs[j])| <= cap
      invariant previous == Ok(if i == 0 then None else Some(RawAt(cs, i - 1)))
      decreases i
    {
      var c := previous.value.value;
      PreviousChunkCases(cs, i, cap, last.value.1);
      current := c.id;
      var inserted := InsertNewFirstChunk(cap, s, c);
      if inserted.Refused? { return None; }
      s := inserted.value;
      i := i - 1;
      previous := LoadPreviousChunk(st, lc, current);
    }
    assert cs[0..] == cs;
    r := Some(s);
  }

  lemma NothingBuilds(cap: nat, gen: nat)
    ensures FromLastChunk(cap, None, gen) == Built(None)
  {
  }

  // --- Readers of a lazily loaded linked chunk -------------------------------------------

  lemma RestIds(c: Chunk, r: seq<Chunk>)
    requires DistinctIds([c] + r)
    ensures DistinctIds(r)
  {
    var cs := [c] + r;
    assert forall i | 0 <= i < |r| :: cs[i + 1] == r[i];
  }

  /** A chunk put in front of those in memory is a chunk put in front of the vector. */
  lemma FirstChunkSeen(s: State, c: RawChunk)
    requires s.chunks != [] && DistinctIds([Chunk(c.id, c.content)] + s.chunks)
    ensures var cs := [Chunk(c.id, c.content)] + s.chunks;
            Shows(Idle(s.chunks), Flat(s.chunks), FirstChunkUpdates(c, Some(s.chunks[0].id)), Idle(cs), Flat(cs))
  {
    hide Shows, Flat, Lengths, DistinctIds;
    var r, ch := s.chunks, Chunk(c.id, c.content);
    var cs := [ch] + r;
    assert [] + r == r && [] + [ch] + r == cs;
    assert DistinctIds(r) by { RestIds(ch, r); }
    match c.content {
      case Gap(token) =>
        NewShows([], ch, r, c.previous, false, false, Flat(r));
        FlatNew([], ch, r);
      case Items(items) =>
        var e := Chunk(c.id, Items([]));
        SameIds([], ch, e, r);
        assert [] + [e] + r == [e] + r;
        FirstItemsSeen(r, e, c.previous, items);
    }
  }

  lemma FirstItemsSeen(r: seq<Chunk>, e: Chunk, previous: Option<nat>, items: seq<Event>)
    requires r != [] && DistinctIds([e] + r) && DistinctIds(r) && e.content == Items([])
    ensures var cs := [WithItems(e, items)] + r;
            Shows(Idle(r), Flat(r), [NewItemsChunk(previous, e.id, Some(r[0].id)), PushItems(Position(e.id, 0), items)],
                  Idle(cs), Flat(cs))
  {
    hide Shows, Flat, Lengths;
    var u1, u2 := NewItemsChunk(previous, e.id, Some(r[0].id)), PushItems(Position(e.id, 0), items);
    var ch := WithItems(e, items);
    assert [] + r == r && [] + [e] + r == [e] + r && [] + [ch] + r == [ch] + r;
    NewShows([], e, r, previous, false, false, Flat(r));
    assert Flat([]) == [] by { EmptyFlat(); }
    assert [] + items == items;
    PushShows([], e, r, items, [], false);
    assert Flat([]) + e.content.items + [] + Flat(r) == Flat(r);
    assert Flat([]) + e.content.items + items + [] + Flat(r) == Flat([ch] + r) by {
      FlatConcat([ch], r);
      FlatOne(ch);
    }
    ShowsConcat(Idle(r), Flat(r), [u1], Idle([e] + r), Flat(r), [u2], Idle([ch] + r), Flat([ch] + r));
    assert [u1] + [u2] == [u1, u2];
  }

  /** `replace_with`: whatever a reader knew, it ends up with the last chunk alone. */
  lemma ReplacedSeen(m: Mapper, v: seq<Event>, c: RawChunk)
    requires !m.reattaching && !m.detaching && c.next.None?
    ensures var cs := [Chunk(c.id, c.content)];
            Shows(m, v, [Clear] + FirstChunkUpdates(c, None), Idle(cs), Flat(cs))
  {
    hide Shows, Flat, Lengths;
    var ch := Chunk(c.id, c.content);
    ClearShows(m, v);
    LonelyChunkShows(c.previous, ch);
    ShowsConcat(m, v, [Clear], Idle([]), [], FirstChunkUpdates(c, None), Idle([ch]), Flat([ch]));
  }

  lemma ClearShows(m: Mapper, v: seq<Event>)
    requires !m.reattaching && !m.detaching
    ensures Shows(m, v, [Clear], Idle([]), [])
  {
    var ds: seq<VD.VectorDiff<Event>> := [VD.ClearAll];
    assert ds[1..] == [];
    assert VD.ApplyDiffs(v, ds) == Some([]);
    assert Lengths([]) == [];
    ShowsOne(m, v, Clear, Idle([]), ds, []);
  }

  lemma LonelyChunkShows(previous: Option<nat>, ch: Chunk)
    ensures Shows(Idle([]), [], FirstChunkUpdates(RawChunk(ch.content, previous, ch.id, None), None), Idle([ch]),
                  Flat([ch]))
  {
    var e := Chunk(ch.id, Items([]));
    var us := FirstChunkUpdates(RawChunk(ch.content, previous, ch.id, None), None);
    FlatOne(ch);
    var p := Pair(ch.id, 0);
    assert Idle([]).pairs == [] && Idle([ch]).pairs == [PairOf(ch)] && Idle([e]).pairs == [p];
    assert MapNew(Idle([]), previous, ch.id, None) == Some(Mapped(Mapper([p], false, false), [])) by {
      assert [] + [p] == [p];
    }
    if ch.content.Gap? {
      ShowsOne(Idle([]), [], us[0], Idle([ch]), [], []);
    } else {
      var items := ch.content.items;
      ShowsOne(Idle([]), [], us[0], Idle([e]), [], []);
      assert [] + [e] + [] == [e] && [] + [ch] + [] == [ch];
      hide Shows, Lengths;
      PushShows([], e, [], items, [], false);
      assert WithItems(e, [] + items) == ch;
      ShowsConcat(Idle([]), [], [us[0]], Idle([e]), [], [us[1]], Idle([ch]), items);
      assert [us[0]] + [us[1]] == us;
    }
  }
}
