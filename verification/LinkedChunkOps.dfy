/** What every operation of a linked chunk does to its list of chunks, and which
    updates it emits; and the reference meaning of an update. */
module LinkedChunkOps {
  import opened LinkedChunkModel
  import opened Wrappers

  /** The in-memory linked chunk. `chunks` is empty as long as the first chunk has
      not been created; `lazyPrevious` is the link to the chunk before the first
      one when that chunk has not been loaded; `gen` is the last identifier the
      generator has handed out. */
  datatype State = State(chunks: seq<Chunk>, lazyPrevious: Option<nat>, gen: nat)

  datatype Op =
    | PushItemsBack(items: seq<Event>)
    | PushGapBack(gap: string)
    | InsertItemsAt(position: Position, items: seq<Event>)
    | RemoveItemAt(position: Position)
    | ReplaceItemAt(position: Position, item: Event)
    | InsertGapAt(gap: string, position: Position)
    | RemoveEmptyChunkAt(id: nat)
    | ReplaceGapAt(items: seq<Event>, id: nat)

  datatype Error =
    | InvalidChunkIdentifier(id: nat)
    | ChunkIsAGap(id: nat)
    | ChunkIsItems(id: nat)
    | RemovingNonEmptyItemsChunk(id: nat)
    | RemovingLastChunk
    | InvalidItemIndex(index: nat)

  datatype Reply =
    | Done
    | Removed(item: Event)
    | NextPosition(position: Option<Position>)
    | ReplacedBy(id: nat)
    | Failed(error: Error)

  datatype Outcome = Outcome(state: State, updates: seq<Update>, reply: Reply)

  predicate Valid(s: State, cap: nat) {
    && DistinctIds(s.chunks)
    && IdsUpTo(s.chunks, s.gen)
    && WithinCapacity(s.chunks, cap)
    && (s.chunks == [] ==> s.gen == 0 && s.lazyPrevious.None?)
  }

  const Fresh: State := State([], None, 0)

  // --- Building blocks -------------------------------------------------------

  /** `Ends::first_chunk_ptr`: the first chunk is created when first needed. */
  function Initialized(s: State): State {
    if s.chunks == [] then s.(chunks := [Chunk(0, Items([]))]) else s
  }

  function InitUpdates(s: State): seq<Update> {
    if s.chunks == [] then [NewItemsChunk(None, 0, None)] else []
  }

  function WithItems(c: Chunk, items: seq<Event>): Chunk {
    Chunk(c.id, Items(items))
  }

  /** Space left in a chunk; a gap has none. */
  function FreeSpace(c: Chunk, cap: nat): nat {
    if c.content.Gap? || cap <= |c.content.items| then 0 else cap - |c.content.items|
  }

  datatype Spilled = Spilled(chunks: seq<Chunk>, gen: nat, updates: seq<Update>)

  /** `Chunk::push_items` on chunk `c`, which `next` follows: fill `c`, and spill
      the rest over new chunks linked right after it. The result replaces `c`. */
  function Spill(cap: nat, c: Chunk, next: Option<nat>, items: seq<Event>, gen: nat): (r: Spilled)
    requires 0 < cap
    ensures r.chunks != []
    decreases |items|, if FreeSpace(c, cap) > 0 then 0 else 1
  {
    if items == [] then
      Spilled([c], gen, [])
    else if c.content.Items? && |items| <= FreeSpace(c, cap) then
      Spilled([WithItems(c, c.content.items + items)], gen, [PushItems(Position(c.id, |c.content.items|), items)])
    else
      var free := FreeSpace(c, cap);
      var rest := Spill(cap, Chunk(gen + 1, Items([])), next, items[free..], gen + 1);
      Spilled([Fill(c, items[..free])] + rest.chunks, rest.gen,
              FillUpdates(c, items[..free]) + [NewItemsChunk(Some(c.id), gen + 1, next)] + rest.updates)
  }

  function Fill(c: Chunk, items: seq<Event>): Chunk
    requires items != [] ==> c.content.Items?
  {
    if items == [] then c else WithItems(c, c.content.items + items)
  }

  function FillUpdates(c: Chunk, items: seq<Event>): seq<Update> {
    if items == [] then [] else [PushItems(Position(c.id, |ItemsOf(c)|), items)]
  }

  // --- The operations --------------------------------------------------------

  /** Every operation but `clear`, which also drops the pending updates. */
  function Step(cap: nat, s: State, op: Op): Outcome
    requires 0 < cap
  {
    var r := StepInitialized(cap, Initialized(s), op);
    r.(updates := InitUpdates(s) + r.updates)
  }

  function StepInitialized(cap: nat, s: State, op: Op): Outcome
    requires 0 < cap && s.chunks != []
  {
    match op
    case PushItemsBack(items) => Push(cap, s, |s.chunks| - 1, items)
    case PushGapBack(gap) => PushGap(s, gap)
    case InsertItemsAt(p, items) => InsertItems(cap, s, p, items)
    case RemoveItemAt(p) => RemoveItemOp(s, p)
    case ReplaceItemAt(p, item) => ReplaceItemOp(s, p, item)
    case InsertGapAt(gap, p) => InsertGap(cap, s, gap, p)
    case RemoveEmptyChunkAt(id) => RemoveEmptyChunk(s, id)
    case ReplaceGapAt(items, id) => ReplaceGap(cap, s, items, id)
  }

  function Fail(s: State, e: Error): Outcome {
    Outcome(s, [], Failed(e))
  }

  function Push(cap: nat, s: State, k: nat, items: seq<Event>): Outcome
    requires 0 < cap && k < |s.chunks|
  {
    var r := Spill(cap, s.chunks[k], IdAt(s.chunks, k + 1), items, s.gen);
    Outcome(s.(chunks := Splice(s.chunks, k, r.chunks), gen := r.gen), r.updates, Done)
  }

  function PushGap(s: State, gap: string): Outcome
    requires s.chunks != []
  {
    var last := s.chunks[|s.chunks| - 1];
    Outcome(s.(chunks := s.chunks + [Chunk(s.gen + 1, Gap(gap))], gen := s.gen + 1),
            [NewGapChunk(Some(last.id), s.gen + 1, None, gap)], Done)
  }

  /** The error shared by the operations that address an item by its position. */
  function ItemsError(s: State, id: nat): Option<Error> {
    var k := IndexOf(s.chunks, id);
    if k == |s.chunks| then Some(InvalidChunkIdentifier(id))
    else if s.chunks[k].content.Gap? then Some(ChunkIsAGap(id))
    else None
  }

  function InsertItems(cap: nat, s: State, p: Position, items: seq<Event>): Outcome
    requires 0 < cap
  {
    if ItemsError(s, p.chunk).Some? then Fail(s, ItemsError(s, p.chunk).value)
    else
      var k := IndexOf(s.chunks, p.chunk);
      var cur := s.chunks[k].content.items;
      if p.index > |cur| then Fail(s, InvalidItemIndex(p.index))
      else if p.index == |cur| then Push(cap, s, k, items)
      else InsertInside(cap, s, k, p.index, items)
  }

  function Last(cs: seq<Chunk>): Chunk
    requires cs != []
  {
    cs[|cs| - 1]
  }

  /** Detach the tail of chunk `k`, push the new items, reattach the tail. */
  function InsertInside(cap: nat, s: State, k: nat, index: nat, items: seq<Event>): Outcome
    requires 0 < cap && k < |s.chunks| && s.chunks[k].content.Items?
    requires index < |s.chunks[k].content.items|
  {
    var c, next := s.chunks[k], IdAt(s.chunks, k + 1);
    var r1 := Spill(cap, WithItems(c, c.content.items[..index]), next, items, s.gen);
    var r2 := Spill(cap, Last(r1.chunks), next, c.content.items[index..], r1.gen);
    Outcome(s.(chunks := Splice(s.chunks, k, r1.chunks[..|r1.chunks| - 1] + r2.chunks), gen := r2.gen),
            [DetachLastItems(Position(c.id, index))] + r1.updates
            + [StartReattachItems] + r2.updates + [EndReattachItems], Done)
  }

  function RemoveItemOp(s: State, p: Position): Outcome {
    if ItemsError(s, p.chunk).Some? then Fail(s, ItemsError(s, p.chunk).value)
    else
      var k := IndexOf(s.chunks, p.chunk);
      var cur := s.chunks[k].content.items;
      if p.index >= |cur| then Fail(s, InvalidItemIndex(p.index))
      else
        var left := cur[..p.index] + cur[p.index + 1..];
        if left == [] && k > 0 then
          Outcome(s.(chunks := Splice(s.chunks, k, [])), [RemoveItem(p), RemoveChunk(p.chunk)], Removed(cur[p.index]))
        else
          Outcome(s.(chunks := Splice(s.chunks, k, [WithItems(s.chunks[k], left)])), [RemoveItem(p)],
                  Removed(cur[p.index]))
  }

  function ReplaceItemOp(s: State, p: Position, item: Event): Outcome {
    if ItemsError(s, p.chunk).Some? then Fail(s, ItemsError(s, p.chunk).value)
    else
      var k := IndexOf(s.chunks, p.chunk);
      var cur := s.chunks[k].content.items;
      if p.index >= |cur| then Fail(s, InvalidItemIndex(p.index))
      else Outcome(s.(chunks := Splice(s.chunks, k, [WithItems(s.chunks[k], cur[p.index := item])])),
                   [ReplaceItem(p, item)], Done)
  }

  function InsertGap(cap: nat, s: State, gap: string, p: Position): Outcome
    requires 0 < cap
  {
    if ItemsError(s, p.chunk).Some? then Fail(s, ItemsError(s, p.chunk).value)
    else
      var k := IndexOf(s.chunks, p.chunk);
      var c := Chunk(s.gen + 1, Gap(gap));
      if p.index == 0 then
        Outcome(s.(chunks := Splice(s.chunks, k, [c, s.chunks[k]]), gen := s.gen + 1),
                [NewGapChunk(PreviousId(s, k), c.id, Some(p.chunk), gap)], Done)
      else if p.index >= |s.chunks[k].content.items| then Fail(s, InvalidItemIndex(p.index))
      else InsertGapInside(cap, s, k, p.index, gap)
  }

  function PreviousId(s: State, k: nat): Option<nat> {
    if k == 0 then s.lazyPrevious else IdAt(s.chunks, k - 1)
  }

  /** Detach the tail of chunk `k`, link the gap and an empty chunk after it, and
      reattach the tail there. */
  function InsertGapInside(cap: nat, s: State, k: nat, index: nat, gap: string): Outcome
    requires 0 < cap && k < |s.chunks| && s.chunks[k].content.Items?
    requires 0 < index < |s.chunks[k].content.items|
  {
    var c, next := s.chunks[k], IdAt(s.chunks, k + 1);
    var r := Spill(cap, Chunk(s.gen + 2, Items([])), next, c.content.items[index..], s.gen + 2);
    Outcome(s.(chunks := Splice(s.chunks, k,
                                [WithItems(c, c.content.items[..index]), Chunk(s.gen + 1, Gap(gap))] + r.chunks),
               gen := r.gen),
            CutUpdates(c.id, index, gap, s.gen, next) + r.updates + [EndReattachItems], Done)
  }

  function CutUpdates(id: nat, index: nat, gap: string, gen: nat, next: Option<nat>): seq<Update> {
    [DetachLastItems(Position(id, index)), NewGapChunk(Some(id), gen + 1, next, gap),
     StartReattachItems, NewItemsChunk(Some(gen + 1), gen + 2, next)]
  }

  function RemoveEmptyChunk(s: State, id: nat): Outcome
    requires s.chunks != []
  {
    var k := IndexOf(s.chunks, id);
    if |s.chunks| == 1 then Fail(s, RemovingLastChunk)
    else if k == |s.chunks| then Fail(s, InvalidChunkIdentifier(id))
    else if |ItemsOf(s.chunks[k])| > 0 then Fail(s, RemovingNonEmptyItemsChunk(id))
    else
      Outcome(s.(chunks := Splice(s.chunks, k, [])), [RemoveChunk(id)],
              NextPosition(if k + 1 < |s.chunks| then Some(Position(s.chunks[k + 1].id, 0)) else None))
  }

  function ReplaceGap(cap: nat, s: State, items: seq<Event>, id: nat): Outcome
    requires 0 < cap
  {
    var k := IndexOf(s.chunks, id);
    if k == |s.chunks| then Fail(s, InvalidChunkIdentifier(id))
    else if s.chunks[k].content.Items? then Fail(s, ChunkIsItems(id))
    else
      var next := IdAt(s.chunks, k + 1);
      var r := Spill(cap, Chunk(s.gen + 1, Items([])), next, items, s.gen + 1);
      Outcome(s.(chunks := Splice(s.chunks, k, r.chunks), gen := r.gen),
              [NewItemsChunk(Some(id), s.gen + 1, next)] + r.updates + [RemoveChunk(id)], ReplacedBy(s.gen + 1))
  }

  // --- The reference meaning of an update ------------------------------------

  /** The list of chunks an update describes, or `None` if the update does not fit
      the list: a new chunk must sit between the neighbours it names, items are
      pushed at the end of an items chunk, and only an empty chunk is removed. */
  function Apply(cs: seq<Chunk>, u: Update): Option<seq<Chunk>> {
    match u
    case NewItemsChunk(previous, new_, next) => ApplyNew(cs, previous, Chunk(new_, Items([])), next)
    case NewGapChunk(previous, new_, next, gap) => ApplyNew(cs, previous, Chunk(new_, Gap(gap)), next)
    case RemoveChunk(id) =>
      var k := IndexOf(cs, id);
      if k < |cs| && ItemsOf(cs[k]) == [] then Some(Splice(cs, k, [])) else None
    case PushItems(at, items) =>
      var k := IndexOf(cs, at.chunk);
      if k < |cs| && cs[k].content.Items? && at.index == |cs[k].content.items|
      then Some(Splice(cs, k, [WithItems(cs[k], cs[k].content.items + items)])) else None
    case ReplaceItem(at, item) =>
      var k := IndexOf(cs, at.chunk);
      if At(cs, at).Some? then Some(Splice(cs, k, [WithItems(cs[k], cs[k].content.items[at.index := item])])) else None
    case RemoveItem(at) =>
      var k := IndexOf(cs, at.chunk);
      if At(cs, at).Some?
      then Some(Splice(cs, k,
                       [WithItems(cs[k], cs[k].content.items[..at.index] + cs[k].content.items[at.index + 1..])]))
      else None
    case DetachLastItems(at) =>
      var k := IndexOf(cs, at.chunk);
      if k < |cs| && cs[k].content.Items? && at.index <= |cs[k].content.items|
      then Some(Splice(cs, k, [WithItems(cs[k], cs[k].content.items[..at.index])])) else None
    case StartReattachItems => Some(cs)
    case EndReattachItems => Some(cs)
    case Clear => Some([])
  }

  function ApplyNew(cs: seq<Chunk>, previous: Option<nat>, c: Chunk, next: Option<nat>): Option<seq<Chunk>> {
    var k := if previous.None? then 0 else IndexOf(cs, previous.value) + 1;
    if k <= |cs| && IdAt(cs, k) == next && IndexOf(cs, c.id) == |cs|
    then Some(cs[..k] + [c] + cs[k..]) else None
  }

  /** Pushed events are new to the list, and a replacement keeps the event's
      identifier: what a store that indexes events by identifier relies on. */
  predicate KeepsEventsDistinct(cs: seq<Chunk>, u: Update) {
    match u
    case PushItems(_, items) => DistinctEvents(items) && DisjointEvents(Flat(cs), items)
    case ReplaceItem(at, item) => At(cs, at).Some? ==> At(cs, at).value.id == item.id
    case _ => true
  }

  /** The updates lead from `cs` to `cs'`, step by step; with `distinct`, while
      also keeping event identifiers distinct. */
  predicate Leads(cs: seq<Chunk>, us: seq<Update>, cs': seq<Chunk>, distinct: bool)
    decreases |us|
  {
    if us == [] then cs == cs'
    else
      && Apply(cs, us[0]).Some?
      && (distinct ==> KeepsEventsDistinct(cs, us[0]))
      && Leads(Apply(cs, us[0]).value, us[1..], cs', distinct)
  }

  lemma {:induction false} LeadsConcat(cs: seq<Chunk>, us: seq<Update>, mid: seq<Chunk>, vs: seq<Update>,
                                       cs': seq<Chunk>, distinct: bool)
    requires Leads(cs, us, mid, distinct) && Leads(mid, vs, cs', distinct)
    ensures Leads(cs, us + vs, cs', distinct)
    decreases |us|
  {
    if us == [] {
      assert us + vs == vs;
    } else {
      assert (us + vs)[1..] == us[1..] + vs;
      LeadsConcat(Apply(cs, us[0]).value, us[1..], mid, vs, cs', distinct);
    }
  }

  lemma LeadsOne(cs: seq<Chunk>, u: Update, cs': seq<Chunk>, distinct: bool)
    requires Apply(cs, u) == Some(cs') && (distinct ==> KeepsEventsDistinct(cs, u))
    ensures Leads(cs, [u], cs', distinct)
  {
    assert [u][1..] == [];
  }

  // --- What a push does ------------------------------------------------------

  /** A push adds exactly `items` after those of the chunk. */
  lemma {:induction false} SpillAdds(cap: nat, c: Chunk, next: Option<nat>, items: seq<Event>, gen: nat)
    requires 0 < cap
    ensures Flat(Spill(cap, c, next, items, gen).chunks) == ItemsOf(c) + items
    decreases |items|, if FreeSpace(c, cap) > 0 then 0 else 1
  {
    if items == [] {
      FlatOne(c);
    } else if c.content.Items? && |items| <= FreeSpace(c, cap) {
      FlatOne(WithItems(c, c.content.items + items));
    } else {
      var free := FreeSpace(c, cap);
      SpillAdds(cap, Chunk(gen + 1, Items([])), next, items[free..], gen + 1);
      FlatConcat([Fill(c, items[..free])], Spill(cap, Chunk(gen + 1, Items([])), next, items[free..], gen + 1).chunks);
      FlatOne(Fill(c, items[..free]));
      assert items == items[..free] + items[free..];
    }
  }

  /** A push keeps the identifier of the first chunk, numbers the new ones
      consecutively, and keeps every chunk within capacity. */
  lemma {:induction false} SpillIds(cap: nat, c: Chunk, next: Option<nat>, items: seq<Event>, gen: nat)
    requires 0 < cap
    ensures var r := Spill(cap, c, next, items, gen);
            && r.chunks[0].id == c.id
            && r.gen == gen + |r.chunks| - 1
            && (forall i | 1 <= i < |r.chunks| :: r.chunks[i].id == gen + i)
            && (|ItemsOf(c)| <= cap ==> WithinCapacity(r.chunks, cap))
    decreases |items|, if FreeSpace(c, cap) > 0 then 0 else 1
  {
    if items != [] && !(c.content.Items? && |items| <= FreeSpace(c, cap)) {
      SpillIds(cap, Chunk(gen + 1, Items([])), next, items[FreeSpace(c, cap)..], gen + 1);
    }
  }

  // --- One update at a time ---------------------------------------------------

  lemma LinkedBetween(pre: seq<Chunk>, c: Chunk, post: seq<Chunk>, gen: nat)
    requires DistinctIds(pre + post) && IdsUpTo(pre + post, gen) && gen < c.id
    ensures ApplyNew(pre + post, IdAt(pre, |pre| - 1), c, IdAt(post, 0)) == Some(pre + [c] + post)
  {
    hide IndexOf;
    var cs := pre + post;
    IndexOfAbsent(cs, c.id);
    if pre != [] { LastOfFront(pre, post); }
    assert cs[..|pre|] == pre && cs[|pre|..] == post;
    assert IdAt(cs, |pre|) == IdAt(post, 0);
  }

  lemma LastOfFront(pre: seq<Chunk>, post: seq<Chunk>)
    requires DistinctIds(pre + post) && pre != []
    ensures IndexOf(pre + post, pre[|pre| - 1].id) == |pre| - 1
  {
    assert (pre + post)[|pre| - 1] == pre[|pre| - 1];
    IndexOfAt(pre + post, |pre| - 1);
  }

  /** Linking an empty chunk between `pre` and `post`. */
  lemma NewApplies(pre: seq<Chunk>, c: Chunk, post: seq<Chunk>, gen: nat)
    requires DistinctIds(pre + post) && IdsUpTo(pre + post, gen) && gen < c.id
    requires c.content.Items? ==> c.content.items == []
    ensures Apply(pre + post, NewUpdate(IdAt(pre, |pre| - 1), c, IdAt(post, 0))) == Some(pre + [c] + post)
  {
    hide IndexOf, DistinctIds, IdsUpTo, ApplyNew;
    LinkedBetween(pre, c, post, gen);
    assert c.content.Items? ==> c == Chunk(c.id, Items([]));
  }

  /** Extending a run with one more chunk. */
  lemma ThenNew(cs0: seq<Chunk>, us: seq<Update>, pre: seq<Chunk>, c: Chunk, post: seq<Chunk>, gen: nat, distinct: bool)
    requires DistinctIds(pre + post) && IdsUpTo(pre + post, gen) && gen < c.id
    requires c.content.Items? ==> c.content.items == []
    requires Leads(cs0, us, pre + post, distinct)
    ensures Leads(cs0, us + [NewUpdate(IdAt(pre, |pre| - 1), c, IdAt(post, 0))], pre + [c] + post, distinct)
  {
    NewApplies(pre, c, post, gen);
    ThenOne(cs0, us, pre + post, NewUpdate(IdAt(pre, |pre| - 1), c, IdAt(post, 0)), pre + [c] + post, distinct);
  }

  lemma ThenOne(cs0: seq<Chunk>, us: seq<Update>, cs: seq<Chunk>, u: Update, cs': seq<Chunk>, distinct: bool)
    requires Leads(cs0, us, cs, distinct)
    requires Apply(cs, u) == Some(cs') && (distinct ==> KeepsEventsDistinct(cs, u))
    ensures Leads(cs0, us + [u], cs', distinct)
  {
    LeadsOne(cs, u, cs', distinct);
    LeadsConcat(cs0, us, cs, [u], cs', distinct);
  }

  function NewUpdate(previous: Option<nat>, c: Chunk, next: Option<nat>): Update {
    match c.content
    case Items(_) => NewItemsChunk(previous, c.id, next)
    case Gap(token) => NewGapChunk(previous, c.id, next, token)
  }

  lemma NewIds(pre: seq<Chunk>, c: Chunk, post: seq<Chunk>, gen: nat)
    requires DistinctIds(pre + post) && IdsUpTo(pre + post, gen) && gen < c.id
    ensures DistinctIds(pre + [c] + post) && IdsUpTo(pre + [c] + post, c.id)
  {
    var cs, cs' := pre + post, pre + [c] + post;
    forall i, j | 0 <= i < j < |cs'| ensures cs'[i].id != cs'[j].id && cs'[i].id <= c.id && cs'[j].id <= c.id {
      var i', j' := if i < |pre| then i else i - 1, if j < |pre| then j else j - 1;
      assert i != |pre| ==> cs'[i] == cs[i'];
      assert j != |pre| ==> cs'[j] == cs[j'];
    }
    assert cs'[|pre|] == c;
    forall i | 0 <= i < |cs'| ensures cs'[i].id <= c.id {
      var i' := if i < |pre| then i else i - 1;
      assert i != |pre| ==> cs'[i] == cs[i'];
    }
  }

  lemma SameIds(pre: seq<Chunk>, c: Chunk, c': Chunk, post: seq<Chunk>)
    requires c.id == c'.id
    ensures DistinctIds(pre + [c] + post) <==> DistinctIds(pre + [c'] + post)
    ensures forall gen :: IdsUpTo(pre + [c] + post, gen) <==> IdsUpTo(pre + [c'] + post, gen)
  {
    var cs, cs' := pre + [c] + post, pre + [c'] + post;
    assert |cs| == |cs'| && forall i | 0 <= i < |cs| :: cs[i].id == cs'[i].id;
    forall gen ensures IdsUpTo(cs, gen) <==> IdsUpTo(cs', gen) {
    }
  }

  /** Items pushed at the end of chunk `c`. */
  lemma PushedLeads(pre: seq<Chunk>, c: Chunk, post: seq<Chunk>, items: seq<Event>, distinct: bool)
    requires DistinctIds(pre + [c] + post) && c.content.Items?
    requires distinct ==> DistinctEvents(items) && DisjointEvents(Flat(pre + [c] + post), items)
    ensures Leads(pre + [c] + post, [PushItems(Position(c.id, |c.content.items|), items)],
                  pre + [WithItems(c, c.content.items + items)] + post, distinct)
  {
    IndexOfAround(pre, c, post);
    SpliceAround(pre, c, post, [WithItems(c, c.content.items + items)]);
    LeadsOne(pre + [c] + post, PushItems(Position(c.id, |c.content.items|), items),
             pre + [WithItems(c, c.content.items + items)] + post, distinct);
  }

  /** Filling `c` with the first items leaves the others new to the list. */
  lemma FillLeads(pre: seq<Chunk>, c: Chunk, post: seq<Chunk>, fit: seq<Event>, rest: seq<Event>, distinct: bool)
    requires DistinctIds(pre + [c] + post) && (fit != [] ==> c.content.Items?)
    requires distinct ==> DistinctEvents(fit + rest) && DisjointEvents(Flat(pre + [c] + post), fit + rest)
    ensures Leads(pre + [c] + post, FillUpdates(c, fit), pre + [Fill(c, fit)] + post, distinct)
    ensures distinct ==> DistinctEvents(rest) && DisjointEvents(Flat(pre + [Fill(c, fit)] + post), rest)
  {
    DistinctConcat(fit, rest);
    if fit != [] {
      PushedLeads(pre, c, post, fit, distinct);
      FlatAround(pre, [c], post);
      FlatAround(pre, [Fill(c, fit)], post);
      FlatOne(c);
      FlatOne(Fill(c, fit));
    }
  }

  /** The updates of a push describe it, one after the other. */
  lemma {:induction false} SpillLeads(cap: nat, pre: seq<Chunk>, c: Chunk, post: seq<Chunk>, items: seq<Event>,
                                      gen: nat,
                                      distinct: bool)
    requires 0 < cap
    requires DistinctIds(pre + [c] + post) && IdsUpTo(pre + [c] + post, gen)
    requires distinct ==> DistinctEvents(items) && DisjointEvents(Flat(pre + [c] + post), items)
    ensures var r := Spill(cap, c, IdAt(post, 0), items, gen);
            Leads(pre + [c] + post, r.updates, pre + r.chunks + post, distinct)
    decreases |items|, if FreeSpace(c, cap) > 0 then 0 else 1
  {
    if items == [] {
    } else if c.content.Items? && |items| <= FreeSpace(c, cap) {
      PushedLeads(pre, c, post, items, distinct);
    } else {
      SpillOverLeads(cap, pre, c, post, items, gen, distinct);
    }
  }

  lemma {:induction false} SpillOverLeads(cap: nat, pre: seq<Chunk>, c: Chunk, post: seq<Chunk>, items: seq<Event>,
                                          gen: nat,
                                          distinct: bool)
    requires 0 < cap && items != [] && !(c.content.Items? && |items| <= FreeSpace(c, cap))
    requires DistinctIds(pre + [c] + post) && IdsUpTo(pre + [c] + post, gen)
    requires distinct ==> DistinctEvents(items) && DisjointEvents(Flat(pre + [c] + post), items)
    ensures var r := Spill(cap, c, IdAt(post, 0), items, gen);
            Leads(pre + [c] + post, r.updates, pre + r.chunks + post, distinct)
    decreases |items|, if FreeSpace(c, cap) > 0 then 0 else 1, 0
  {
    hide Leads, DistinctIds, IdsUpTo, DistinctEvents, DisjointEvents, Flat, IdAt;
    var free := FreeSpace(c, cap);
    var fit, rest := items[..free], items[free..];
    assert items == fit + rest;
    var f, e := Fill(c, fit), Chunk(gen + 1, Items([]));
    var us := FillUpdates(c, fit) + [NewItemsChunk(Some(c.id), gen + 1, IdAt(post, 0))];
    var r := Spill(cap, e, IdAt(post, 0), rest, gen + 1);
    var cs0, cs2, cs3 := pre + [c] + post, pre + [f] + [e] + post, pre + [f] + r.chunks + post;
    assert Leads(cs0, us + r.updates, cs3, distinct) by {
      OverflowLeads(pre, c, post, fit, rest, gen, distinct);
      assert Leads(cs2, r.updates, cs3, distinct) by {
        SpillLeads(cap, pre + [f], e, post, rest, gen + 1, distinct);
      }
      LeadsConcat(cs0, us, cs2, r.updates, cs3, distinct);
    }
    assert cs3 == pre + ([f] + r.chunks) + post;
    assert Spill(cap, c, IdAt(post, 0), items, gen) == Spilled([f] + r.chunks, r.gen, us + r.updates);
  }

  /** Filling `c` and linking an empty chunk after it. */
  lemma OverflowLeads(pre: seq<Chunk>, c: Chunk, post: seq<Chunk>, fit: seq<Event>, rest: seq<Event>, gen: nat,
                      distinct: bool)
    requires DistinctIds(pre + [c] + post) && IdsUpTo(pre + [c] + post, gen) && (fit != [] ==> c.content.Items?)
    requires distinct ==> DistinctEvents(fit + rest) && DisjointEvents(Flat(pre + [c] + post), fit + rest)
    ensures var cs2 := pre + [Fill(c, fit)] + [Chunk(gen + 1, Items([]))] + post;
            && DistinctIds(cs2) && IdsUpTo(cs2, gen + 1)
            && Leads(pre + [c] + post, FillUpdates(c, fit) + [NewItemsChunk(Some(c.id), gen + 1, IdAt(post, 0))], cs2,
                     distinct)
            && (distinct ==> DistinctEvents(rest) && DisjointEvents(Flat(cs2), rest))
  {
    var f, e := Fill(c, fit), Chunk(gen + 1, Items([]));
    FillLeads(pre, c, post, fit, rest, distinct);
    SameIds(pre, c, f, post);
    ThenNew(pre + [c] + post, FillUpdates(c, fit), pre + [f], e, post, gen, distinct);
    NewIds(pre + [f], e, post, gen);
    FlatNew(pre + [f], e, post);
  }

  lemma FlatNew(pre: seq<Chunk>, c: Chunk, post: seq<Chunk>)
    requires ItemsOf(c) == []
    ensures Flat(pre + [c] + post) == Flat(pre + post)
  {
    FlatAround(pre, [c], post);
    FlatConcat(pre, post);
    FlatOne(c);
  }
}
