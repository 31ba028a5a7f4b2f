/** The operations of the linked chunk on its nodes in memory. Each does to the chunks
    exactly what it is specified to do, follows only pointers to allocated chunks, keeps
    the list linked in both directions with its ends right, and frees what it unlinks. */
module LinkedChunkMemory {
  import opened LinkedChunkModel
  import opened Wrappers
  import opened LinkedChunkOps
  import opened LinkedChunkTruth
  import opened LinkedChunkPointers
  import Shape = LinkedChunkShape

  /** Nothing an operation does depends on the chunks that are not loaded. */
  lemma StepKeepsValid(cap: nat, s: State, op: Op)
    requires 0 < cap && LinkedChunkOps.Valid(s, cap)
    ensures LinkedChunkOps.Valid(Step(cap, s, op).state, cap)
  {
    var s0 := s.(lazyPrevious := None);
    assert [] + s0.chunks == s0.chunks && IdAt([], -1) == None;
    assert Linked([], s0, cap);
    StepTold([], s0, cap, op, false);
    StepIgnoresLazy(cap, s, op);
  }

  lemma StepIgnoresLazy(cap: nat, s: State, op: Op)
    requires 0 < cap
    ensures var (a, b) := (Step(cap, s, op).state, Step(cap, s.(lazyPrevious := None), op).state);
            a.chunks == b.chunks != [] && a.gen == b.gen
  {
    hide Spill, IndexOf, IdAt;
    hide Push, PushGap, InsertItems, RemoveItemOp, ReplaceItemOp, InsertGap, RemoveEmptyChunk, ReplaceGap;
    var s1 := Initialized(s);
    assert Initialized(s.(lazyPrevious := None)) == s1.(lazyPrevious := None);
    match op
    case PushItemsBack(items) => IgnoresLazyPush(cap, s1, |s1.chunks| - 1, items);
    case PushGapBack(gap) => IgnoresLazySimple(cap, s1, op);
    case InsertItemsAt(p, items) => IgnoresLazyInsert(cap, s1, p, items);
    case RemoveItemAt(p) => IgnoresLazyRemove(s1, p);
    case ReplaceItemAt(p, item) => IgnoresLazySimple(cap, s1, op);
    case InsertGapAt(gap, p) => IgnoresLazyGap(cap, s1, gap, p);
    case RemoveEmptyChunkAt(id) => IgnoresLazySimple(cap, s1, op);
    case ReplaceGapAt(items, id) => IgnoresLazySimple(cap, s1, op);
  }

  ghost predicate Same(a: State, b: State) {
    a.chunks == b.chunks != [] && a.gen == b.gen
  }

  lemma IgnoresLazyPush(cap: nat, s: State, k: nat, items: seq<Event>)
    requires 0 < cap && k < |s.chunks|
    ensures Same(Push(cap, s, k, items).state, Push(cap, s.(lazyPrevious := None), k, items).state)
  {
    hide Spill, IdAt;
  }

  lemma IgnoresLazyInsert(cap: nat, s: State, p: Position, items: seq<Event>)
    requires 0 < cap && s.chunks != []
    ensures Same(InsertItems(cap, s, p, items).state, InsertItems(cap, s.(lazyPrevious := None), p, items).state)
  {
    hide Spill, IdAt, IndexOf, Push;
    var k := IndexOf(s.chunks, p.chunk);
    if k < |s.chunks| { IgnoresLazyPush(cap, s, k, items); }
  }

  lemma IgnoresLazyRemove(s: State, p: Position)
    requires s.chunks != []
    ensures Same(RemoveItemOp(s, p).state, RemoveItemOp(s.(lazyPrevious := None), p).state)
  {
    hide IndexOf;
  }

  lemma IgnoresLazyGap(cap: nat, s: State, gap: string, p: Position)
    requires 0 < cap && s.chunks != []
    ensures Same(InsertGap(cap, s, gap, p).state, InsertGap(cap, s.(lazyPrevious := None), gap, p).state)
  {
    hide Spill, IdAt, IndexOf, PreviousId;
  }

  lemma IgnoresLazySimple(cap: nat, s: State, op: Op)
    requires 0 < cap && s.chunks != []
             && (op.PushGapBack? || op.ReplaceItemAt? || op.RemoveEmptyChunkAt? || op.ReplaceGapAt?)
    ensures Same(StepInitialized(cap, s, op).state, StepInitialized(cap, s.(lazyPrevious := None), op).state)
  {
    hide Spill, IdAt, IndexOf, Push, InsertItems, RemoveItemOp, InsertGap;
  }

  /** `heap` are the chunks that are allocated, `top` an address that no chunk has had, and
      `order` the addresses in the order of the list. */
  class LinkedChunk {
    const cap: nat
    var heap: Heap
    var first: Option<Addr>
    var last: Option<Addr>
    var gen: nat
    var updates: seq<Update>
    var top: Addr
    ghost var order: seq<Addr>

    ghost predicate Links()
      reads this
    {
      0 < cap && LinksOk(heap, order) && forall a | a in heap :: a < top
    }

    ghost function Chunks(): seq<Chunk>
      requires Links()
      reads this
    {
      ChunksOf(heap, order)
    }

    ghost function View(): State
      requires Links()
      reads this
    {
      State(Chunks(), LazyOf(heap, order), gen)
    }

    /** The first chunk may not exist yet; the pointer to the last one may be missing as long
        as there is only one. */
    ghost predicate EndsOk()
      reads this
    {
      && first == AddrAt(order, 0)
      && if last.None? then |order| <= 1 else order != [] && last.value == order[|order| - 1]
    }

    ghost predicate Valid()
      reads this
    {
      Links() && EndsOk() && LinkedChunkOps.Valid(View(), cap)
    }

    constructor (cap: nat)
      requires 0 < cap
      ensures Valid() && View() == Fresh && updates == []
    {
      this.cap := cap;
      heap, first, last, gen, updates, top, order := map[], None, None, 0, [], 0, [];
    }

    /** With one chunk, which may not be the first of its linked chunk. */
    constructor WithChunk(cap: nat, c: Chunk, lazyPrevious: Option<nat>, gen: nat)
      requires 0 < cap
      ensures Links() && EndsOk() && View() == State([c], lazyPrevious, gen) && updates == [] && this.cap == cap
    {
      this.cap := cap;
      heap, first, last := map[0 := Node(None, lazyPrevious, None, c.id, c.content)], Some(0), None;
      this.gen, updates, top, order := gen, [], 1, [0];
      new;
      assert NodeOk(heap, order, 0);
    }

    // --- Primitives ------------------------------------------------------------------------

    /** The first chunk is created when it is first needed. */
    method EnsureFirst()
      requires Links() && EndsOk()
      modifies this
      ensures Links() && EndsOk() && order != []
      ensures View() == Initialized(old(View())) && updates == old(updates) + InitUpdates(old(View()))
    {
      hide NodeOk;
      if first.None? {
        updates := updates + [NewItemsChunk(None, 0, None)];
        heap := heap[top := Node(None, None, None, 0, Items([]))];
        first, order := Some(top), [top];
        top := top + 1;
        assert LinksOk(heap, order) by { OneNode(old(heap), order[0]); }
      }
    }

    /** The last chunk, by the pointer to it or to the first. */
    method Latest() returns (a: Addr)
      requires Links() && EndsOk() && order != []
      ensures a == order[|order| - 1]
    {
      a := if last.Some? then last.value else first.value;
    }

    /** Search from the end. */
    method Find(id: nat) returns (r: Option<Addr>, ghost k: nat)
      requires Links() && EndsOk() && order != [] && DistinctIds(Chunks())
      ensures k == IndexOf(Chunks(), id) && r == AddrAt(order, k)
    {
      hide LinksOk, NodeOk, IndexOf;
      var a := Latest();
      k := |order| - 1;
      while true
        invariant k < |order| && a == order[k]
        invariant forall j | k < j < |order| :: Chunks()[j].id != id
        decreases k
      {
        NodeWithNext(heap, order, k);
        if heap[a].id == id {
          IndexOfAt(Chunks(), k);
          return Some(a), k;
        }
        if heap[a].previous.None? {
          assert k == 0;
          IndexOfAbsent(Chunks(), id);
          return None, |order|;
        }
        a := heap[a].previous.value;
        k := k - 1;
      }
    }

    method SetContent(a: Addr, c: Content, ghost k: nat)
      requires Links() && k < |order| && order[k] == a
      modifies this`heap
      ensures Links() && Chunks() == old(Chunks())[k := Chunk(old(Chunks())[k].id, c)]
      ensures LazyOf(heap, order) == old(LazyOf(heap, order))
    {
      hide LinksOk, NodeOk;
      ContentSet(heap, order, k, c);
      assert forall x :: x in heap[a := heap[a].(content := c)] <==> x in heap;
      heap := heap[a := heap[a].(content := c)];
    }

    /** Link a new chunk after another. */
    method InsertNext(a: Addr, c: Content, ghost k: nat) returns (b: Addr)
      requires Links() && k < |order| && order[k] == a
      modifies this
      ensures Links() && order == Inserted(old(order), k + 1, b)
      ensures Chunks() == old(Chunks())[..k + 1] + [Chunk(gen, c)] + old(Chunks())[k + 1..]
      ensures LazyOf(heap, order) == old(LazyOf(heap, order))
      ensures gen == old(gen) + 1 && first == old(first) && last == old(last)
      ensures updates ==
              old(updates) + [NewUpdate(Some(old(Chunks())[k].id), Chunk(gen, c), IdAt(old(Chunks()), k + 1))]
    {
      hide LinksOk, NodeOk, Inserted, ChunksOf, LazyOf, InsertedNext;
      gen := gen + 1;
      b := top;
      top := top + 1;
      NextInserted(heap, order, k, b, gen, c);
      NextKeys(heap, a, b, gen, c);
      var next := heap[a].next;
      var previousId, nextId := heap[a].id, if next.Some? then Some(heap[next.value].id) else None;
      LinkNext(a, b, c);
      order := Inserted(order, k + 1, b);
      updates := updates + [NewUpdate(Some(previousId), Chunk(gen, c), nextId)];
    }

    method LinkNext(a: Addr, b: Addr, c: Content)
      requires a in heap && (heap[a].next.Some? ==> heap[a].next.value in heap) && b !in heap
      modifies this`heap
      ensures heap == InsertedNext(old(heap), a, b, gen, c)
    {
      var next := heap[a].next;
      heap := heap[b := Node(None, None, None, gen, c)];
      if next.Some? {
        heap := heap[next.value := heap[next.value].(previous := Some(b))];
        heap := heap[b := heap[b].(next := next)];
      }
      heap := heap[a := heap[a].(next := Some(b))];
      heap := heap[b := heap[b].(previous := Some(a))];
    }

    /** Link a new chunk before another. */
    method InsertBefore(a: Addr, c: Content, ghost k: nat) returns (b: Addr)
      requires Links() && k < |order| && order[k] == a
      modifies this
      ensures Links() && order == Inserted(old(order), k, b)
      ensures Chunks() == old(Chunks())[..k] + [Chunk(gen, c)] + old(Chunks())[k..]
      ensures LazyOf(heap, order) == old(LazyOf(heap, order))
      ensures gen == old(gen) + 1 && first == old(first) && last == old(last)
      ensures updates ==
              old(updates) + [NewUpdate(PreviousId(old(View()), k), Chunk(gen, c), Some(old(Chunks())[k].id))]
    {
      hide LinksOk, NodeOk, Inserted, ChunksOf, InsertedBefore;
      gen := gen + 1;
      b := top;
      top := top + 1;
      BeforeInserted(heap, order, k, b, gen, c);
      BeforeKeys(heap, a, b, gen, c);
      var previous := heap[a].previous;
      var previousId := if previous.Some? then Some(heap[previous.value].id) else heap[a].lazyPrevious;
      var nextId := heap[a].id;
      LinkBefore(a, b, c);
      order := Inserted(order, k, b);
      updates := updates + [NewUpdate(previousId, Chunk(gen, c), Some(nextId))];
    }

    method LinkBefore(a: Addr, b: Addr, c: Content)
      requires a in heap && (heap[a].previous.Some? ==> heap[a].previous.value in heap) && b !in heap
      modifies this`heap
      ensures heap == InsertedBefore(old(heap), a, b, gen, c)
    {
      var previous := heap[a].previous;
      heap := heap[b := Node(None, None, None, gen, c)];
      if previous.Some? {
        heap := heap[previous.value := heap[previous.value].(next := Some(b))];
        heap := heap[b := heap[b].(previous := previous)];
      } else {
        heap := heap[b := heap[b].(lazyPrevious := heap[a].lazyPrevious)];
        heap := heap[a := heap[a].(lazyPrevious := None)];
      }
      heap := heap[a := heap[a].(previous := Some(b))];
      heap := heap[b := heap[b].(next := Some(a))];
    }

    /** Unlink a chunk from its neighbours; it is still allocated. */
    method Unlink(a: Addr, ghost k: nat)
      requires Links() && k < |order| && order[k] == a && |order| > 1
      modifies this`heap, this`order, this`updates
      ensures a in heap && heap[a].previous == AddrAt(old(order), k - 1) && heap[a].next == AddrAt(old(order), k + 1)
      ensures LinksOk(heap - {a}, order) && order == Without(old(order), k) && forall x | x in heap :: x < top
      ensures ChunksOf(heap - {a}, order) == old(Chunks())[..k] + old(Chunks())[k + 1..]
      ensures LazyOf(heap - {a}, order) == old(LazyOf(heap, order))
      ensures updates == old(updates) + [RemoveChunk(old(Chunks())[k].id)]
    {
      hide LinksOk, NodeOk, Without, ChunksOf, LazyOf;
      NodeUnlinked(heap, order, k);
      UnlinkedKeys(heap, a);
      ghost var h', order' := Unlinked(heap, a), Without(order, k);
      var previous, next, lazyPrevious := heap[a].previous, heap[a].next, heap[a].lazyPrevious;
      heap := heap[a := heap[a].(lazyPrevious := None)];
      if previous.Some? {
        heap := heap[previous.value := heap[previous.value].(next := next)];
      }
      if next.Some? {
        heap := heap[next.value := heap[next.value].(previous := previous, lazyPrevious := lazyPrevious)];
      }
      assert heap == h';
      assert heap[a].previous == previous && heap[a].next == next by { Apart(old(heap), old(order), k); }
      order := order';
      updates := updates + [RemoveChunk(heap[a].id)];
    }

    /** What still fits. */
    method FillUp(a: Addr, items: seq<Event>, ghost k: nat)
      requires Links() && k < |order| && order[k] == a && (items != [] ==> Chunks()[k].content.Items?)
      modifies this`heap, this`updates
      ensures Links() && LazyOf(heap, order) == old(LazyOf(heap, order))
      ensures Chunks() == old(Chunks())[k := Fill(old(Chunks())[k], items)]
              && Fill(old(Chunks())[k], items).id == old(Chunks())[k].id
      ensures updates == old(updates) + FillUpdates(old(Chunks())[k], items)
    {
      hide LinksOk, NodeOk, ChunksOf, LazyOf, Fill, FillUpdates;
      ghost var cs := Chunks();
      FillIs(cs[k], items);
      assert heap[a].id == cs[k].id && heap[a].content == cs[k].content;
      if |items| > 0 {
        var current := heap[a].content.items;
        SetContent(a, Items(current + items), k);
        updates := updates + [LinkedChunkModel.PushItems(Position(heap[a].id, |current|), items)];
      }
    }

    /** `Chunk::push_items`: fill the chunk, and spill over new ones; gives the last chunk
        that was used. */
    method PushItems(a: Addr, items: seq<Event>, ghost k: nat) returns (b: Addr)
      requires Links() && k < |order| && order[k] == a
      modifies this
      ensures Links() && first == old(first) && last == old(last) && LazyOf(heap, order) == old(LazyOf(heap, order))
      ensures var r := Spill(cap, old(Chunks())[k], IdAt(old(Chunks()), k + 1), items, old(gen));
              && Chunks() == Splice(old(Chunks()), k, r.chunks) && gen == r.gen && updates == old(updates) + r.updates
              && |order| == |old(order)| + |r.chunks| - 1 && b == order[k + |r.chunks| - 1]
                  && order[..k + 1] == old(order)[..k + 1]
              && (k + 1 < |old(order)| ==> order[|order| - 1] == old(order)[|old(order)| - 1])
      decreases |items|, if FreeSpace(Chunks()[k], cap) > 0 then 0 else 1
    {
      hide LinksOk, NodeOk, ChunksOf, LazyOf, Spill, IdAt, Splice, Inserted, Fill, FillUpdates;
      ghost var cs, next, g := Chunks(), IdAt(Chunks(), k + 1), gen;
      SpillCases(cap, cs[k], next, items, g);
      if |items| == 0 {
        SpliceOne(cs, k, cs[k]);
        return a;
      }
      assert heap[a].id == cs[k].id && heap[a].content == cs[k].content;
      var free := if heap[a].content.Gap? || cap <= |heap[a].content.items| then 0 else cap - |heap[a].content.items|;
      if heap[a].content.Items? && |items| <= free {
        var current := heap[a].content.items;
        SetContent(a, Items(current + items), k);
        updates := updates + [LinkedChunkModel.PushItems(Position(heap[a].id, |current|), items)];
        SpliceOne(cs, k, WithItems(cs[k], current + items));
        return a;
      }
      ghost var filled := Fill(cs[k], items[..free]);
      FillUp(a, items[..free], k);
      SetIds(cs, k, filled);
      var e := InsertNext(a, Items([]), k);
      LinkedEmpty(cs, k, filled, Chunk(g + 1, Items([])));
      InsertedKeeps(old(order), k, e);
      OneInserted(old(order), k, e);
      b := PushItems(e, items[free..], k + 1);
      Spilt(cs, k, filled, Chunk(g + 1, Items([])),
            Spill(cap, Chunk(g + 1, Items([])), next, items[free..], g + 1).chunks);
    }

    // --- Operations --------------------------------------------------------------------------

    /** What an operation has to achieve. */
    ghost predicate Did(s: State, us: seq<Update>, op: Op, reply: Reply)
      reads this
    {
      && Valid()
      && var o := Step(cap, s, op); View() == o.state && updates == us + o.updates && reply == o.reply
    }

    method PushItemsBack(items: seq<Event>) returns (reply: Reply)
      requires Valid()
      modifies this
      ensures Did(old(View()), old(updates), Op.PushItemsBack(items), reply)
    {
      hide LinksOk, NodeOk, ChunksOf, LazyOf, Spill, IdAt, Splice, LinkedChunkOps.Valid;
      ghost var op := Op.PushItemsBack(items);
      StepKeepsValid(cap, View(), op);
      EnsureFirst();
      ghost var k := |order| - 1;
      var a := Latest();
      var b := PushItems(a, items, k);
      assert order[0] == order[..k + 1][0];
      NodeWithNext(heap, order, |order| - 1);
      if heap[b].previous.Some? {
        last := Some(b);
      }
      reply := Done;
    }

    method PushGapBack(gap: string) returns (reply: Reply)
      requires Valid()
      modifies this
      ensures Did(old(View()), old(updates), Op.PushGapBack(gap), reply)
    {
      hide LinksOk, NodeOk, ChunksOf, LazyOf, LinkedChunkOps.Valid;
      ghost var op := Op.PushGapBack(gap);
      StepKeepsValid(cap, View(), op);
      EnsureFirst();
      ghost var k, cs := |order| - 1, Chunks();
      var a := Latest();
      var b := InsertNext(a, Gap(gap), k);
      NodeWithNext(heap, order, k);
      last := heap[a].next;
      assert cs[..k + 1] == cs && cs[k + 1..] == [];
      assert Chunks() == cs + [Chunk(gen, Gap(gap))];
      reply := Done;
    }

    method ReplaceItemAt(p: Position, item: Event) returns (reply: Reply)
      requires Valid()
      modifies this
      ensures Did(old(View()), old(updates), Op.ReplaceItemAt(p, item), reply)
    {
      hide LinksOk, NodeOk, ChunksOf, LazyOf, IndexOf, Splice, LinkedChunkOps.Valid;
      ghost var op := Op.ReplaceItemAt(p, item);
      StepKeepsValid(cap, View(), op);
      InitIsDistinct(View(), cap);
      EnsureFirst();
      ghost var cs := Chunks();
      var found, k := Find(p.chunk);
      if found.None? { return Failed(InvalidChunkIdentifier(p.chunk)); }
      var a := found.value;
      if heap[a].content.Gap? { return Failed(ChunkIsAGap(p.chunk)); }
      var current := heap[a].content.items;
      if p.index >= |current| { return Failed(InvalidItemIndex(p.index)); }
      updates := updates + [ReplaceItem(p, item)];
      SetContent(a, Items(current[p.index := item]), k);
      SpliceOne(cs, k, WithItems(cs[k], current[p.index := item]));
      reply := Done;
    }

    /** Chunk `k` of what was `before` has grown; `b`, at index `i`, is its last part now. */
    ghost predicate Grown(before: seq<Addr>, k: nat, i: nat, b: Addr)
      reads this
    {
      && k < |before| && i < |order| && order[i] == b && |order| - i == |before| - k && order[0] == before[0]
      && (k + 1 < |before| ==> order[|order| - 1] == before[|before| - 1])
    }

    /** The pointer to the last chunk is set if `b` is it, and is not the first. */
    method UpdateLast(b: Addr, ghost before: seq<Addr>, ghost k: nat, ghost i: nat)
      requires Links() && Grown(before, k, i, b) && first == Some(before[0]) && k <= i
      requires if last.None? then |before| <= 1 else last.value == before[|before| - 1]
      modifies this`last
      ensures EndsOk() && Links()
    {
      hide LinksOk, NodeOk, ChunksOf, LazyOf;
      NodeWithNext(heap, order, i);
      if heap[b].previous.Some? && heap[b].next.None? {
        last := Some(b);
      }
    }

    method InsertItemsAt(p: Position, items: seq<Event>) returns (reply: Reply)
      requires Valid()
      modifies this
      ensures Did(old(View()), old(updates), Op.InsertItemsAt(p, items), reply)
    {
      hide LinksOk, NodeOk, ChunksOf, LazyOf, IndexOf, LinkedChunkOps.InsertInside, Push, LinkedChunkOps.Valid;
      ghost var op := Op.InsertItemsAt(p, items);
      StepKeepsValid(cap, View(), op);
      InitIsDistinct(View(), cap);
      EnsureFirst();
      var found, k := Find(p.chunk);
      if found.None? { return Failed(InvalidChunkIdentifier(p.chunk)); }
      var a := found.value;
      if heap[a].content.Gap? { return Failed(ChunkIsAGap(p.chunk)); }
      var current := heap[a].content.items;
      if p.index > |current| { return Failed(InvalidItemIndex(p.index)); }
      InsertInto(a, p.index, items, k);
      reply := Done;
    }

    method InsertInto(a: Addr, index: nat, items: seq<Event>, ghost k: nat)
      requires Links() && EndsOk() && k < |order| && order[k] == a && Chunks()[k].content.Items?
               && index <= |Chunks()[k].content.items|
      modifies this
      ensures Links() && EndsOk()
      ensures var o := if index == |old(Chunks())[k].content.items| then Push(cap, old(View()), k, items)
                       else LinkedChunkOps.InsertInside(cap, old(View()), k, index, items);
              View() == o.state && updates == old(updates) + o.updates && o.reply == Done
    {
      hide LinksOk, NodeOk, ChunksOf, LazyOf, Splice, Spill, IdAt, LinkedChunkOps.InsertInside;
      ghost var before := order;
      var b;
      ghost var i;
      if index == |heap[a].content.items| {
        b := PushItems(a, items, k);
        i := |order| - |before| + k;
        assert order[0] == order[..k + 1][0];
      } else {
        b, i := InsertInside(a, index, items, k);
      }
      UpdateLast(b, before, k, i);
    }

    /** Detach the end of the chunk, push the items, and reattach it. */
    method InsertInside(a: Addr, index: nat, items: seq<Event>, ghost k: nat) returns (b: Addr, ghost i: nat)
      requires Links() && k < |order| && order[k] == a && Chunks()[k].content.Items?
               && index < |Chunks()[k].content.items|
      modifies this
      ensures Links() && first == old(first) && last == old(last) && Grown(old(order), k, i, b) && k <= i
      ensures var o := LinkedChunkOps.InsertInside(cap, old(View()), k, index, items);
              View() == o.state && updates == old(updates) + o.updates && o.reply == Done
    {
      hide LinksOk, NodeOk, ChunksOf, LazyOf, Splice, Spill, IdAt;
      ghost var cs, before, g := Chunks(), order, gen;
      var detached := DetachFrom(a, index, k);
      ghost var cut := WithItems(cs[k], cs[k].content.items[..index]);
      SetIds(cs, k, cut);
      var b1 := PushItems(a, items, k);
      ghost var r1 := Spill(cap, cut, IdAt(cs, k + 1), items, g);
      ghost var k1 := k + |r1.chunks| - 1;
      Respliced(cs, k, cut, r1.chunks, Spill(cap, Last(r1.chunks), IdAt(cs, k + 1), detached, r1.gen).chunks);
      ghost var mid := order;
      assert mid[0] == mid[..k + 1][0];
      updates := updates + [StartReattachItems];
      b := PushItems(b1, detached, k1);
      assert order[0] == order[..k1 + 1][0];
      updates := updates + [EndReattachItems];
      i := |order| - |before| + k;
    }

    method RemoveItemAt(p: Position) returns (reply: Reply)
      requires Valid()
      modifies this
      ensures Did(old(View()), old(updates), Op.RemoveItemAt(p), reply)
    {
      hide LinksOk, NodeOk, ChunksOf, LazyOf, IndexOf, Splice, LinkedChunkOps.Valid;
      ghost var op := Op.RemoveItemAt(p);
      StepKeepsValid(cap, View(), op);
      InitIsDistinct(View(), cap);
      EnsureFirst();
      var found, k := Find(p.chunk);
      if found.None? { return Failed(InvalidChunkIdentifier(p.chunk)); }
      var a := found.value;
      if heap[a].content.Gap? { return Failed(ChunkIsAGap(p.chunk)); }
      var current := heap[a].content.items;
      if p.index >= |current| { return Failed(InvalidItemIndex(p.index)); }
      RemoveFrom(a, p.index, k);
      reply := Reply.Removed(current[p.index]);
    }

    /** Remove an item, and its chunk if that was its last one, unless it is the first chunk. */
    method RemoveFrom(a: Addr, index: nat, ghost k: nat)
      requires Links() && EndsOk() && k < |order| && order[k] == a && Chunks()[k].content.Items?
               && index < |Chunks()[k].content.items|
      modifies this
      ensures Links() && EndsOk() && gen == old(gen) && LazyOf(heap, order) == old(LazyOf(heap, order))
      ensures var c := old(Chunks())[k];
              var left := c.content.items[..index] + c.content.items[index + 1..];
              var at := Position(c.id, index);
              if left == [] && k > 0
              then
                && Chunks() == Splice(old(Chunks()), k, [])
                && updates == old(updates) + [RemoveItem(at), RemoveChunk(c.id)]
              else
                && Chunks() == Splice(old(Chunks()), k, [WithItems(c, left)])
                && updates == old(updates) + [RemoveItem(at)]
    {
      hide LinksOk, NodeOk, ChunksOf, LazyOf, Splice, Without;
      ghost var cs, before := Chunks(), order;
      var current := heap[a].content.items;
      var left := current[..index] + current[index + 1..];
      SetContent(a, Items(left), k);
      updates := updates + [RemoveItem(Position(heap[a].id, index))];
      ghost var emptied := WithItems(cs[k], left);
      SpliceOne(cs, k, emptied);
      NodeWithNext(heap, order, k);
      if left == [] && heap[a].previous.Some? {
        Unlink(a, k);
        if heap[a].next.None? {
          last := heap[a].previous;
        }
        Free(a);
        WithoutEnds(before, k);
        SplicedOut(cs, k, emptied);
      }
    }

    method InsertGapAt(gap: string, p: Position) returns (reply: Reply)
      requires Valid()
      modifies this
      ensures Did(old(View()), old(updates), Op.InsertGapAt(gap, p), reply)
    {
      hide LinksOk, NodeOk, ChunksOf, LazyOf, IndexOf, LinkedChunkOps.InsertGapInside, Splice, LinkedChunkOps.Valid;
      ghost var op := Op.InsertGapAt(gap, p);
      StepKeepsValid(cap, View(), op);
      InitIsDistinct(View(), cap);
      EnsureFirst();
      var found, k := Find(p.chunk);
      if found.None? { return Failed(InvalidChunkIdentifier(p.chunk)); }
      var a := found.value;
      if heap[a].content.Gap? { return Failed(ChunkIsAGap(p.chunk)); }
      if p.index == 0 {
        InsertGapBefore(a, gap, k);
        return Done;
      }
      var current := heap[a].content.items;
      if p.index >= |current| { return Failed(InvalidItemIndex(p.index)); }
      InsertGapInside(a, p.index, gap, k);
      reply := Done;
    }

    /** In front of the first item a gap needs no splitting. */
    method InsertGapBefore(a: Addr, gap: string, ghost k: nat)
      requires Links() && EndsOk() && k < |order| && order[k] == a
      modifies this
      ensures Links() && EndsOk() && gen == old(gen) + 1 && LazyOf(heap, order) == old(LazyOf(heap, order))
      ensures Chunks() == Splice(old(Chunks()), k, [Chunk(gen, Gap(gap)), old(Chunks())[k]])
      ensures updates == old(updates) + [NewGapChunk(PreviousId(old(View()), k), gen, Some(old(Chunks())[k].id), gap)]
    {
      hide LinksOk, NodeOk, ChunksOf, LazyOf;
      ghost var cs := Chunks();
      NodeWithNext(heap, order, k);
      var wasFirst, wasLast := heap[a].previous.None?, heap[a].next.None?;
      var b := InsertBefore(a, Gap(gap), k);
      if wasFirst {
        first := Some(b);
        if wasLast {
          last := Some(a);
        }
      }
      assert cs[..k] + [Chunk(gen, Gap(gap))] + cs[k..] == Splice(cs, k, [Chunk(gen, Gap(gap)), cs[k]]);
    }

    /** Detach the end of the chunk, link the gap and a new chunk, and reattach the end there. */
    method InsertGapInside(a: Addr, index: nat, gap: string, ghost k: nat)
      requires Links() && EndsOk() && k < |order| && order[k] == a && Chunks()[k].content.Items?
               && 0 < index < |Chunks()[k].content.items|
      modifies this
      ensures Links() && EndsOk()
      ensures var o := LinkedChunkOps.InsertGapInside(cap, old(View()), k, index, gap);
              View() == o.state && updates == old(updates) + o.updates && o.reply == Done
    {
      hide LinksOk, NodeOk, ChunksOf, LazyOf, Spill, Splice, IdAt;
      ghost var before, cs, g := order, Chunks(), gen;
      var detached := DetachFrom(a, index, k);
      ghost var cut, hole, empty := WithItems(cs[k], cs[k].content.items[..index]), Chunk(g + 1, Gap(gap)),
          Chunk(g + 2, Items([]));
      SetIds(cs, k, cut);
      GapLinked(cs, k, cut, hole, empty, Spill(cap, empty, IdAt(cs, k + 1), detached, g + 2).chunks);
      var e := LinkGap(a, gap, k);
      ghost var mid := order;
      var b := PushItems(e, detached, k + 2);
      assert order[0] == order[..k + 3][0] == mid[..k + 3][0];
      updates := updates + [EndReattachItems];
      UpdateLast(b, before, k, |order| - |before| + k);
    }

    method DetachFrom(a: Addr, index: nat, ghost k: nat) returns (detached: seq<Event>)
      requires Links() && k < |order| && order[k] == a && Chunks()[k].content.Items?
               && index < |Chunks()[k].content.items|
      modifies this`heap, this`updates
      ensures Links() && LazyOf(heap, order) == old(LazyOf(heap, order))
      ensures var c := old(Chunks())[k];
              && detached == c.content.items[index..]
                  && Chunks() == old(Chunks())[k := WithItems(c, c.content.items[..index])]
              && updates == old(updates) + [DetachLastItems(Position(c.id, index))]
    {
      hide LinksOk, NodeOk, ChunksOf, LazyOf;
      var current := heap[a].content.items;
      updates := updates + [DetachLastItems(Position(heap[a].id, index))];
      detached := current[index..];
      SetContent(a, Items(current[..index]), k);
    }

    /** A gap and an empty chunk after it. */
    method LinkGap(a: Addr, gap: string, ghost k: nat) returns (e: Addr)
      requires Links() && k < |order| && order[k] == a
      modifies this
      ensures Links() && first == old(first) && last == old(last) && gen == old(gen) + 2
      ensures LazyOf(heap, order) == old(LazyOf(heap, order))
      ensures |order| == |old(order)| + 2 && order[k + 2] == e && order[0] == old(order)[0]
      ensures k + 1 < |old(order)| ==> order[|order| - 1] == old(order)[|old(order)| - 1]
      ensures var (cs, g) := (old(Chunks()), old(gen));
              && Chunks() == TwoAfter(cs, k, Chunk(g + 1, Gap(gap)), Chunk(g + 2, Items([])))
              && updates ==
                  old(updates) + [NewGapChunk(Some(cs[k].id), g + 1, IdAt(cs, k + 1), gap), StartReattachItems,
                                            NewItemsChunk(Some(g + 1), g + 2, IdAt(cs, k + 1))]
    {
      hide LinksOk, NodeOk, ChunksOf, LazyOf, IdAt, Inserted, TwoAfter;
      ghost var cs, before, g, us, next := Chunks(), order, gen, updates, IdAt(Chunks(), k + 1);
      ghost var hole, empty := Chunk(g + 1, Gap(gap)), Chunk(g + 2, Items([]));
      ghost var u1, u2 := NewGapChunk(Some(cs[k].id), g + 1, next, gap), NewItemsChunk(Some(g + 1), g + 2, next);
      var b := InsertNext(a, Gap(gap), k);
      assert updates == us + [u1] && order[k + 1] == b;
      updates := updates + [StartReattachItems];
      NextAfter(cs, k, hole, empty);
      e := InsertNext(b, Items([]), k + 1);
      assert updates == us + [u1] + [StartReattachItems] + [u2];
      assert us + [u1] + [StartReattachItems] + [u2] == us + [u1, StartReattachItems, u2];
      assert Chunks() == TwoAfter(cs, k, hole, empty);
      TwoInserted(before, k, b, e);
    }

    method RemoveEmptyChunkAt(id: nat) returns (reply: Reply)
      requires Valid()
      modifies this
      ensures Did(old(View()), old(updates), Op.RemoveEmptyChunkAt(id), reply)
    {
      hide LinksOk, NodeOk, ChunksOf, LazyOf, IndexOf, LinkedChunkOps.Valid, Splice;
      ghost var op := Op.RemoveEmptyChunkAt(id);
      StepKeepsValid(cap, View(), op);
      InitIsDistinct(View(), cap);
      EnsureFirst();
      NodeWithNext(heap, order, 0);
      if heap[first.value].next.None? { return Failed(RemovingLastChunk); }
      var found, k := Find(id);
      if found.None? { return Failed(InvalidChunkIdentifier(id)); }
      var a := found.value;
      NodeWithNext(heap, order, k);
      if |ItemsOf(Chunk(heap[a].id, heap[a].content))| > 0 { return Failed(RemovingNonEmptyItemsChunk(id)); }
      var next := heap[a].next;
      var position := if next.Some? then Some(Position(heap[next.value].id, 0)) else None;
      RemoveChunkAt(a, k);
      reply := NextPosition(position);
    }

    method RemoveChunkAt(a: Addr, ghost k: nat)
      requires Links() && EndsOk() && k < |order| && order[k] == a && |order| > 1
      modifies this
      ensures Links() && EndsOk() && gen == old(gen) && LazyOf(heap, order) == old(LazyOf(heap, order))
      ensures Chunks() == Splice(old(Chunks()), k, []) && updates == old(updates) + [RemoveChunk(old(Chunks())[k].id)]
    {
      hide LinksOk, NodeOk, ChunksOf, LazyOf, Without;
      ghost var before := order;
      NodeWithNext(heap, order, k);
      var wasFirst, wasLast, next, previous := heap[a].previous.None?, heap[a].next.None?, heap[a].next,
          heap[a].previous;
      Unlink(a, k);
      WithoutEnds(before, k);
      if wasFirst {
        if next.Some? {
          first := next;
        }
      }
      if wasLast {
        last := previous;
      }
      Free(a);
    }

    method ReplaceGapAt(items: seq<Event>, id: nat) returns (reply: Reply)
      requires Valid()
      modifies this
      ensures Did(old(View()), old(updates), Op.ReplaceGapAt(items, id), reply)
    {
      hide LinksOk, NodeOk, ChunksOf, LazyOf, IndexOf, LinkedChunkOps.Valid, Splice, Spill, IdAt;
      ghost var op := Op.ReplaceGapAt(items, id);
      StepKeepsValid(cap, View(), op);
      InitIsDistinct(View(), cap);
      EnsureFirst();
      var found, k := Find(id);
      if found.None? { return Failed(InvalidChunkIdentifier(id)); }
      var a := found.value;
      if heap[a].content.Items? { return Failed(ChunkIsItems(id)); }
      var new_ := ReplaceChunk(a, items, k);
      reply := ReplacedBy(new_);
    }

    /** The items are linked after the gap before it is unlinked. */
    method ReplaceChunk(a: Addr, items: seq<Event>, ghost k: nat) returns (new_: nat)
      requires Links() && EndsOk() && k < |order| && order[k] == a
      modifies this
      ensures Links() && EndsOk() && new_ == old(gen) + 1 && LazyOf(heap, order) == old(LazyOf(heap, order))
      ensures var next := IdAt(old(Chunks()), k + 1);
              var r := Spill(cap, Chunk(new_, Items([])), next, items, new_);
              && Chunks() == Splice(old(Chunks()), k, r.chunks) && gen == r.gen
              && updates ==
                  old(updates) + [NewItemsChunk(Some(old(Chunks())[k].id), new_, next)] + r.updates
                      + [RemoveChunk(old(Chunks())[k].id)]
    {
      hide LinksOk, NodeOk, ChunksOf, LazyOf, Spill, Splice, IdAt, Without, InsertedAfter;
      NodeWithNext(heap, order, k);
      ghost var before := order;
      var wasFirst := heap[a].previous.None?;
      SpillIds(cap, Chunk(gen + 1, Items([])), IdAt(Chunks(), k + 1), items, gen + 1);
      var b := LinkAfter(a, items, k);
      NodeWithNext(heap, order, |order| - |before| + k);
      var lastUsed := if heap[b].next.None? then Some(b) else None;
      NodeWithNext(heap, order, k);
      var newFirst := heap[a].next;
      new_ := heap[newFirst.value].id;
      ReplaceEnds(a, wasFirst, newFirst, lastUsed, before, k);
    }

    /** Link a new chunk after another and push items on it. */
    method LinkAfter(a: Addr, items: seq<Event>, ghost k: nat) returns (b: Addr)
      requires Links() && k < |order| && order[k] == a
      modifies this
      ensures Links() && first == old(first) && last == old(last) && LazyOf(heap, order) == old(LazyOf(heap, order))
      ensures var r := Spill(cap, Chunk(old(gen) + 1, Items([])), IdAt(old(Chunks()), k + 1), items, old(gen) + 1);
              && Chunks() == InsertedAfter(old(Chunks()), k, r.chunks) && gen == r.gen
              && updates ==
                  old(updates) + [NewItemsChunk(Some(old(Chunks())[k].id), old(gen) + 1, IdAt(old(Chunks()), k + 1))]
                      + r.updates
      ensures |old(order)| < |order| && order[k] == a && order[0] == old(order)[0]
              && b == order[|order| - |old(order)| + k]
      ensures k + 1 < |old(order)| ==> order[|order| - 1] == old(order)[|old(order)| - 1]
    {
      hide LinksOk, NodeOk, ChunksOf, LazyOf, Spill, Splice, IdAt, Inserted, InsertedAfter;
      ghost var cs, before, g := Chunks(), order, gen;
      var e := InsertNext(a, Items([]), k);
      InsertedKeeps(before, k, e);
      OneInserted(before, k, e);
      ghost var mid := order;
      ghost var empty := Chunk(g + 1, Items([]));
      GapReplaced(cs, k, empty, Spill(cap, empty, IdAt(cs, k + 1), items, g + 1).chunks);
      b := PushItems(e, items, k + 1);
      assert order[k] == order[..k + 2][k] == mid[..k + 2][k];
      assert order[0] == order[..k + 2][0] == mid[..k + 2][0];
    }

    /** Unlink a chunk that others have been linked after, and set the ends. */
    method ReplaceEnds(a: Addr, wasFirst: bool, newFirst: Option<Addr>, lastUsed: Option<Addr>, ghost before: seq<Addr>,
                       ghost k: nat)
      requires Links() && k < |before| < |order| && order[k] == a && order[0] == before[0] && first == Some(before[0])
      requires wasFirst == (k == 0) && newFirst == AddrAt(order, k + 1)
      requires if last.None? then |before| <= 1 else last.value == before[|before| - 1]
      requires if k + 1 == |before| then lastUsed == Some(order[|order| - 1])
               else lastUsed.None? && order[|order| - 1] == before[|before| - 1]
      modifies this
      ensures Links() && EndsOk() && gen == old(gen) && LazyOf(heap, order) == old(LazyOf(heap, order))
      ensures Chunks() == old(Chunks())[..k] + old(Chunks())[k + 1..]
              && updates == old(updates) + [RemoveChunk(old(Chunks())[k].id)]
    {
      hide LinksOk, NodeOk, ChunksOf, LazyOf, Without;
      ghost var long := order;
      Unlink(a, k);
      WithoutEnds(long, k);
      if wasFirst {
        first := newFirst;
      }
      if lastUsed.Some? {
        last := lastUsed;
      }
      Free(a);
    }

    /** Any operation does what it means: to the sequence of items and gaps, to the chunks it
        is cut into, and to its caller. */
    method Operate(op: Op) returns (reply: Reply)
      requires Valid()
      modifies this
      ensures Did(old(View()), old(updates), op, reply)
      ensures Shape.Carried(cap, Initialized(old(View())).chunks, Chunks(), op, reply)
    {
      hide LinksOk, LinkedChunkOps.Valid, Step, Shape.Carried;
      Shape.StepCarried(cap, View(), op);
      match op
      case PushItemsBack(items) => reply := this.PushItemsBack(items);
      case PushGapBack(gap) => reply := this.PushGapBack(gap);
      case InsertItemsAt(p, items) => reply := this.InsertItemsAt(p, items);
      case RemoveItemAt(p) => reply := this.RemoveItemAt(p);
      case ReplaceItemAt(p, item) => reply := this.ReplaceItemAt(p, item);
      case InsertGapAt(gap, p) => reply := this.InsertGapAt(gap, p);
      case RemoveEmptyChunkAt(id) => reply := this.RemoveEmptyChunkAt(id);
      case ReplaceGapAt(items, id) => reply := this.ReplaceGapAt(items, id);
    }

    method Clear()
      requires Valid()
      modifies this
      ensures Valid() && View() == Fresh && heap == map[] && updates == [Update.Clear]
    {
      hide NodeOk;
      FreeAll();
      first, last, order, gen := None, None, [], 0;
      updates := [Update.Clear];
      assert View() == Fresh;
    }

    /** Free every chunk, from the last to the first; none is left, and none is freed twice. */
    method FreeAll()
      requires Links() && EndsOk()
      modifies this`heap
      ensures heap == map[]
    {
      hide LinksOk, Upto;
      var current := if last.Some? then last else first;
      ghost var n, h := |order|, heap;
      UptoAll(h, order);
      while current.Some?
        invariant 0 <= n <= |order| && current == AddrAt(order, n - 1) && heap == Upto(h, order, n)
        decreases n
      {
        UptoLess(h, order, n);
        var previous := heap[current.value].previous;
        heap := heap - {current.value};
        current := previous;
        n := n - 1;
      }
      UptoNone(h, order);
    }

    /** Free a chunk that has been unlinked. */
    method Free(a: Addr)
      requires 0 < cap && a in heap && LinksOk(heap - {a}, order) && forall x | x in heap :: x < top
      modifies this`heap
      ensures Links() && heap == old(heap) - {a}
    {
      heap := heap - {a};
    }
  }

  /** The nodes of the first `n` chunks. */
  ghost function Upto(h: Heap, order: seq<Addr>, n: nat): Heap
    requires n <= |order|
  {
    map a | a in h && a in order[..n] :: h[a]
  }

  lemma UptoAll(h: Heap, order: seq<Addr>)
    requires LinksOk(h, order)
    ensures Upto(h, order, |order|) == h
  {
    assert order[..|order|] == order;
  }

  lemma UptoNone(h: Heap, order: seq<Addr>)
    ensures Upto(h, order, 0) == map[]
  {
  }

  lemma UptoLess(h: Heap, order: seq<Addr>, n: nat)
    requires LinksOk(h, order) && 0 < n <= |order|
    ensures var (now, a) := (Upto(h, order, n), order[n - 1]);
            a in now && now[a].previous == AddrAt(order, n - 2) && now - {a} == Upto(h, order, n - 1)
  {
    hide NodeOk;
    NodeWithNext(h, order, n - 1);
    var a := order[n - 1];
    assert order[..n] == order[..n - 1] + [a];
    assert a !in order[..n - 1] by { assert NoDup(order); }
  }

  lemma OneInserted(order: seq<Addr>, k: nat, b: Addr)
    requires k < |order|
    ensures var order1 := Inserted(order, k + 1, b);
            order1[0] == order[0] && order1[k] == order[k]
                && (k + 1 < |order| ==> order1[|order|] == order[|order| - 1])
  {
  }

  lemma TwoInserted(order: seq<Addr>, k: nat, b1: Addr, b2: Addr)
    requires k < |order|
    ensures var order2 := Inserted(Inserted(order, k + 1, b1), k + 2, b2);
            && |order2| == |order| + 2 && order2[k + 2] == b2 && order2[0] == order[0]
            && (k + 1 < |order| ==> order2[|order| + 1] == order[|order| - 1])
  {
  }

  function TwoAfter(cs: seq<Chunk>, k: nat, c1: Chunk, c2: Chunk): (r: seq<Chunk>)
    requires k < |cs|
    ensures |r| == |cs| + 2
  {
    cs[..k + 1] + [c1, c2] + cs[k + 1..]
  }

  lemma NextAfter(cs: seq<Chunk>, k: nat, c1: Chunk, c2: Chunk)
    requires k < |cs|
    ensures var cs1 := cs[..k + 1] + [c1] + cs[k + 1..];
            && cs1[k + 1] == c1 && IdAt(cs1, k + 2) == IdAt(cs, k + 1)
            && cs1[..k + 2] + [c2] + cs1[k + 2..] == TwoAfter(cs, k, c1, c2)
  {
    var cs1 := cs[..k + 1] + [c1] + cs[k + 1..];
    assert cs1[..k + 2] == cs[..k + 1] + [c1] && cs1[k + 2..] == cs[k + 1..];
  }

  /** A gap and an empty chunk after the chunk that is cut, and the end of it there. */
  lemma GapLinked(cs: seq<Chunk>, k: nat, cut: Chunk, hole: Chunk, e: Chunk, rest: seq<Chunk>)
    requires k < |cs|
    ensures var cs2 := TwoAfter(cs[k := cut], k, hole, e);
            cs2[k + 2] == e && IdAt(cs2, k + 3) == IdAt(cs, k + 1)
                && Splice(cs2, k + 2, rest) == Splice(cs, k, [cut, hole] + rest)
  {
    var cs2 := TwoAfter(cs[k := cut], k, hole, e);
    assert cs2[..k + 2] == cs[..k] + [cut, hole] && cs2[k + 3..] == cs[k + 1..];
  }

  lemma GapReplaced(cs: seq<Chunk>, k: nat, e: Chunk, rest: seq<Chunk>)
    requires k < |cs|
    ensures var cs1 := cs[..k + 1] + [e] + cs[k + 1..];
            var cs2 := Splice(cs1, k + 1, rest);
            && cs1[k + 1] == e && IdAt(cs1, k + 2) == IdAt(cs, k + 1)
            && cs2 == InsertedAfter(cs, k, rest)
  {
    var cs1 := cs[..k + 1] + [e] + cs[k + 1..];
    assert cs1[..k + 1] == cs[..k + 1] && cs1[k + 2..] == cs[k + 1..];
  }

  ghost function InsertedAfter(cs: seq<Chunk>, k: nat, mid: seq<Chunk>): (r: seq<Chunk>)
    requires k < |cs|
    ensures |r| == |cs| + |mid| && r[k] == cs[k] && r[..k] + r[k + 1..] == Splice(cs, k, mid)
            && (mid != [] ==> r[k + 1] == mid[0])
  {
    cs[..k + 1] + mid + cs[k + 1..]
  }

  /** The ends of the list without chunk `k`. */
  lemma WithoutEnds(order: seq<Addr>, k: nat)
    requires k < |order| && |order| > 1
    ensures Without(order, k)[0] == (if k == 0 then order[1] else order[0])
    ensures Without(order, k)[|order| - 2] == if k == |order| - 1 then order[|order| - 2] else order[|order| - 1]
  {
  }

  lemma SplicedOut(cs: seq<Chunk>, k: nat, c: Chunk)
    requires k < |cs|
    ensures cs[k := c][..k] + cs[k := c][k + 1..] == Splice(cs, k, [])
  {
  }

  lemma Respliced(cs: seq<Chunk>, k: nat, c: Chunk, m1: seq<Chunk>, m2: seq<Chunk>)
    requires k < |cs| && m1 != []
    ensures var (cs1, k1) := (Splice(cs[k := c], k, m1), k + |m1| - 1);
            && |cs1| == |cs| + |m1| - 1 && cs1[k1] == Last(m1) && IdAt(cs1, k1 + 1) == IdAt(cs, k + 1)
            && Splice(cs1, k1, m2) == Splice(cs, k, m1[..|m1| - 1] + m2)
  {
    var cs1, k1 := Splice(cs[k := c], k, m1), k + |m1| - 1;
    assert cs1[..k1] == cs[..k] + m1[..|m1| - 1] && cs1[k1 + 1..] == cs[k + 1..];
  }

  lemma InitIsDistinct(s: State, cap: nat)
    requires LinkedChunkOps.Valid(s, cap)
    ensures DistinctIds(Initialized(s).chunks)
  {
  }

  lemma FillIs(c: Chunk, items: seq<Event>)
    requires items != [] ==> c.content.Items?
    ensures Fill(c, items).id == c.id
    ensures Fill(c, items) == if items == [] then c else Chunk(c.id, Items(c.content.items + items))
    ensures FillUpdates(c, items) == if items == [] then []
            else [LinkedChunkModel.PushItems(Position(c.id, |c.content.items|), items)]
  {
  }

  lemma InsertedKeeps(order: seq<Addr>, k: nat, b: Addr)
    requires k < |order|
    ensures var order1 := Inserted(order, k + 1, b);
            order1[k + 1] == b && order1[..k + 1] == order[..k + 1] && order1[..k + 2][..k + 1] == order[..k + 1]
  {
  }

  /** The three ways a push goes. */
  lemma SpillCases(cap: nat, c: Chunk, next: Option<nat>, items: seq<Event>, gen: nat)
    requires 0 < cap
    ensures var r := Spill(cap, c, next, items, gen);
            if items == [] then r == Spilled([c], gen, [])
            else if c.content.Items? && |items| <= FreeSpace(c, cap) then
              r == Spilled([WithItems(c, c.content.items + items)], gen,
                           [LinkedChunkModel.PushItems(Position(c.id, |c.content.items|), items)])
            else
              var free := FreeSpace(c, cap);
              var rest := Spill(cap, Chunk(gen + 1, Items([])), next, items[free..], gen + 1);
              r == Spilled([Fill(c, items[..free])] + rest.chunks, rest.gen,
                           FillUpdates(c, items[..free]) + [NewItemsChunk(Some(c.id), gen + 1, next)] + rest.updates)
  {
  }

  lemma SpliceOne(cs: seq<Chunk>, k: nat, c: Chunk)
    requires k < |cs|
    ensures Splice(cs, k, [c]) == cs[k := c]
  {
  }

  lemma SetIds(cs: seq<Chunk>, k: nat, c: Chunk)
    requires k < |cs| && c.id == cs[k].id
    ensures IdAt(cs[k := c], k + 1) == IdAt(cs, k + 1)
  {
  }

  /** An empty chunk after the one that is full. */
  lemma LinkedEmpty(cs: seq<Chunk>, k: nat, c: Chunk, e: Chunk)
    requires k < |cs|
    ensures var cs1 := cs[k := c][..k + 1] + [e] + cs[k := c][k + 1..];
            |cs1| == |cs| + 1 && cs1[k + 1] == e && IdAt(cs1, k + 2) == IdAt(cs, k + 1)
  {
  }

  lemma Spilt(cs: seq<Chunk>, k: nat, c: Chunk, e: Chunk, rest: seq<Chunk>)
    requires k < |cs|
    ensures Splice(cs[k := c][..k + 1] + [e] + cs[k := c][k + 1..], k + 1, rest) == Splice(cs, k, [c] + rest)
  {
    var cs1 := cs[k := c][..k + 1] + [e] + cs[k := c][k + 1..];
    assert cs1[..k + 1] == cs[..k] + [c] && cs1[k + 2..] == cs[k + 1..];
  }

  lemma Apart(h: Heap, order: seq<Addr>, k: nat)
    requires LinksOk(h, order) && k < |order|
    ensures AddrAt(order, k - 1) != Some(order[k]) && AddrAt(order, k + 1) != Some(order[k])
  {
  }

  lemma OneNode(h: Heap, a: Addr)
    requires LinksOk(h, [])
    ensures LinksOk(h[a := Node(None, None, None, 0, Items([]))], [a])
  {
    assert NodeOk(h[a := Node(None, None, None, 0, Items([]))], [a], 0);
  }
}
