/** Where operations cut the sequence of items and gaps into chunks, which chunks they leave
    alone, and what they reply. */
module LinkedChunkShape {
  import opened LinkedChunkModel
  import opened Wrappers
  import opened LinkedChunkOps
  import opened LinkedChunkContents

  // --- Filling chunks ------------------------------------------------------------------------

  predicate IsFull(c: Chunk, cap: nat) {
    c.content.Items? ==> |c.content.items| >= cap
  }

  /** Each chunk but the last has no space left, and no chunk but the first is empty. */
  predicate Packed(cap: nat, cs: seq<Chunk>) {
    && (forall i | 0 <= i < |cs| - 1 :: IsFull(cs[i], cap))
    && (forall i | 1 <= i < |cs| :: cs[i].content.Items? && cs[i].content.items != [])
  }

  /** `cs` is `c` with items pushed: nothing that `c` held has moved, and a new chunk is begun
      only when there is no space left. */
  predicate Fills(cap: nat, c: Chunk, cs: seq<Chunk>) {
    && cs != [] && cs[0].id == c.id && (c.content.Gap? ==> cs[0] == c)
    && (c.content.Items? ==> cs[0].content.Items? && c.content.items <= cs[0].content.items)
    && Packed(cap, cs)
  }

  /** A push fills chunks up, and announces each new chunk and each part of the items once. */
  lemma {:induction false} SpillFills(cap: nat, c: Chunk, next: Option<nat>, items: seq<Event>, gen: nat)
    requires 0 < cap
    ensures var r := Spill(cap, c, next, items, gen);
            && Fills(cap, c, r.chunks) && (items == [] ==> r.chunks == [c])
            && |r.updates| == 2 * (|r.chunks| - 1) + if r.chunks[0] == c then 0 else 1
    decreases |items|, if FreeSpace(c, cap) > 0 then 0 else 1
  {
    if items != [] && !(c.content.Items? && |items| <= FreeSpace(c, cap)) {
      var free := FreeSpace(c, cap);
      var e := Chunk(gen + 1, Items([]));
      SpillFills(cap, e, next, items[free..], gen + 1);
      var r, rest := Spill(cap, c, next, items, gen), Spill(cap, e, next, items[free..], gen + 1);
      assert r.chunks == [Fill(c, items[..free])] + rest.chunks;
      SpillStarts(cap, e, next, items[free..], gen + 1);
      forall i | 0 <= i < |r.chunks| - 1 ensures IsFull(r.chunks[i], cap) {
        if i > 0 { assert r.chunks[i] == rest.chunks[i - 1]; }
      }
      forall i | 1 <= i < |r.chunks| ensures r.chunks[i].content.Items? && r.chunks[i].content.items != [] {
        assert r.chunks[i] == rest.chunks[i - 1];
      }
    }
  }

  /** An empty chunk gets some of the items. */
  lemma SpillStarts(cap: nat, e: Chunk, next: Option<nat>, items: seq<Event>, gen: nat)
    requires 0 < cap && e.content == Items([]) && items != []
    ensures var first := Spill(cap, e, next, items, gen).chunks[0]; first.content.Items? && first.content.items != []
  {
  }

  lemma PackedConcat(cap: nat, a: seq<Chunk>, b: seq<Chunk>)
    requires a != [] && b != [] && Packed(cap, a) && Packed(cap, b)
    requires b[0].content.Items? && (|a| > 1 ==> b[0].content.items != [])
    ensures Packed(cap, a[..|a| - 1] + b)
  {
    var cs := a[..|a| - 1] + b;
    forall i | 0 <= i < |cs| - 1 ensures IsFull(cs[i], cap) {
      assert cs[i] == if i < |a| - 1 then a[i] else b[i - (|a| - 1)];
    }
    forall i | 1 <= i < |cs| ensures cs[i].content.Items? && cs[i].content.items != [] {
      assert cs[i] == if i < |a| - 1 then a[i] else b[i - (|a| - 1)];
    }
  }

  /** Items that are put inside a chunk leave what is before them where it is, too. */
  lemma InsideFills(cap: nat, c: Chunk, next: Option<nat>, index: nat, items: seq<Event>, gen: nat)
    requires 0 < cap && c.content.Items? && index < |c.content.items|
    ensures var cut := WithItems(c, c.content.items[..index]);
            var r1 := Spill(cap, cut, next, items, gen);
            var r2 := Spill(cap, Last(r1.chunks), next, c.content.items[index..], r1.gen);
            Fills(cap, cut, r1.chunks[..|r1.chunks| - 1] + r2.chunks)
  {
    var cut := WithItems(c, c.content.items[..index]);
    SpillFills(cap, cut, next, items, gen);
    var r1 := Spill(cap, cut, next, items, gen);
    SpillFills(cap, Last(r1.chunks), next, c.content.items[index..], r1.gen);
    var r2 := Spill(cap, Last(r1.chunks), next, c.content.items[index..], r1.gen);
    hide Spill;
    assert Last(r1.chunks).content.Items?;
    PackedConcat(cap, r1.chunks, r2.chunks);
  }

  // --- The shape after an operation ----------------------------------------------------------

  /** Only chunk `k` is touched: it becomes `mid`. */
  predicate Touches(cs: seq<Chunk>, k: nat, mid: seq<Chunk>, cs': seq<Chunk>) {
    k < |cs| && |cs'| == |cs| - 1 + |mid| && cs'[..k] == cs[..k] && cs'[k..k + |mid|] == mid
        && cs'[k + |mid|..] == cs[k + 1..]
  }

  lemma SpliceTouches(cs: seq<Chunk>, k: nat, mid: seq<Chunk>)
    requires k < |cs|
    ensures Touches(cs, k, mid, Splice(cs, k, mid))
  {
  }

  /** The chunk an operation is about. */
  function Target(cs: seq<Chunk>, op: Op): nat {
    match op
    case PushItemsBack(_) => if cs == [] then 0 else |cs| - 1
    case PushGapBack(_) => if cs == [] then 0 else |cs| - 1
    case InsertItemsAt(p, _) => IndexOf(cs, p.chunk)
    case RemoveItemAt(p) => IndexOf(cs, p.chunk)
    case ReplaceItemAt(p, _) => IndexOf(cs, p.chunk)
    case InsertGapAt(_, p) => IndexOf(cs, p.chunk)
    case RemoveEmptyChunkAt(id) => IndexOf(cs, id)
    case ReplaceGapAt(_, id) => IndexOf(cs, id)
  }

  /** What becomes of that chunk, `c`; `first` says whether it is the first one. */
  predicate Becomes(cap: nat, c: Chunk, first: bool, mid: seq<Chunk>, op: Op) {
    match op
    case PushItemsBack(_) => Fills(cap, c, mid)
    case PushGapBack(gap) => |mid| == 2 && mid[0] == c && mid[1].content == Gap(gap)
    case InsertItemsAt(p, _) => c.content.Items? && p.index <= |c.content.items|
        && Fills(cap, WithItems(c, c.content.items[..p.index]), mid)
    case RemoveItemAt(_) =>
      if |ItemsOf(c)| == 1 && !first then mid == [] else |mid| == 1 && mid[0].id == c.id && mid[0].content.Items?
    case ReplaceItemAt(_, _) => |mid| == 1 && mid[0].id == c.id && |ItemsOf(mid[0])| == |ItemsOf(c)|
    case InsertGapAt(gap, p) =>
      if p.index == 0 then |mid| == 2 && mid[0].content == Gap(gap) && mid[1] == c
      else
        && |mid| > 2 && p.index <= |ItemsOf(c)| && mid[0] == WithItems(c, ItemsOf(c)[..p.index])
        && mid[1].content == Gap(gap) && Packed(cap, mid[2..])
    case RemoveEmptyChunkAt(_) => mid == []
    case ReplaceGapAt(_, _) => mid != [] && mid[0].content.Items? && Packed(cap, mid)
  }

  /** What is wrong, if an operation is refused. */
  predicate IsWrong(cs: seq<Chunk>, op: Op, e: Error) {
    var k := Target(cs, op);
    match op
    case PushItemsBack(_) => false
    case PushGapBack(_) => false
    case RemoveEmptyChunkAt(id) =>
      if |cs| == 1 then e == RemovingLastChunk
      else if k == |cs| then e == InvalidChunkIdentifier(id)
      else ItemsOf(cs[k]) != [] && e == RemovingNonEmptyItemsChunk(id)
    case ReplaceGapAt(_, id) =>
      if k == |cs| then e == InvalidChunkIdentifier(id) else cs[k].content.Items? && e == ChunkIsItems(id)
    case _ =>
      var p := PositionOf(op);
      if k == |cs| then e == InvalidChunkIdentifier(p.chunk)
      else if cs[k].content.Gap? then e == ChunkIsAGap(p.chunk)
      else p.index >= |cs[k].content.items| && e == InvalidItemIndex(p.index)
  }

  function PositionOf(op: Op): Position
    requires op.InsertItemsAt? || op.RemoveItemAt? || op.ReplaceItemAt? || op.InsertGapAt?
  {
    match op
    case InsertItemsAt(p, _) => p
    case RemoveItemAt(p) => p
    case ReplaceItemAt(p, _) => p
    case InsertGapAt(_, p) => p
  }

  /** What the caller is told: the item that was removed, the start of the chunk after the one
      that is gone, or the first chunk with the new items. */
  predicate Told(cs: seq<Chunk>, cs': seq<Chunk>, op: Op, reply: Reply) {
    var k := Target(cs, op);
    match op
    case RemoveItemAt(p) => At(cs, p).Some? && reply == Removed(At(cs, p).value)
    case RemoveEmptyChunkAt(_) => reply == NextPosition(if k < |cs'| then Some(Position(cs'[k].id, 0)) else None)
    case ReplaceGapAt(_, _) => k < |cs'| && reply == ReplacedBy(cs'[k].id)
    case _ => reply == Done
  }

  /** An operation touches its chunk only, or is refused for the right reason. */
  ghost predicate Shaped(cap: nat, cs: seq<Chunk>, cs': seq<Chunk>, op: Op, reply: Reply) {
    if reply.Failed? then cs' == cs && IsWrong(cs, op, reply.error)
    else
      && Told(cs, cs', op, reply)
      && exists mid ::
          Touches(cs, Target(cs, op), mid, cs') && Becomes(cap, cs[Target(cs, op)], Target(cs, op) == 0, mid, op)
  }

  lemma MidShapes(cap: nat, cs: seq<Chunk>, op: Op, mid: seq<Chunk>, reply: Reply)
    requires Target(cs, op) < |cs| && Becomes(cap, cs[Target(cs, op)], Target(cs, op) == 0, mid, op)
    requires !reply.Failed? && Told(cs, Splice(cs, Target(cs, op), mid), op, reply)
    ensures Shaped(cap, cs, Splice(cs, Target(cs, op), mid), op, reply)
  {
    hide Target, Becomes, Told;
    SpliceTouches(cs, Target(cs, op), mid);
  }

  lemma PushShaped(cap: nat, s: State, items: seq<Event>)
    requires 0 < cap && s.chunks != []
    ensures var o := Push(cap, s, |s.chunks| - 1, items);
            Shaped(cap, s.chunks, o.state.chunks, PushItemsBack(items), o.reply)
  {
    hide Spill, Shaped;
    var k := |s.chunks| - 1;
    var r := Spill(cap, s.chunks[k], IdAt(s.chunks, k + 1), items, s.gen);
    SpillFills(cap, s.chunks[k], IdAt(s.chunks, k + 1), items, s.gen);
    MidShapes(cap, s.chunks, PushItemsBack(items), r.chunks, Done);
  }

  lemma PushGapShaped(cap: nat, s: State, gap: string)
    requires s.chunks != []
    ensures Shaped(cap, s.chunks, PushGap(s, gap).state.chunks, PushGapBack(gap), PushGap(s, gap).reply)
  {
    hide Shaped;
    var k, g := |s.chunks| - 1, Chunk(s.gen + 1, Gap(gap));
    assert Splice(s.chunks, k, [s.chunks[k], g]) == s.chunks + [g];
    MidShapes(cap, s.chunks, PushGapBack(gap), [s.chunks[k], g], Done);
  }

  lemma InsertItemsShaped(cap: nat, s: State, p: Position, items: seq<Event>)
    requires 0 < cap && s.chunks != []
    ensures var o := InsertItems(cap, s, p, items);
            Shaped(cap, s.chunks, o.state.chunks, InsertItemsAt(p, items), o.reply)
  {
    hide Spill, IndexOf;
    var k := IndexOf(s.chunks, p.chunk);
    if ItemsError(s, p.chunk).None? && p.index <= |s.chunks[k].content.items| {
      var c, next := s.chunks[k], IdAt(s.chunks, k + 1);
      var cut := WithItems(c, c.content.items[..p.index]);
      if p.index == |c.content.items| {
        assert cut == c;
        SpillFills(cap, c, next, items, s.gen);
        hide Shaped;
        MidShapes(cap, s.chunks, InsertItemsAt(p, items), Spill(cap, c, next, items, s.gen).chunks, Done);
      } else {
        InsideFills(cap, c, next, p.index, items, s.gen);
        var r1 := Spill(cap, cut, next, items, s.gen);
        var r2 := Spill(cap, Last(r1.chunks), next, c.content.items[p.index..], r1.gen);
        hide Shaped;
        MidShapes(cap, s.chunks, InsertItemsAt(p, items), r1.chunks[..|r1.chunks| - 1] + r2.chunks, Done);
      }
    }
  }

  lemma EditShaped(cap: nat, s: State, op: Op)
    requires 0 < cap && s.chunks != [] && (op.RemoveItemAt? || op.ReplaceItemAt?)
    ensures var o := StepInitialized(cap, s, op); Shaped(cap, s.chunks, o.state.chunks, op, o.reply)
  {
    hide IndexOf, Splice;
    var p := PositionOf(op);
    var k := IndexOf(s.chunks, p.chunk);
    if At(s.chunks, p).Some? {
      var c := s.chunks[k];
      var cur := c.content.items;
      var o := StepInitialized(cap, s, op);
      if op.ReplaceItemAt? {
        hide Shaped;
        MidShapes(cap, s.chunks, op, [WithItems(c, cur[p.index := op.item])], o.reply);
      } else {
        var left := cur[..p.index] + cur[p.index + 1..];
        assert left == [] <==> |cur| == 1;
        hide Shaped;
        MidShapes(cap, s.chunks, op, if left == [] && k > 0 then [] else [WithItems(c, left)], o.reply);
      }
    }
  }

  lemma InsertGapShaped(cap: nat, s: State, gap: string, p: Position)
    requires 0 < cap && s.chunks != []
    ensures var o := InsertGap(cap, s, gap, p); Shaped(cap, s.chunks, o.state.chunks, InsertGapAt(gap, p), o.reply)
  {
    hide IndexOf, Spill;
    var k := IndexOf(s.chunks, p.chunk);
    if ItemsError(s, p.chunk).None? {
      var c, g := s.chunks[k], Chunk(s.gen + 1, Gap(gap));
      if p.index == 0 {
        hide Shaped;
        MidShapes(cap, s.chunks, InsertGapAt(gap, p), [g, c], Done);
      } else if p.index < |c.content.items| {
        var e, next := Chunk(s.gen + 2, Items([])), IdAt(s.chunks, k + 1);
        SpillFills(cap, e, next, c.content.items[p.index..], s.gen + 2);
        var r := Spill(cap, e, next, c.content.items[p.index..], s.gen + 2);
        var mid := [WithItems(c, c.content.items[..p.index]), g] + r.chunks;
        assert mid[2..] == r.chunks;
        hide Shaped;
        MidShapes(cap, s.chunks, InsertGapAt(gap, p), mid, Done);
      }
    }
  }

  lemma ReplaceGapShaped(cap: nat, s: State, op: Op)
    requires 0 < cap && s.chunks != [] && (op.RemoveEmptyChunkAt? || op.ReplaceGapAt?)
    ensures var o := StepInitialized(cap, s, op); Shaped(cap, s.chunks, o.state.chunks, op, o.reply)
  {
    hide IndexOf, Spill;
    var k := Target(s.chunks, op);
    var o := StepInitialized(cap, s, op);
    if k < |s.chunks| && !o.reply.Failed? {
      if op.RemoveEmptyChunkAt? {
        assert forall i | k <= i < |s.chunks| - 1 :: Splice(s.chunks, k, [])[i] == s.chunks[i + 1];
        hide Shaped;
        MidShapes(cap, s.chunks, op, [], o.reply);
      } else {
        var e, next := Chunk(s.gen + 1, Items([])), IdAt(s.chunks, k + 1);
        SpillFills(cap, e, next, op.items, s.gen + 1);
        var r := Spill(cap, e, next, op.items, s.gen + 1);
        assert Splice(s.chunks, k, r.chunks)[k] == r.chunks[0];
        hide Shaped;
        MidShapes(cap, s.chunks, op, r.chunks, o.reply);
      }
    }
  }

  /** Whatever the operation, on whatever chunks. */
  lemma StepShaped(cap: nat, s: State, op: Op)
    requires 0 < cap
    ensures Shaped(cap, Initialized(s).chunks, Step(cap, s, op).state.chunks, op, Step(cap, s, op).reply)
  {
    hide Shaped, Push, PushGap, InsertItems, InsertGap, RemoveItemOp, ReplaceItemOp, RemoveEmptyChunk, ReplaceGap;
    var s1 := Initialized(s);
    match op
    case PushItemsBack(items) => PushShaped(cap, s1, items);
    case PushGapBack(gap) => PushGapShaped(cap, s1, gap);
    case InsertItemsAt(p, items) => InsertItemsShaped(cap, s1, p, items);
    case InsertGapAt(gap, p) => InsertGapShaped(cap, s1, gap, p);
    case RemoveItemAt(_) => EditShaped(cap, s1, op);
    case ReplaceItemAt(_, _) => EditShaped(cap, s1, op);
    case _ => ReplaceGapShaped(cap, s1, op);
  }

  /** From `cs` to `cs'`, an operation does what it means, in the right shape, or is refused
      and does nothing. */
  ghost predicate Carried(cap: nat, cs: seq<Chunk>, cs': seq<Chunk>, op: Op, reply: Reply) {
    && Shaped(cap, cs, cs', op, reply)
    && Meaning(cs, op) == if reply.Failed? then None else Some(Contents(cs'))
  }

  lemma StepCarried(cap: nat, s: State, op: Op)
    requires 0 < cap
    ensures Carried(cap, Initialized(s).chunks, Step(cap, s, op).state.chunks, op, Step(cap, s, op).reply)
    ensures Contents(Initialized(s).chunks) == Contents(s.chunks)
  {
    hide Shaped, Meaning, Contents, StepInitialized;
    StepShaped(cap, s, op);
    StepMeansIt(cap, s, op);
  }

  // --- Identifiers ---------------------------------------------------------------------------

  /** The chunks that updates announce, in order. */
  function NewIds(us: seq<Update>): seq<nat> {
    if us == [] then []
    else
      var front, last := NewIds(us[..|us| - 1]), us[|us| - 1];
      match last
      case NewItemsChunk(_, new_, _) => front + [new_]
      case NewGapChunk(_, new_, _, _) => front + [new_]
      case _ => front
  }

  lemma {:induction false} NewIdsConcat(a: seq<Update>, b: seq<Update>)
    ensures NewIds(a + b) == NewIds(a) + NewIds(b)
    decreases |b|
  {
    if b == [] {
      assert a + b == a;
    } else {
      assert (a + b)[..|a + b| - 1] == a + b[..|b| - 1];
      NewIdsConcat(a, b[..|b| - 1]);
    }
  }

  lemma NewIdsOne(u: Update)
    ensures NewIds([u]) == match u
                           case NewItemsChunk(_, new_, _) => [new_]
                           case NewGapChunk(_, new_, _, _) => [new_]
                           case _ => []
  {
    assert [u][..0] == [];
  }

  ghost predicate Counts(ids: seq<nat>, from: nat, to: nat) {
    from <= to && |ids| == to - from && forall i | 0 <= i < |ids| :: ids[i] == from + 1 + i
  }

  lemma NothingCounts(gen: nat)
    ensures NewIds([]) == [] && Counts([], gen, gen)
  {
  }

  lemma {:induction false} SpillCounts(cap: nat, c: Chunk, next: Option<nat>, items: seq<Event>, gen: nat)
    requires 0 < cap
    ensures var r := Spill(cap, c, next, items, gen); Counts(NewIds(r.updates), gen, r.gen)
    decreases |items|, if FreeSpace(c, cap) > 0 then 0 else 1
  {
    hide NewIds, Counts;
    var r := Spill(cap, c, next, items, gen);
    if items == [] {
      NothingCounts(gen);
    } else if c.content.Items? && |items| <= FreeSpace(c, cap) {
      NothingCounts(gen);
      NewIdsOne(r.updates[0]);
    } else {
      var free, e := FreeSpace(c, cap), Chunk(gen + 1, Items([]));
      var rest := Spill(cap, e, next, items[free..], gen + 1);
      SpillCounts(cap, e, next, items[free..], gen + 1);
      OneMoreCounts(FillUpdates(c, items[..free]), NewItemsChunk(Some(c.id), gen + 1, next), rest.updates, gen,
                    rest.gen);
    }
  }

  lemma OneMoreCounts(fill: seq<Update>, first: Update, rest: seq<Update>, gen: nat, gen': nat)
    requires fill == [] || (|fill| == 1 && fill[0].PushItems?)
    requires first.NewItemsChunk? && first.new_ == gen + 1 && Counts(NewIds(rest), gen + 1, gen')
    ensures Counts(NewIds(fill + [first] + rest), gen, gen')
  {
    NewIdsConcat(fill + [first], rest);
    NewIdsConcat(fill, [first]);
    NewIdsOne(first);
    if fill != [] { assert fill == [fill[0]]; NewIdsOne(fill[0]); }
  }

  lemma InsertInsideCounts(cap: nat, s: State, k: nat, index: nat, items: seq<Event>)
    requires 0 < cap && k < |s.chunks| && s.chunks[k].content.Items? && index < |s.chunks[k].content.items|
    ensures var o := InsertInside(cap, s, k, index, items); Counts(NewIds(o.updates), s.gen, o.state.gen)
  {
    hide NewIds, Spill, IdAt;
    var c, next := s.chunks[k], IdAt(s.chunks, k + 1);
    var cut := WithItems(c, c.content.items[..index]);
    var r1 := Spill(cap, cut, next, items, s.gen);
    var r2 := Spill(cap, Last(r1.chunks), next, c.content.items[index..], r1.gen);
    SpillCounts(cap, cut, next, items, s.gen);
    SpillCounts(cap, Last(r1.chunks), next, c.content.items[index..], r1.gen);
    var detach := [DetachLastItems(Position(c.id, index))];
    NewIdsConcat(detach + r1.updates + [StartReattachItems] + r2.updates, [EndReattachItems]);
    NewIdsConcat(detach + r1.updates + [StartReattachItems], r2.updates);
    NewIdsConcat(detach + r1.updates, [StartReattachItems]);
    NewIdsConcat(detach, r1.updates);
    NewIdsOne(detach[0]);
    NewIdsOne(StartReattachItems);
    NewIdsOne(EndReattachItems);
  }

  lemma InsertGapInsideCounts(cap: nat, s: State, k: nat, index: nat, gap: string)
    requires 0 < cap && k < |s.chunks| && s.chunks[k].content.Items? && 0 < index < |s.chunks[k].content.items|
    ensures var o := InsertGapInside(cap, s, k, index, gap); Counts(NewIds(o.updates), s.gen, o.state.gen)
  {
    hide NewIds, Spill, IdAt;
    var c, next := s.chunks[k], IdAt(s.chunks, k + 1);
    var e := Chunk(s.gen + 2, Items([]));
    var r, cut := Spill(cap, e, next, c.content.items[index..], s.gen + 2), CutUpdates(c.id, index, gap, s.gen, next);
    SpillCounts(cap, e, next, c.content.items[index..], s.gen + 2);
    NewIdsConcat(cut + r.updates, [EndReattachItems]);
    NewIdsConcat(cut, r.updates);
    NewIdsOne(EndReattachItems);
    assert cut == [cut[0]] + [cut[1]] + [cut[2]] + [cut[3]];
    NewIdsConcat([cut[0]] + [cut[1]] + [cut[2]], [cut[3]]);
    NewIdsConcat([cut[0]] + [cut[1]], [cut[2]]);
    NewIdsConcat([cut[0]], [cut[1]]);
    forall i | 0 <= i < 4 ensures NewIds([cut[i]]) == if i == 1 then [s.gen + 1] else if i == 3 then [s.gen + 2] else []
    {
      NewIdsOne(cut[i]);
    }
  }

  lemma ReplaceGapCounts(cap: nat, s: State, items: seq<Event>, id: nat)
    requires 0 < cap
    ensures var o := ReplaceGap(cap, s, items, id); Counts(NewIds(o.updates), s.gen, o.state.gen)
  {
    hide Spill, IdAt, IndexOf;
    var k := IndexOf(s.chunks, id);
    if k < |s.chunks| && s.chunks[k].content.Gap? {
      var next, e := IdAt(s.chunks, k + 1), Chunk(s.gen + 1, Items([]));
      var r, first := Spill(cap, e, next, items, s.gen + 1), NewItemsChunk(Some(id), s.gen + 1, next);
      SpillCounts(cap, e, next, items, s.gen + 1);
      hide NewIds;
      NewIdsConcat([first] + r.updates, [RemoveChunk(id)]);
      NewIdsConcat([first], r.updates);
      NewIdsOne(first);
      NewIdsOne(RemoveChunk(id));
    }
  }

  /** Identifiers are handed out one after the other, none twice and none left out; a first
      chunk that is made on the way has number 0. */
  lemma StepCounts(cap: nat, s: State, op: Op)
    requires 0 < cap
    ensures var o, first := Step(cap, s, op), if s.chunks == [] then [0] else [];
            first <= NewIds(o.updates) && Counts(NewIds(o.updates)[|first|..], s.gen, o.state.gen)
  {
    hide Step, NewIds, Counts;
    var t := Initialized(s);
    InitializedCounts(cap, t, op);
    var o := StepInitialized(cap, t, op);
    NewIdsConcat(InitUpdates(s), o.updates);
    NewIdsOne(NewItemsChunk(None, 0, None));
    NothingCounts(s.gen);
    var first: seq<nat> := if s.chunks == [] then [0] else [];
    assert (first + NewIds(o.updates))[|first|..] == NewIds(o.updates);
    StepIs(cap, s, op);
  }

  lemma StepIs(cap: nat, s: State, op: Op)
    requires 0 < cap
    ensures var o := StepInitialized(cap, Initialized(s), op);
            Step(cap, s, op) == o.(updates := InitUpdates(s) + o.updates)
  {
  }

  lemma InitializedCounts(cap: nat, s: State, op: Op)
    requires 0 < cap && s.chunks != []
    ensures var o := StepInitialized(cap, s, op); Counts(NewIds(o.updates), s.gen, o.state.gen)
  {
    hide Spill, IndexOf, InsertInside, InsertGapInside, ReplaceGap;
    match op
    case PushItemsBack(items) => PushCounts(cap, s, |s.chunks| - 1, items);
    case PushGapBack(gap) => NewIdsOne(PushGap(s, gap).updates[0]);
    case InsertItemsAt(p, items) => InsertItemsCounts(cap, s, p, items);
    case RemoveItemAt(p) => RemoveItemCounts(s, p);
    case ReplaceItemAt(p, item) =>
      if ReplaceItemOp(s, p, item).updates != [] { NewIdsOne(ReplaceItem(p, item)); }
    case InsertGapAt(gap, p) => InsertGapCounts(cap, s, gap, p);
    case RemoveEmptyChunkAt(id) => NewIdsOne(RemoveChunk(id));
    case ReplaceGapAt(items, id) => ReplaceGapCounts(cap, s, items, id);
  }

  lemma PushCounts(cap: nat, s: State, k: nat, items: seq<Event>)
    requires 0 < cap && k < |s.chunks|
    ensures var o := Push(cap, s, k, items); Counts(NewIds(o.updates), s.gen, o.state.gen)
  {
    hide Spill, NewIds;
    SpillCounts(cap, s.chunks[k], IdAt(s.chunks, k + 1), items, s.gen);
  }

  lemma InsertItemsCounts(cap: nat, s: State, p: Position, items: seq<Event>)
    requires 0 < cap
    ensures var o := InsertItems(cap, s, p, items); Counts(NewIds(o.updates), s.gen, o.state.gen)
  {
    hide Spill, IndexOf, InsertInside, Push;
    if ItemsError(s, p.chunk).None? {
      var k := IndexOf(s.chunks, p.chunk);
      var n := |s.chunks[k].content.items|;
      if p.index == n {
        PushCounts(cap, s, k, items);
      } else if p.index < n {
        InsertInsideCounts(cap, s, k, p.index, items);
      }
    }
  }

  lemma RemoveItemCounts(s: State, p: Position)
    ensures var o := RemoveItemOp(s, p); Counts(NewIds(o.updates), s.gen, o.state.gen)
  {
    hide IndexOf;
    NewIdsOne(RemoveItem(p));
    NewIdsOne(RemoveChunk(p.chunk));
    NewIdsConcat([RemoveItem(p)], [RemoveChunk(p.chunk)]);
    assert [RemoveItem(p)] + [RemoveChunk(p.chunk)] == [RemoveItem(p), RemoveChunk(p.chunk)];
  }

  lemma InsertGapCounts(cap: nat, s: State, gap: string, p: Position)
    requires 0 < cap
    ensures var o := InsertGap(cap, s, gap, p); Counts(NewIds(o.updates), s.gen, o.state.gen)
  {
    hide IndexOf, InsertGapInside;
    if ItemsError(s, p.chunk).None? {
      var k := IndexOf(s.chunks, p.chunk);
      if p.index == 0 {
        NewIdsOne(InsertGap(cap, s, gap, p).updates[0]);
      } else if p.index < |s.chunks[k].content.items| {
        InsertGapInsideCounts(cap, s, k, p.index, gap);
      }
    }
  }
}
