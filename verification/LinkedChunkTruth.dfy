/** The updates emitted by every operation of a linked chunk describe, one by one,
    exactly what the operation did, also when only the end of the linked chunk is
    in memory. */
module LinkedChunkTruth {
  import opened LinkedChunkModel
  import opened Wrappers
  import opened LinkedChunkOps

  /** `s` holds the end of the linked chunk whose beginning, `pre`, has not been
      loaded; the identifiers of both are known to the generator. */
  predicate Linked(pre: seq<Chunk>, s: State, cap: nat) {
    && Valid(s, cap)
    && DistinctIds(pre + s.chunks)
    && IdsUpTo(pre + s.chunks, s.gen)
    && s.lazyPrevious == IdAt(pre, |pre| - 1)
    && (s.chunks == [] ==> pre == [])
  }

  /** The operation brings no event that is already there. */
  predicate KeepsDistinct(full: seq<Chunk>, op: Op) {
    && DistinctEvents(Flat(full))
    && match op
       case PushItemsBack(items) => DistinctEvents(items) && DisjointEvents(Flat(full), items)
       case InsertItemsAt(_, items) => DistinctEvents(items) && DisjointEvents(Flat(full), items)
       case ReplaceGapAt(items, _) => DistinctEvents(items) && DisjointEvents(Flat(full), items)
       case ReplaceItemAt(p, item) => At(full, p).Some? ==> At(full, p).value.id == item.id
       case _ => true
  }

  // --- Around chunk k ----------------------------------------------------------

  /** Everything before chunk `k`, loaded or not. */
  function Before(pre: seq<Chunk>, s: State, k: nat): seq<Chunk>
    requires k < |s.chunks|
  {
    pre + s.chunks[..k]
  }

  function After(s: State, k: nat): seq<Chunk>
    requires k < |s.chunks|
  {
    s.chunks[k + 1..]
  }

  lemma Focus(pre: seq<Chunk>, s: State, k: nat)
    requires k < |s.chunks|
    ensures pre + s.chunks == Before(pre, s, k) + [s.chunks[k]] + After(s, k)
    ensures IdAt(s.chunks, k + 1) == IdAt(After(s, k), 0)
  {
  }

  lemma Spliced(pre: seq<Chunk>, s: State, k: nat, mid: seq<Chunk>)
    requires k < |s.chunks|
    ensures pre + Splice(s.chunks, k, mid) == Before(pre, s, k) + mid + After(s, k)
  {
  }

  /** Replacing `c` by itself and freshly numbered chunks. */
  lemma FreshlyNumbered(l: seq<Chunk>, c: Chunk, r: seq<Chunk>, mid: seq<Chunk>, gen: nat)
    requires DistinctIds(l + [c] + r) && IdsUpTo(l + [c] + r, gen)
    requires mid != [] && mid[0].id == c.id && forall i | 1 <= i < |mid| :: mid[i].id == gen + i
    ensures DistinctIds(l + mid + r) && IdsUpTo(l + mid + r, gen + |mid| - 1)
  {
    var cs, cs' := l + [c] + r, l + mid + r;
    assert cs[|l|] == c;
    forall i | 0 <= i < |cs'|
      ensures cs'[i].id == if |l| < i < |l| + |mid| then gen + i - |l| else if i <= |l| then cs[i].id
              else cs[i - |mid| + 1].id
      ensures |l| < i < |l| + |mid| || cs'[i].id <= gen
    {
    }
    forall i, j | 0 <= i < j < |cs'| ensures cs'[i].id != cs'[j].id {
      var i', j' := if i <= |l| then i else i - |mid| + 1, if j <= |l| then j else j - |mid| + 1;
      var iOld, jOld := !(|l| < i < |l| + |mid|), !(|l| < j < |l| + |mid|);
      if iOld && jOld {
        assert cs[i'].id != cs[j'].id;
      }
    }
  }

  lemma CapacityAround(cs: seq<Chunk>, k: nat, mid: seq<Chunk>, cap: nat)
    requires k < |cs| && WithinCapacity(cs, cap) && WithinCapacity(mid, cap)
    ensures WithinCapacity(Splice(cs, k, mid), cap)
  {
    var cs' := Splice(cs, k, mid);
    forall i | 0 <= i < |cs'| ensures |ItemsOf(cs'[i])| <= cap {
      if i < k {
        assert cs'[i] == cs[i];
      } else if i < k + |mid| {
        assert cs'[i] == mid[i - k];
      } else {
        assert cs'[i] == cs[i - |mid| + 1];
      }
    }
  }

  /** A valid state after replacing chunk `k` by itself and fresh chunks. */
  lemma SplicedLinked(pre: seq<Chunk>, s: State, cap: nat, k: nat, mid: seq<Chunk>)
    requires Linked(pre, s, cap) && k < |s.chunks|
    requires mid != [] && mid[0].id == s.chunks[k].id && Numbered(mid, s.gen, cap)
    ensures Linked(pre, s.(chunks := Splice(s.chunks, k, mid), gen := s.gen + |mid| - 1), cap)
  {
    Focus(pre, s, k);
    Spliced(pre, s, k, mid);
    FreshlyNumbered(Before(pre, s, k), s.chunks[k], After(s, k), mid, s.gen);
    CapacityAround(s.chunks, k, mid, cap);
    SuffixIds(pre, Splice(s.chunks, k, mid), s.gen + |mid| - 1);
  }

  lemma SuffixIds(pre: seq<Chunk>, cs: seq<Chunk>, gen: nat)
    requires DistinctIds(pre + cs) && IdsUpTo(pre + cs, gen)
    ensures DistinctIds(cs) && IdsUpTo(cs, gen)
  {
    var full := pre + cs;
    assert forall i | 0 <= i < |cs| :: full[|pre| + i] == cs[i];
  }

  // --- Pushing -----------------------------------------------------------------

  lemma PushTold(pre: seq<Chunk>, s: State, cap: nat, k: nat, items: seq<Event>, distinct: bool)
    requires 0 < cap && Linked(pre, s, cap) && k < |s.chunks|
    requires distinct ==> DistinctEvents(items) && DisjointEvents(Flat(pre + s.chunks), items)
    ensures var o := Push(cap, s, k, items);
            Leads(pre + s.chunks, o.updates, pre + o.state.chunks, distinct) && Linked(pre, o.state, cap)
  {
    var r := Spill(cap, s.chunks[k], IdAt(s.chunks, k + 1), items, s.gen);
    assert Leads(pre + s.chunks, r.updates, pre + Splice(s.chunks, k, r.chunks), distinct) by {
      Focus(pre, s, k);
      Spliced(pre, s, k, r.chunks);
      SpillLeads(cap, Before(pre, s, k), s.chunks[k], After(s, k), items, s.gen, distinct);
    }
    SpillIds(cap, s.chunks[k], IdAt(s.chunks, k + 1), items, s.gen);
    SplicedLinked(pre, s, cap, k, r.chunks);
  }

  // --- Inserting inside a chunk ------------------------------------------------

  lemma DetachedLeads(l: seq<Chunk>, c: Chunk, r: seq<Chunk>, index: nat, distinct: bool)
    requires DistinctIds(l + [c] + r) && c.content.Items? && index <= |c.content.items|
    ensures Leads(l + [c] + r, [DetachLastItems(Position(c.id, index))],
                  l + [WithItems(c, c.content.items[..index])] + r, distinct)
  {
    IndexOfAround(l, c, r);
    SpliceAround(l, c, r, [WithItems(c, c.content.items[..index])]);
    LeadsOne(l + [c] + r, DetachLastItems(Position(c.id, index)), l + [WithItems(c, c.content.items[..index])] + r,
             distinct);
  }

  /** The items of a list whose middle is `mid`, when those of `mid` are known. */
  lemma FlatMiddle(l: seq<Chunk>, mid: seq<Chunk>, r: seq<Chunk>, items: seq<Event>)
    requires Flat(mid) == items
    ensures Flat(l + mid + r) == Flat(l) + items + Flat(r)
  {
    FlatAround(l, mid, r);
  }

  /** With the tail `b` detached, new items and then `b` are both new to the list. */
  lemma DetachedIsNew(x: seq<Event>, a: seq<Event>, b: seq<Event>, y: seq<Event>, items: seq<Event>)
    requires DistinctEvents(x + (a + b) + y) && DisjointEvents(x + (a + b) + y, items)
    ensures DisjointEvents(x + a + y, items)
    ensures DistinctEvents(b) && DisjointEvents(x + (a + items) + y, b)
  {
    DistinctConcat(x + (a + b), y);
    DistinctConcat(x, a + b);
    DistinctConcat(a, b);
    forall e, f | e in x + (a + items) + y && f in b ensures e.id != f.id {
      assert f in x + (a + b) + y;
      assert f in a + b && f in x + (a + b);
    }
  }

  /** The same, for the lists before and after pushing the new items on the
      shortened chunk. */
  lemma InsertIsNew(cap: nat, l: seq<Chunk>, c: Chunk, r: seq<Chunk>, index: nat, items: seq<Event>, gen: nat)
    requires 0 < cap && c.content.Items? && index < |c.content.items|
    requires DistinctEvents(Flat(l + [c] + r)) && DisjointEvents(Flat(l + [c] + r), items)
    ensures var c1 := WithItems(c, c.content.items[..index]);
            && DisjointEvents(Flat(l + [c1] + r), items)
            && DistinctEvents(c.content.items[index..])
            && DisjointEvents(Flat(l + Spill(cap, c1, IdAt(r, 0), items, gen).chunks + r), c.content.items[index..])
  {
    var a, b := c.content.items[..index], c.content.items[index..];
    var c1 := WithItems(c, a);
    assert c.content.items == a + b;
    FlatOne(c);
    FlatOne(c1);
    FlatMiddle(l, [c], r, a + b);
    FlatMiddle(l, [c1], r, a);
    SpillAdds(cap, c1, IdAt(r, 0), items, gen);
    FlatMiddle(l, Spill(cap, c1, IdAt(r, 0), items, gen).chunks, r, a + items);
    DetachedIsNew(Flat(l), a, b, Flat(r), items);
  }

  /** Detaching the tail, then pushing the new items. */
  lemma DetachAndPushLeads(cap: nat, l: seq<Chunk>, c: Chunk, r: seq<Chunk>, index: nat, items: seq<Event>, gen: nat,
                           distinct: bool)
    requires 0 < cap && c.content.Items? && index <= |c.content.items|
    requires DistinctIds(l + [c] + r) && IdsUpTo(l + [c] + r, gen)
    requires distinct ==>
             DistinctEvents(items) && DisjointEvents(Flat(l + [WithItems(c, c.content.items[..index])] + r), items)
    ensures var r1 := Spill(cap, WithItems(c, c.content.items[..index]), IdAt(r, 0), items, gen);
            Leads(l + [c] + r, [DetachLastItems(Position(c.id, index))] + r1.updates + [StartReattachItems],
                  l + r1.chunks + r, distinct)
  {
    var c1 := WithItems(c, c.content.items[..index]);
    var r1 := Spill(cap, c1, IdAt(r, 0), items, gen);
    var cs0, cs1, cs2 := l + [c] + r, l + [c1] + r, l + r1.chunks + r;
    assert Leads(cs0, [DetachLastItems(Position(c.id, index))] + r1.updates, cs2, distinct) by {
      SameIds(l, c, c1, r);
      DetachedLeads(l, c, r, index, distinct);
      SpillLeads(cap, l, c1, r, items, gen, distinct);
      LeadsConcat(cs0, [DetachLastItems(Position(c.id, index))], cs1, r1.updates, cs2, distinct);
    }
    ThenOne(cs0, [DetachLastItems(Position(c.id, index))] + r1.updates, cs2, StartReattachItems, cs2, distinct);
  }

  /** Pushing the tail back on the last chunk of `mid`. */
  lemma ReattachLeads(cap: nat, l: seq<Chunk>, mid: seq<Chunk>, r: seq<Chunk>, tail: seq<Event>, gen: nat,
                      distinct: bool)
    requires 0 < cap && mid != [] && DistinctIds(l + mid + r) && IdsUpTo(l + mid + r, gen)
    requires distinct ==> DistinctEvents(tail) && DisjointEvents(Flat(l + mid + r), tail)
    ensures var r2 := Spill(cap, Last(mid), IdAt(r, 0), tail, gen);
            Leads(l + mid + r, r2.updates + [EndReattachItems], l + (mid[..|mid| - 1] + r2.chunks) + r, distinct)
  {
    var l2 := l + mid[..|mid| - 1];
    var r2 := Spill(cap, Last(mid), IdAt(r, 0), tail, gen);
    var cs := l2 + r2.chunks + r;
    assert l + mid + r == l2 + [Last(mid)] + r;
    assert cs == l + (mid[..|mid| - 1] + r2.chunks) + r;
    SpillLeads(cap, l2, Last(mid), r, tail, gen, distinct);
    ThenOne(l + mid + r, r2.updates, cs, EndReattachItems, cs, distinct);
  }

  lemma InsertInsideLeads(cap: nat, l: seq<Chunk>, c: Chunk, r: seq<Chunk>, index: nat, items: seq<Event>, gen: nat,
                          distinct: bool)
    requires 0 < cap && c.content.Items? && index < |c.content.items|
    requires DistinctIds(l + [c] + r) && IdsUpTo(l + [c] + r, gen)
    requires distinct ==>
             DistinctEvents(items) && DistinctEvents(Flat(l + [c] + r)) && DisjointEvents(Flat(l + [c] + r), items)
    ensures var r1 := Spill(cap, WithItems(c, c.content.items[..index]), IdAt(r, 0), items, gen);
            var r2 := Spill(cap, Last(r1.chunks), IdAt(r, 0), c.content.items[index..], r1.gen);
            Leads(l + [c] + r, [DetachLastItems(Position(c.id, index))] + r1.updates + [StartReattachItems] + r2.updates
                               + [EndReattachItems], l + (r1.chunks[..|r1.chunks| - 1] + r2.chunks) + r, distinct)
  {
    var c1, tail := WithItems(c, c.content.items[..index]), c.content.items[index..];
    var r1 := Spill(cap, c1, IdAt(r, 0), items, gen);
    var r2 := Spill(cap, Last(r1.chunks), IdAt(r, 0), tail, r1.gen);
    var us1, us2 := [DetachLastItems(Position(c.id, index))] + r1.updates + [StartReattachItems],
        r2.updates + [EndReattachItems];
    var cs0, cs2, cs3 := l + [c] + r, l + r1.chunks + r, l + (r1.chunks[..|r1.chunks| - 1] + r2.chunks) + r;
    if distinct { InsertIsNew(cap, l, c, r, index, items, gen); }
    assert Leads(cs0, us1, cs2, distinct) by {
      DetachAndPushLeads(cap, l, c, r, index, items, gen, distinct);
    }
    assert Leads(cs2, us2, cs3, distinct) by {
      SameIds(l, c, c1, r);
      SpillIds(cap, c1, IdAt(r, 0), items, gen);
      FreshlyNumbered(l, c1, r, r1.chunks, gen);
      ReattachLeads(cap, l, r1.chunks, r, tail, r1.gen, distinct);
    }
    LeadsConcat(cs0, us1, cs2, us2, cs3, distinct);
    assert us1 + us2 == us1 + r2.updates + [EndReattachItems];
  }

  lemma InsertInsideTold(pre: seq<Chunk>, s: State, cap: nat, k: nat, index: nat, items: seq<Event>, distinct: bool)
    requires 0 < cap && Linked(pre, s, cap) && k < |s.chunks|
    requires s.chunks[k].content.Items? && index < |s.chunks[k].content.items|
    requires distinct ==>
             DistinctEvents(items) && DistinctEvents(Flat(pre + s.chunks))
                 && DisjointEvents(Flat(pre + s.chunks), items)
    ensures var o := InsertInside(cap, s, k, index, items);
            Leads(pre + s.chunks, o.updates, pre + o.state.chunks, distinct)
  {
    var c, next := s.chunks[k], IdAt(s.chunks, k + 1);
    var r1 := Spill(cap, WithItems(c, c.content.items[..index]), next, items, s.gen);
    var r2 := Spill(cap, Last(r1.chunks), next, c.content.items[index..], r1.gen);
    Focus(pre, s, k);
    Spliced(pre, s, k, r1.chunks[..|r1.chunks| - 1] + r2.chunks);
    InsertInsideLeads(cap, Before(pre, s, k), c, After(s, k), index, items, s.gen, distinct);
  }

  lemma InsertInsideLinked(pre: seq<Chunk>, s: State, cap: nat, k: nat, index: nat, items: seq<Event>)
    requires 0 < cap && Linked(pre, s, cap) && k < |s.chunks|
    requires s.chunks[k].content.Items? && index < |s.chunks[k].content.items|
    ensures Linked(pre, InsertInside(cap, s, k, index, items).state, cap)
  {
    var c, next := s.chunks[k], IdAt(s.chunks, k + 1);
    var c1 := WithItems(c, c.content.items[..index]);
    var r1 := Spill(cap, c1, next, items, s.gen);
    var r2 := Spill(cap, Last(r1.chunks), next, c.content.items[index..], r1.gen);
    var mid := r1.chunks[..|r1.chunks| - 1] + r2.chunks;
    assert r2.gen == s.gen + |mid| - 1 && mid[0].id == c.id && Numbered(mid, s.gen, cap) by {
      SpillIds(cap, c1, next, items, s.gen);
      SpillIds(cap, Last(r1.chunks), next, c.content.items[index..], r1.gen);
      Joined(r1.chunks, r2.chunks, s.gen, cap);
    }
    SplicedLinked(pre, s, cap, k, mid);
  }

  /** Numbering goes on when the last chunk of `a` spills over into `b`. */
  lemma Joined(a: seq<Chunk>, b: seq<Chunk>, gen: nat, cap: nat)
    requires a != [] && b != [] && Numbered(a, gen, cap) && Numbered(b, gen + |a| - 1, cap) && b[0].id == Last(a).id
    ensures var mid := a[..|a| - 1] + b; Numbered(mid, gen, cap) && mid[0].id == a[0].id
  {
    var n := |a| - 1;
    var mid := a[..n] + b;
    forall i | 0 <= i < |mid| ensures |ItemsOf(mid[i])| <= cap && (i >= 1 ==> mid[i].id == gen + i) {
      if i < n { assert mid[i] == a[i]; } else { assert mid[i] == b[i - n]; }
    }
  }

  // --- Gaps --------------------------------------------------------------------

  lemma LinkedFrom(pre: seq<Chunk>, s: State, s': State, cap: nat)
    requires Linked(pre, s, cap) && s'.lazyPrevious == s.lazyPrevious && s'.chunks != []
    requires DistinctIds(pre + s'.chunks) && IdsUpTo(pre + s'.chunks, s'.gen) && WithinCapacity(s'.chunks, cap)
    ensures Linked(pre, s', cap)
  {
    SuffixIds(pre, s'.chunks, s'.gen);
  }

  lemma PushGapTold(pre: seq<Chunk>, s: State, cap: nat, gap: string, distinct: bool)
    requires Linked(pre, s, cap) && s.chunks != []
    ensures var o := PushGap(s, gap);
            Leads(pre + s.chunks, o.updates, pre + o.state.chunks, distinct) && Linked(pre, o.state, cap)
  {
    hide Leads, Apply;
    var full, c := pre + s.chunks, Chunk(s.gen + 1, Gap(gap));
    assert full + [] == full && full + [c] + [] == pre + (s.chunks + [c]);
    assert IdAt(full, |full| - 1) == Some(Last(s.chunks).id);
    NewApplies(full, c, [], s.gen);
    LeadsOne(full, NewGapChunk(Some(Last(s.chunks).id), c.id, None, gap), full + [c] + [], distinct);
    NewIds(full, c, [], s.gen);
    LinkedFrom(pre, s, PushGap(s, gap).state, cap);
  }

  lemma InsertGapBeforeTold(pre: seq<Chunk>, s: State, cap: nat, k: nat, gap: string, distinct: bool)
    requires Linked(pre, s, cap) && k < |s.chunks|
    ensures var c := Chunk(s.gen + 1, Gap(gap));
            var s' := s.(chunks := Splice(s.chunks, k, [c, s.chunks[k]]), gen := s.gen + 1);
            && Leads(pre + s.chunks, [NewGapChunk(PreviousId(s, k), c.id, Some(s.chunks[k].id), gap)], pre + s'.chunks,
                     distinct)
            && Linked(pre, s', cap)
  {
    var c := Chunk(s.gen + 1, Gap(gap));
    var l, r := Before(pre, s, k), s.chunks[k..];
    assert pre + s.chunks == l + r;
    assert pre + Splice(s.chunks, k, [c, s.chunks[k]]) == l + [c] + r;
    assert IdAt(l, |l| - 1) == PreviousId(s, k) && IdAt(r, 0) == Some(s.chunks[k].id);
    NewApplies(l, c, r, s.gen);
    LeadsOne(l + r, NewGapChunk(PreviousId(s, k), c.id, Some(s.chunks[k].id), gap), l + [c] + r, distinct);
    NewIds(l, c, r, s.gen);
    CapacityAround(s.chunks, k, [c, s.chunks[k]], cap);
    LinkedFrom(pre, s, s.(chunks := Splice(s.chunks, k, [c, s.chunks[k]]), gen := s.gen + 1), cap);
  }

  /** Detaching the tail, then linking the gap and an empty chunk. */
  lemma DetachAndLinkLeads(l: seq<Chunk>, c: Chunk, r: seq<Chunk>, index: nat, gap: string, gen: nat, distinct: bool)
    requires c.content.Items? && index <= |c.content.items|
    requires DistinctIds(l + [c] + r) && IdsUpTo(l + [c] + r, gen)
    ensures var mid := [WithItems(c, c.content.items[..index]), Chunk(gen + 1, Gap(gap)), Chunk(gen + 2, Items([]))];
            && Leads(l + [c] + r, CutUpdates(c.id, index, gap, gen, IdAt(r, 0)), l + mid + r, distinct)
            && DistinctIds(l + mid + r) && IdsUpTo(l + mid + r, gen + 2)
  {
    var c1, g, e := WithItems(c, c.content.items[..index]), Chunk(gen + 1, Gap(gap)), Chunk(gen + 2, Items([]));
    var u1, u2, u3, u4 := DetachLastItems(Position(c.id, index)), NewGapChunk(Some(c.id), gen + 1, IdAt(r, 0), gap),
                          StartReattachItems, NewItemsChunk(Some(gen + 1), gen + 2, IdAt(r, 0));
    var cs0, l1, l2 := l + [c] + r, l + [c1], l + [c1] + [g];
    hide Leads, DistinctIds, IdsUpTo;
    SameIds(l, c, c1, r);
    NewIds(l1, g, r, gen);
    NewIds(l2, e, r, gen + 1);
    assert Leads(cs0, [u1, u2, u3], l2 + r, distinct) by {
      DetachedLeads(l, c, r, index, distinct);
      ThenNew(cs0, [u1], l1, g, r, gen, distinct);
      assert [u1] + [u2] == [u1, u2];
      ThenOne(cs0, [u1, u2], l2 + r, u3, l2 + r, distinct);
      assert [u1, u2] + [u3] == [u1, u2, u3];
    }
    ThenNew(cs0, [u1, u2, u3], l2, e, r, gen + 1, distinct);
    assert [u1, u2, u3] + [u4] == [u1, u2, u3, u4];
    assert l2 + [e] + r == l + [c1, g, e] + r;
  }

  /** With the tail detached, the tail is new to the list. */
  lemma TailIsNew(l: seq<Chunk>, c: Chunk, r: seq<Chunk>, index: nat, mid: seq<Chunk>)
    requires c.content.Items? && index <= |c.content.items| && DistinctEvents(Flat(l + [c] + r))
    requires Flat(mid) == c.content.items[..index]
    ensures DistinctEvents(c.content.items[index..]) && DisjointEvents(Flat(l + mid + r), c.content.items[index..])
  {
    var a, b := c.content.items[..index], c.content.items[index..];
    assert c.content.items == a + b;
    FlatOne(c);
    FlatMiddle(l, [c], r, a + b);
    FlatMiddle(l, mid, r, a);
    DetachedIsNew(Flat(l), a, b, Flat(r), []);
    assert a + [] == a;
  }

  lemma FlatThree(c: Chunk, g: Chunk, e: Chunk)
    requires ItemsOf(g) == [] && ItemsOf(e) == []
    ensures Flat([c, g, e]) == ItemsOf(c)
  {
    assert [c, g, e] == [c] + [g] + [e];
    FlatAround([c], [g], [e]);
    FlatOne(c);
    FlatOne(g);
    FlatOne(e);
  }

  lemma InsertGapInsideLeads(cap: nat, l: seq<Chunk>, c: Chunk, r: seq<Chunk>, index: nat, gap: string, gen: nat,
                             distinct: bool)
    requires 0 < cap && c.content.Items? && index <= |c.content.items|
    requires DistinctIds(l + [c] + r) && IdsUpTo(l + [c] + r, gen)
    requires distinct ==> DistinctEvents(Flat(l + [c] + r))
    ensures var c1 := WithItems(c, c.content.items[..index]);
            var rr := Spill(cap, Chunk(gen + 2, Items([])), IdAt(r, 0), c.content.items[index..], gen + 2);
            Leads(l + [c] + r, CutUpdates(c.id, index, gap, gen, IdAt(r, 0)) + rr.updates + [EndReattachItems],
                  l + ([c1, Chunk(gen + 1, Gap(gap))] + rr.chunks) + r, distinct)
  {
    hide Leads, Spill, DistinctIds, IdsUpTo, DistinctEvents, DisjointEvents, Flat, IdAt;
    var c1, g, e := WithItems(c, c.content.items[..index]), Chunk(gen + 1, Gap(gap)), Chunk(gen + 2, Items([]));
    var mid := [c1, g, e];
    var rr := Spill(cap, e, IdAt(r, 0), c.content.items[index..], gen + 2);
    var us := CutUpdates(c.id, index, gap, gen, IdAt(r, 0));
    var cs3 := l + ([c1, g] + rr.chunks) + r;
    assert Leads(l + [c] + r, us + (rr.updates + [EndReattachItems]), cs3, distinct) by {
      DetachAndLinkLeads(l, c, r, index, gap, gen, distinct);
      assert Leads(l + mid + r, rr.updates + [EndReattachItems], cs3, distinct) by {
        if distinct {
          FlatThree(c1, g, e);
          TailIsNew(l, c, r, index, mid);
        }
        ReattachLeads(cap, l, mid, r, c.content.items[index..], gen + 2, distinct);
        assert mid[..2] == [c1, g];
      }
      LeadsConcat(l + [c] + r, us, l + mid + r, rr.updates + [EndReattachItems], cs3, distinct);
    }
    assert us + (rr.updates + [EndReattachItems]) == us + rr.updates + [EndReattachItems];
  }

  lemma NextOf(s: State, k: nat)
    requires k < |s.chunks|
    ensures IdAt(s.chunks, k + 1) == IdAt(After(s, k), 0)
  {
  }

  lemma InsertGapInsideTold(pre: seq<Chunk>, s: State, cap: nat, k: nat, index: nat, gap: string, distinct: bool)
    requires 0 < cap && Linked(pre, s, cap) && k < |s.chunks|
    requires s.chunks[k].content.Items? && 0 < index < |s.chunks[k].content.items|
    requires distinct ==> DistinctEvents(Flat(pre + s.chunks))
    ensures var o := InsertGapInside(cap, s, k, index, gap);
            Leads(pre + s.chunks, o.updates, pre + o.state.chunks, distinct)
  {
    hide Leads, Spill, DistinctEvents, Flat, DistinctIds, IdsUpTo, IdAt, Splice, CutUpdates;
    assert IdAt(s.chunks, k + 1) == IdAt(After(s, k), 0) by { NextOf(s, k); }
    var c := s.chunks[k];
    var rr := Spill(cap, Chunk(s.gen + 2, Items([])), IdAt(s.chunks, k + 1), c.content.items[index..], s.gen + 2);
    Focus(pre, s, k);
    Spliced(pre, s, k, [WithItems(c, c.content.items[..index]), Chunk(s.gen + 1, Gap(gap))] + rr.chunks);
    InsertGapInsideLeads(cap, Before(pre, s, k), c, After(s, k), index, gap, s.gen, distinct);
  }

  lemma LinkedFitsAt(pre: seq<Chunk>, s: State, cap: nat, k: nat)
    requires Linked(pre, s, cap) && k < |s.chunks|
    ensures |ItemsOf(s.chunks[k])| <= cap
  {
  }

  lemma InsertGapInsideLinked(pre: seq<Chunk>, s: State, cap: nat, k: nat, index: nat, gap: string)
    requires 0 < cap && Linked(pre, s, cap) && k < |s.chunks|
    requires s.chunks[k].content.Items? && 0 < index < |s.chunks[k].content.items|
    ensures Linked(pre, InsertGapInside(cap, s, k, index, gap).state, cap)
  {
    hide Linked, Spill, Splice, IdAt, Numbered;
    assert |s.chunks[k].content.items| <= cap by { LinkedFitsAt(pre, s, cap, k); }
    var c, e := s.chunks[k], Chunk(s.gen + 2, Items([]));
    var rr := Spill(cap, e, IdAt(s.chunks, k + 1), c.content.items[index..], s.gen + 2);
    var c1, g := WithItems(c, c.content.items[..index]), Chunk(s.gen + 1, Gap(gap));
    assert rr.gen == s.gen + |[c1, g] + rr.chunks| - 1 && Numbered([c1, g] + rr.chunks, s.gen, cap) by {
      SpillIds(cap, e, IdAt(s.chunks, k + 1), c.content.items[index..], s.gen + 2);
      Prefixed(c1, g, rr.chunks, s.gen, cap);
    }
    SplicedLinked(pre, s, cap, k, [c1, g] + rr.chunks);
  }

  predicate Numbered(mid: seq<Chunk>, gen: nat, cap: nat) {
    && WithinCapacity(mid, cap)
    && forall i | 1 <= i < |mid| :: mid[i].id == gen + i
  }

  lemma Prefixed(c: Chunk, g: Chunk, cs: seq<Chunk>, gen: nat, cap: nat)
    requires |ItemsOf(c)| <= cap && ItemsOf(g) == [] && g.id == gen + 1 && WithinCapacity(cs, cap)
    requires forall i | 0 <= i < |cs| :: cs[i].id == gen + 2 + i
    ensures Numbered([c, g] + cs, gen, cap)
  {
    var mid := [c, g] + cs;
    forall i | 0 <= i < |mid| ensures |ItemsOf(mid[i])| <= cap && (i >= 1 ==> mid[i].id == gen + i) {
      assert i >= 2 ==> mid[i] == cs[i - 2];
    }
  }

  // --- Removing and replacing --------------------------------------------------

  lemma RemovedChunkLeads(l: seq<Chunk>, c: Chunk, r: seq<Chunk>, distinct: bool)
    requires DistinctIds(l + [c] + r) && ItemsOf(c) == []
    ensures Leads(l + [c] + r, [RemoveChunk(c.id)], l + r, distinct)
  {
    IndexOfAround(l, c, r);
    SpliceAround(l, c, r, []);
    assert l + [] + r == l + r;
    LeadsOne(l + [c] + r, RemoveChunk(c.id), l + r, distinct);
  }

  lemma RemovedChunkIds(l: seq<Chunk>, c: Chunk, r: seq<Chunk>, gen: nat)
    requires DistinctIds(l + [c] + r) && IdsUpTo(l + [c] + r, gen)
    ensures DistinctIds(l + r) && IdsUpTo(l + r, gen)
  {
    var cs, cs' := l + [c] + r, l + r;
    forall i | 0 <= i < |cs'| ensures cs'[i].id <= gen {
      assert cs'[i] == cs[if i < |l| then i else i + 1];
    }
    forall i, j | 0 <= i < j < |cs'| ensures cs'[i].id != cs'[j].id {
      var i', j' := if i < |l| then i else i + 1, if j < |l| then j else j + 1;
      assert cs'[i] == cs[i'] && cs'[j] == cs[j'];
    }
  }

  /** One item of chunk `c` removed or replaced. */
  lemma EditedLeads(l: seq<Chunk>, c: Chunk, r: seq<Chunk>, u: Update, items: seq<Event>, distinct: bool)
    requires DistinctIds(l + [c] + r) && c.content.Items?
    requires u.RemoveItem? || u.ReplaceItem?
    requires u.at.chunk == c.id && u.at.index < |c.content.items|
    requires u.RemoveItem? ==> items == c.content.items[..u.at.index] + c.content.items[u.at.index + 1..]
    requires u.ReplaceItem? ==> items == c.content.items[u.at.index := u.item]
    requires distinct && u.ReplaceItem? ==> c.content.items[u.at.index].id == u.item.id
    ensures Leads(l + [c] + r, [u], l + [WithItems(c, items)] + r, distinct)
  {
    IndexOfAround(l, c, r);
    SpliceAround(l, c, r, [WithItems(c, items)]);
    LeadsOne(l + [c] + r, u, l + [WithItems(c, items)] + r, distinct);
  }

  lemma RemoveItemTold(pre: seq<Chunk>, s: State, cap: nat, p: Position, distinct: bool)
    requires Linked(pre, s, cap) && s.chunks != []
    ensures var o := RemoveItemOp(s, p);
            Leads(pre + s.chunks, o.updates, pre + o.state.chunks, distinct) && Linked(pre, o.state, cap)
  {
    var k := IndexOf(s.chunks, p.chunk);
    if ItemsError(s, p.chunk).None? && p.index < |s.chunks[k].content.items| {
      var c, cur := s.chunks[k], s.chunks[k].content.items;
      var left := cur[..p.index] + cur[p.index + 1..];
      var c' := WithItems(c, left);
      var l, r := Before(pre, s, k), After(s, k);
      Focus(pre, s, k);
      Spliced(pre, s, k, [c']);
      EditedLeads(l, c, r, RemoveItem(p), left, distinct);
      if left == [] && k > 0 {
        SameIds(l, c, c', r);
        RemovedChunkLeads(l, c', r, distinct);
        LeadsConcat(l + [c] + r, [RemoveItem(p)], l + [c'] + r, [RemoveChunk(p.chunk)], l + r, distinct);
        assert [RemoveItem(p)] + [RemoveChunk(p.chunk)] == [RemoveItem(p), RemoveChunk(p.chunk)];
        WithoutLinked(pre, s, cap, k);
      } else {
        SplicedLinked(pre, s, cap, k, [c']);
      }
    }
  }

  lemma WithoutLinked(pre: seq<Chunk>, s: State, cap: nat, k: nat)
    requires Linked(pre, s, cap) && k < |s.chunks| && |s.chunks| > 1
    ensures pre + Splice(s.chunks, k, []) == Before(pre, s, k) + After(s, k)
    ensures Linked(pre, s.(chunks := Splice(s.chunks, k, [])), cap)
  {
    Focus(pre, s, k);
    Spliced(pre, s, k, []);
    assert Before(pre, s, k) + [] + After(s, k) == Before(pre, s, k) + After(s, k);
    RemovedChunkIds(Before(pre, s, k), s.chunks[k], After(s, k), s.gen);
    CapacityAround(s.chunks, k, [], cap);
    LinkedFrom(pre, s, s.(chunks := Splice(s.chunks, k, [])), cap);
  }

  lemma ReplaceItemTold(pre: seq<Chunk>, s: State, cap: nat, p: Position, item: Event, distinct: bool)
    requires Linked(pre, s, cap) && s.chunks != []
    requires distinct && At(pre + s.chunks, p).Some? ==> At(pre + s.chunks, p).value.id == item.id
    ensures var o := ReplaceItemOp(s, p, item);
            Leads(pre + s.chunks, o.updates, pre + o.state.chunks, distinct) && Linked(pre, o.state, cap)
  {
    var k := IndexOf(s.chunks, p.chunk);
    if ItemsError(s, p.chunk).None? && p.index < |s.chunks[k].content.items| {
      var c := s.chunks[k];
      var items := c.content.items[p.index := item];
      var l, r := Before(pre, s, k), After(s, k);
      Focus(pre, s, k);
      Spliced(pre, s, k, [WithItems(c, items)]);
      IndexOfAround(l, c, r);
      EditedLeads(l, c, r, ReplaceItem(p, item), items, distinct);
      SplicedLinked(pre, s, cap, k, [WithItems(c, items)]);
    }
  }

  lemma RemoveEmptyChunkTold(pre: seq<Chunk>, s: State, cap: nat, id: nat, distinct: bool)
    requires Linked(pre, s, cap) && s.chunks != []
    ensures var o := RemoveEmptyChunk(s, id);
            Leads(pre + s.chunks, o.updates, pre + o.state.chunks, distinct) && Linked(pre, o.state, cap)
  {
    var k := IndexOf(s.chunks, id);
    if |s.chunks| > 1 && k < |s.chunks| && ItemsOf(s.chunks[k]) == [] {
      Focus(pre, s, k);
      WithoutLinked(pre, s, cap, k);
      RemovedChunkLeads(Before(pre, s, k), s.chunks[k], After(s, k), distinct);
    }
  }

  /** Linking an empty chunk after the gap, filling it, then removing the gap. */
  lemma ReplaceGapLeads(cap: nat, l: seq<Chunk>, g: Chunk, r: seq<Chunk>, items: seq<Event>, gen: nat, distinct: bool)
    requires 0 < cap && g.content.Gap? && DistinctIds(l + [g] + r) && IdsUpTo(l + [g] + r, gen)
    requires distinct ==> DistinctEvents(items) && DisjointEvents(Flat(l + [g] + r), items)
    ensures var rr := Spill(cap, Chunk(gen + 1, Items([])), IdAt(r, 0), items, gen + 1);
            Leads(l + [g] + r, [NewItemsChunk(Some(g.id), gen + 1, IdAt(r, 0))] + rr.updates + [RemoveChunk(g.id)],
                  l + rr.chunks + r, distinct)
            && DistinctIds(l + rr.chunks + r) && IdsUpTo(l + rr.chunks + r, rr.gen)
  {
    var e := Chunk(gen + 1, Items([]));
    var rr := Spill(cap, e, IdAt(r, 0), items, gen + 1);
    var cs0, cs1, cs2 := l + [g] + r, l + [g] + [e] + r, l + [g] + rr.chunks + r;
    var u := NewItemsChunk(Some(g.id), gen + 1, IdAt(r, 0));
    NewIds(l + [g], e, r, gen);
    assert Leads(cs0, [u] + rr.updates, cs2, distinct) by {
      NewApplies(l + [g], e, r, gen);
      LeadsOne(cs0, u, cs1, distinct);
      FlatNew(l + [g], e, r);
      SpillLeads(cap, l + [g], e, r, items, gen + 1, distinct);
      LeadsConcat(cs0, [u], cs1, rr.updates, cs2, distinct);
    }
    SpillIds(cap, e, IdAt(r, 0), items, gen + 1);
    FreshlyNumbered(l + [g], e, r, rr.chunks, gen + 1);
    assert cs2 == l + [g] + (rr.chunks + r);
    RemovedChunkIds(l, g, rr.chunks + r, rr.gen);
    assert l + rr.chunks + r == l + (rr.chunks + r);
    assert Leads(cs2, [RemoveChunk(g.id)], l + rr.chunks + r, distinct) by {
      RemovedChunkLeads(l, g, rr.chunks + r, distinct);
    }
    LeadsConcat(cs0, [u] + rr.updates, cs2, [RemoveChunk(g.id)], l + rr.chunks + r, distinct);
  }

  lemma NothingLed(cs: seq<Chunk>, distinct: bool)
    ensures Leads(cs, [], cs, distinct)
  {
  }

  lemma ReplaceGapAtTold(pre: seq<Chunk>, s: State, cap: nat, items: seq<Event>, k: nat, distinct: bool)
    requires 0 < cap && Linked(pre, s, cap) && k < |s.chunks| && s.chunks[k].content.Gap?
    requires distinct ==> DistinctEvents(items) && DisjointEvents(Flat(pre + s.chunks), items)
    ensures var next := IdAt(s.chunks, k + 1);
            var rr := Spill(cap, Chunk(s.gen + 1, Items([])), next, items, s.gen + 1);
            var s' := s.(chunks := Splice(s.chunks, k, rr.chunks), gen := rr.gen);
            && Leads(pre + s.chunks,
                     [NewItemsChunk(Some(s.chunks[k].id), s.gen + 1, next)] + rr.updates
                         + [RemoveChunk(s.chunks[k].id)],
                     pre + s'.chunks, distinct)
            && Linked(pre, s', cap)
  {
    hide Leads, Spill, DistinctEvents, DisjointEvents, Flat, DistinctIds, IdsUpTo;
    var e := Chunk(s.gen + 1, Items([]));
    var rr := Spill(cap, e, IdAt(s.chunks, k + 1), items, s.gen + 1);
    Focus(pre, s, k);
    Spliced(pre, s, k, rr.chunks);
    ReplaceGapLeads(cap, Before(pre, s, k), s.chunks[k], After(s, k), items, s.gen, distinct);
    SpillIds(cap, e, IdAt(s.chunks, k + 1), items, s.gen + 1);
    CapacityAround(s.chunks, k, rr.chunks, cap);
    LinkedFrom(pre, s, s.(chunks := Splice(s.chunks, k, rr.chunks), gen := rr.gen), cap);
  }

  lemma ReplaceGapTold(pre: seq<Chunk>, s: State, cap: nat, items: seq<Event>, id: nat, distinct: bool)
    requires 0 < cap && Linked(pre, s, cap) && s.chunks != []
    requires distinct ==> DistinctEvents(items) && DisjointEvents(Flat(pre + s.chunks), items)
    ensures var o := ReplaceGap(cap, s, items, id);
            Leads(pre + s.chunks, o.updates, pre + o.state.chunks, distinct) && Linked(pre, o.state, cap)
  {
    hide Leads, Linked, Spill, IndexOf, Splice, IdAt, DistinctEvents, DisjointEvents, Flat;
    var k := IndexOf(s.chunks, id);
    assert Leads(pre + s.chunks, [], pre + s.chunks, distinct) by { NothingLed(pre + s.chunks, distinct); }
    if k < |s.chunks| && s.chunks[k].content.Gap? {
      ReplaceGapAtTold(pre, s, cap, items, k, distinct);
    }
  }

  // --- Every operation ---------------------------------------------------------

  /** Creating the first chunk. */
  lemma FirstLeads(c: Chunk, distinct: bool)
    requires c == Chunk(0, Items([]))
    ensures Leads([], [NewItemsChunk(None, 0, None)], [c], distinct) && Flat([c]) == [] && Flat([]) == []
    ensures forall p :: At([c], p) == At([], p)
  {
    hide Leads;
    IndexOfAbsent([], 0);
    assert [] + [c] + [] == [c];
    LeadsOne([], NewItemsChunk(None, 0, None), [c], distinct);
    FlatOne(c);
  }

  lemma InitTold(pre: seq<Chunk>, s: State, cap: nat, distinct: bool)
    requires Linked(pre, s, cap)
    ensures Leads(pre + s.chunks, InitUpdates(s), pre + Initialized(s).chunks, distinct)
    ensures Linked(pre, Initialized(s), cap)
    ensures Flat(pre + Initialized(s).chunks) == Flat(pre + s.chunks)
    ensures forall p :: At(pre + Initialized(s).chunks, p) == At(pre + s.chunks, p)
  {
    hide Leads, Flat, At;
    if s.chunks == [] {
      var c := Chunk(0, Items([]));
      assert pre + s.chunks == [] && pre + [c] == [c];
      FirstLeads(c, distinct);
    } else {
      NothingLed(pre + s.chunks, distinct);
    }
  }

  /** Whatever the operation, also when it fails, its updates lead from the full
      list of chunks before it to the full list after it. */
  lemma StepTold(pre: seq<Chunk>, s: State, cap: nat, op: Op, distinct: bool)
    requires 0 < cap && Linked(pre, s, cap)
    requires distinct ==> KeepsDistinct(pre + s.chunks, op)
    ensures var o := Step(cap, s, op);
            Leads(pre + s.chunks, o.updates, pre + o.state.chunks, distinct) && Linked(pre, o.state, cap)
  {
    InitTold(pre, s, cap, distinct);
    var s1 := Initialized(s);
    assert Leads(pre + s1.chunks, StepInitialized(cap, s1, op).updates, pre + StepInitialized(cap, s1, op).state.chunks,
                 distinct)
        && Linked(pre, StepInitialized(cap, s1, op).state, cap) by {
      InitializedStepTold(pre, s1, cap, op, distinct);
    }
    LeadsConcat(pre + s.chunks, InitUpdates(s), pre + s1.chunks, StepInitialized(cap, s1, op).updates,
                pre + StepInitialized(cap, s1, op).state.chunks, distinct);
  }

  lemma InitializedStepTold(pre: seq<Chunk>, s: State, cap: nat, op: Op, distinct: bool)
    requires 0 < cap && Linked(pre, s, cap) && s.chunks != []
    requires distinct ==> KeepsDistinct(pre + s.chunks, op)
    ensures var o := StepInitialized(cap, s, op);
            Leads(pre + s.chunks, o.updates, pre + o.state.chunks, distinct) && Linked(pre, o.state, cap)
  {
    match op
    case PushItemsBack(items) => PushTold(pre, s, cap, |s.chunks| - 1, items, distinct);
    case PushGapBack(gap) => PushGapTold(pre, s, cap, gap, distinct);
    case InsertItemsAt(p, items) => InsertItemsTold(pre, s, cap, p, items, distinct);
    case RemoveItemAt(p) => RemoveItemTold(pre, s, cap, p, distinct);
    case ReplaceItemAt(p, item) => ReplaceItemTold(pre, s, cap, p, item, distinct);
    case InsertGapAt(gap, p) => InsertGapTold(pre, s, cap, gap, p, distinct);
    case RemoveEmptyChunkAt(id) => RemoveEmptyChunkTold(pre, s, cap, id, distinct);
    case ReplaceGapAt(items, id) => ReplaceGapTold(pre, s, cap, items, id, distinct);
  }

  lemma InsertItemsTold(pre: seq<Chunk>, s: State, cap: nat, p: Position, items: seq<Event>, distinct: bool)
    requires 0 < cap && Linked(pre, s, cap) && s.chunks != []
    requires distinct ==>
             DistinctEvents(items) && DistinctEvents(Flat(pre + s.chunks))
                 && DisjointEvents(Flat(pre + s.chunks), items)
    ensures var o := InsertItems(cap, s, p, items);
            Leads(pre + s.chunks, o.updates, pre + o.state.chunks, distinct) && Linked(pre, o.state, cap)
  {
    var k := IndexOf(s.chunks, p.chunk);
    if ItemsError(s, p.chunk).None? {
      if p.index == |s.chunks[k].content.items| {
        PushTold(pre, s, cap, k, items, distinct);
      } else if p.index < |s.chunks[k].content.items| {
        InsertInsideTold(pre, s, cap, k, p.index, items, distinct);
        InsertInsideLinked(pre, s, cap, k, p.index, items);
      }
    }
  }

  lemma InsertGapTold(pre: seq<Chunk>, s: State, cap: nat, gap: string, p: Position, distinct: bool)
    requires 0 < cap && Linked(pre, s, cap) && s.chunks != []
    requires distinct ==> DistinctEvents(Flat(pre + s.chunks))
    ensures var o := InsertGap(cap, s, gap, p);
            Leads(pre + s.chunks, o.updates, pre + o.state.chunks, distinct) && Linked(pre, o.state, cap)
  {
    var k := IndexOf(s.chunks, p.chunk);
    if ItemsError(s, p.chunk).None? {
      if p.index == 0 {
        InsertGapBeforeTold(pre, s, cap, k, gap, distinct);
      } else if p.index < |s.chunks[k].content.items| {
        InsertGapInsideTold(pre, s, cap, k, p.index, gap, distinct);
        InsertGapInsideLinked(pre, s, cap, k, p.index, gap);
      }
    }
  }
}
