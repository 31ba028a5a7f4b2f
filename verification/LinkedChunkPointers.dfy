/** The linked chunk as it is laid out in memory: chunks that are allocated, linked to both
    neighbours by raw pointers, and freed by hand, with a pointer to either end. Pointers
    are addresses in a heap; following one that is not allocated, or losing one that is,
    is what must never happen. */
module LinkedChunkPointers {
  import opened LinkedChunkModel
  import opened Wrappers

  type Addr = nat

  datatype Node = Node(previous: Option<Addr>, lazyPrevious: Option<nat>, next: Option<Addr>, id: nat, content: Content)

  type Heap = map<Addr, Node>

  // --- A heap that is a doubly linked list -----------------------------------------------

  function AddrAt(order: seq<Addr>, i: int): Option<Addr> {
    if 0 <= i < |order| then Some(order[i]) else None
  }

  predicate NodeOk(h: Heap, order: seq<Addr>, i: nat) {
    && i < |order| && order[i] in h
    && h[order[i]].previous == AddrAt(order, i - 1)
    && h[order[i]].next == AddrAt(order, i + 1)
    && (i > 0 ==> h[order[i]].lazyPrevious.None?)
  }

  predicate NoDup(order: seq<Addr>) {
    forall i, j | 0 <= i < j < |order| :: order[i] != order[j]
  }

  /** Exactly the addresses of `order` are allocated, and they are linked in that order. */
  ghost predicate LinksOk(h: Heap, order: seq<Addr>) {
    && NoDup(order)
    && (forall a :: a in h <==> a in order)
    && (forall i | 0 <= i < |order| :: NodeOk(h, order, i))
  }

  function ChunkOf(n: Node): Chunk {
    Chunk(n.id, n.content)
  }

  ghost function ChunksOf(h: Heap, order: seq<Addr>): (r: seq<Chunk>)
    requires LinksOk(h, order)
    ensures |r| == |order| && forall i | 0 <= i < |order| :: order[i] in h && r[i] == ChunkOf(h[order[i]])
  {
    assert forall i | 0 <= i < |order| :: NodeOk(h, order, i);
    seq(|order|, i requires 0 <= i < |order| => ChunkOf(h[order[i]]))
  }

  ghost function LazyOf(h: Heap, order: seq<Addr>): Option<nat>
    requires LinksOk(h, order)
  {
    if order == [] then None else assert NodeOk(h, order, 0); h[order[0]].lazyPrevious
  }

  lemma ContentSet(h: Heap, order: seq<Addr>, k: nat, c: Content)
    requires LinksOk(h, order) && k < |order|
    ensures order[k] in h
    ensures var h' := h[order[k] := h[order[k]].(content := c)];
            && LinksOk(h', order) && LazyOf(h', order) == LazyOf(h, order)
            && ChunksOf(h', order) == ChunksOf(h, order)[k := Chunk(ChunksOf(h, order)[k].id, c)]
  {
    assert NodeOk(h, order, k);
    var h' := h[order[k] := h[order[k]].(content := c)];
    forall i | 0 <= i < |order| ensures NodeOk(h', order, i) { assert NodeOk(h, order, i); }
    assert forall a :: a in h' <==> a in h;
  }

  /** Linking a new node after `l + [a]`. */
  function InsertedNext(h: Heap, a: Addr, new_: Addr, id: nat, c: Content): Heap
    requires a in h && (h[a].next.Some? ==> h[a].next.value in h)
  {
    var next := h[a].next;
    var h1 := if next.Some? then h[next.value := h[next.value].(previous := Some(new_))] else h;
    h1[a := h1[a].(next := Some(new_))][new_ := Node(Some(a), None, next, id, c)]
  }

  function Inserted(order: seq<Addr>, k: nat, new_: Addr): (r: seq<Addr>)
    requires k <= |order|
    ensures |r| == |order| + 1 && r[k] == new_
  {
    order[..k] + [new_] + order[k..]
  }

  lemma InsertedNoDup(h: Heap, order: seq<Addr>, k: nat, new_: Addr)
    requires LinksOk(h, order) && k <= |order| && new_ !in h
    ensures NoDup(Inserted(order, k, new_)) && forall a :: a in Inserted(order, k, new_) <==> a in h || a == new_
  {
    var order' := Inserted(order, k, new_);
    assert new_ !in order;
    forall i, j | 0 <= i < j < |order'| ensures order'[i] != order'[j] {
      assert i != k ==> order'[i] == order[if i < k then i else i - 1];
      assert j != k ==> order'[j] == order[if j < k then j else j - 1];
    }
    assert forall a :: a in order' <==> a in order || a == new_ by {
      assert order == order[..k] + order[k..];
    }
  }

  lemma NodeWithNext(h: Heap, order: seq<Addr>, k: nat)
    requires LinksOk(h, order) && k < |order|
    ensures order[k] in h && h[order[k]].next == AddrAt(order, k + 1) && h[order[k]].previous == AddrAt(order, k - 1)
    ensures k + 1 < |order| ==> order[k + 1] in h
    ensures 0 < k ==> order[k - 1] in h
  {
    assert NodeOk(h, order, k);
    if k + 1 < |order| { assert NodeOk(h, order, k + 1); }
    if 0 < k { assert NodeOk(h, order, k - 1); }
  }

  lemma NextLookup(h: Heap, a: Addr, new_: Addr, id: nat, c: Content, x: Addr)
    requires a in h && (h[a].next.Some? ==> h[a].next.value in h && h[a].next.value != a) && new_ !in h
             && (x in h || x == new_)
    ensures var h' := InsertedNext(h, a, new_, id, c);
            && x in h'
            && h'[x] == if x == new_ then Node(Some(a), None, h[a].next, id, c)
                        else if x == a then h[a].(next := Some(new_))
                        else if h[a].next == Some(x) then h[x].(previous := Some(new_)) else h[x]
  {
  }

  lemma NextNode(h: Heap, order: seq<Addr>, k: nat, new_: Addr, id: nat, c: Content, i: nat)
    requires LinksOk(h, order) && k < |order| && new_ !in h && i <= |order|
    requires order[k] in h && h[order[k]].next == AddrAt(order, k + 1)
             && (h[order[k]].next.Some? ==> h[order[k]].next.value in h)
    ensures var (h', order') := (InsertedNext(h, order[k], new_, id, c), Inserted(order, k + 1, new_));
            && NodeOk(h', order', i)
            && ChunkOf(h'[order'[i]]) ==
                (if i == k + 1 then Chunk(id, c) else ChunkOf(h[order[if i <= k then i else i - 1]]))
            && (i == 0 ==> h'[order'[0]].lazyPrevious == h[order[0]].lazyPrevious)
  {
    hide InsertedNext;
    var order' := Inserted(order, k + 1, new_);
    if i != k + 1 {
      var j := if i <= k then i else i - 1;
      assert NodeOk(h, order, j) && order'[i] == order[j];
      assert order[j] == order[k] <==> j == k;
      assert AddrAt(order, k + 1) == Some(order[j]) <==> j == k + 1;
    }
    NextLookup(h, order[k], new_, id, c, order'[i]);
  }

  lemma NextLinks(h: Heap, order: seq<Addr>, k: nat, new_: Addr, id: nat, c: Content)
    requires LinksOk(h, order) && k < |order| && new_ !in h
    ensures order[k] in h && h[order[k]].next == AddrAt(order, k + 1)
            && (h[order[k]].next.Some? ==> h[order[k]].next.value in h)
    ensures LinksOk(InsertedNext(h, order[k], new_, id, c), Inserted(order, k + 1, new_))
  {
    hide NodeOk, InsertedNext, Inserted;
    NodeWithNext(h, order, k);
    var h', order' := InsertedNext(h, order[k], new_, id, c), Inserted(order, k + 1, new_);
    InsertedNoDup(h, order, k + 1, new_);
    NextKeys(h, order[k], new_, id, c);
    forall i | 0 <= i < |order'| ensures NodeOk(h', order', i) { NextNode(h, order, k, new_, id, c, i); }
  }

  lemma NextInserted(h: Heap, order: seq<Addr>, k: nat, new_: Addr, id: nat, c: Content)
    requires LinksOk(h, order) && k < |order| && new_ !in h
    ensures order[k] in h && h[order[k]].next == AddrAt(order, k + 1)
            && (h[order[k]].next.Some? ==> h[order[k]].next.value in h)
    ensures var (h', order') := (InsertedNext(h, order[k], new_, id, c), Inserted(order, k + 1, new_));
            && LinksOk(h', order') && LazyOf(h', order') == LazyOf(h, order)
            && ChunksOf(h', order') == ChunksOf(h, order)[..k + 1] + [Chunk(id, c)] + ChunksOf(h, order)[k + 1..]
  {
    hide NodeOk, InsertedNext, Inserted, LinksOk, ChunksOf, LazyOf;
    NextLinks(h, order, k, new_, id, c);
    var h', order' := InsertedNext(h, order[k], new_, id, c), Inserted(order, k + 1, new_);
    var cs, cs' := ChunksOf(h, order), ChunksOf(h', order');
    forall i | 0 <= i < |order'|
      ensures cs'[i] == if i == k + 1 then Chunk(id, c) else cs[if i <= k then i else i - 1]
    {
      NextNode(h, order, k, new_, id, c, i);
    }
    assert cs' == cs[..k + 1] + [Chunk(id, c)] + cs[k + 1..];
    NextLazy(h, order, k, new_, id, c);
  }

  lemma NextLazy(h: Heap, order: seq<Addr>, k: nat, new_: Addr, id: nat, c: Content)
    requires LinksOk(h, order) && k < |order| && new_ !in h
    requires order[k] in h && h[order[k]].next == AddrAt(order, k + 1)
             && (h[order[k]].next.Some? ==> h[order[k]].next.value in h)
    requires LinksOk(InsertedNext(h, order[k], new_, id, c), Inserted(order, k + 1, new_))
    ensures LazyOf(InsertedNext(h, order[k], new_, id, c), Inserted(order, k + 1, new_)) == LazyOf(h, order)
  {
    hide NodeOk, InsertedNext, Inserted, LinksOk;
    NextNode(h, order, k, new_, id, c, 0);
  }

  lemma NextKeys(h: Heap, a: Addr, new_: Addr, id: nat, c: Content)
    requires a in h && (h[a].next.Some? ==> h[a].next.value in h)
    ensures forall x :: x in InsertedNext(h, a, new_, id, c) <==> x in h || x == new_
  {
  }

  // --- Linking before ----------------------------------------------------------------------

  /** The link to a chunk that is not loaded moves to the new first chunk. */
  function InsertedBefore(h: Heap, a: Addr, new_: Addr, id: nat, c: Content): Heap
    requires a in h && (h[a].previous.Some? ==> h[a].previous.value in h)
  {
    var previous, lazyPrevious := h[a].previous, h[a].lazyPrevious;
    if previous.Some? then
      var h1 := h[previous.value := h[previous.value].(next := Some(new_))];
      h1[a := h1[a].(previous := Some(new_))][new_ := Node(previous, None, Some(a), id, c)]
    else
      h[a := h[a].(previous := Some(new_), lazyPrevious := None)][new_ := Node(None, lazyPrevious, Some(a), id, c)]
  }

  lemma BeforeLookup(h: Heap, a: Addr, new_: Addr, id: nat, c: Content, x: Addr)
    requires a in h && (h[a].previous.Some? ==> h[a].previous.value in h && h[a].previous.value != a) && new_ !in h
             && (x in h || x == new_)
    ensures var h' := InsertedBefore(h, a, new_, id, c);
            var first := h[a].previous.None?;
            && x in h'
            && h'[x] == if x == new_ then Node(h[a].previous, if first then h[a].lazyPrevious else None, Some(a), id, c)
                        else if x == a
                        then h[a].(previous := Some(new_), lazyPrevious := if first then None else h[a].lazyPrevious)
                        else if h[a].previous == Some(x) then h[x].(next := Some(new_)) else h[x]
  {
  }

  lemma BeforeNode(h: Heap, order: seq<Addr>, k: nat, new_: Addr, id: nat, c: Content, i: nat)
    requires LinksOk(h, order) && k < |order| && new_ !in h && i <= |order|
    requires order[k] in h && h[order[k]].previous == AddrAt(order, k - 1)
             && (h[order[k]].previous.Some? ==> h[order[k]].previous.value in h)
    ensures var (h', order') := (InsertedBefore(h, order[k], new_, id, c), Inserted(order, k, new_));
            && NodeOk(h', order', i)
            && ChunkOf(h'[order'[i]]) ==
                (if i == k then Chunk(id, c) else ChunkOf(h[order[if i < k then i else i - 1]]))
            && (i == 0 ==> h'[order'[0]].lazyPrevious == h[order[0]].lazyPrevious)
  {
    hide InsertedBefore;
    var order' := Inserted(order, k, new_);
    assert NodeOk(h, order, k);
    if i != k {
      var j := if i < k then i else i - 1;
      assert NodeOk(h, order, j) && order'[i] == order[j];
      assert order[j] == order[k] <==> j == k;
      assert AddrAt(order, k - 1) == Some(order[j]) <==> j == k - 1;
    }
    BeforeLookup(h, order[k], new_, id, c, order'[i]);
  }

  lemma BeforeLinks(h: Heap, order: seq<Addr>, k: nat, new_: Addr, id: nat, c: Content)
    requires LinksOk(h, order) && k < |order| && new_ !in h
    ensures order[k] in h && h[order[k]].previous == AddrAt(order, k - 1)
            && (h[order[k]].previous.Some? ==> h[order[k]].previous.value in h)
    ensures LinksOk(InsertedBefore(h, order[k], new_, id, c), Inserted(order, k, new_))
  {
    hide NodeOk, InsertedBefore, Inserted;
    NodeWithNext(h, order, k);
    var h', order' := InsertedBefore(h, order[k], new_, id, c), Inserted(order, k, new_);
    InsertedNoDup(h, order, k, new_);
    BeforeKeys(h, order[k], new_, id, c);
    forall i | 0 <= i < |order'| ensures NodeOk(h', order', i) { BeforeNode(h, order, k, new_, id, c, i); }
  }

  lemma BeforeKeys(h: Heap, a: Addr, new_: Addr, id: nat, c: Content)
    requires a in h && (h[a].previous.Some? ==> h[a].previous.value in h)
    ensures forall x :: x in InsertedBefore(h, a, new_, id, c) <==> x in h || x == new_
  {
  }

  lemma BeforeInserted(h: Heap, order: seq<Addr>, k: nat, new_: Addr, id: nat, c: Content)
    requires LinksOk(h, order) && k < |order| && new_ !in h
    ensures order[k] in h && h[order[k]].previous == AddrAt(order, k - 1)
            && (h[order[k]].previous.Some? ==> h[order[k]].previous.value in h)
    ensures var (h', order') := (InsertedBefore(h, order[k], new_, id, c), Inserted(order, k, new_));
            && LinksOk(h', order') && LazyOf(h', order') == LazyOf(h, order)
            && ChunksOf(h', order') == ChunksOf(h, order)[..k] + [Chunk(id, c)] + ChunksOf(h, order)[k..]
  {
    hide NodeOk, InsertedBefore, Inserted, LinksOk, ChunksOf, LazyOf;
    BeforeLinks(h, order, k, new_, id, c);
    var h', order' := InsertedBefore(h, order[k], new_, id, c), Inserted(order, k, new_);
    var cs, cs' := ChunksOf(h, order), ChunksOf(h', order');
    forall i | 0 <= i < |order'| ensures cs'[i] == if i == k then Chunk(id, c) else cs[if i < k then i else i - 1] {
      BeforeNode(h, order, k, new_, id, c, i);
    }
    assert cs' == cs[..k] + [Chunk(id, c)] + cs[k..];
    BeforeLazy(h, order, k, new_, id, c);
  }

  lemma BeforeLazy(h: Heap, order: seq<Addr>, k: nat, new_: Addr, id: nat, c: Content)
    requires LinksOk(h, order) && k < |order| && new_ !in h
    requires order[k] in h && h[order[k]].previous == AddrAt(order, k - 1)
             && (h[order[k]].previous.Some? ==> h[order[k]].previous.value in h)
    requires LinksOk(InsertedBefore(h, order[k], new_, id, c), Inserted(order, k, new_))
    ensures LazyOf(InsertedBefore(h, order[k], new_, id, c), Inserted(order, k, new_)) == LazyOf(h, order)
  {
    hide NodeOk, InsertedBefore, Inserted, LinksOk;
    BeforeNode(h, order, k, new_, id, c, 0);
  }

  // --- Unlinking ---------------------------------------------------------------------------

  /** The neighbours are linked to each other; the node itself is still allocated. */
  function Unlinked(h: Heap, a: Addr): Heap
    requires a in h && (h[a].previous.Some? ==> h[a].previous.value in h) && (h[a].next.Some? ==> h[a].next.value in h)
  {
    var previous, next, lazyPrevious := h[a].previous, h[a].next, h[a].lazyPrevious;
    var h0 := h[a := h[a].(lazyPrevious := None)];
    var h1 := if previous.Some? then h0[previous.value := h0[previous.value].(next := next)] else h0;
    if next.Some? then h1[next.value := h1[next.value].(previous := previous, lazyPrevious := lazyPrevious)] else h1
  }

  function Without(order: seq<Addr>, k: nat): (r: seq<Addr>)
    requires k < |order|
    ensures |r| == |order| - 1
  {
    order[..k] + order[k + 1..]
  }

  lemma UnlinkedLookup(h: Heap, a: Addr, x: Addr)
    requires a in h && (h[a].previous.Some? ==> h[a].previous.value in h) && (h[a].next.Some? ==> h[a].next.value in h)
    requires h[a].previous != Some(a) && h[a].next != Some(a) && (h[a].previous.Some? ==> h[a].previous != h[a].next)
    requires x in h && x != a
    ensures var h' := Unlinked(h, a) - {a};
            && x in h'
            && h'[x] == if h[a].previous == Some(x) then h[x].(next := h[a].next)
                        else if h[a].next == Some(x)
                        then h[x].(previous := h[a].previous, lazyPrevious := h[a].lazyPrevious)
                        else h[x]
  {
  }

  lemma UnlinkedNode(h: Heap, order: seq<Addr>, k: nat, i: nat)
    requires LinksOk(h, order) && k < |order| && i < |order| - 1
    requires order[k] in h && h[order[k]].previous == AddrAt(order, k - 1) && h[order[k]].next == AddrAt(order, k + 1)
    requires (k > 0 ==> order[k - 1] in h) && (k + 1 < |order| ==> order[k + 1] in h)
    ensures var (h', order') := (Unlinked(h, order[k]) - {order[k]}, Without(order, k));
            && NodeOk(h', order', i) && ChunkOf(h'[order'[i]]) == ChunkOf(h[order[if i < k then i else i + 1]])
            && (i == 0 ==> h'[order'[0]].lazyPrevious == h[order[0]].lazyPrevious)
  {
    hide Unlinked;
    var order', j := Without(order, k), if i < k then i else i + 1;
    assert NodeOk(h, order, j) && NodeOk(h, order, k) && order'[i] == order[j];
    assert order[j] != order[k];
    assert AddrAt(order, k - 1) == Some(order[j]) <==> j == k - 1;
    assert AddrAt(order, k + 1) == Some(order[j]) <==> j == k + 1;
    UnlinkedLookup(h, order[k], order[j]);
  }

  lemma RemovedNoDup(h: Heap, order: seq<Addr>, k: nat)
    requires LinksOk(h, order) && k < |order|
    ensures NoDup(Without(order, k)) && forall a :: a in Without(order, k) <==> a in h && a != order[k]
  {
    var order' := Without(order, k);
    assert order == order[..k] + [order[k]] + order[k + 1..];
    assert forall a | a in order[..k] || a in order[k + 1..] :: a in order;
    assert order[k] !in order';
  }

  lemma UnlinkedKeys(h: Heap, a: Addr)
    requires a in h && (h[a].previous.Some? ==> h[a].previous.value in h) && (h[a].next.Some? ==> h[a].next.value in h)
    ensures forall x :: x in Unlinked(h, a) <==> x in h
  {
  }

  lemma UnlinkedLinks(h: Heap, order: seq<Addr>, k: nat)
    requires LinksOk(h, order) && k < |order|
    ensures order[k] in h && h[order[k]].previous == AddrAt(order, k - 1) && h[order[k]].next == AddrAt(order, k + 1)
    ensures (k > 0 ==> order[k - 1] in h) && (k + 1 < |order| ==> order[k + 1] in h)
    ensures LinksOk(Unlinked(h, order[k]) - {order[k]}, Without(order, k))
  {
    hide NodeOk, Unlinked, Without;
    NodeWithNext(h, order, k);
    RemovedNoDup(h, order, k);
    UnlinkedKeys(h, order[k]);
    var h', order' := Unlinked(h, order[k]) - {order[k]}, Without(order, k);
    forall i | 0 <= i < |order'| ensures NodeOk(h', order', i) { UnlinkedNode(h, order, k, i); }
  }

  lemma NodeUnlinked(h: Heap, order: seq<Addr>, k: nat)
    requires LinksOk(h, order) && k < |order|
    ensures order[k] in h && h[order[k]].previous == AddrAt(order, k - 1) && h[order[k]].next == AddrAt(order, k + 1)
    ensures (k > 0 ==> order[k - 1] in h) && (k + 1 < |order| ==> order[k + 1] in h)
    ensures var (h', order') := (Unlinked(h, order[k]) - {order[k]}, Without(order, k));
            && LinksOk(h', order') && (|order| > 1 ==> LazyOf(h', order') == LazyOf(h, order))
            && ChunksOf(h', order') == ChunksOf(h, order)[..k] + ChunksOf(h, order)[k + 1..]
  {
    hide NodeOk, Unlinked, Without, LinksOk, ChunksOf, LazyOf;
    UnlinkedLinks(h, order, k);
    var h', order' := Unlinked(h, order[k]) - {order[k]}, Without(order, k);
    var cs, cs' := ChunksOf(h, order), ChunksOf(h', order');
    forall i | 0 <= i < |order'| ensures cs'[i] == cs[if i < k then i else i + 1] { UnlinkedNode(h, order, k, i); }
    assert cs' == cs[..k] + cs[k + 1..];
    if |order| > 1 { UnlinkedLazy(h, order, k); }
  }

  lemma UnlinkedLazy(h: Heap, order: seq<Addr>, k: nat)
    requires LinksOk(h, order) && k < |order| && 1 < |order|
    requires order[k] in h && h[order[k]].previous == AddrAt(order, k - 1) && h[order[k]].next == AddrAt(order, k + 1)
    requires (k > 0 ==> order[k - 1] in h) && (k + 1 < |order| ==> order[k + 1] in h)
    requires LinksOk(Unlinked(h, order[k]) - {order[k]}, Without(order, k))
    ensures LazyOf(Unlinked(h, order[k]) - {order[k]}, Without(order, k)) == LazyOf(h, order)
  {
    hide NodeOk, Unlinked, Without, LinksOk;
    UnlinkedNode(h, order, k, 0);
  }
}
