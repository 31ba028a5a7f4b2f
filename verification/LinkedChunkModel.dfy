/** The vocabulary shared by the linked chunk, its readers and its stores:
    chunks, positions, updates, and what a list of chunks contains. */
module LinkedChunkModel {
  import opened Wrappers

  datatype Event = Event(id: string, body: string)

  datatype Content = Items(items: seq<Event>) | Gap(token: string)

  /** A chunk as seen by a reader: its unique identifier and its content. */
  datatype Chunk = Chunk(id: nat, content: Content)

  datatype Position = Position(chunk: nat, index: nat)

  datatype Update =
    | NewItemsChunk(previous: Option<nat>, new_: nat, next: Option<nat>)
    | NewGapChunk(previous: Option<nat>, new_: nat, next: Option<nat>, gap: string)
    | RemoveChunk(id: nat)
    | PushItems(at: Position, items: seq<Event>)
    | ReplaceItem(at: Position, item: Event)
    | RemoveItem(at: Position)
    | DetachLastItems(at: Position)
    | StartReattachItems
    | EndReattachItems
    | Clear

  function ItemsOf(c: Chunk): seq<Event> {
    match c.content
    case Items(items) => items
    case Gap(_) => []
  }

  /** All the items, in order: what `LinkedChunk::items` iterates over. */
  function Flat(cs: seq<Chunk>): seq<Event> {
    if cs == [] then [] else ItemsOf(cs[0]) + Flat(cs[1..])
  }

  predicate DistinctIds(cs: seq<Chunk>) {
    forall i, j | 0 <= i < j < |cs| :: cs[i].id != cs[j].id
  }

  predicate IdsUpTo(cs: seq<Chunk>, gen: nat) {
    forall i | 0 <= i < |cs| :: cs[i].id <= gen
  }

  predicate WithinCapacity(cs: seq<Chunk>, cap: nat) {
    forall i | 0 <= i < |cs| :: |ItemsOf(cs[i])| <= cap
  }

  /** The index of the chunk identified by `id`, or `|cs|`. */
  function IndexOf(cs: seq<Chunk>, id: nat): (r: nat)
    ensures r <= |cs|
    ensures r < |cs| ==> cs[r].id == id
    ensures forall j | 0 <= j < r :: cs[j].id != id
  {
    if cs == [] then 0 else if cs[0].id == id then 0 else 1 + IndexOf(cs[1..], id)
  }

  function IdAt(cs: seq<Chunk>, i: int): (r: Option<nat>) {
    if 0 <= i < |cs| then Some(cs[i].id) else None
  }

  /** The event stored at a position, if the position points to one. */
  function At(cs: seq<Chunk>, p: Position): Option<Event> {
    var i := IndexOf(cs, p.chunk);
    if i < |cs| && p.index < |ItemsOf(cs[i])| then Some(ItemsOf(cs[i])[p.index]) else None
  }

  function GapAt(cs: seq<Chunk>, id: nat): Option<string> {
    var i := IndexOf(cs, id);
    if i < |cs| && cs[i].content.Gap? then Some(cs[i].content.token) else None
  }

  /** No event identifier occurs twice. */
  predicate DistinctEvents(es: seq<Event>) {
    forall i, j | 0 <= i < j < |es| :: es[i].id != es[j].id
  }

  predicate DisjointEvents(a: seq<Event>, b: seq<Event>) {
    forall x, y | x in a && y in b :: x.id != y.id
  }

  lemma DistinctConcat(a: seq<Event>, b: seq<Event>)
    ensures DistinctEvents(a + b) <==> DistinctEvents(a) && DistinctEvents(b) && DisjointEvents(a, b)
  {
    var c := a + b;
    if DistinctEvents(c) {
      forall i, j | 0 <= i < j < |a| ensures a[i].id != a[j].id { assert c[i].id != c[j].id; }
      forall i, j | 0 <= i < j < |b| ensures b[i].id != b[j].id { assert c[|a| + i].id != c[|a| + j].id; }
      forall x, y | x in a && y in b ensures x.id != y.id {
        var i, j :| 0 <= i < |a| && a[i] == x && 0 <= j < |b| && b[j] == y;
        assert c[i].id != c[|a| + j].id;
      }
    }
  }

  lemma {:induction false} FlatConcat(a: seq<Chunk>, b: seq<Chunk>)
    ensures Flat(a + b) == Flat(a) + Flat(b)
  {
    if a == [] {
      assert a + b == b;
    } else {
      assert (a + b)[1..] == a[1..] + b;
      FlatConcat(a[1..], b);
    }
  }

  lemma EmptyFlat()
    ensures Flat([]) == []
  {
  }

  lemma FlatOne(c: Chunk)
    ensures Flat([c]) == ItemsOf(c)
  {
    assert Flat([c][1..]) == [];
  }

  lemma FlatAround(pre: seq<Chunk>, mid: seq<Chunk>, post: seq<Chunk>)
    ensures Flat(pre + mid + post) == Flat(pre) + Flat(mid) + Flat(post)
  {
    FlatConcat(pre + mid, post);
    FlatConcat(pre, mid);
  }

  /** Replace chunk `k` by `mid`. */
  function Splice(cs: seq<Chunk>, k: nat, mid: seq<Chunk>): seq<Chunk>
    requires k < |cs|
  {
    cs[..k] + mid + cs[k + 1..]
  }

  lemma SpliceSame(cs: seq<Chunk>, k: nat)
    requires k < |cs|
    ensures cs == cs[..k] + [cs[k]] + cs[k + 1..]
  {
  }

  lemma IndexOfAt(cs: seq<Chunk>, i: nat)
    requires DistinctIds(cs) && i < |cs|
    ensures IndexOf(cs, cs[i].id) == i
  {
  }

  lemma IndexOfAbsent(cs: seq<Chunk>, id: nat)
    requires forall i | 0 <= i < |cs| :: cs[i].id != id
    ensures IndexOf(cs, id) == |cs|
  {
  }

  lemma IndexOfAround(pre: seq<Chunk>, c: Chunk, post: seq<Chunk>)
    requires DistinctIds(pre + [c] + post)
    ensures IndexOf(pre + [c] + post, c.id) == |pre|
    ensures (pre + [c] + post)[|pre|] == c
  {
    var cs := pre + [c] + post;
    assert cs[|pre|] == c;
    IndexOfAt(cs, |pre|);
  }

  /** Replacing the chunk in the middle. */
  lemma SpliceAround(pre: seq<Chunk>, c: Chunk, post: seq<Chunk>, mid: seq<Chunk>)
    ensures Splice(pre + [c] + post, |pre|, mid) == pre + mid + post
  {
    var cs := pre + [c] + post;
    assert cs[..|pre|] == pre;
    assert cs[|pre| + 1..] == post;
  }
}
