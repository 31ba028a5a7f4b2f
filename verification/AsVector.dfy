/** `AsVector` and `OrderTracker`: a linked chunk observed as a vector, through the
    updates alone and knowing only the length of every chunk. */
module AsVector {
  import opened LinkedChunkModel
  import opened Wrappers
  import opened LinkedChunkOps
  import opened LinkedChunkTruth
  import VD = VectorDiffs

  datatype Pair = Pair(id: nat, len: nat)

  /** `UpdateToVectorDiff`, with the two flags of a run of `map`. */
  datatype Mapper = Mapper(pairs: seq<Pair>, reattaching: bool, detaching: bool)

  datatype Mapped = Mapped(mapper: Mapper, diffs: seq<VD.VectorDiff<Event>>)

  function PairOf(c: Chunk): Pair {
    Pair(c.id, |ItemsOf(c)|)
  }

  /** `UpdateToVectorDiff::new`. */
  function Lengths(cs: seq<Chunk>): seq<Pair> {
    seq(|cs|, i requires 0 <= i < |cs| => PairOf(cs[i]))
  }

  function PairIndex(ps: seq<Pair>, id: nat): (r: nat)
    ensures r <= |ps|
    ensures r < |ps| ==> ps[r].id == id
    ensures forall j | 0 <= j < r :: ps[j].id != id
  {
    if ps == [] then 0 else if ps[0].id == id then 0 else 1 + PairIndex(ps[1..], id)
  }

  function Sum(ps: seq<Pair>): nat {
    if ps == [] then 0 else ps[0].len + Sum(ps[1..])
  }

  function Inserts(index: nat, items: seq<Event>): seq<VD.VectorDiff<Event>>
    decreases |items|
  {
    if items == [] then [] else [VD.Insert(index, items[0])] + Inserts(index + 1, items[1..])
  }

  function Removes(index: nat, n: nat): seq<VD.VectorDiff<Event>> {
    seq(n, _ => VD.Remove(index))
  }

  /** One round of the loop of `UpdateToVectorDiff::map`; `None` where it panics. */
  function MapOne(m: Mapper, u: Update): Option<Mapped> {
    match u
    case NewItemsChunk(previous, new_, next) => MapNew(m, previous, new_, next)
    case NewGapChunk(previous, new_, next, _) => MapNew(m, previous, new_, next)
    case RemoveChunk(id) =>
      var i := PairIndex(m.pairs, id);
      if i == |m.pairs| then None
      else Some(Mapped(m.(pairs := m.pairs[..i] + m.pairs[i + 1..]), Removes(Sum(m.pairs[..i]), m.pairs[i].len)))
    case PushItems(at, items) => MapPush(m, at, items)
    case ReplaceItem(at, item) =>
      var i := PairIndex(m.pairs, at.chunk);
      if i == |m.pairs| then None
      else Some(Mapped(m, [VD.Set(Sum(m.pairs[..i]) + at.index, item)]))
    case RemoveItem(at) =>
      var i := PairIndex(m.pairs, at.chunk);
      if i == |m.pairs| || m.pairs[i].len == 0 then None
      else
        var m' := m.(pairs := m.pairs[i := Pair(at.chunk, m.pairs[i].len - 1)]);
        Some(Mapped(m', if m.reattaching then [] else [VD.Remove(Sum(m.pairs[..i]) + at.index)]))
    case DetachLastItems(at) =>
      var i := PairIndex(m.pairs, at.chunk);
      if i == |m.pairs| then None
      else Some(Mapped(m.(pairs := m.pairs[i := Pair(at.chunk, at.index)], detaching := true), []))
    case StartReattachItems => Some(Mapped(m.(reattaching := true), []))
    case EndReattachItems => Some(Mapped(m.(reattaching := false, detaching := false), []))
    case Clear => Some(Mapped(m.(pairs := []), [VD.ClearAll]))
  }

  function MapPush(m: Mapper, at: Position, items: seq<Event>): Option<Mapped> {
    var i := PairIndex(m.pairs, at.chunk);
    if i == |m.pairs| then None
    else
      var offset := Sum(m.pairs[..i]) + at.index;
      var pushingBack := i + 1 == |m.pairs| && at.index >= m.pairs[i].len;
      var m' := m.(pairs := m.pairs[i := Pair(at.chunk, m.pairs[i].len + |items|)]);
      Some(Mapped(m', if m.reattaching then []
                      else if pushingBack && !m.detaching then [VD.Append(items)]
                      else Inserts(offset, items)))
  }

  function MapNew(m: Mapper, previous: Option<nat>, new_: nat, next: Option<nat>): Option<Mapped> {
    var p := Pair(new_, 0);
    if previous.Some? && next.None? then Some(Mapped(m.(pairs := m.pairs + [p]), []))
    else if previous.None? && next.Some? then
      if m.pairs != [] && m.pairs[0].id == next.value then Some(Mapped(m.(pairs := [p] + m.pairs), [])) else None
    else if previous.Some? && next.Some? then
      var i := PairIndex(m.pairs, next.value);
      if i == |m.pairs| then None else Some(Mapped(m.(pairs := m.pairs[..i] + [p] + m.pairs[i..]), []))
    else if m.pairs == [] then Some(Mapped(m.(pairs := [p]), []))
    else None
  }

  predicate Knows(m: Mapper, id: nat) {
    exists i :: 0 <= i < |m.pairs| && m.pairs[i].id == id
  }

  /** The update names a chunk that is not where it says. */
  predicate IsLost(m: Mapper, u: Update) {
    match u
    case NewItemsChunk(previous, _, next) => IsLostNew(m, previous, next)
    case NewGapChunk(previous, _, next, _) => IsLostNew(m, previous, next)
    case RemoveChunk(id) => !Knows(m, id)
    case PushItems(at, _) => !Knows(m, at.chunk)
    case ReplaceItem(at, _) => !Knows(m, at.chunk)
    case RemoveItem(at) =>
      forall i | 0 <= i < |m.pairs| && m.pairs[i].id == at.chunk
          && (forall j | 0 <= j < i :: m.pairs[j].id != at.chunk) ::
        m.pairs[i].len == 0
    case DetachLastItems(at) => !Knows(m, at.chunk)
    case _ => false
  }

  predicate IsLostNew(m: Mapper, previous: Option<nat>, next: Option<nat>) {
    if next.None? then previous.None? && m.pairs != []
    else if previous.None? then m.pairs == [] || m.pairs[0].id != next.value
    else !Knows(m, next.value)
  }

  /** The mapping panics exactly then. */
  lemma MapPanicsIff(m: Mapper, u: Update)
    ensures MapOne(m, u).None? <==> IsLost(m, u)
  {
    hide Sum, Inserts, Removes;
  }

  /** Items pushed on the last chunk are appended at once. */
  lemma PushedBackIsAppended(m: Mapper, at: Position, items: seq<Event>)
    requires m.pairs != [] && !m.reattaching && !m.detaching && !Knows(m.(pairs := m.pairs[..|m.pairs| - 1]), at.chunk)
    requires m.pairs[|m.pairs| - 1] == Pair(at.chunk, at.index)
    ensures MapOne(m, PushItems(at, items)).Some? && MapOne(m, PushItems(at, items)).value.diffs == [VD.Append(items)]
  {
    hide Sum, Inserts;
    var front, i := m.(pairs := m.pairs[..|m.pairs| - 1]), PairIndex(m.pairs, at.chunk);
    forall j | 0 <= j < |m.pairs| - 1 ensures m.pairs[j].id != at.chunk { assert front.pairs[j] == m.pairs[j]; }
  }

  function Map(m: Mapper, us: seq<Update>): Option<Mapped>
    decreases |us|
  {
    if us == [] then Some(Mapped(m, []))
    else match MapOne(m, us[0])
      case None => None
      case Some(one) => match Map(one.mapper, us[1..])
        case None => None
        case Some(rest) => Some(Mapped(rest.mapper, one.diffs + rest.diffs))
  }

  /** Mapping the updates succeeds, ends with `m'`, and its diffs turn `v` into `v'`. */
  predicate Shows(m: Mapper, v: seq<Event>, us: seq<Update>, m': Mapper, v': seq<Event>) {
    && Map(m, us).Some?
    && Map(m, us).value.mapper == m'
    && VD.ApplyDiffs(v, Map(m, us).value.diffs) == Some(v')
  }

  lemma {:induction false} MapConcat(m: Mapper, us: seq<Update>, vs: seq<Update>)
    requires Map(m, us).Some? && Map(Map(m, us).value.mapper, vs).Some?
    ensures var a := Map(m, us).value;
            var b := Map(a.mapper, vs).value;
            Map(m, us + vs) == Some(Mapped(b.mapper, a.diffs + b.diffs))
    decreases |us|
  {
    hide MapOne;
    if us == [] {
      assert us + vs == vs;
      assert [] + Map(m, vs).value.diffs == Map(m, vs).value.diffs;
    } else {
      assert (us + vs)[1..] == us[1..] + vs;
      var one := MapOne(m, us[0]).value;
      MapConcat(one.mapper, us[1..], vs);
      var a := Map(one.mapper, us[1..]).value;
      var b := Map(a.mapper, vs).value;
      assert one.diffs + (a.diffs + b.diffs) == one.diffs + a.diffs + b.diffs;
    }
  }

  lemma ShowsConcat(m: Mapper, v: seq<Event>, us: seq<Update>, m1: Mapper, v1: seq<Event>, vs: seq<Update>, m2: Mapper,
                    v2: seq<Event>)
    requires Shows(m, v, us, m1, v1) && Shows(m1, v1, vs, m2, v2)
    ensures Shows(m, v, us + vs, m2, v2)
  {
    MapConcat(m, us, vs);
    VD.ApplyDiffsConcat(v, Map(m, us).value.diffs, Map(m1, vs).value.diffs);
  }

  lemma ShowsOne(m: Mapper, v: seq<Event>, u: Update, m': Mapper, ds: seq<VD.VectorDiff<Event>>, v': seq<Event>)
    requires MapOne(m, u) == Some(Mapped(m', ds)) && VD.ApplyDiffs(v, ds) == Some(v')
    ensures Shows(m, v, [u], m', v')
  {
    assert [u][1..] == [];
    assert ds + [] == ds;
  }

  lemma ShowsNothing(m: Mapper, v: seq<Event>)
    ensures Shows(m, v, [], m, v)
  {
  }

  // --- Offsets -----------------------------------------------------------------

  lemma LengthsConcat(a: seq<Chunk>, b: seq<Chunk>)
    ensures Lengths(a + b) == Lengths(a) + Lengths(b)
  {
  }

  lemma LengthsAround(l: seq<Chunk>, mid: seq<Chunk>, r: seq<Chunk>)
    ensures Lengths(l + mid + r) == Lengths(l) + Lengths(mid) + Lengths(r)
  {
    LengthsConcat(l + mid, r);
    LengthsConcat(l, mid);
  }

  lemma {:induction false} SumIsLength(cs: seq<Chunk>)
    ensures Sum(Lengths(cs)) == |Flat(cs)|
  {
    if cs != [] {
      assert Lengths(cs)[1..] == Lengths(cs[1..]);
      SumIsLength(cs[1..]);
    }
  }

  lemma {:induction false} PairIndexIsIndex(cs: seq<Chunk>, id: nat)
    ensures PairIndex(Lengths(cs), id) == IndexOf(cs, id)
  {
    if cs != [] {
      assert Lengths(cs)[1..] == Lengths(cs[1..]);
      PairIndexIsIndex(cs[1..], id);
    }
  }

  /** The pair of chunk `c`, and the number of items before it. */
  lemma PairAround(l: seq<Chunk>, c: Chunk, r: seq<Chunk>)
    requires DistinctIds(l + [c] + r)
    ensures var ps := Lengths(l + [c] + r);
            && PairIndex(ps, c.id) == |l| < |ps|
            && ps[|l|] == PairOf(c) && ps[..|l|] == Lengths(l) && ps[|l| + 1..] == Lengths(r)
            && Sum(ps[..|l|]) == |Flat(l)|
            && (|l| + 1 == |ps| <==> r == [])
  {
    IndexOfAround(l, c, r);
    PairIndexIsIndex(l + [c] + r, c.id);
    LengthsAround(l, [c], r);
    SumIsLength(l);
  }

  lemma {:induction false} InsertsApply(v: seq<Event>, index: nat, items: seq<Event>)
    requires index <= |v|
    ensures VD.ApplyDiffs(v, Inserts(index, items)) == Some(v[..index] + items + v[index..])
    decreases |items|
  {
    if items == [] {
      assert v[..index] + [] + v[index..] == v;
    } else {
      var v1 := v[..index] + [items[0]] + v[index..];
      assert VD.ApplyDiffs(v1, Inserts(index + 1, items[1..])) == Some(v[..index] + items + v[index..]) by {
        InsertsApply(v1, index + 1, items[1..]);
        InsertedThen(v[..index], items, v[index..]);
      }
      assert VD.ApplyDiff(v, VD.Insert(index, items[0])) == Some(v1);
      assert Inserts(index, items)[1..] == Inserts(index + 1, items[1..]);
    }
  }

  lemma InsertedThen(a: seq<Event>, items: seq<Event>, b: seq<Event>)
    requires items != []
    ensures var v := a + [items[0]] + b; v[..|a| + 1] + items[1..] + v[|a| + 1..] == a + items + b
  {
    var v := a + [items[0]] + b;
    assert v[..|a| + 1] == a + [items[0]] && v[|a| + 1..] == b;
    assert items == [items[0]] + items[1..];
  }

  // --- One update at a time ----------------------------------------------------

  lemma PushPairs(l: seq<Chunk>, c: Chunk, r: seq<Chunk>, items: seq<Event>)
    requires c.content.Items?
    ensures var ps := Lengths(l + [c] + r);
            ps[|l| := Pair(c.id, |c.content.items| + |items|)] ==
                Lengths(l + [WithItems(c, c.content.items + items)] + r)
  {
    LengthsAround(l, [c], r);
    LengthsAround(l, [WithItems(c, c.content.items + items)], r);
  }

  function PushDiffs(index: nat, items: seq<Event>, append: bool): seq<VD.VectorDiff<Event>> {
    if append then [VD.Append(items)] else Inserts(index, items)
  }

  lemma PushMaps(l: seq<Chunk>, c: Chunk, r: seq<Chunk>, items: seq<Event>, reattaching: bool, detaching: bool)
    requires DistinctIds(l + [c] + r) && c.content.Items?
    ensures MapPush(Mapper(Lengths(l + [c] + r), reattaching, detaching), Position(c.id, |c.content.items|), items)
         == Some(Mapped(Mapper(Lengths(l + [WithItems(c, c.content.items + items)] + r), reattaching, detaching),
                        if reattaching then []
                        else PushDiffs(|Flat(l)| + |c.content.items|, items, r == [] && !detaching)))
  {
    hide Lengths, Flat, Sum, PairIndex, DistinctIds, Inserts;
    var ps := Lengths(l + [c] + r);
    assert PairIndex(ps, c.id) == |l| < |ps| && ps[|l|].len == |c.content.items| && Sum(ps[..|l|]) == |Flat(l)|
        && (|l| + 1 == |ps| <==> r == []) by {
      PairAround(l, c, r);
    }
    PushPairs(l, c, r, items);
  }

  /** `x + tail + y` with items inserted before `tail`; appended when nothing follows. */
  lemma PushApplies(x: seq<Event>, tail: seq<Event>, y: seq<Event>, items: seq<Event>, append: bool)
    requires append ==> tail + y == []
    ensures VD.ApplyDiffs(x + tail + y, PushDiffs(|x|, items, append)) == Some(x + items + tail + y)
  {
    var v := x + tail + y;
    if append {
      assert v == x && x + items + tail + y == v + items;
      assert [VD.Append(items)][1..] == [];
    } else {
      InsertsApply(v, |x|, items);
      assert v[..|x|] == x && v[|x|..] == tail + y;
      assert x + items + (tail + y) == x + items + tail + y;
    }
  }

  /** Items pushed on chunk `c` while `tail` is detached from its end. */
  lemma PushShows(l: seq<Chunk>, c: Chunk, r: seq<Chunk>, items: seq<Event>, tail: seq<Event>, detaching: bool)
    requires DistinctIds(l + [c] + r) && c.content.Items? && (!detaching ==> tail == [])
    ensures Shows(Mapper(Lengths(l + [c] + r), false, detaching), Flat(l) + c.content.items + tail + Flat(r),
                  [PushItems(Position(c.id, |c.content.items|), items)],
                  Mapper(Lengths(l + [WithItems(c, c.content.items + items)] + r), false, detaching),
                  Flat(l) + c.content.items + items + tail + Flat(r))
  {
    hide Shows, Map, MapPush, Lengths, Flat, DistinctIds, PushDiffs;
    var m, m' := Mapper(Lengths(l + [c] + r), false, detaching),
                 Mapper(Lengths(l + [WithItems(c, c.content.items + items)] + r), false, detaching);
    var u, x := PushItems(Position(c.id, |c.content.items|), items), Flat(l) + c.content.items;
    var ds := PushDiffs(|x|, items, r == [] && !detaching);
    assert MapOne(m, u) == Some(Mapped(m', ds)) by {
      PushMaps(l, c, r, items, false, detaching);
    }
    EmptyFlat();
    PushApplies(x, tail, Flat(r), items, r == [] && !detaching);
    ShowsOne(m, x + tail + Flat(r), u, m', ds, x + items + tail + Flat(r));
  }

  lemma ReattachShows(l: seq<Chunk>, c: Chunk, r: seq<Chunk>, items: seq<Event>, v: seq<Event>)
    requires DistinctIds(l + [c] + r) && c.content.Items?
    ensures Shows(Mapper(Lengths(l + [c] + r), true, true), v, [PushItems(Position(c.id, |c.content.items|), items)],
                  Mapper(Lengths(l + [WithItems(c, c.content.items + items)] + r), true, true), v)
  {
    var m, m' := Mapper(Lengths(l + [c] + r), true, true),
                 Mapper(Lengths(l + [WithItems(c, c.content.items + items)] + r), true, true);
    PushMaps(l, c, r, items, true, true);
    ShowsOne(m, v, PushItems(Position(c.id, |c.content.items|), items), m', [], v);
  }

  /** A chunk linked between `l` and `r`, of which at least one is not empty;
      `previous` may also be a chunk that is not loaded. */
  lemma NewShows(l: seq<Chunk>, c: Chunk, r: seq<Chunk>, previous: Option<nat>, reattaching: bool, detaching: bool,
                 v: seq<Event>)
    requires DistinctIds(l + r) && ItemsOf(c) == []
    requires l != [] ==> previous.Some?
    requires l == [] ==> r != []
    ensures Shows(Mapper(Lengths(l + r), reattaching, detaching), v, [NewUpdate(previous, c, IdAt(r, 0))],
                  Mapper(Lengths(l + [c] + r), reattaching, detaching), v)
  {
    hide Shows, Map, MapNew, Lengths, DistinctIds;
    var m, m' := Mapper(Lengths(l + r), reattaching, detaching), Mapper(Lengths(l + [c] + r), reattaching, detaching);
    NewMaps(l, c, r, previous, reattaching, detaching);
    ShowsOne(m, v, NewUpdate(previous, c, IdAt(r, 0)), m', [], v);
  }

  lemma NewMaps(l: seq<Chunk>, c: Chunk, r: seq<Chunk>, previous: Option<nat>, reattaching: bool, detaching: bool)
    requires DistinctIds(l + r) && ItemsOf(c) == []
    requires l != [] ==> previous.Some?
    requires l == [] ==> r != []
    ensures MapNew(Mapper(Lengths(l + r), reattaching, detaching), previous, c.id, IdAt(r, 0))
         == Some(Mapped(Mapper(Lengths(l + [c] + r), reattaching, detaching), []))
  {
    hide Lengths, PairIndex, DistinctIds;
    var ps, p := Lengths(l + r), Pair(c.id, 0);
    LengthsConcat(l, r);
    LengthsAround(l, [c], r);
    assert Lengths([c]) == [p] && |Lengths(l)| == |l| && Lengths([]) == [] by { OneLength(c); LengthsSize(l); }
    assert ps[..|l|] == Lengths(l) && ps[|l|..] == Lengths(r);
    if r == [] {
      assert ps + [p] == Lengths(l) + [p] + Lengths(r);
    } else {
      NextPair(l, r);
      assert l == [] ==> ps == Lengths(r) && [p] + ps == Lengths(l) + [p] + Lengths(r);
    }
  }

  lemma OneLength(c: Chunk)
    ensures Lengths([c]) == [Pair(c.id, |ItemsOf(c)|)] && Lengths([]) == []
  {
  }

  lemma LengthsSize(l: seq<Chunk>)
    ensures |Lengths(l)| == |l|
  {
  }

  lemma NextPair(l: seq<Chunk>, r: seq<Chunk>)
    requires DistinctIds(l + r) && r != []
    ensures PairIndex(Lengths(l + r), r[0].id) == |l| < |Lengths(l + r)| && Lengths(l + r)[|l|].id == r[0].id
  {
    assert (l + r)[|l|] == r[0];
    IndexOfAt(l + r, |l|);
    PairIndexIsIndex(l + r, r[0].id);
  }

  // --- Pushing -----------------------------------------------------------------

  /** What the observed vector holds: while the mapper is muted, some fixed `v`;
      otherwise the items before the detached tail, the tail, the items after. */
  function Seen(muted: bool, v: seq<Event>, before: seq<Event>, tail: seq<Event>, after: seq<Event>): seq<Event> {
    if muted then v else before + tail + after
  }

  lemma FillShows(l: seq<Chunk>, c: Chunk, r: seq<Chunk>, fit: seq<Event>, tail: seq<Event>, muted: bool,
                  detaching: bool, v: seq<Event>)
    requires DistinctIds(l + [c] + r) && (fit != [] ==> c.content.Items?)
    requires (!detaching ==> tail == []) && (muted ==> detaching)
    ensures Shows(Mapper(Lengths(l + [c] + r), muted, detaching), Seen(muted, v, Flat(l) + ItemsOf(c), tail, Flat(r)),
                  FillUpdates(c, fit),
                  Mapper(Lengths(l + [Fill(c, fit)] + r), muted, detaching),
                      Seen(muted, v, Flat(l) + ItemsOf(c) + fit, tail, Flat(r)))
  {
    if fit != [] {
      if muted {
        ReattachShows(l, c, r, fit, v);
      } else {
        PushShows(l, c, r, fit, tail, detaching);
      }
    } else {
      assert Flat(l) + ItemsOf(c) + fit == Flat(l) + ItemsOf(c);
    }
  }

  lemma {:induction false} SpillShows(cap: nat, l: seq<Chunk>, c: Chunk, r: seq<Chunk>, items: seq<Event>, gen: nat,
                                      x: seq<Event>, tail: seq<Event>, muted: bool, detaching: bool, v: seq<Event>)
    requires 0 < cap && DistinctIds(l + [c] + r) && IdsUpTo(l + [c] + r, gen) && x == Flat(l) + ItemsOf(c)
    requires (!detaching ==> tail == []) && (muted ==> detaching)
    ensures var rr := Spill(cap, c, IdAt(r, 0), items, gen);
            Shows(Mapper(Lengths(l + [c] + r), muted, detaching), Seen(muted, v, x, tail, Flat(r)), rr.updates,
                  Mapper(Lengths(l + rr.chunks + r), muted, detaching), Seen(muted, v, x + items, tail, Flat(r)))
    decreases |items|, if FreeSpace(c, cap) > 0 then 0 else 1
  {
    if items == [] || (c.content.Items? && |items| <= FreeSpace(c, cap)) {
      FillShows(l, c, r, items, tail, muted, detaching, v);
    } else {
      SpillOverShows(cap, l, c, r, items, gen, x, tail, muted, detaching, v);
    }
  }

  lemma {:induction false} SpillOverShows(cap: nat, l: seq<Chunk>, c: Chunk, r: seq<Chunk>, items: seq<Event>, gen: nat,
                                          x: seq<Event>, tail: seq<Event>, muted: bool, detaching: bool, v: seq<Event>)
    requires 0 < cap && DistinctIds(l + [c] + r) && IdsUpTo(l + [c] + r, gen) && x == Flat(l) + ItemsOf(c)
    requires (!detaching ==> tail == []) && (muted ==> detaching)
    requires items != [] && !(c.content.Items? && |items| <= FreeSpace(c, cap))
    ensures var rr := Spill(cap, c, IdAt(r, 0), items, gen);
            Shows(Mapper(Lengths(l + [c] + r), muted, detaching), Seen(muted, v, x, tail, Flat(r)), rr.updates,
                  Mapper(Lengths(l + rr.chunks + r), muted, detaching), Seen(muted, v, x + items, tail, Flat(r)))
    decreases |items|, if FreeSpace(c, cap) > 0 then 0 else 1, 0
  {
    hide Shows, DistinctIds, IdsUpTo, Flat, Lengths, IdAt;
    var free := FreeSpace(c, cap);
    var fit, rest := items[..free], items[free..];
    var f, e := Fill(c, fit), Chunk(gen + 1, Items([]));
    var us := FillUpdates(c, fit) + [NewItemsChunk(Some(c.id), gen + 1, IdAt(r, 0))];
    var rr := Spill(cap, e, IdAt(r, 0), rest, gen + 1);
    var m0, m2, m3 := Mapper(Lengths(l + [c] + r), muted, detaching),
        Mapper(Lengths(l + [f] + [e] + r), muted, detaching),
                      Mapper(Lengths(l + [f] + rr.chunks + r), muted, detaching);
    var v0, v2, v3 := Seen(muted, v, x, tail, Flat(r)), Seen(muted, v, x + fit, tail, Flat(r)),
                      Seen(muted, v, x + items, tail, Flat(r));
    assert Shows(m0, v0, us, m2, v2) && DistinctIds(l + [f] + [e] + r) && IdsUpTo(l + [f] + [e] + r, gen + 1)
        && x + fit == Flat(l + [f]) + ItemsOf(e) by {
      OverflowShows(l, c, r, fit, gen, tail, muted, detaching, v);
      NewIdsAfterFill(l, c, r, fit, gen);
    }
    assert Shows(m2, v2, rr.updates, m3, v3) by {
      SpillShows(cap, l + [f], e, r, rest, gen + 1, x + fit, tail, muted, detaching, v);
      assert x + fit + rest == x + items;
    }
    assert Shows(m0, v0, us + rr.updates, m3, v3) by {
      ShowsConcat(m0, v0, us, m2, v2, rr.updates, m3, v3);
    }
    assert l + [f] + rr.chunks + r == l + ([f] + rr.chunks) + r;
    assert Spill(cap, c, IdAt(r, 0), items, gen) == Spilled([f] + rr.chunks, rr.gen, us + rr.updates);
  }

  lemma NewIdsAfterFill(l: seq<Chunk>, c: Chunk, r: seq<Chunk>, fit: seq<Event>, gen: nat)
    requires DistinctIds(l + [c] + r) && IdsUpTo(l + [c] + r, gen) && (fit != [] ==> c.content.Items?)
    ensures var cs := l + [Fill(c, fit)] + [Chunk(gen + 1, Items([]))] + r; DistinctIds(cs) && IdsUpTo(cs, gen + 1)
    ensures Flat(l + [Fill(c, fit)]) == Flat(l) + ItemsOf(c) + fit
  {
    hide DistinctIds, IdsUpTo, Flat;
    FlatConcat(l, [Fill(c, fit)]);
    FlatOne(Fill(c, fit));
    SameIds(l, c, Fill(c, fit), r);
    NewIds(l + [Fill(c, fit)], Chunk(gen + 1, Items([])), r, gen);
  }

  lemma OverflowShows(l: seq<Chunk>, c: Chunk, r: seq<Chunk>, fit: seq<Event>, gen: nat, tail: seq<Event>,
                      muted: bool, detaching: bool, v: seq<Event>)
    requires DistinctIds(l + [c] + r) && IdsUpTo(l + [c] + r, gen) && (fit != [] ==> c.content.Items?)
    requires (!detaching ==> tail == []) && (muted ==> detaching)
    ensures Shows(Mapper(Lengths(l + [c] + r), muted, detaching), Seen(muted, v, Flat(l) + ItemsOf(c), tail, Flat(r)),
                  FillUpdates(c, fit) + [NewItemsChunk(Some(c.id), gen + 1, IdAt(r, 0))],
                  Mapper(Lengths(l + [Fill(c, fit)] + [Chunk(gen + 1, Items([]))] + r), muted, detaching),
                  Seen(muted, v, Flat(l) + ItemsOf(c) + fit, tail, Flat(r)))
  {
    hide Shows;
    var f, e := Fill(c, fit), Chunk(gen + 1, Items([]));
    var v1 := Seen(muted, v, Flat(l) + ItemsOf(c) + fit, tail, Flat(r));
    FillShows(l, c, r, fit, tail, muted, detaching, v);
    SameIds(l, c, f, r);
    NewShows(l + [f], e, r, Some(c.id), muted, detaching, v1);
    ShowsConcat(Mapper(Lengths(l + [c] + r), muted, detaching), Seen(muted, v, Flat(l) + ItemsOf(c), tail, Flat(r)),
                FillUpdates(c, fit), Mapper(Lengths(l + [f] + r), muted, detaching), v1,
                [NewItemsChunk(Some(c.id), gen + 1, IdAt(r, 0))],
                Mapper(Lengths(l + [f] + [e] + r), muted, detaching), v1);
  }

  // --- Every operation ---------------------------------------------------------

  /** The mapper between two operations. */
  function Idle(cs: seq<Chunk>): Mapper {
    Mapper(Lengths(cs), false, false)
  }

  lemma FlagsShow(ps: seq<Pair>, v: seq<Event>)
    ensures Shows(Mapper(ps, false, true), v, [StartReattachItems], Mapper(ps, true, true), v)
    ensures Shows(Mapper(ps, true, true), v, [EndReattachItems], Mapper(ps, false, false), v)
  {
    ShowsOne(Mapper(ps, false, true), v, StartReattachItems, Mapper(ps, true, true), [], v);
    ShowsOne(Mapper(ps, true, true), v, EndReattachItems, Mapper(ps, false, false), [], v);
  }

  lemma DetachMaps(l: seq<Chunk>, c: Chunk, r: seq<Chunk>, index: nat)
    requires DistinctIds(l + [c] + r) && c.content.Items? && index <= |c.content.items|
    ensures var c1 := WithItems(c, c.content.items[..index]);
            MapOne(Idle(l + [c] + r), DetachLastItems(Position(c.id, index))) ==
                Some(Mapped(Mapper(Lengths(l + [c1] + r), false, true), []))
  {
    hide DistinctIds, PairIndex, Sum, Lengths;
    PairAround(l, c, r);
    CutLengths(l, c, r, index);
  }

  lemma CutLengths(l: seq<Chunk>, c: Chunk, r: seq<Chunk>, index: nat)
    requires c.content.Items? && index <= |c.content.items|
    ensures var c1 := WithItems(c, c.content.items[..index]);
            |l| < |Lengths(l + [c] + r)| && Lengths(l + [c] + r)[|l| := Pair(c.id, index)] == Lengths(l + [c1] + r)
  {
    LengthsAround(l, [c], r);
    LengthsAround(l, [WithItems(c, c.content.items[..index])], r);
  }

  lemma DetachShows(l: seq<Chunk>, c: Chunk, r: seq<Chunk>, index: nat, v: seq<Event>)
    requires DistinctIds(l + [c] + r) && c.content.Items? && index <= |c.content.items|
    ensures Shows(Idle(l + [c] + r), v, [DetachLastItems(Position(c.id, index))],
                  Mapper(Lengths(l + [WithItems(c, c.content.items[..index])] + r), false, true), v)
  {
    hide Shows, MapOne, Lengths;
    DetachMaps(l, c, r, index);
    ShowsOne(Idle(l + [c] + r), v, DetachLastItems(Position(c.id, index)),
             Mapper(Lengths(l + [WithItems(c, c.content.items[..index])] + r), false, true), [], v);
  }

  /** The items of chunk `k` and around it. */
  lemma FlatSplit(cs: seq<Chunk>, k: nat)
    requires k < |cs|
    ensures Flat(cs) == Flat(cs[..k]) + ItemsOf(cs[k]) + Flat(cs[k + 1..])
  {
    SpliceSame(cs, k);
    FlatAround(cs[..k], [cs[k]], cs[k + 1..]);
    FlatOne(cs[k]);
  }

  /** The chunks of `s`, after those of `l0` that a reader knows although they are
      not in memory. */
  predicate Tracked(l0: seq<Chunk>, s: State) {
    && DistinctIds(l0 + s.chunks)
    && IdsUpTo(l0 + s.chunks, s.gen)
    && (l0 != [] ==> s.lazyPrevious.Some?)
    && (s.chunks == [] ==> l0 == [])
  }

  /** The outcome of an operation is mapped onto what happened to the items. */
  predicate Reported(l0: seq<Chunk>, s: State, o: Outcome) {
    Shows(Idle(l0 + s.chunks), Flat(l0 + s.chunks), o.updates, Idle(l0 + o.state.chunks), Flat(l0 + o.state.chunks))
  }

  lemma FlatFocus(l0: seq<Chunk>, s: State, k: nat)
    requires k < |s.chunks|
    ensures Flat(l0 + s.chunks) == Flat(Before(l0, s, k)) + ItemsOf(s.chunks[k]) + Flat(After(s, k))
  {
    hide Flat;
    Focus(l0, s, k);
    FlatAround(Before(l0, s, k), [s.chunks[k]], After(s, k));
    FlatOne(s.chunks[k]);
  }

  lemma PushSeen(l0: seq<Chunk>, s: State, cap: nat, k: nat, items: seq<Event>)
    requires 0 < cap && Tracked(l0, s) && k < |s.chunks|
    ensures Reported(l0, s, Push(cap, s, k, items))
  {
    hide Shows, Spill, Flat, DistinctIds, IdsUpTo, Lengths;
    var l, c, r := Before(l0, s, k), s.chunks[k], After(s, k);
    var x := Flat(l) + ItemsOf(c);
    var rr := Spill(cap, c, IdAt(r, 0), items, s.gen);
    Focus(l0, s, k);
    Spliced(l0, s, k, rr.chunks);
    SpillShows(cap, l, c, r, items, s.gen, x, [], false, false, []);
    assert x + [] + Flat(r) == Flat(l0 + s.chunks) by { FlatFocus(l0, s, k); }
    assert x + items + [] + Flat(r) == Flat(l + rr.chunks + r) by {
      SpillAdds(cap, c, IdAt(r, 0), items, s.gen);
      FlatAround(l, rr.chunks, r);
    }
  }

  /** Detach, push the new items, and get ready to reattach. */
  lemma DetachAndPushShows(cap: nat, l: seq<Chunk>, c: Chunk, r: seq<Chunk>, index: nat, items: seq<Event>, gen: nat)
    requires 0 < cap && c.content.Items? && index <= |c.content.items|
    requires DistinctIds(l + [c] + r) && IdsUpTo(l + [c] + r, gen)
    ensures var x, tail := Flat(l) + c.content.items[..index], c.content.items[index..];
            var r1 := Spill(cap, WithItems(c, c.content.items[..index]), IdAt(r, 0), items, gen);
            Shows(Idle(l + [c] + r), x + tail + Flat(r),
                  [DetachLastItems(Position(c.id, index))] + r1.updates + [StartReattachItems],
                  Mapper(Lengths(l + r1.chunks + r), true, true), x + items + tail + Flat(r))
  {
    hide Shows;
    var x, tail := Flat(l) + c.content.items[..index], c.content.items[index..];
    var c1 := WithItems(c, c.content.items[..index]);
    var r1 := Spill(cap, c1, IdAt(r, 0), items, gen);
    var v0, v1 := x + tail + Flat(r), x + items + tail + Flat(r);
    var m0, m1, m2 := Idle(l + [c] + r), Mapper(Lengths(l + [c1] + r), false, true),
        Mapper(Lengths(l + r1.chunks + r), false, true);
    var u := DetachLastItems(Position(c.id, index));
    assert Shows(m0, v0, [u] + r1.updates, m2, v1) by {
      DetachShows(l, c, r, index, v0);
      SameIds(l, c, c1, r);
      SpillShows(cap, l, c1, r, items, gen, x, tail, false, true, []);
      ShowsConcat(m0, v0, [u], m1, v0, r1.updates, m2, v1);
    }
    FlagsShow(m2.pairs, v1);
    ShowsConcat(m0, v0, [u] + r1.updates, m2, v1, [StartReattachItems], Mapper(m2.pairs, true, true), v1);
  }

  /** Push the tail back on the last chunk of `mid`: nothing changes for the vector. */
  lemma ReattachAllShows(cap: nat, l: seq<Chunk>, mid: seq<Chunk>, r: seq<Chunk>, tail: seq<Event>, gen: nat,
                         v: seq<Event>)
    requires 0 < cap && mid != [] && DistinctIds(l + mid + r) && IdsUpTo(l + mid + r, gen)
    ensures var r2 := Spill(cap, Last(mid), IdAt(r, 0), tail, gen);
            Shows(Mapper(Lengths(l + mid + r), true, true), v, r2.updates + [EndReattachItems],
                  Idle(l + (mid[..|mid| - 1] + r2.chunks) + r), v)
  {
    hide Shows;
    var l2 := l + mid[..|mid| - 1];
    var r2 := Spill(cap, Last(mid), IdAt(r, 0), tail, gen);
    assert l + mid + r == l2 + [Last(mid)] + r;
    assert l2 + r2.chunks + r == l + (mid[..|mid| - 1] + r2.chunks) + r;
    SpillShows(cap, l2, Last(mid), r, tail, gen, Flat(l2) + ItemsOf(Last(mid)), [], true, true, v);
    FlagsShow(Lengths(l2 + r2.chunks + r), v);
    ShowsConcat(Mapper(Lengths(l + mid + r), true, true), v, r2.updates,
                Mapper(Lengths(l2 + r2.chunks + r), true, true), v,
                [EndReattachItems], Idle(l2 + r2.chunks + r), v);
  }

  lemma SpilledIds(cap: nat, l: seq<Chunk>, c: Chunk, c1: Chunk, r: seq<Chunk>, items: seq<Event>, gen: nat)
    requires 0 < cap && c1.id == c.id && DistinctIds(l + [c] + r) && IdsUpTo(l + [c] + r, gen)
    ensures var rr := Spill(cap, c1, IdAt(r, 0), items, gen);
            DistinctIds(l + rr.chunks + r) && IdsUpTo(l + rr.chunks + r, rr.gen)
  {
    hide DistinctIds, IdsUpTo, Spill, IdAt;
    SameIds(l, c, c1, r);
    SpillIds(cap, c1, IdAt(r, 0), items, gen);
    FreshlyNumbered(l, c1, r, Spill(cap, c1, IdAt(r, 0), items, gen).chunks, gen);
  }

  lemma InsertInsideSeen(l0: seq<Chunk>, s: State, cap: nat, k: nat, index: nat, items: seq<Event>)
    requires 0 < cap && Tracked(l0, s) && k < |s.chunks|
    requires s.chunks[k].content.Items? && index < |s.chunks[k].content.items|
    ensures Reported(l0, s, InsertInside(cap, s, k, index, items))
  {
    hide Shows, DistinctIds, IdsUpTo, Spill, Flat, Lengths, IdAt, Splice;
    assert IdAt(s.chunks, k + 1) == IdAt(After(s, k), 0) by { NextOf(s, k); }
    var l, c, r := Before(l0, s, k), s.chunks[k], After(s, k);
    var a, b := c.content.items[..index], c.content.items[index..];
    var c1, x := WithItems(c, a), Flat(l) + a;
    var r1 := Spill(cap, c1, IdAt(r, 0), items, s.gen);
    var r2 := Spill(cap, Last(r1.chunks), IdAt(r, 0), b, r1.gen);
    var mid := r1.chunks[..|r1.chunks| - 1] + r2.chunks;
    var us1, us2 := [DetachLastItems(Position(c.id, index))] + r1.updates + [StartReattachItems],
        r2.updates + [EndReattachItems];
    var v0, v1 := x + b + Flat(r), x + items + b + Flat(r);
    Focus(l0, s, k);
    Spliced(l0, s, k, mid);
    assert Shows(Idle(l + [c] + r), v0, us1 + us2, Idle(l + mid + r), v1) by {
      DetachAndPushShows(cap, l, c, r, index, items, s.gen);
      SpilledIds(cap, l, c, c1, r, items, s.gen);
      ReattachAllShows(cap, l, r1.chunks, r, b, r1.gen, v1);
      ShowsConcat(Idle(l + [c] + r), v0, us1, Mapper(Lengths(l + r1.chunks + r), true, true), v1, us2,
                  Idle(l + mid + r), v1);
    }
    assert v0 == Flat(l0 + s.chunks) by {
      FlatFocus(l0, s, k);
      assert c.content.items == a + b;
    }
    assert v1 == Flat(l + mid + r) by {
      SpillTwiceAdds(cap, c1, IdAt(r, 0), items, b, s.gen);
      FlatAround(l, mid, r);
    }
    assert us1 + us2 == us1 + r2.updates + [EndReattachItems];
  }

  lemma SpillTwiceAdds(cap: nat, c: Chunk, next: Option<nat>, items: seq<Event>, tail: seq<Event>, gen: nat)
    requires 0 < cap
    ensures var r1 := Spill(cap, c, next, items, gen);
            var r2 := Spill(cap, Last(r1.chunks), next, tail, r1.gen);
            Flat(r1.chunks[..|r1.chunks| - 1] + r2.chunks) == ItemsOf(c) + items + tail
  {
    hide Spill, Flat;
    var r1 := Spill(cap, c, next, items, gen);
    var r2 := Spill(cap, Last(r1.chunks), next, tail, r1.gen);
    var init := r1.chunks[..|r1.chunks| - 1];
    SpillAdds(cap, c, next, items, gen);
    SpillAdds(cap, Last(r1.chunks), next, tail, r1.gen);
    assert r1.chunks == init + [Last(r1.chunks)];
    FlatConcat(init, [Last(r1.chunks)]);
    FlatOne(Last(r1.chunks));
    FlatConcat(init, r2.chunks);
  }

  lemma PushGapSeen(l0: seq<Chunk>, s: State, gap: string)
    requires Tracked(l0, s) && s.chunks != []
    ensures Reported(l0, s, PushGap(s, gap))
  {
    hide Shows, Flat;
    var full, c := l0 + s.chunks, Chunk(s.gen + 1, Gap(gap));
    assert full + [] == full && full + [c] + [] == l0 + (s.chunks + [c]);
    NewShows(full, c, [], Some(Last(s.chunks).id), false, false, Flat(full));
    FlatNew(full, c, []);
  }

  lemma InsertGapBeforeSeen(l0: seq<Chunk>, s: State, k: nat, gap: string)
    requires Tracked(l0, s) && k < |s.chunks|
    ensures var c := Chunk(s.gen + 1, Gap(gap));
            Reported(l0, s, Outcome(s.(chunks := Splice(s.chunks, k, [c, s.chunks[k]]), gen := s.gen + 1),
                                    [NewGapChunk(PreviousId(s, k), c.id, Some(s.chunks[k].id), gap)], Done))
  {
    hide Shows, Flat;
    var c := Chunk(s.gen + 1, Gap(gap));
    var l, r := l0 + s.chunks[..k], s.chunks[k..];
    assert l0 + s.chunks == l + r && l0 + Splice(s.chunks, k, [c, s.chunks[k]]) == l + [c] + r;
    NewShows(l, c, r, PreviousId(s, k), false, false, Flat(l0 + s.chunks));
    FlatNew(l, c, r);
  }

  /** Detach the tail, link the gap and an empty chunk. */
  lemma DetachAndLinkShows(l: seq<Chunk>, c: Chunk, r: seq<Chunk>, index: nat, gap: string, gen: nat, v: seq<Event>)
    requires c.content.Items? && index <= |c.content.items|
    requires DistinctIds(l + [c] + r) && IdsUpTo(l + [c] + r, gen)
    ensures var mid := [WithItems(c, c.content.items[..index]), Chunk(gen + 1, Gap(gap)), Chunk(gen + 2, Items([]))];
            Shows(Idle(l + [c] + r), v, CutUpdates(c.id, index, gap, gen, IdAt(r, 0)),
                  Mapper(Lengths(l + mid + r), true, true), v)
  {
    hide Shows, Lengths;
    var c1, g, e := WithItems(c, c.content.items[..index]), Chunk(gen + 1, Gap(gap)), Chunk(gen + 2, Items([]));
    var u1, u2, u3, u4 := DetachLastItems(Position(c.id, index)), NewGapChunk(Some(c.id), gen + 1, IdAt(r, 0), gap),
                          StartReattachItems, NewItemsChunk(Some(gen + 1), gen + 2, IdAt(r, 0));
    var l1, l2 := l + [c1], l + [c1] + [g];
    var m0, m1, m2 := Idle(l + [c] + r), Mapper(Lengths(l1 + r), false, true), Mapper(Lengths(l2 + r), false, true);
    var m3, m4 := Mapper(Lengths(l2 + r), true, true), Mapper(Lengths(l2 + [e] + r), true, true);
    SameIds(l, c, c1, r);
    NewIds(l1, g, r, gen);
    assert Shows(m0, v, [u1, u2], m2, v) by {
      DetachShows(l, c, r, index, v);
      NewShows(l1, g, r, Some(c.id), false, true, v);
      ShowsConcat(m0, v, [u1], m1, v, [u2], m2, v);
      assert [u1] + [u2] == [u1, u2];
    }
    assert Shows(m2, v, [u3, u4], m4, v) by {
      FlagsShow(m2.pairs, v);
      NewShows(l2, e, r, Some(gen + 1), true, true, v);
      ShowsConcat(m2, v, [u3], m3, v, [u4], m4, v);
      assert [u3] + [u4] == [u3, u4];
    }
    ShowsConcat(m0, v, [u1, u2], m2, v, [u3, u4], m4, v);
    assert [u1, u2] + [u3, u4] == CutUpdates(c.id, index, gap, gen, IdAt(r, 0));
    assert l2 + [e] + r == l + [c1, g, e] + r;
  }

  lemma InsertGapInsideSeen(l0: seq<Chunk>, s: State, cap: nat, k: nat, index: nat, gap: string)
    requires 0 < cap && Tracked(l0, s) && k < |s.chunks|
    requires s.chunks[k].content.Items? && 0 < index < |s.chunks[k].content.items|
    ensures Reported(l0, s, InsertGapInside(cap, s, k, index, gap))
  {
    hide Shows, DistinctIds, IdsUpTo, Flat, Spill, Lengths;
    var l, c, r := Before(l0, s, k), s.chunks[k], After(s, k);
    var a, b := c.content.items[..index], c.content.items[index..];
    var c1, g, e := WithItems(c, a), Chunk(s.gen + 1, Gap(gap)), Chunk(s.gen + 2, Items([]));
    var mid := [c1, g, e];
    var rr := Spill(cap, e, IdAt(r, 0), b, s.gen + 2);
    var us1, us2 := CutUpdates(c.id, index, gap, s.gen, IdAt(r, 0)), rr.updates + [EndReattachItems];
    var v := Flat(l0 + s.chunks);
    Focus(l0, s, k);
    Spliced(l0, s, k, [c1, g] + rr.chunks);
    assert Shows(Idle(l + [c] + r), v, us1 + us2, Idle(l + ([c1, g] + rr.chunks) + r), v) by {
      DetachAndLinkShows(l, c, r, index, gap, s.gen, v);
      CutIds(l, c, c1, r, g, e, s.gen);
      ReattachAllShows(cap, l, mid, r, b, s.gen + 2, v);
      assert mid[..2] == [c1, g];
      ShowsConcat(Idle(l + [c] + r), v, us1, Mapper(Lengths(l + mid + r), true, true), v, us2,
                  Idle(l + ([c1, g] + rr.chunks) + r), v);
    }
    assert v == Flat(l + ([c1, g] + rr.chunks) + r) by {
      FlatFocus(l0, s, k);
      assert c.content.items == a + b;
      CutFlat(cap, c1, g, e, IdAt(r, 0), b, s.gen + 2);
      FlatAround(l, [c1, g] + rr.chunks, r);
    }
    assert us1 + us2 == us1 + rr.updates + [EndReattachItems];
  }

  lemma CutFlat(cap: nat, c: Chunk, g: Chunk, e: Chunk, next: Option<nat>, tail: seq<Event>, gen: nat)
    requires 0 < cap && ItemsOf(g) == [] && ItemsOf(e) == []
    ensures Flat([c, g] + Spill(cap, e, next, tail, gen).chunks) == ItemsOf(c) + tail
  {
    hide Flat, Spill;
    var rr := Spill(cap, e, next, tail, gen);
    SpillAdds(cap, e, next, tail, gen);
    FlatConcat([c, g], rr.chunks);
    assert [c] + [g] == [c, g];
    FlatConcat([c], [g]);
    FlatOne(c);
    FlatOne(g);
  }

  lemma CutIds(l: seq<Chunk>, c: Chunk, c1: Chunk, r: seq<Chunk>, g: Chunk, e: Chunk, gen: nat)
    requires DistinctIds(l + [c] + r) && IdsUpTo(l + [c] + r, gen) && c1.id == c.id && g.id == gen + 1
             && e.id == gen + 2
    ensures DistinctIds(l + [c1, g, e] + r) && IdsUpTo(l + [c1, g, e] + r, gen + 2)
  {
    FreshlyNumbered(l, c, r, [c1, g, e], gen);
  }

  /** Chunk `c` gets other items: only its pair changes. */
  lemma PairChanged(l: seq<Chunk>, c: Chunk, r: seq<Chunk>, items: seq<Event>)
    requires DistinctIds(l + [c] + r)
    ensures var ps := Lengths(l + [c] + r);
            && PairIndex(ps, c.id) == |l| < |ps| && ps[|l|].len == |ItemsOf(c)| && Sum(ps[..|l|]) == |Flat(l)|
            && ps[|l| := Pair(c.id, |items|)] == Lengths(l + [WithItems(c, items)] + r)
  {
    hide Sum, Flat, PairIndex;
    PairAround(l, c, r);
    assert Lengths(l + [c] + r)[|l| := Pair(c.id, |items|)] == Lengths(l + [WithItems(c, items)] + r) by {
      LengthsAround(l, [c], r);
      LengthsAround(l, [WithItems(c, items)], r);
    }
  }

  lemma RemoveItemShows(l: seq<Chunk>, c: Chunk, r: seq<Chunk>, index: nat)
    requires DistinctIds(l + [c] + r) && c.content.Items? && index < |c.content.items|
    ensures var left := c.content.items[..index] + c.content.items[index + 1..];
            Shows(Idle(l + [c] + r), Flat(l) + c.content.items + Flat(r), [RemoveItem(Position(c.id, index))],
                  Idle(l + [WithItems(c, left)] + r), Flat(l) + left + Flat(r))
  {
    hide Flat, Lengths, Sum, PairIndex, DistinctIds, VD.ApplyDiffs, Shows;
    var left := c.content.items[..index] + c.content.items[index + 1..];
    PairChanged(l, c, r, left);
    RemoveApplies(Flat(l), c.content.items, Flat(r), index);
    ShowsOne(Idle(l + [c] + r), Flat(l) + c.content.items + Flat(r), RemoveItem(Position(c.id, index)),
             Idle(l + [WithItems(c, left)] + r), [VD.Remove(|Flat(l)| + index)], Flat(l) + left + Flat(r));
  }

  lemma RemoveOne(a: seq<Event>, e: Event, b: seq<Event>)
    ensures VD.ApplyDiffs(a + [e] + b, [VD.Remove(|a|)]) == Some(a + b)
  {
    var v := a + [e] + b;
    VD.ApplyOne(v, VD.Remove(|a|));
    assert v[..|a|] == a && v[|a| + 1..] == b;
  }

  lemma RemoveApplies(x: seq<Event>, items: seq<Event>, y: seq<Event>, index: nat)
    requires index < |items|
    ensures VD.ApplyDiffs(x + items + y, [VD.Remove(|x| + index)]) ==
            Some(x + (items[..index] + items[index + 1..]) + y)
  {
    hide VD.ApplyDiffs;
    var p, e, q := items[..index], items[index], items[index + 1..];
    RemoveOne(x + p, e, q + y);
    assert items == p + [e] + q;
    assert x + items + y == (x + p) + [e] + (q + y);
    assert (x + p) + (q + y) == x + (p + q) + y;
  }

  lemma SetApplies(x: seq<Event>, items: seq<Event>, y: seq<Event>, index: nat, item: Event)
    requires index < |items|
    ensures VD.ApplyDiffs(x + items + y, [VD.Set(|x| + index, item)]) == Some(x + items[index := item] + y)
  {
    var v, i := x + items + y, |x| + index;
    assert [VD.Set(i, item)][1..] == [];
    assert v[i := item] == x + items[index := item] + y;
  }

  lemma ReplaceItemShows(l: seq<Chunk>, c: Chunk, r: seq<Chunk>, index: nat, item: Event)
    requires DistinctIds(l + [c] + r) && c.content.Items? && index < |c.content.items|
    ensures var items := c.content.items[index := item];
            Shows(Idle(l + [c] + r), Flat(l) + c.content.items + Flat(r), [ReplaceItem(Position(c.id, index), item)],
                  Idle(l + [WithItems(c, items)] + r), Flat(l) + items + Flat(r))
  {
    hide Flat, Lengths, Sum, PairIndex, DistinctIds, VD.ApplyDiffs, Shows;
    var items := c.content.items[index := item];
    PairChanged(l, c, r, items);
    SetApplies(Flat(l), c.content.items, Flat(r), index, item);
    assert Lengths(l + [WithItems(c, items)] + r) == Lengths(l + [c] + r) by { SameLengths(l, c, r, items); }
    ShowsOne(Idle(l + [c] + r), Flat(l) + c.content.items + Flat(r), ReplaceItem(Position(c.id, index), item),
             Idle(l + [WithItems(c, items)] + r), [VD.Set(|Flat(l)| + index, item)], Flat(l) + items + Flat(r));
  }

  lemma SameLengths(l: seq<Chunk>, c: Chunk, r: seq<Chunk>, items: seq<Event>)
    requires |items| == |ItemsOf(c)|
    ensures Lengths(l + [WithItems(c, items)] + r) == Lengths(l + [c] + r)
  {
    LengthsAround(l, [c], r);
    LengthsAround(l, [WithItems(c, items)], r);
  }

  /** An empty chunk unlinked. */
  lemma RemoveChunkShows(l: seq<Chunk>, c: Chunk, r: seq<Chunk>, v: seq<Event>)
    requires DistinctIds(l + [c] + r) && ItemsOf(c) == []
    ensures Shows(Idle(l + [c] + r), v, [RemoveChunk(c.id)], Idle(l + r), v)
  {
    PairAround(l, c, r);
    LengthsConcat(l, r);
    assert Removes(|Flat(l)|, 0) == [];
    ShowsOne(Idle(l + [c] + r), v, RemoveChunk(c.id), Idle(l + r), [], v);
  }

  lemma RemoveItemSeen(l0: seq<Chunk>, s: State, p: Position)
    requires Tracked(l0, s) && s.chunks != []
    ensures Reported(l0, s, RemoveItemOp(s, p))
  {
    var k := IndexOf(s.chunks, p.chunk);
    if ItemsError(s, p.chunk).None? && p.index < |s.chunks[k].content.items| {
      RemoveItemAtSeen(l0, s, k, p.index);
    }
  }

  lemma RemoveItemAtSeen(l0: seq<Chunk>, s: State, k: nat, index: nat)
    requires Tracked(l0, s) && k < |s.chunks| && s.chunks[k].content.Items? && index < |s.chunks[k].content.items|
    ensures var c := s.chunks[k];
            var p, left := Position(c.id, index), c.content.items[..index] + c.content.items[index + 1..];
            var cs, cs' := l0 + Splice(s.chunks, k, [WithItems(c, left)]), l0 + Splice(s.chunks, k, []);
            && Shows(Idle(l0 + s.chunks), Flat(l0 + s.chunks), [RemoveItem(p)], Idle(cs), Flat(cs))
            && (left == [] ==>
                Shows(Idle(l0 + s.chunks), Flat(l0 + s.chunks), [RemoveItem(p), RemoveChunk(c.id)], Idle(cs'),
                      Flat(cs')))
  {
    hide Shows, Flat, Lengths;
    var l, c, r := Before(l0, s, k), s.chunks[k], After(s, k);
    var p, left := Position(c.id, index), c.content.items[..index] + c.content.items[index + 1..];
    var c', full := WithItems(c, left), l0 + s.chunks;
    Focus(l0, s, k);
    Spliced(l0, s, k, [c']);
    RemoveItemShows(l, c, r, index);
    FlatFocus(l0, s, k);
    assert Flat(l + [c'] + r) == Flat(l) + left + Flat(r) by {
      FlatAround(l, [c'], r);
      FlatOne(c');
    }
    if left == [] {
      SameIds(l, c, c', r);
      RemoveChunkShows(l, c', r, Flat(l + [c'] + r));
      FlatNew(l, c', r);
      Spliced(l0, s, k, []);
      assert l + [] + r == l + r;
      ShowsConcat(Idle(full), Flat(full), [RemoveItem(p)], Idle(l + [c'] + r), Flat(l + [c'] + r),
                  [RemoveChunk(c.id)], Idle(l + r), Flat(l + r));
      assert [RemoveItem(p)] + [RemoveChunk(c.id)] == [RemoveItem(p), RemoveChunk(c.id)];
    }
  }

  lemma ReplaceItemSeen(l0: seq<Chunk>, s: State, p: Position, item: Event)
    requires Tracked(l0, s) && s.chunks != []
    ensures Reported(l0, s, ReplaceItemOp(s, p, item))
  {
    var k := IndexOf(s.chunks, p.chunk);
    if ItemsError(s, p.chunk).None? && p.index < |s.chunks[k].content.items| {
      hide Shows, Flat, Lengths;
      var l, c, r := Before(l0, s, k), s.chunks[k], After(s, k);
      var c' := WithItems(c, c.content.items[p.index := item]);
      Focus(l0, s, k);
      Spliced(l0, s, k, [c']);
      ReplaceItemShows(l, c, r, p.index, item);
      FlatFocus(l0, s, k);
      FlatAround(l, [c'], r);
      FlatOne(c');
    }
  }

  lemma RemoveEmptyChunkSeen(l0: seq<Chunk>, s: State, id: nat)
    requires Tracked(l0, s) && s.chunks != []
    ensures Reported(l0, s, RemoveEmptyChunk(s, id))
  {
    var k := IndexOf(s.chunks, id);
    if |s.chunks| > 1 && k < |s.chunks| && ItemsOf(s.chunks[k]) == [] {
      hide Shows, Flat, Lengths;
      var l, c, r := Before(l0, s, k), s.chunks[k], After(s, k);
      Focus(l0, s, k);
      Spliced(l0, s, k, []);
      assert l + [] + r == l + r;
      RemoveChunkShows(l, c, r, Flat(l0 + s.chunks));
      FlatNew(l, c, r);
    }
  }

  lemma ReplaceGapShows(cap: nat, l: seq<Chunk>, g: Chunk, r: seq<Chunk>, items: seq<Event>, gen: nat)
    requires 0 < cap && g.content.Gap? && DistinctIds(l + [g] + r) && IdsUpTo(l + [g] + r, gen)
    ensures var rr := Spill(cap, Chunk(gen + 1, Items([])), IdAt(r, 0), items, gen + 1);
            Shows(Idle(l + [g] + r), Flat(l) + Flat(r),
                  [NewItemsChunk(Some(g.id), gen + 1, IdAt(r, 0))] + rr.updates + [RemoveChunk(g.id)],
                  Idle(l + rr.chunks + r), Flat(l) + items + Flat(r))
  {
    hide Shows, Lengths, Flat, Spill;
    var e := Chunk(gen + 1, Items([]));
    var rr := Spill(cap, e, IdAt(r, 0), items, gen + 1);
    var cs1, cs2, cs3 := l + [g] + [e] + r, l + [g] + rr.chunks + r, l + rr.chunks + r;
    var u, v, v' := NewItemsChunk(Some(g.id), gen + 1, IdAt(r, 0)), Flat(l) + Flat(r), Flat(l) + items + Flat(r);
    NewIds(l + [g], e, r, gen);
    assert Shows(Idle(l + [g] + r), v, [u] + rr.updates, Idle(cs2), v') by {
      NewShows(l + [g], e, r, Some(g.id), false, false, v);
      assert Flat(l + [g]) == Flat(l) by { FlatConcat(l, [g]); FlatOne(g); }
      SpillShows(cap, l + [g], e, r, items, gen + 1, Flat(l), [], false, false, []);
      assert Seen(false, [], Flat(l), [], Flat(r)) == v && Seen(false, [], Flat(l) + items, [], Flat(r)) == v';
      ShowsConcat(Idle(l + [g] + r), v, [u], Idle(cs1), v, rr.updates, Idle(cs2), v');
    }
    assert Shows(Idle(cs2), v', [RemoveChunk(g.id)], Idle(cs3), v') by {
      SpillIds(cap, e, IdAt(r, 0), items, gen + 1);
      FreshlyNumbered(l + [g], e, r, rr.chunks, gen + 1);
      assert cs2 == l + [g] + (rr.chunks + r) && cs3 == l + (rr.chunks + r);
      RemoveChunkShows(l, g, rr.chunks + r, v');
    }
    ShowsConcat(Idle(l + [g] + r), v, [u] + rr.updates, Idle(cs2), v', [RemoveChunk(g.id)], Idle(cs3), v');
  }

  lemma ReplaceGapSeen(l0: seq<Chunk>, s: State, cap: nat, items: seq<Event>, id: nat)
    requires 0 < cap && Tracked(l0, s) && s.chunks != []
    ensures Reported(l0, s, ReplaceGap(cap, s, items, id))
  {
    hide Shows, Flat, Lengths, Spill, IndexOf, Splice, IdAt;
    var k := IndexOf(s.chunks, id);
    ShowsNothing(Idle(l0 + s.chunks), Flat(l0 + s.chunks));
    if k < |s.chunks| && s.chunks[k].content.Gap? {
      ReplaceGapAtSeen(l0, s, cap, items, k);
    }
  }

  lemma ReplaceGapAtSeen(l0: seq<Chunk>, s: State, cap: nat, items: seq<Event>, k: nat)
    requires 0 < cap && Tracked(l0, s) && k < |s.chunks| && s.chunks[k].content.Gap?
    ensures var next := IdAt(s.chunks, k + 1);
            var rr := Spill(cap, Chunk(s.gen + 1, Items([])), next, items, s.gen + 1);
            var cs := l0 + Splice(s.chunks, k, rr.chunks);
            Shows(Idle(l0 + s.chunks), Flat(l0 + s.chunks),
                  [NewItemsChunk(Some(s.chunks[k].id), s.gen + 1, next)] + rr.updates + [RemoveChunk(s.chunks[k].id)],
                      Idle(cs), Flat(cs))
  {
    hide Shows, Flat, Lengths, Spill, DistinctIds, IdsUpTo;
    var l, g, r := Before(l0, s, k), s.chunks[k], After(s, k);
    var e := Chunk(s.gen + 1, Items([]));
    var rr := Spill(cap, e, IdAt(r, 0), items, s.gen + 1);
    Focus(l0, s, k);
    Spliced(l0, s, k, rr.chunks);
    ReplaceGapShows(cap, l, g, r, items, s.gen);
    assert Flat(l0 + s.chunks) == Flat(l) + Flat(r) by { FlatFocus(l0, s, k); }
    assert Flat(l + rr.chunks + r) == Flat(l) + items + Flat(r) by {
      SpillAdds(cap, e, IdAt(r, 0), items, s.gen + 1);
      FlatAround(l, rr.chunks, r);
    }
  }

  lemma InitSeen(l0: seq<Chunk>, s: State)
    requires Tracked(l0, s)
    ensures Reported(l0, s, Outcome(Initialized(s), InitUpdates(s), Done)) && Tracked(l0, Initialized(s))
  {
    if s.chunks == [] {
      var c := Chunk(0, Items([]));
      FlatOne(c);
      assert Lengths([c]) == [Pair(0, 0)] && l0 + s.chunks == [] && l0 + [c] == [c];
      ShowsOne(Idle([]), [], NewItemsChunk(None, 0, None), Idle([c]), [], []);
    } else {
      ShowsNothing(Idle(l0 + s.chunks), Flat(l0 + s.chunks));
    }
  }

  /** Whatever the operation, the diffs mapped from its updates turn the items
      before it into the items after it, and the lengths stay those of the chunks. */
  lemma StepSeen(l0: seq<Chunk>, s: State, cap: nat, op: Op)
    requires 0 < cap && Tracked(l0, s)
    ensures Reported(l0, s, Step(cap, s, op))
  {
    InitSeen(l0, s);
    var s1 := Initialized(s);
    var o := StepInitialized(cap, s1, op);
    assert Reported(l0, s1, o) by { InitializedStepSeen(l0, s1, cap, op); }
    hide Shows, Flat, Lengths;
    ShowsConcat(Idle(l0 + s.chunks), Flat(l0 + s.chunks), InitUpdates(s), Idle(l0 + s1.chunks), Flat(l0 + s1.chunks),
                o.updates, Idle(l0 + o.state.chunks), Flat(l0 + o.state.chunks));
  }

  lemma InitializedStepSeen(l0: seq<Chunk>, s: State, cap: nat, op: Op)
    requires 0 < cap && Tracked(l0, s) && s.chunks != []
    ensures Reported(l0, s, StepInitialized(cap, s, op))
  {
    hide Reported;
    match op
    case PushItemsBack(items) => PushSeen(l0, s, cap, |s.chunks| - 1, items);
    case PushGapBack(gap) => PushGapSeen(l0, s, gap);
    case InsertItemsAt(p, items) => InsertItemsSeen(l0, s, cap, p, items);
    case RemoveItemAt(p) => RemoveItemSeen(l0, s, p);
    case ReplaceItemAt(p, item) => ReplaceItemSeen(l0, s, p, item);
    case InsertGapAt(gap, p) => InsertGapSeen(l0, s, cap, gap, p);
    case RemoveEmptyChunkAt(id) => RemoveEmptyChunkSeen(l0, s, id);
    case ReplaceGapAt(items, id) => ReplaceGapSeen(l0, s, cap, items, id);
  }

  lemma NothingReported(l0: seq<Chunk>, s: State, e: Error)
    ensures Reported(l0, s, Fail(s, e))
  {
    ShowsNothing(Idle(l0 + s.chunks), Flat(l0 + s.chunks));
  }

  lemma InsertItemsSeen(l0: seq<Chunk>, s: State, cap: nat, p: Position, items: seq<Event>)
    requires 0 < cap && Tracked(l0, s) && s.chunks != []
    ensures Reported(l0, s, InsertItems(cap, s, p, items))
  {
    hide Reported;
    var k := IndexOf(s.chunks, p.chunk);
    if ItemsError(s, p.chunk).Some? {
      NothingReported(l0, s, ItemsError(s, p.chunk).value);
    } else if p.index > |s.chunks[k].content.items| {
      NothingReported(l0, s, InvalidItemIndex(p.index));
    } else if p.index == |s.chunks[k].content.items| {
      PushSeen(l0, s, cap, k, items);
    } else {
      InsertInsideSeen(l0, s, cap, k, p.index, items);
    }
  }

  lemma InsertGapSeen(l0: seq<Chunk>, s: State, cap: nat, gap: string, p: Position)
    requires 0 < cap && Tracked(l0, s) && s.chunks != []
    ensures Reported(l0, s, InsertGap(cap, s, gap, p))
  {
    hide Reported;
    var k := IndexOf(s.chunks, p.chunk);
    if ItemsError(s, p.chunk).Some? {
      NothingReported(l0, s, ItemsError(s, p.chunk).value);
    } else if p.index == 0 {
      InsertGapBeforeSeen(l0, s, k, gap);
    } else if p.index >= |s.chunks[k].content.items| {
      NothingReported(l0, s, InvalidItemIndex(p.index));
    } else {
      InsertGapInsideSeen(l0, s, cap, k, p.index, gap);
    }
  }
}
