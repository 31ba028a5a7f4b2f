/** The two readers that consume updates through `UpdateToVectorDiff`, as the
    program runs them: the mapper's loops, and the order of an event. */
module AsVectorReaders {
  import opened LinkedChunkModel
  import opened Wrappers
  import opened AsVector
  import VD = VectorDiffs

  class UpdateToVectorDiff {
    var chunks: seq<Pair>

    constructor (cs: seq<Chunk>)
      ensures chunks == Lengths(cs)
    {
      var initial: seq<Pair> := [];
      for i := 0 to |cs|
        invariant initial == Lengths(cs[..i])
      {
        assert cs[..i + 1] == cs[..i] + [cs[i]];
        LengthsConcat(cs[..i], [cs[i]]);
        initial := initial + [Pair(cs[i].id, match cs[i].content case Gap(_) => 0 case Items(items) => |items|)];
      }
      assert cs[..|cs|] == cs;
      chunks := initial;
    }

    /** The offset of a position in the vector, and the index of its pair. */
    method MapToOffset(p: Position) returns (offset: nat, index: nat)
      ensures index == PairIndex(chunks, p.chunk)
      ensures index < |chunks| ==> offset == Sum(chunks[..index]) + p.index
    {
      offset, index := p.index, 0;
      while index < |chunks| && chunks[index].id != p.chunk
        invariant index <= |chunks|
        invariant offset == Sum(chunks[..index]) + p.index
        invariant PairIndex(chunks, p.chunk) == index + PairIndex(chunks[index..], p.chunk)
      {
        SumSnoc(chunks, index);
        assert chunks[index..][1..] == chunks[index + 1..];
        offset, index := offset + chunks[index].len, index + 1;
      }
      assert index < |chunks| ==> chunks[index..][0] == chunks[index];
    }

    /** `UpdateToVectorDiff::map`; `None` where it panics. */
    method Map(updates: seq<Update>) returns (acc: Option<seq<VD.VectorDiff<Event>>>)
      modifies this
      ensures var r := AsVector.Map(Mapper(old(chunks), false, false), updates);
              match r
              case None => acc.None?
              case Some(mapped) => acc == Some(mapped.diffs) && chunks == mapped.mapper.pairs
    {
      var diffs: seq<VD.VectorDiff<Event>> := [];
      var reattaching, detaching := false, false;
      ghost var start := Mapper(chunks, false, false);
      assert updates[..0] == [];
      for n := 0 to |updates|
        invariant AsVector.Map(start, updates[..n]) == Some(Mapped(Mapper(chunks, reattaching, detaching), diffs))
      {
        var u := updates[n];
        ghost var m := Mapper(chunks, reattaching, detaching);
        var ok, ds, re, de := MapUpdate(u, reattaching, detaching);
        MapSnoc(start, updates, n);
        if !ok {
          MapStops(start, updates, n + 1);
          return None;
        }
        diffs, reattaching, detaching := diffs + ds, re, de;
      }
      assert updates[..|updates|] == updates;
      return Some(diffs);
    }

    method MapUpdate(u: Update, reattaching: bool, detaching: bool)
      returns (ok: bool, diffs: seq<VD.VectorDiff<Event>>, reattaching': bool, detaching': bool)
      modifies this
      ensures var r := MapOne(Mapper(old(chunks), reattaching, detaching), u);
              && ok == r.Some?
              && (ok ==> r.value == Mapped(Mapper(chunks, reattaching', detaching'), diffs))
    {
      hide Sum, PairIndex, Inserts, Removes, MapPush, MapNew;
      ok, diffs, reattaching', detaching' := true, [], reattaching, detaching;
      match u
      case NewItemsChunk(previous, new_, next) => ok := MapNewChunk(previous, new_, next, reattaching, detaching);
      case NewGapChunk(previous, new_, next, _) => ok := MapNewChunk(previous, new_, next, reattaching, detaching);
      case RemoveChunk(id) =>
        var offset, i := MapToOffset(Position(id, 0));
        if i == |chunks| { return false, [], reattaching, detaching; }
        diffs := Removes(offset, chunks[i].len);
        chunks := chunks[..i] + chunks[i + 1..];
      case PushItems(at, items) =>
        ok, diffs := MapPushItems(at, items, reattaching, detaching);
      case ReplaceItem(at, item) =>
        var offset, i := MapToOffset(at);
        if i == |chunks| { return false, [], reattaching, detaching; }
        diffs := [VD.Set(offset, item)];
      case RemoveItem(at) =>
        var offset, i := MapToOffset(at);
        if i == |chunks| || chunks[i].len == 0 { return false, [], reattaching, detaching; }
        chunks := chunks[i := Pair(at.chunk, chunks[i].len - 1)];
        if !reattaching {
          diffs := [VD.Remove(offset)];
        }
      case DetachLastItems(at) =>
        var _, i := MapToOffset(at);
        if i == |chunks| { return false, [], reattaching, detaching; }
        chunks := chunks[i := Pair(at.chunk, at.index)];
        detaching' := true;
      case StartReattachItems => reattaching' := true;
      case EndReattachItems => reattaching', detaching' := false, false;
      case Clear =>
        chunks := [];
        diffs := [VD.ClearAll];
    }

    method MapPushItems(at: Position, items: seq<Event>, reattaching: bool, detaching: bool)
      returns (ok: bool, diffs: seq<VD.VectorDiff<Event>>)
      modifies this
      ensures var r := MapPush(Mapper(old(chunks), reattaching, detaching), at, items);
              ok == r.Some? && (ok ==> r.value == Mapped(Mapper(chunks, reattaching, detaching), diffs))
    {
      hide Sum, PairIndex, Inserts;
      var offset, i := MapToOffset(at);
      if i == |chunks| { return false, []; }
      var pushingBack := i + 1 == |chunks| && at.index >= chunks[i].len;
      chunks := chunks[i := Pair(at.chunk, chunks[i].len + |items|)];
      diffs := [];
      if !reattaching {
        diffs := if pushingBack && !detaching then [VD.Append(items)] else Inserts(offset, items);
      }
      ok := true;
    }

    method MapNewChunk(previous: Option<nat>, new_: nat, next: Option<nat>, ghost reattaching: bool,
                       ghost detaching: bool)
      returns (ok: bool)
      modifies this
      ensures var r := MapNew(Mapper(old(chunks), reattaching, detaching), previous, new_, next);
              ok == r.Some? && (ok ==> r.value == Mapped(Mapper(chunks, reattaching, detaching), []))
    {
      var p := Pair(new_, 0);
      ok := true;
      match (previous, next)
      case (Some(_), None) => chunks := chunks + [p];
      case (None, Some(n)) =>
        if chunks == [] || chunks[0].id != n { return false; }
        chunks := [p] + chunks;
      case (Some(_), Some(n)) =>
        var _, i := MapToOffset(Position(n, 0));
        if i == |chunks| { return false; }
        chunks := chunks[..i] + [p] + chunks[i..];
      case (None, None) =>
        if chunks != [] { return false; }
        chunks := [p];
    }
  }

  lemma {:induction false} SumSnoc(ps: seq<Pair>, i: nat)
    requires i < |ps|
    ensures Sum(ps[..i + 1]) == Sum(ps[..i]) + ps[i].len
  {
    if i > 0 {
      SumSnoc(ps[1..], i - 1);
      assert ps[..i + 1][1..] == ps[1..][..i] && ps[..i][1..] == ps[1..][..i - 1];
    }
  }

  /** Mapping one more update. */
  lemma MapSnoc(m: Mapper, us: seq<Update>, n: nat)
    requires n < |us| && AsVector.Map(m, us[..n]).Some?
    ensures var a := AsVector.Map(m, us[..n]).value;
            match MapOne(a.mapper, us[n])
            case None => AsVector.Map(m, us[..n + 1]).None?
            case Some(one) => AsVector.Map(m, us[..n + 1]) == Some(Mapped(one.mapper, a.diffs + one.diffs))
  {
    SnocMap(m, us[..n], us[n]);
    assert us[..n] + [us[n]] == us[..n + 1];
  }

  lemma {:induction false} SnocMap(m: Mapper, us: seq<Update>, u: Update)
    requires AsVector.Map(m, us).Some?
    ensures var a := AsVector.Map(m, us).value;
            match MapOne(a.mapper, u)
            case None => AsVector.Map(m, us + [u]).None?
            case Some(one) => AsVector.Map(m, us + [u]) == Some(Mapped(one.mapper, a.diffs + one.diffs))
    decreases |us|
  {
    hide MapOne;
    if us == [] {
      assert us + [u] == [u] && [u][1..] == [];
      if MapOne(m, u).Some? {
        assert MapOne(m, u).value.diffs + [] == [] + MapOne(m, u).value.diffs;
      }
    } else {
      assert (us + [u])[1..] == us[1..] + [u];
      var first := MapOne(m, us[0]).value;
      SnocMap(first.mapper, us[1..], u);
      var b := AsVector.Map(first.mapper, us[1..]).value;
      if MapOne(b.mapper, u).Some? {
        assert first.diffs + b.diffs + MapOne(b.mapper, u).value.diffs ==
               first.diffs + (b.diffs + MapOne(b.mapper, u).value.diffs);
      }
    }
  }

  /** A panic is final. */
  lemma {:induction false} MapStops(m: Mapper, us: seq<Update>, n: nat)
    requires n <= |us| && AsVector.Map(m, us[..n]).None?
    ensures AsVector.Map(m, us).None?
    decreases |us|
  {
    hide MapOne;
    assert us[..n][0] == us[0];
    if MapOne(m, us[0]).Some? {
      assert us[..n][1..] == us[1..][..n - 1];
      MapStops(MapOne(m, us[0]).value.mapper, us[1..], n - 1);
    }
  }

  // --- OrderTracker ------------------------------------------------------------

  /** `OrderTracker::ordering`, for a reader that is up to date. */
  method Ordering(chunks: seq<Pair>, p: Position) returns (ordering: Option<nat>)
    ensures ordering == OrderOf(chunks, p)
  {
    var before := 0;
    for i := 0 to |chunks|
      invariant before == Sum(chunks[..i])
      invariant PairIndex(chunks, p.chunk) == i + PairIndex(chunks[i..], p.chunk)
    {
      assert chunks[i..][0] == chunks[i] && chunks[i..][1..] == chunks[i + 1..];
      if chunks[i].id == p.chunk {
        return if p.index >= chunks[i].len then None else Some(before + p.index);
      }
      SumSnoc(chunks, i);
      before := before + chunks[i].len;
    }
    return None;
  }

  function OrderOf(ps: seq<Pair>, p: Position): Option<nat> {
    var i := PairIndex(ps, p.chunk);
    if i == |ps| || p.index >= ps[i].len then None else Some(Sum(ps[..i]) + p.index)
  }

  /** The order of a position is the index of its event in the vector, and there is
      none exactly when there is no event. */
  lemma OrderIsIndex(cs: seq<Chunk>, p: Position)
    requires DistinctIds(cs)
    ensures OrderOf(Lengths(cs), p).Some? <==> At(cs, p).Some?
    ensures At(cs, p).Some? ==> var i := OrderOf(Lengths(cs), p).value; i < |Flat(cs)| && Flat(cs)[i] == At(cs, p).value
  {
    hide Flat, Sum;
    PairIndexIsIndex(cs, p.chunk);
    var k := IndexOf(cs, p.chunk);
    if k < |cs| {
      FlatSplit(cs, k);
      assert Lengths(cs)[..k] == Lengths(cs[..k]);
      SumIsLength(cs[..k]);
    }
  }

  /** Orders follow the chunks' order, then the order inside a chunk: no two
      events have the same one. */
  lemma OrderIsLexicographic(cs: seq<Chunk>, p: Position, q: Position)
    requires DistinctIds(cs) && At(cs, p).Some? && At(cs, q).Some?
    ensures var a, b := OrderOf(Lengths(cs), p), OrderOf(Lengths(cs), q);
            && a.Some? && b.Some?
            && (a.value < b.value <==> (IndexOf(cs, p.chunk) < IndexOf(cs, q.chunk)
                                        || (p.chunk == q.chunk && p.index < q.index)))
  {
    PairIndexIsIndex(cs, p.chunk);
    PairIndexIsIndex(cs, q.chunk);
    var i, j := IndexOf(cs, p.chunk), IndexOf(cs, q.chunk);
    if i < j {
      SumGrows(Lengths(cs), i, j);
    } else if j < i {
      SumGrows(Lengths(cs), j, i);
    }
  }

  lemma {:induction false} SumGrows(ps: seq<Pair>, i: nat, j: nat)
    requires i < j <= |ps|
    ensures Sum(ps[..i]) + ps[i].len <= Sum(ps[..j])
  {
    SumSnoc(ps, j - 1);
    if i + 1 < j { SumGrows(ps, i, j - 1); }
  }
}
