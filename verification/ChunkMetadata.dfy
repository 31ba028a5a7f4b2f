/** The metadata of all chunks of a linked chunk, read from the store in any order, checked
    against their links, and put in the order of the chunks. */
module ChunkMetadata {
  import opened LinkedChunkModel
  import opened Wrappers
  import opened Tables
  import opened Relational
  import opened RelationalLoad

  datatype Meta = Meta(id: nat, items: nat, previous: Option<nat>, next: Option<nat>)

  datatype Malformation =
    | NoLastChunk
    | TwoLastChunks(one: nat, other: nat)
    | CycleDetected(id: nat)
    | SeveralComponents(seen: nat, expected: nat)
    | MissingPredecessor(id: nat, of: nat)
    | WrongNext(id: nat, of: nat)

  datatype Checked = Ordered(metas: seq<Meta>) | NothingStored | BadMetadata(error: Malformation)

  predicate DistinctMetas(ms: seq<Meta>) {
    forall i, j | 0 <= i < j < |ms| :: ms[i].id != ms[j].id
  }

  /** Each is linked to its neighbours, in both directions. */
  predicate IsLinked(ms: seq<Meta>) {
    && (forall i | 0 < i < |ms| :: ms[i].previous == Some(ms[i - 1].id))
    && (forall i | 0 <= i < |ms| - 1 :: ms[i].next == Some(ms[i + 1].id))
  }

  /** The whole of a linked chunk, in order. */
  predicate IsChain(ms: seq<Meta>) {
    && DistinctMetas(ms) && IsLinked(ms)
    && ms != [] && ms[0].previous.None? && ms[|ms| - 1].next.None?
  }

  predicate IsOrderOf(chain: seq<Meta>, ms: seq<Meta>) {
    IsChain(chain) && multiset(chain) == multiset(ms)
  }

  // --- The same elements -------------------------------------------------------------------

  lemma SameMembers<T>(a: seq<T>, b: seq<T>, x: T)
    requires multiset(a) == multiset(b)
    ensures x in a <==> x in b
  {
    assert x in a <==> x in multiset(a);
    assert x in b <==> x in multiset(b);
  }

  lemma SameLength<T>(a: seq<T>, b: seq<T>)
    requires multiset(a) == multiset(b)
    ensures |a| == |b|
  {
    assert |multiset(a)| == |a| && |multiset(b)| == |b|;
  }

  /** Distinct elements of a list, as many as it has, are the list in another order. */
  lemma {:induction false} AllOfThem(a: seq<Meta>, b: seq<Meta>)
    requires DistinctMetas(a) && |a| == |b| && forall x | x in a :: x in b
    ensures multiset(a) == multiset(b)
  {
    if a != [] {
      var last := a[|a| - 1];
      assert last in b;
      var k :| 0 <= k < |b| && b[k] == last;
      var a', b' := a[..|a| - 1], b[..k] + b[k + 1..];
      forall x | x in a' ensures x in b' {
        var i :| 0 <= i < |a'| && a'[i] == x;
        assert a[i] == x && a[i].id != last.id && x in b;
        var j :| 0 <= j < |b| && b[j] == x;
        assert b'[if j < k then j else j - 1] == x;
      }
      AllOfThem(a', b');
      assert a == a' + [last] && b == b[..k] + [last] + b[k + 1..];
    }
  }

  lemma {:induction false} DistinctInAnyOrder(a: seq<Meta>, b: seq<Meta>)
    requires DistinctMetas(a) && multiset(a) == multiset(b)
    ensures DistinctMetas(b)
  {
    forall i, j | 0 <= i < j < |b| ensures b[i].id != b[j].id {
      if b[i].id == b[j].id {
        SameMembers(a, b, b[i]);
        SameMembers(a, b, b[j]);
        SameId(a, b[i], b[j]);
        Twice(b, i, j);
        Once(a, b[i]);
      }
    }
  }

  lemma SameId(ms: seq<Meta>, x: Meta, y: Meta)
    requires DistinctMetas(ms) && x in ms && y in ms && x.id == y.id
    ensures x == y
  {
  }

  lemma Twice<T>(b: seq<T>, i: nat, j: nat)
    requires i < j < |b| && b[i] == b[j]
    ensures multiset(b)[b[i]] >= 2
  {
    assert b == b[..j] + [b[j]] + b[j + 1..];
    assert b[i] in b[..j];
  }

  lemma {:induction false} Once(a: seq<Meta>, x: Meta)
    requires DistinctMetas(a)
    ensures multiset(a)[x] <= 1
  {
    if a != [] {
      var last := a[|a| - 1];
      assert a == a[..|a| - 1] + [last];
      Once(a[..|a| - 1], x);
      if last == x { assert x !in a[..|a| - 1]; }
    }
  }

  lemma FirstIs(chain: seq<Meta>, x: Meta)
    requires IsChain(chain) && x in chain && x.previous.None?
    ensures x == chain[0]
  {
    forall i | 0 < i < |chain| ensures chain[i].previous.Some? { assert chain[i].previous == Some(chain[i - 1].id); }
    var i :| 0 <= i < |chain| && chain[i] == x;
  }

  lemma LastIs(chain: seq<Meta>, x: Meta)
    requires IsChain(chain) && x in chain && x.next.None?
    ensures x == chain[|chain| - 1]
  {
    forall i | 0 <= i < |chain| - 1 ensures chain[i].next.Some? { assert chain[i].next == Some(chain[i + 1].id); }
    var i :| 0 <= i < |chain| && chain[i] == x;
  }

  /** There is at most one order. */
  lemma OrderIsUnique(a: seq<Meta>, b: seq<Meta>)
    requires IsChain(a) && IsChain(b) && multiset(a) == multiset(b)
    ensures a == b
  {
    SameLength(a, b);
    forall i | 0 <= i < |a| ensures a[i] == b[i] { SameUpTo(a, b, i); }
  }

  lemma {:induction false} SameUpTo(a: seq<Meta>, b: seq<Meta>, i: nat)
    requires IsChain(a) && IsChain(b) && multiset(a) == multiset(b) && i < |a| == |b|
    ensures a[i] == b[i]
  {
    SameMembers(a, b, a[i]);
    if i == 0 {
      FirstIs(b, a[0]);
    } else {
      SameUpTo(a, b, i - 1);
      assert a[i] in b && b[i].id == a[i].id;
      SameId(b, a[i], b[i]);
    }
  }

  // --- Checking the links ------------------------------------------------------------------

  /** The last of the metadata with this identifier, as a hash map built in order has it. */
  function Lookup(ms: seq<Meta>, id: nat): Option<Meta> {
    if ms == [] then None
    else if ms[|ms| - 1].id == id then Some(ms[|ms| - 1])
    else Lookup(ms[..|ms| - 1], id)
  }

  lemma {:induction false} LookupIs(ms: seq<Meta>, id: nat)
    ensures Lookup(ms, id).Some? ==> Lookup(ms, id).value in ms && Lookup(ms, id).value.id == id
    ensures Lookup(ms, id).None? ==> forall m | m in ms :: m.id != id
  {
    if ms != [] { LookupIs(ms[..|ms| - 1], id); }
  }

  function Ids(ms: seq<Meta>): set<nat> {
    set m | m in ms :: m.id
  }

  /** A beginning of the walk from the last chunk backwards: `path` has been walked. */
  ghost predicate Walked(ms: seq<Meta>, path: seq<Meta>) {
    && path != [] && DistinctMetas(path) && IsLinked(path) && path[|path| - 1].next.None?
    && forall m | m in path :: m in ms
  }

  /** Any order of the metadata ends with the path. */
  ghost predicate EndsAllOrders(ms: seq<Meta>, path: seq<Meta>) {
    forall chain | IsOrderOf(chain, ms) :: |path| <= |chain| && chain[|chain| - |path|..] == path
  }

  lemma LastEndsAll(ms: seq<Meta>, last: Meta)
    requires last in ms && last.next.None? && forall m | m in ms && m.next.None? :: m == last
    ensures EndsAllOrders(ms, [last])
  {
    forall chain | IsOrderOf(chain, ms) ensures |chain| >= 1 && chain[|chain| - 1..] == [last] {
      SameMembers(chain, ms, chain[|chain| - 1]);
      assert chain[|chain| - 1] in ms;
    }
  }

  lemma PredecessorWalks(ms: seq<Meta>, path: seq<Meta>, m: Meta)
    requires Walked(ms, path) && m in ms && path[0].previous == Some(m.id) && m.next == Some(path[0].id)
             && m.id !in Ids(path)
    ensures Walked(ms, [m] + path)
  {
    var path' := [m] + path;
    forall i, j | 0 <= i < j < |path'| ensures path'[i].id != path'[j].id {
      assert path'[j] == path[j - 1] && path[j - 1] in path;
    }
  }

  /** In any order, the chunk before the path is the one the path names. */
  lemma BeforePath(ms: seq<Meta>, path: seq<Meta>, chain: seq<Meta>)
    requires IsOrderOf(chain, ms) && path != [] && |path| <= |chain| && chain[|chain| - |path|..] == path
    ensures path[0].previous.None? ==> |path| == |chain|
    ensures path[0].previous.Some? ==>
              && |path| < |chain|
              && var m := chain[|chain| - |path| - 1];
                 m in ms && m.id == path[0].previous.value && m.next == Some(path[0].id) && m.id !in Ids(path)
  {
    var k := |chain| - |path|;
    assert chain[k] == path[0];
    if k > 0 {
      var m := chain[k - 1];
      SameMembers(chain, ms, m);
      forall x | x in path ensures x.id != m.id {
        var i :| 0 <= i < |path| && path[i] == x;
        assert chain[k + i] == x;
      }
    }
  }

  /** So nothing that the walk may find wrong is found in metadata that has an order. */
  lemma PredecessorEndsAll(ms: seq<Meta>, path: seq<Meta>, m: Meta)
    requires path != [] && EndsAllOrders(ms, path) && m in ms && path[0].previous == Some(m.id)
    ensures EndsAllOrders(ms, [m] + path)
  {
    hide IsLinked, DistinctMetas, Ids;
    forall chain | IsOrderOf(chain, ms)
      ensures |path| + 1 <= |chain| && chain[|chain| - |path| - 1..] == [m] + path
    {
      BeforePath(ms, path, chain);
      SameMembers(chain, ms, m);
      var k := |chain| - |path|;
      SameId(chain, m, chain[k - 1]);
      assert chain[k - 1..] == [chain[k - 1]] + chain[k..];
    }
  }

  lemma {:induction false} IdsCount(path: seq<Meta>)
    requires DistinctMetas(path)
    ensures |Ids(path)| == |path|
  {
    if path != [] {
      var front, last := path[..|path| - 1], path[|path| - 1];
      IdsCount(front);
      assert path == front + [last];
      assert Ids(path) == Ids(front) + {last.id};
    }
  }

  lemma IdsMore(m: Meta, path: seq<Meta>)
    ensures Ids([m] + path) == {m.id} + Ids(path)
  {
    assert forall x :: x in [m] + path <==> x == m || x in path;
  }

  method LastOf(ms: seq<Meta>) returns (last: Option<Meta>, other: Option<Meta>)
    ensures last.None? <==> forall m | m in ms :: m.next.Some?
    ensures last.Some? ==> last.value in ms && last.value.next.None?
    ensures other.Some? ==> last.Some? && other.value.next.None? &&
                            exists i, j :: 0 <= i < j < |ms| && ms[i] == last.value && ms[j] == other.value
    ensures other.None? ==> forall m | m in ms && m.next.None? :: Some(m) == last
  {
    last, other := None, None;
    ghost var at := 0;
    for i := 0 to |ms|
      invariant last.None? <==> forall k | 0 <= k < i :: ms[k].next.Some?
      invariant last.Some? ==> 0 <= at < i && ms[at] == last.value && last.value.next.None?
      invariant other.None? && forall k | 0 <= k < i && ms[k].next.None? :: k == at && last.Some?
    {
      if ms[i].next.None? {
        if last.None? {
          last, at := Some(ms[i]), i;
        } else {
          other := Some(ms[i]);
          return;
        }
      }
    }
  }

  lemma TwoLastsHaveNoOrder(ms: seq<Meta>, i: nat, j: nat)
    requires i < j < |ms| && ms[i].next.None? && ms[j].next.None?
    ensures forall chain :: !IsOrderOf(chain, ms)
  {
    forall chain ensures !IsOrderOf(chain, ms) {
      if IsOrderOf(chain, ms) {
        DistinctInAnyOrder(chain, ms);
        SameMembers(chain, ms, ms[i]);
        SameMembers(chain, ms, ms[j]);
        LastIs(chain, ms[i]);
        LastIs(chain, ms[j]);
      }
    }
  }

  lemma NoLastHasNoOrder(ms: seq<Meta>)
    requires forall m | m in ms :: m.next.Some?
    ensures forall chain :: !IsOrderOf(chain, ms)
  {
    forall chain ensures !IsOrderOf(chain, ms) {
      if IsOrderOf(chain, ms) { SameMembers(chain, ms, chain[|chain| - 1]); }
    }
  }

  datatype Rewound = Rewound(first: Meta) | Broken(error: Malformation)

  /** Chunks that are linked to each other, and the first of them back to the last, `id`. */
  predicate IsCycle(ms: seq<Meta>, c: seq<Meta>, id: nat) {
    && c != [] && IsLinked(c) && (forall m | m in c :: m in ms)
    && c[|c| - 1].id == id && c[0].previous == Some(id)
  }

  lemma CycleIs(ms: seq<Meta>, path: seq<Meta>, id: nat)
    requires Walked(ms, path) && path[0].previous == Some(id) && id in Ids(path)
    ensures IsTrue(ms, CycleDetected(id))
  {
    var x :| x in path && x.id == id;
    var i :| 0 <= i < |path| && path[i] == x;
    var c := path[..i + 1];
    assert forall m | m in c :: m in path;
    assert IsCycle(ms, c, id);
  }

  lemma ChainIs(ms: seq<Meta>, path: seq<Meta>)
    requires Walked(ms, path) && path[0].previous.None? && |path| != |ms|
    ensures IsTrue(ms, SeveralComponents(|path|, |ms|))
  {
    assert IsChain(path);
  }

  lemma MissingIs(ms: seq<Meta>, m: Meta)
    requires m in ms && m.previous.Some? && forall o | o in ms :: o.id != m.previous.value
    ensures IsTrue(ms, MissingPredecessor(m.previous.value, m.id))
  {
  }

  lemma WrongNextIs(ms: seq<Meta>, m: Meta, p: Meta)
    requires m in ms && p in ms && m.previous == Some(p.id) && p.next != Some(m.id)
    ensures IsTrue(ms, WrongNext(p.id, m.id))
  {
  }

  /** What an error says about the metadata. */
  ghost predicate IsTrue(ms: seq<Meta>, e: Malformation) {
    match e
    case NoLastChunk => forall m | m in ms :: m.next.Some?
    case TwoLastChunks(one, other) =>
      exists i, j :: 0 <= i < j < |ms| && ms[i].id == one && ms[j].id == other && ms[i].next.None? && ms[j].next.None?
    case CycleDetected(id) => exists c :: IsCycle(ms, c, id)
    case SeveralComponents(seen, expected) =>
      seen != expected == |ms| && exists c :: IsChain(c) && |c| == seen && forall m | m in c :: m in ms
    case MissingPredecessor(id, of) =>
      (exists m :: m in ms && m.id == of && m.previous == Some(id)) && forall m | m in ms :: m.id != id
    case WrongNext(id, of) =>
      exists m, p :: m in ms && p in ms && m.id == of && m.previous == Some(id) && p.id == id && p.next != Some(of)
  }

  /** The walk back from the last chunk, which finds the first one or something wrong. It
      finds nothing wrong exactly if the metadata is a linked chunk in some order. */
  method Rewind(ms: seq<Meta>, last: Meta) returns (r: Rewound, ghost path: seq<Meta>)
    requires last in ms && last.next.None? && forall m | m in ms && m.next.None? :: m == last
    ensures r.Rewound? ==> IsOrderOf(path, ms) && path[0] == r.first
    ensures r.Broken? ==> IsTrue(ms, r.error) && forall chain :: !IsOrderOf(chain, ms)
  {
    hide Walked, EndsAllOrders, IsOrderOf, IsChain, IsLinked, IsTrue;
    var seen: set<nat>, current := {}, last;
    path := [last];
    assert Walked(ms, path) by { LastWalks(ms, last); }
    LastEndsAll(ms, last);
    while true
      invariant path != [] && path[0] == current && current in ms && EndsAllOrders(ms, path)
      invariant Walked(ms, path) && seen == Ids(path) - {current.id}
      decreases Ids(ms) - seen
    {
      assert current.id !in seen;
      seen := seen + {current.id};
      assert seen == Ids(path) by { assert current in path; }
      assert current.id in Ids(ms);
      if current.previous.None? {
        assert |seen| == |path| by { WalkedIsDistinct(ms, path); IdsCount(path); }
        if |seen| != |ms| {
          r := Broken(SeveralComponents(|seen|, |ms|));
          TooShort(ms, path);
          ChainIs(ms, path);
          return;
        }
        WholeWalk(ms, path);
        r := Rewound(current);
        return;
      }
      var before := Lookup(ms, current.previous.value);
      LookupIs(ms, current.previous.value);
      if before.None? {
        r := Broken(MissingPredecessor(current.previous.value, current.id));
        NoneBefore(ms, path);
        MissingIs(ms, current);
        return;
      }
      var m := before.value;
      if m.next != Some(current.id) {
        r := Broken(WrongNext(m.id, current.id));
        PredecessorEndsAll(ms, path, m);
        WrongLink(ms, path, m);
        WrongNextIs(ms, current, m);
        return;
      }
      PredecessorEndsAll(ms, path, m);
      if m.id in seen {
        r := Broken(CycleDetected(m.id));
        CycleHasNoOrder(ms, path, m);
        CycleIs(ms, path, m.id);
        return;
      }
      PredecessorWalks(ms, path, m);
      IdsMore(m, path);
      path := [m] + path;
      current := m;
    }
  }

  lemma LastWalks(ms: seq<Meta>, last: Meta)
    requires last in ms && last.next.None?
    ensures Walked(ms, [last])
  {
  }

  lemma WalkedIsDistinct(ms: seq<Meta>, path: seq<Meta>)
    requires Walked(ms, path)
    ensures DistinctMetas(path)
  {
  }

  lemma TooShort(ms: seq<Meta>, path: seq<Meta>)
    requires path != [] && EndsAllOrders(ms, path) && path[0].previous.None? && |path| != |ms|
    ensures forall chain :: !IsOrderOf(chain, ms)
  {
    forall chain ensures !IsOrderOf(chain, ms) {
      if IsOrderOf(chain, ms) {
        BeforePath(ms, path, chain);
        SameLength(chain, ms);
      }
    }
  }

  lemma WholeWalk(ms: seq<Meta>, path: seq<Meta>)
    requires Walked(ms, path) && path[0].previous.None? && |path| == |ms|
    ensures IsOrderOf(path, ms)
  {
    AllOfThem(path, ms);
  }

  lemma NoneBefore(ms: seq<Meta>, path: seq<Meta>)
    requires path != [] && EndsAllOrders(ms, path) && path[0].previous.Some?
    requires forall m | m in ms :: m.id != path[0].previous.value
    ensures forall chain :: !IsOrderOf(chain, ms)
  {
    forall chain ensures !IsOrderOf(chain, ms) {
      if IsOrderOf(chain, ms) { BeforePath(ms, path, chain); }
    }
  }

  lemma WrongLink(ms: seq<Meta>, path: seq<Meta>, m: Meta)
    requires path != [] && EndsAllOrders(ms, [m] + path) && m.next != Some(path[0].id)
    ensures forall chain :: !IsOrderOf(chain, ms)
  {
    forall chain ensures !IsOrderOf(chain, ms) {
      if IsOrderOf(chain, ms) {
        NextInOrder(ms, path, m, chain);
      }
    }
  }

  lemma NextInOrder(ms: seq<Meta>, path: seq<Meta>, m: Meta, chain: seq<Meta>)
    requires IsOrderOf(chain, ms) && path != [] && |path| < |chain| && chain[|chain| - |path| - 1..] == [m] + path
    ensures m.next == Some(path[0].id) && m.id !in Ids(path)
  {
    var k := |chain| - |path| - 1;
    assert chain[k] == chain[k..][0] && chain[k + 1] == chain[k..][1];
    forall x | x in path ensures x.id != m.id {
      var i :| 0 <= i < |path| && path[i] == x;
      assert chain[k + i + 1] == chain[k..][i + 1] == x;
    }
  }

  lemma CycleHasNoOrder(ms: seq<Meta>, path: seq<Meta>, m: Meta)
    requires path != [] && EndsAllOrders(ms, [m] + path) && m.id in Ids(path)
    ensures forall chain :: !IsOrderOf(chain, ms)
  {
    forall chain ensures !IsOrderOf(chain, ms) {
      if IsOrderOf(chain, ms) {
        NextInOrder(ms, path, m, chain);
      }
    }
  }

  // --- Putting it in order -----------------------------------------------------------------

  method LastPosition(ms: seq<Meta>, id: nat) returns (j: nat)
    requires id in Ids(ms)
    ensures j < |ms| && ms[j].id == id && forall k | j < k < |ms| :: ms[k].id != id
  {
    j := |ms| - 1;
    while ms[j].id != id
      invariant j < |ms| && forall k | j < k < |ms| :: ms[k].id != id
      invariant exists k :: 0 <= k <= j && ms[k].id == id
      decreases j
    {
      j := j - 1;
    }
  }

  function Swapped<T>(s: seq<T>, i: nat, j: nat): seq<T>
    requires i < |s| && j < |s|
  {
    s[i := s[j]][j := s[i]]
  }

  lemma SwapKeeps<T>(s: seq<T>, i: nat, j: nat)
    requires i <= j < |s|
    ensures multiset(Swapped(s, i, j)) == multiset(s) && |Swapped(s, i, j)| == |s|
    ensures Swapped(s, i, j)[..i + 1] == s[..i] + [s[j]]
  {
  }

  /** Swapping each into its place, along the links. */
  method Reorder(ms: seq<Meta>, first: nat, ghost chain: seq<Meta>) returns (r: seq<Meta>)
    requires IsOrderOf(chain, ms) && chain[0].id == first
    ensures r == chain
  {
    hide DistinctMetas, Swapped, IsOrderOf;
    assert IsChain(chain) && multiset(ms) == multiset(chain) by { OrderIs(chain, ms); }
    hide IsLinked;
    r := ms;
    var current := first;
    SameLength(chain, ms);
    for i := 0 to |ms|
      invariant |r| == |ms| == |chain| && multiset(r) == multiset(chain) && r[..i] == chain[..i]
      invariant i < |ms| ==> current == chain[i].id
    {
      SameMembers(chain, r, chain[i]);
      var j := LastPosition(r, current);
      NotBefore(chain, r, i, j);
      SwapKeeps(r, i, j);
      if i != j {
        r := Swapped(r, i, j);
      } else {
        assert r[..i + 1] == r[..i] + [r[i]];
      }
      assert r[..i + 1] == chain[..i] + [chain[i]] == chain[..i + 1];
      assert r[i] == r[..i + 1][i] == chain[i];
      NextOf(chain, i);
      if r[i].next.Some? { current := r[i].next.value; }
    }
    assert r == r[..|ms|] && chain == chain[..|ms|];
  }

  lemma OrderIs(chain: seq<Meta>, ms: seq<Meta>)
    requires IsOrderOf(chain, ms)
    ensures IsChain(chain) && multiset(ms) == multiset(chain)
  {
  }

  lemma NextOf(chain: seq<Meta>, i: nat)
    requires IsChain(chain) && i < |chain|
    ensures chain[i].next == if i + 1 < |chain| then Some(chain[i + 1].id) else None
  {
  }

  lemma NotBefore(chain: seq<Meta>, r: seq<Meta>, i: nat, j: nat)
    requires IsChain(chain) && |r| == |chain| && multiset(r) == multiset(chain)
    requires i < |chain| && r[..i] == chain[..i] && j < |r| && r[j].id == chain[i].id
    ensures i <= j && r[j] == chain[i]
  {
    SameMembers(chain, r, r[j]);
    SameId(chain, r[j], chain[i]);
    forall k | 0 <= k < i ensures r[k].id != chain[i].id { assert r[k] == r[..i][k] == chain[k]; }
  }

  /** `load_linked_chunk_metadata`, given what the store has. It succeeds exactly if the
      metadata is that of one linked chunk, in whatever order, and then gives its order. */
  method OrderMetadata(ms: seq<Meta>) returns (r: Checked)
    ensures r.NothingStored? <==> ms == []
    ensures r.Ordered? ==> IsOrderOf(r.metas, ms)
    ensures r.BadMetadata? ==> IsTrue(ms, r.error) && forall chain :: !IsOrderOf(chain, ms)
  {
    hide IsOrderOf;
    if ms == [] { return NothingStored; }
    var last, other := LastOf(ms);
    if last.None? {
      NoLastHasNoOrder(ms);
      return BadMetadata(NoLastChunk);
    }
    if other.Some? {
      ghost var i, j :| 0 <= i < j < |ms| && ms[i] == last.value && ms[j] == other.value;
      TwoLastsHaveNoOrder(ms, i, j);
      return BadMetadata(TwoLastChunks(last.value.id, other.value.id));
    }
    var rewound, path := Rewind(ms, last.value);
    match rewound
    case Broken(error) => return BadMetadata(error);
    case Rewound(first) =>
      var metas := Reorder(ms, first.id, path);
      return Ordered(metas);
  }

  // --- Metadata in the store ---------------------------------------------------------------

  /** `load_raw_chunk_metadata`: by convention a gap has no items. */
  function CountItems(st: Store, lc: string, chunk: nat): Loaded<nat> {
    var rows := RowsOfChunk(st, lc, chunk);
    if rows == [] then Ok(0)
    else if rows[0].value.GapCell? then
      if |rows| > 1 then Malformed else Ok(0)
    else if exists r | r in rows :: r.value.GapCell? then Malformed
    else Ok(|rows|)
  }

  /** `load_all_chunks_metadata`, from some of the rows. */
  function LoadMetas(st: Store, lc: string, rows: ChunkRows): Loaded<seq<Meta>> {
    if rows == [] then Ok([])
    else if rows[0].lc != lc then LoadMetas(st, lc, rows[1..])
    else
      match (CountItems(st, lc, rows[0].key), LoadMetas(st, lc, rows[1..]))
      case (Ok(items), Ok(rest)) => Ok([Meta(rows[0].key, items, rows[0].value.previous, rows[0].value.next)] + rest)
      case _ => Malformed
  }

  function MetaAt(cs: seq<Chunk>, i: nat): Meta
    requires i < |cs|
  {
    Meta(cs[i].id, |ItemsOf(cs[i])|, IdAt(cs, i - 1), IdAt(cs, i + 1))
  }

  function MetasOf(cs: seq<Chunk>): seq<Meta> {
    seq(|cs|, i requires 0 <= i < |cs| => MetaAt(cs, i))
  }

  lemma MetasAreChain(cs: seq<Chunk>)
    requires DistinctIds(cs)
    ensures DistinctMetas(MetasOf(cs)) && (cs != [] ==> IsChain(MetasOf(cs)))
  {
  }

  lemma {:induction false} SortedLength(es: seq<Entry>)
    ensures |Sorted(es)| == |es|
    ensures forall x | x in Sorted(es) :: x in es
  {
    if es != [] {
      SortedLength(es[1..]);
      InsertLength(es[0], Sorted(es[1..]));
    }
  }

  lemma {:induction false} InsertLength(e: Entry, es: seq<Entry>)
    ensures |Insert(e, es)| == |es| + 1
    ensures forall x | x in Insert(e, es) :: x == e || x in es
  {
    if es != [] && e.index > es[0].index { InsertLength(e, es[1..]); }
  }

  lemma {:induction false} EventsLength(es: seq<Entry>, known: map<string, Stored>)
    requires forall x | x in es :: x.id in known
    ensures |Events(es, known)| == |es|
  {
    if es != [] {
      assert es[0] in es;
      EventsLength(es[1..], known);
    }
  }

  /** The same for the number of items. */
  lemma CountMalformedIff(st: Store, lc: string, chunk: nat)
    ensures var rows := RowsOfChunk(st, lc, chunk);
            CountItems(st, lc, chunk).Malformed? <==> |rows| > 1 && exists r :: r in rows && r.value.GapCell?
  {
    hide RowsOfChunk;
    var rows := RowsOfChunk(st, lc, chunk);
    if rows != [] { assert rows[0] in rows; }
    if |rows| == 1 { assert forall r | r in rows :: r == rows[0]; }
  }

  lemma CountIs(st: Store, lc: string, cs: seq<Chunk>, i: nat)
    requires Holds(st, lc, cs) && i < |cs|
    ensures CountItems(st, lc, cs[i].id) == Ok(|ItemsOf(cs[i])|)
  {
    hide LinksOk, RowsOk, PlacesOk, RowsOfChunk, Sorted, Events, IndexOf;
    if cs[i].content.Gap? {
      LoadGap(st, lc, cs, i);
    } else {
      LoadItems(st, lc, cs, i);
      var rows := RowsOfChunk(st, lc, cs[i].id);
      if rows != [] {
        forall r | r in rows ensures r.value.ItemCell? && r.value.id in KnownItems(st.items, lc) {
          ChunkRowIs(st, lc, cs, cs[i].id, r);
          PositionsInChunk(cs, i, r.key.index);
        }
        var es := Entries(rows);
        SortedLength(es);
        forall x | x in Sorted(es) ensures x.id in KnownItems(st.items, lc) {
          var k :| 0 <= k < |es| && es[k] == x;
          assert rows[k] in rows;
        }
        EventsLength(Sorted(es), KnownItems(st.items, lc));
      }
    }
  }

  lemma {:induction false} MetaIs(st: Store, lc: string, cs: seq<Chunk>, row: Row<nat, Links>)
    requires Holds(st, lc, cs) && row in st.chunks && row.lc == lc
    ensures var i := IndexOf(cs, row.key);
            && i < |cs| && CountItems(st, lc, row.key).Ok?
            && Meta(row.key, CountItems(st, lc, row.key).value, row.value.previous, row.value.next) == MetaAt(cs, i)
  {
    hide Holds, CountItems, LoadRaw;
    LoadRawIs(st, lc, cs, row);
    CountIs(st, lc, cs, IndexOf(cs, row.key));
  }

  function RowIds(rows: ChunkRows, lc: string): set<nat> {
    set r | r in rows && r.lc == lc :: r.key
  }

  /** The metadata of the chunks that these rows are about. */
  predicate AreMetas(ms: seq<Meta>, lc: string, cs: seq<Chunk>, rows: ChunkRows) {
    DistinctMetas(ms) && Ids(ms) == RowIds(rows, lc) && forall m | m in ms :: m in MetasOf(cs)
  }

  lemma RowIdsMore(row: Row<nat, Links>, rows: ChunkRows, lc: string)
    ensures RowIds([row] + rows, lc) == if row.lc == lc then {row.key} + RowIds(rows, lc) else RowIds(rows, lc)
  {
    assert forall r :: r in [row] + rows <==> r == row || r in rows;
  }

  lemma DistinctMore(m: Meta, ms: seq<Meta>)
    requires DistinctMetas(ms) && m.id !in Ids(ms)
    ensures DistinctMetas([m] + ms)
  {
    var ms' := [m] + ms;
    forall i, j | 0 <= i < j < |ms'| ensures ms'[i].id != ms'[j].id {
      assert ms'[j] == ms[j - 1] && ms[j - 1] in ms;
    }
  }

  lemma OneMoreMeta(m: Meta, ms: seq<Meta>, lc: string, cs: seq<Chunk>, row: Row<nat, Links>, rows: ChunkRows)
    requires AreMetas(ms, lc, cs, rows) && row.lc == lc && row.key == m.id && m in MetasOf(cs)
    requires m.id !in RowIds(rows, lc)
    ensures AreMetas([m] + ms, lc, cs, [row] + rows)
  {
    hide MetasOf, RowIds, Ids, DistinctMetas;
    DistinctMore(m, ms);
    IdsMore(m, ms);
    RowIdsMore(row, rows, lc);
  }

  lemma {:induction false} MetasLoaded(st: Store, lc: string, cs: seq<Chunk>, rows: ChunkRows)
    requires Holds(st, lc, cs) && Unique(rows, lc) && forall r | r in rows :: r in st.chunks
    ensures LoadMetas(st, lc, rows).Ok? && AreMetas(LoadMetas(st, lc, rows).value, lc, cs, rows)
  {
    hide Holds, CountItems, MetasOf;
    if rows != [] {
      var rest, row := rows[1..], rows[0];
      assert forall i | 0 <= i < |rest| :: rest[i] == rows[i + 1];
      assert rows == [row] + rest && row in rows;
      MetasLoaded(st, lc, cs, rest);
      RowIdsMore(row, rest, lc);
      if row.lc == lc {
        MetaIs(st, lc, cs, row);
        var m := MetaAt(cs, IndexOf(cs, row.key));
        MetaInMetas(cs, IndexOf(cs, row.key));
        hide AreMetas;
        OneMoreMeta(m, LoadMetas(st, lc, rest).value, lc, cs, row, rest);
      }
    }
  }

  lemma MetaInMetas(cs: seq<Chunk>, i: nat)
    requires i < |cs|
    ensures MetaAt(cs, i) in MetasOf(cs)
  {
    assert MetasOf(cs)[i] == MetaAt(cs, i);
  }

  /** What a store has for a linked chunk it holds is its metadata, in some order. */
  lemma MetadataIs(st: Store, lc: string, cs: seq<Chunk>)
    requires Holds(st, lc, cs)
    ensures LoadMetas(st, lc, st.chunks).Ok? && multiset(LoadMetas(st, lc, st.chunks).value) == multiset(MetasOf(cs))
  {
    hide RowsOk, PlacesOk, ContentOk, LoadMetas;
    MetasLoaded(st, lc, cs, st.chunks);
    var ms, all := LoadMetas(st, lc, st.chunks).value, MetasOf(cs);
    MetasAreChain(cs);
    forall x | x in all ensures x.id in RowIds(st.chunks, lc) {
      var i :| 0 <= i < |cs| && all[i] == x;
      RowExists(st, lc, cs, i);
    }
    assert Ids(all) == Ids(ms);
    IdsCount(ms);
    IdsCount(all);
    AllOfThem(ms, all);
  }

  /** `load_linked_chunk_metadata`: for a linked chunk that the store holds it never fails,
      and gives the metadata of its chunks in their order. */
  method LoadLinkedChunkMetadata(st: Store, lc: string) returns (r: Loaded<Checked>)
    ensures forall cs: seq<Chunk> | Holds(st, lc, cs) ::
            r == Ok(if cs == [] then NothingStored else Ordered(MetasOf(cs)))
    ensures r.Malformed? <==> LoadMetas(st, lc, st.chunks).Malformed?
    ensures r.Ok? && r.value.Ordered? ==> IsOrderOf(r.value.metas, LoadMetas(st, lc, st.chunks).value)
  {
    hide Holds, LoadMetas, IsChain, MetasOf;
    var ms := LoadMetas(st, lc, st.chunks);
    if ms.Malformed? {
      r := Malformed;
    } else {
      var ordered := OrderMetadata(ms.value);
      r := Ok(ordered);
    }
    forall cs: seq<Chunk> | Holds(st, lc, cs)
      ensures r == Ok(if cs == [] then NothingStored else Ordered(MetasOf(cs)))
    {
      MetadataIs(st, lc, cs);
      OrderOfMetas(st, lc, cs, ms.value);
    }
  }

  /** The metadata of the linked chunk is the only order there is. */
  lemma OrderOfMetas(st: Store, lc: string, cs: seq<Chunk>, ms: seq<Meta>)
    requires Holds(st, lc, cs) && multiset(ms) == multiset(MetasOf(cs))
    ensures ms == [] <==> cs == []
    ensures cs != [] ==> IsOrderOf(MetasOf(cs), ms)
    ensures forall chain | IsOrderOf(chain, ms) :: chain == MetasOf(cs)
  {
    hide Holds, IsChain;
    HoldsDistinct(st, lc, cs);
    MetasAreChain(cs);
    SameLength(ms, MetasOf(cs));
    forall chain | IsOrderOf(chain, ms) ensures chain == MetasOf(cs) {
      SameLength(chain, ms);
      assert chain != [] by { ChainIsNonempty(chain); }
      OrderIsUnique(chain, MetasOf(cs));
    }
  }

  lemma ChainIsNonempty(chain: seq<Meta>)
    requires IsChain(chain)
    ensures chain != []
  {
  }
}
