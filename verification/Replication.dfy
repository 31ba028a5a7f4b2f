/** How the changes of an observable vector reach a foreign listener: a first message
    with the current items, then every batch of diffs, converted one by one, with
    64-bit indices narrowed to 32 bits. */
module Replication {
  import opened Wrappers
  import opened VectorDiffs

  const U32_RANGE: nat := 0x1_0000_0000

  datatype Form = LiveLocations | RoomDirectory | RoomList

  /** `as u32` wraps around; `u32::try_from(..).unwrap()` panics, which is `None`. */
  function Narrow(form: Form, n: nat): Option<nat> {
    if !form.RoomList? then Some(n % U32_RANGE) else if n < U32_RANGE then Some(n) else None
  }

  function Converted<T, U>(f: T -> U, v: seq<T>): (r: seq<U>)
    ensures |r| == |v|
  {
    seq(|v|, i requires 0 <= i < |v| => f(v[i]))
  }

  function Convert<T, U>(form: Form, f: T -> U, d: VectorDiff<T>): Option<VectorDiff<U>> {
    match d
    case Append(values) => Some(Append(Converted(f, values)))
    case ClearAll => Some(ClearAll)
    case PushFront(value) => Some(PushFront(f(value)))
    case PushBack(value) => Some(PushBack(f(value)))
    case PopFront => Some(PopFront)
    case PopBack => Some(PopBack)
    case Insert(index, value) => (match Narrow(form, index) case None => None case Some(i) => Some(Insert(i, f(value))))
    case Set(index, value) => (match Narrow(form, index) case None => None case Some(i) => Some(Set(i, f(value))))
    case Remove(index) => (match Narrow(form, index) case None => None case Some(i) => Some(Remove(i)))
    case Truncate(length) => (match Narrow(form, length) case None => None case Some(n) => Some(Truncate(n)))
    case Reset(values) => Some(Reset(Converted(f, values)))
  }

  /** What the listener is told first. */
  function Greeting<U>(form: Form, values: seq<U>): seq<seq<VectorDiff<U>>> {
    match form
    case LiveLocations => if values == [] then [] else [[Reset(values)]]
    case RoomDirectory => [[Reset(values)]]
    case RoomList => []
  }

  // --- One diff ----------------------------------------------------------------------

  predicate Fits<T>(d: VectorDiff<T>) {
    match d
    case Insert(index, _) => index < U32_RANGE
    case Set(index, _) => index < U32_RANGE
    case Remove(index) => index < U32_RANGE
    case Truncate(length) => length < U32_RANGE
    case _ => true
  }

  lemma ConvertedCut<T, U>(f: T -> U, v: seq<T>, i: nat)
    requires i <= |v|
    ensures Converted(f, v[..i]) == Converted(f, v)[..i] && Converted(f, v[i..]) == Converted(f, v)[i..]
  {
  }

  lemma ConvertedConcat<T, U>(f: T -> U, a: seq<T>, b: seq<T>)
    ensures Converted(f, a + b) == Converted(f, a) + Converted(f, b)
  {
  }

  lemma ConvertedSet<T, U>(f: T -> U, v: seq<T>, i: nat, x: T)
    requires i < |v|
    ensures Converted(f, v[i := x]) == Converted(f, v)[i := f(x)]
  {
  }

  lemma ConvertedNone<T, U>(f: T -> U)
    ensures Converted(f, []) == []
  {
  }

  lemma ConvertedOne<T, U>(f: T -> U, x: T)
    ensures Converted(f, [x]) == [f(x)]
  {
  }

  lemma ConvertedInsert<T, U>(f: T -> U, v: seq<T>, i: nat, x: T)
    requires i <= |v|
    ensures Converted(f, v[..i] + [x] + v[i..]) == Converted(f, v)[..i] + [f(x)] + Converted(f, v)[i..]
  {
    hide Converted;
    ConvertedCut(f, v, i);
    ConvertedConcat(f, v[..i] + [x], v[i..]);
    ConvertedConcat(f, v[..i], [x]);
    ConvertedOne(f, x);
  }

  lemma ConvertedRemove<T, U>(f: T -> U, v: seq<T>, i: nat)
    requires i < |v|
    ensures Converted(f, v[..i] + v[i + 1..]) == Converted(f, v)[..i] + Converted(f, v)[i + 1..]
  {
    hide Converted;
    ConvertedCut(f, v, i);
    ConvertedCut(f, v, i + 1);
    ConvertedConcat(f, v[..i], v[i + 1..]);
  }

  ghost predicate MirrorsOn<T, U>(form: Form, f: T -> U, v: seq<T>, d: VectorDiff<T>) {
    && ApplyDiff(v, d).Some? && Convert(form, f, d).Some?
    && ApplyDiff(Converted(f, v), Convert(form, f, d).value) == Some(Converted(f, ApplyDiff(v, d).value))
  }

  lemma MirrorsAtIndex<T, U>(form: Form, f: T -> U, v: seq<T>, d: VectorDiff<T>)
    requires ApplyDiff(v, d).Some? && Fits(d) && (d.Insert? || d.Set? || d.Remove? || d.Truncate?)
    ensures MirrorsOn(form, f, v, d)
  {
    hide Converted;
    match d
    case Insert(index, value) => ConvertedInsert(f, v, index, value);
    case Set(index, value) => ConvertedSet(f, v, index, value);
    case Remove(index) => ConvertedRemove(f, v, index);
    case Truncate(length) => ConvertedCut(f, v, length);
  }

  lemma MirrorsAtEnds<T, U>(form: Form, f: T -> U, v: seq<T>, d: VectorDiff<T>)
    requires !(d.Insert? || d.Set? || d.Remove? || d.Truncate?)
    ensures MirrorsOn(form, f, v, d)
  {
    hide Converted;
    ConvertedNone(f);
    match d
    case Append(values) => ConvertedConcat(f, v, values);
    case PushFront(value) => ConvertedConcat(f, [value], v); ConvertedOne(f, value);
    case PushBack(value) => ConvertedConcat(f, v, [value]); ConvertedOne(f, value);
    case PopFront => if v != [] { ConvertedCut(f, v, 1); }
    case PopBack => if v != [] { ConvertedCut(f, v, |v| - 1); }
    case _ =>
  }

  /** A diff whose index fits does to the copy what it does to the original. */
  lemma Mirrors<T, U>(form: Form, f: T -> U, v: seq<T>, d: VectorDiff<T>)
    requires ApplyDiff(v, d).Some? && Fits(d)
    ensures Convert(form, f, d).Some?
    ensures ApplyDiff(Converted(f, v), Convert(form, f, d).value) == Some(Converted(f, ApplyDiff(v, d).value))
  {
    hide Converted, ApplyDiff, Convert, Fits;
    if d.Insert? || d.Set? || d.Remove? || d.Truncate? {
      MirrorsAtIndex(form, f, v, d);
    } else {
      MirrorsAtEnds(form, f, v, d);
    }
  }

  predicate Distinct<U(==)>(s: seq<U>) {
    forall i, j | 0 <= i < j < |s| :: s[i] != s[j]
  }

  /** For the wrapping forms that is exact: among distinct items, an index that does
      not fit always makes the copy wrong, or the listener fail. */
  lemma MirrorsIff<T, U>(form: Form, f: T -> U, v: seq<T>, d: VectorDiff<T>)
    requires ApplyDiff(v, d).Some? && !form.RoomList? && Distinct(Converted(f, v))
    requires d.Insert? || d.Set? ==> f(d.value) !in Converted(f, v)
    ensures Convert(form, f, d).Some?
    ensures ApplyDiff(Converted(f, v), Convert(form, f, d).value) == Some(Converted(f, ApplyDiff(v, d).value)) <==>
            Fits(d)
  {
    if Fits(d) {
      Mirrors(form, f, v, d);
    } else {
      var c, w := Converted(f, v), Converted(f, ApplyDiff(v, d).value);
      match d
      case Insert(index, value) =>
        var i := index % U32_RANGE;
        assert (c[..i] + [f(value)] + c[i..])[i] == f(value) && w[i] == c[i];
      case Set(index, value) =>
        var i := index % U32_RANGE;
        assert c[i := f(value)][i] == f(value) && w[i] == c[i];
      case Remove(index) =>
        var i := index % U32_RANGE;
        assert (c[..i] + c[i + 1..])[i] == c[i + 1] && w[i] == c[i];
      case Truncate(length) =>
        assert |w| == length;
    }
  }

  lemma RoomListConvertsIff<T, U>(f: T -> U, d: VectorDiff<T>)
    ensures Convert(RoomList, f, d).Some? <==> Fits(d)
  {
  }

  /** A vector that never holds 2^32 items never has a diff that does not fit. */
  lemma SmallFits<T>(v: seq<T>, d: VectorDiff<T>)
    requires ApplyDiff(v, d).Some? && |v| < U32_RANGE
    ensures Fits(d)
  {
  }

  /** Past that bound a wrapped length cuts the copy short. */
  lemma WrappingDiverges()
    ensures var v, d := seq(U32_RANGE + 1, (i: int) => i), Truncate(U32_RANGE);
            && ApplyDiff(v, d) == Some(seq(U32_RANGE, (i: int) => i))
            && Convert(LiveLocations, (x: int) => x, d) == Some(Truncate(0))
            && ApplyDiff(v, VectorDiff<int>.Truncate(0)) == Some([])
            && Convert(RoomList, (x: int) => x, d).None?
  {
    var v := seq(U32_RANGE + 1, (i: int) => i);
    assert v[..U32_RANGE] == seq(U32_RANGE, (i: int) => i);
  }

  // --- Whole runs --------------------------------------------------------------------

  function Concat<T>(batches: seq<seq<T>>): seq<T> {
    if batches == [] then [] else Concat(batches[..|batches| - 1]) + batches[|batches| - 1]
  }

  ghost predicate AllFit<T>(ds: seq<VectorDiff<T>>) {
    forall d | d in ds :: Fits(d)
  }

  /** The vector after the first `k` batches. */
  function After<T>(initial: seq<T>, stream: seq<seq<VectorDiff<T>>>, k: nat): Option<seq<T>>
    requires k <= |stream|
  {
    ApplyDiffs(initial, Concat(stream[..k]))
  }

  /** What a listener that starts empty holds after these calls. */
  function Replay<U>(calls: seq<seq<VectorDiff<U>>>): Option<seq<U>> {
    ApplyDiffs([], Concat(calls))
  }

  function ConvertAll<T, U>(form: Form, f: T -> U, ds: seq<VectorDiff<T>>): Option<seq<VectorDiff<U>>>
    decreases |ds|
  {
    if ds == [] then Some([])
    else match (Convert(form, f, ds[0]), ConvertAll(form, f, ds[1..]))
      case (Some(d), Some(rest)) => Some([d] + rest)
      case _ => None
  }

  lemma {:induction false} BatchMirrors<T, U>(form: Form, f: T -> U, v: seq<T>, ds: seq<VectorDiff<T>>)
    requires ApplyDiffs(v, ds).Some? && AllFit(ds)
    ensures ConvertAll(form, f, ds).Some?
    ensures ApplyDiffs(Converted(f, v), ConvertAll(form, f, ds).value) == Some(Converted(f, ApplyDiffs(v, ds).value))
    decreases |ds|
  {
    hide Convert, ApplyDiff, Fits;
    if ds != [] {
      assert Fits(ds[0]);
      Mirrors(form, f, v, ds[0]);
      BatchMirrors(form, f, ApplyDiff(v, ds[0]).value, ds[1..]);
      assert ConvertAll(form, f, ds).value[1..] == ConvertAll(form, f, ds[1..]).value;
    }
  }

  lemma {:induction false} ConvertAllIff<T, U>(form: Form, f: T -> U, ds: seq<VectorDiff<T>>)
    ensures ConvertAll(form, f, ds).Some? <==> !form.RoomList? || AllFit(ds)
    decreases |ds|
  {
    if ds != [] {
      ConvertAllIff(form, f, ds[1..]);
      assert AllFit(ds) <==> Fits(ds[0]) && AllFit(ds[1..]) by { assert ds == [ds[0]] + ds[1..]; }
    }
  }

  lemma {:induction false} SmallAllFit<T>(v: seq<T>, ds: seq<VectorDiff<T>>)
    requires ApplyDiffs(v, ds).Some?
    requires forall n | 0 <= n < |ds| :: ApplyDiffs(v, ds[..n]).Some? && |ApplyDiffs(v, ds[..n]).value| < U32_RANGE
    ensures AllFit(ds)
  {
    forall d | d in ds ensures Fits(d) {
      var n :| 0 <= n < |ds| && ds[n] == d;
      assert ds == ds[..n] + ds[n..];
      ApplyDiffsConcat(v, ds[..n], ds[n..]);
      SmallFits(ApplyDiffs(v, ds[..n]).value, d);
    }
  }

  lemma ConcatMore<T>(batches: seq<seq<T>>, k: nat)
    requires k < |batches|
    ensures Concat(batches[..k + 1]) == Concat(batches[..k]) + batches[k]
  {
    assert batches[..k + 1][..k] == batches[..k];
  }

  /** The next call keeps the copy exact. */
  lemma NextCall<T, U>(form: Form, f: T -> U, initial: seq<T>, stream: seq<seq<VectorDiff<T>>>, k: nat,
                       calls: seq<seq<VectorDiff<U>>>)
    requires k < |stream| && After(initial, stream, |stream|).Some? && AllFit(Concat(stream[..k + 1]))
    requires After(initial, stream, k).Some? && Replay(calls) == Some(Converted(f, After(initial, stream, k).value))
    ensures ConvertAll(form, f, stream[k]).Some? && After(initial, stream, k + 1).Some?
    ensures Replay(calls + [ConvertAll(form, f, stream[k]).value]) ==
            Some(Converted(f, After(initial, stream, k + 1).value))
  {
    var v, now := After(initial, stream, k).value, stream[k];
    ConcatMore(stream, k);
    assert AllFit(now) by { assert forall d | d in now :: d in Concat(stream[..k + 1]); }
    ApplyDiffsConcat(initial, Concat(stream[..k]), now);
    StillApplies(initial, stream, k + 1);
    BatchMirrors(form, f, v, now);
    var call := ConvertAll(form, f, now).value;
    assert (calls + [call])[..|calls|] == calls;
    ApplyDiffsConcat([], Concat(calls), call);
  }

  lemma {:induction false} PrefixApplies<T>(v: seq<T>, a: seq<VectorDiff<T>>, b: seq<VectorDiff<T>>)
    requires ApplyDiffs(v, a + b).Some?
    ensures ApplyDiffs(v, a).Some?
    decreases |a|
  {
    if a != [] {
      assert (a + b)[1..] == a[1..] + b;
      PrefixApplies(ApplyDiff(v, a[0]).value, a[1..], b);
    }
  }

  lemma {:induction false} StillApplies<T>(initial: seq<T>, stream: seq<seq<VectorDiff<T>>>, k: nat)
    requires k <= |stream| && After(initial, stream, |stream|).Some?
    ensures After(initial, stream, k).Some?
    decreases |stream| - k
  {
    if k < |stream| {
      StillApplies(initial, stream, k + 1);
      ConcatMore(stream, k);
      PrefixApplies(initial, Concat(stream[..k]), stream[k]);
    } else {
      assert stream[..k] == stream;
    }
  }

  lemma GreetingIsSnapshot<U>(form: Form, values: seq<U>)
    requires form.RoomList? ==> values == []
    ensures Replay(Greeting(form, values)) == Some(values)
  {
    if Greeting(form, values) != [] {
      assert Greeting(form, values) == [[Reset(values)]];
      assert Concat(Greeting(form, values)) == [Reset(values)];
      assert ApplyDiffs([], [Reset(values)]) == ApplyDiffs(values, [Reset(values)][1..]);
    }
  }

  /** Nobody gets more than one message first: the room list none, live locations none if
      there are no items. */
  lemma GreetingIsOne<U>(form: Form, values: seq<U>)
    ensures |Greeting(form, values)| ==
            if form.RoomDirectory? || (form.LiveLocations? && values != []) then 1 else 0
  {
  }

  lemma FitsBefore<T>(stream: seq<seq<VectorDiff<T>>>, k: nat)
    requires k < |stream| && AllFit(Concat(stream[..k + 1]))
    ensures AllFit(Concat(stream[..k])) && AllFit(stream[k])
  {
    ConcatMore(stream, k);
    assert forall d | d in Concat(stream[..k]) || d in stream[k] :: d in Concat(stream[..k + 1]);
  }

  /** After `k` batches, the copy is exact. */
  ghost predicate Exact<T, U>(f: T -> U, initial: seq<T>, stream: seq<seq<VectorDiff<T>>>, k: nat,
                              calls: seq<seq<VectorDiff<U>>>)
    requires k <= |stream|
  {
    After(initial, stream, k).Some? && Replay(calls) == Some(Converted(f, After(initial, stream, k).value))
  }

  /** So after the greeting, which is the first `g` calls, and one call for each batch. */
  ghost predicate ExactAt<T, U>(f: T -> U, initial: seq<T>, stream: seq<seq<VectorDiff<T>>>, k: nat,
                                calls: seq<seq<VectorDiff<U>>>, g: nat)
  {
    k <= |stream| && g + k <= |calls| && Exact(f, initial, stream, k, calls[..g + k])
  }

  ghost predicate ExactThroughout<T, U>(f: T -> U, initial: seq<T>, stream: seq<seq<VectorDiff<T>>>,
                                        calls: seq<seq<VectorDiff<U>>>, g: nat)
  {
    |calls| == g + |stream| && forall k | 0 <= k <= |stream| :: ExactAt(f, initial, stream, k, calls, g)
  }

  lemma StartsExact<T, U>(form: Form, f: T -> U, initial: seq<T>, stream: seq<seq<VectorDiff<T>>>)
    requires form.RoomList? ==> initial == []
    ensures Exact(f, initial, stream, 0, Greeting(form, Converted(f, initial))) && AllFit(Concat(stream[..0]))
  {
    GreetingIsSnapshot(form, Converted(f, initial));
    assert stream[..0] == [];
  }

  lemma NextExact<T, U>(form: Form, f: T -> U, initial: seq<T>, stream: seq<seq<VectorDiff<T>>>, k: nat,
                        calls: seq<seq<VectorDiff<U>>>)
    requires k < |stream| && After(initial, stream, |stream|).Some? && AllFit(Concat(stream[..k + 1]))
             && Exact(f, initial, stream, k, calls)
    ensures ConvertAll(form, f, stream[k]).Some?
            && Exact(f, initial, stream, k + 1, calls + [ConvertAll(form, f, stream[k]).value])
  {
    hide Convert, ConvertAll, AllFit, Converted, Replay;
    NextCall(form, f, initial, stream, k, calls);
  }

  lemma FitsNext<T>(stream: seq<seq<VectorDiff<T>>>, k: nat)
    requires k < |stream| && AllFit(Concat(stream[..k])) && AllFit(stream[k])
    ensures AllFit(Concat(stream[..k + 1]))
  {
    ConcatMore(stream, k);
  }

  /** The source never holds 2^32 items, between batches or within. */
  ghost predicate StaysSmall<T>(initial: seq<T>, stream: seq<seq<VectorDiff<T>>>) {
    forall n | 0 <= n < |Concat(stream)| ::
      var v := ApplyDiffs(initial, Concat(stream)[..n]); v.Some? && |v.value| < U32_RANGE
  }

  lemma {:induction false} ConcatHas<T>(stream: seq<seq<T>>, k: nat, x: T)
    requires k <= |stream| && x in Concat(stream[..k])
    ensures x in Concat(stream)
    decreases |stream| - k
  {
    if k < |stream| {
      ConcatMore(stream, k);
      ConcatHas(stream, k + 1, x);
    } else {
      assert stream[..k] == stream;
    }
  }

  lemma SmallStreamFits<T>(initial: seq<T>, stream: seq<seq<VectorDiff<T>>>)
    requires After(initial, stream, |stream|).Some? && StaysSmall(initial, stream)
    ensures forall k | 0 <= k <= |stream| :: AllFit(Concat(stream[..k]))
    ensures forall k | 0 <= k < |stream| :: AllFit(stream[k])
  {
    hide Fits, Concat, ApplyDiffs;
    assert stream[..|stream|] == stream;
    SmallAllFit(initial, Concat(stream));
    forall k | 0 <= k <= |stream| ensures AllFit(Concat(stream[..k])) {
      forall d | d in Concat(stream[..k]) ensures Fits(d) { ConcatHas(stream, k, d); }
    }
    forall k | 0 <= k < |stream| ensures AllFit(stream[k]) {
      assert AllFit(Concat(stream[..k + 1]));
      FitsBefore(stream, k);
    }
  }

  /** Every call the listener gets. After each batch it holds exactly the converted
      vector, as long as all indices fit; the room list panics exactly at the first
      batch that has one that does not, having delivered every batch before it. If the
      source never holds 2^32 items, no form panics and every copy stays exact. */
  method Subscribe<T, U>(form: Form, f: T -> U, initial: seq<T>, stream: seq<seq<VectorDiff<T>>>)
    returns (calls: seq<seq<VectorDiff<U>>>, panicked: bool)
    requires After(initial, stream, |stream|).Some?
    requires form.RoomList? ==> initial == []
    ensures var g := |Greeting(form, Converted(f, initial))|;
            && g <= |calls| && |calls| - g <= |stream|
            && (panicked <==> |calls| - g < |stream|)
            && (panicked ==> form.RoomList? && !AllFit(stream[|calls| - g]))
            && (form.RoomList? ==> AllFit(Concat(stream[..|calls| - g])))
            && (forall k | 0 <= k <= |calls| - g && AllFit(Concat(stream[..k])) ::
                Exact(f, initial, stream, k, calls[..g + k]))
            && (StaysSmall(initial, stream) ==> !panicked && ExactThroughout(f, initial, stream, calls, g))
  {
    hide Convert, Fits, Converted, ConvertAll, Exact, AllFit, Concat, Replay, ApplyDiffs, ApplyDiff, StaysSmall;
    if StaysSmall(initial, stream) { SmallStreamFits(initial, stream); }
    calls, panicked := Greeting(form, Converted(f, initial)), false;
    ghost var g := |calls|;
    StartsExact(form, f, initial, stream);
    assert calls[..g] == calls;
    var n := 0;
    while n < |stream|
      invariant 0 <= n <= |stream| && |calls| == g + n && !panicked
      invariant form.RoomList? ==> AllFit(Concat(stream[..n]))
      invariant forall k | 0 <= k <= n && AllFit(Concat(stream[..k])) :: Exact(f, initial, stream, k, calls[..g + k])
    {
      ConvertAllIff(form, f, stream[n]);
      var call := ConvertAll(form, f, stream[n]);
      if call.None? {
        panicked := true;
        return;
      }
      assert calls[..g + n] == calls;
      if AllFit(Concat(stream[..n + 1])) {
        FitsBefore(stream, n);
        NextExact(form, f, initial, stream, n, calls);
      }
      ghost var before := calls;
      calls := calls + [call.value];
      assert calls[..g + n + 1] == calls;
      forall k | 0 <= k <= n + 1 && AllFit(Concat(stream[..k])) ensures Exact(f, initial, stream, k, calls[..g + k]) {
        if k <= n { assert calls[..g + k] == before[..g + k]; }
      }
      assert form.RoomList? ==> AllFit(Concat(stream[..n + 1])) by { if form.RoomList? { FitsNext(stream, n); } }
      n := n + 1;
    }
    if StaysSmall(initial, stream) {
      forall k | 0 <= k <= |stream| ensures ExactAt(f, initial, stream, k, calls, g) {
        assert AllFit(Concat(stream[..k]));
      }
      assert ExactThroughout(f, initial, stream, calls, g);
    }
  }
}
