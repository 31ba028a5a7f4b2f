/** The diffs of an observable vector and how they are applied. */
module VectorDiffs {
  import opened Wrappers

  datatype VectorDiff<T> =
    | Append(values: seq<T>)
    | ClearAll
    | PushFront(value: T)
    | PushBack(value: T)
    | PopFront
    | PopBack
    | Insert(index: nat, value: T)
    | Set(index: nat, value: T)
    | Remove(index: nat)
    | Truncate(length: nat)
    | Reset(values: seq<T>)

  /** `VectorDiff::apply`; `None` where it panics. */
  function ApplyDiff<T>(v: seq<T>, d: VectorDiff<T>): Option<seq<T>> {
    match d
    case Append(values) => Some(v + values)
    case ClearAll => Some([])
    case PushFront(value) => Some([value] + v)
    case PushBack(value) => Some(v + [value])
    case PopFront => Some(if v == [] then [] else v[1..])
    case PopBack => Some(if v == [] then [] else v[..|v| - 1])
    case Insert(index, value) => if index <= |v| then Some(v[..index] + [value] + v[index..]) else None
    case Set(index, value) => if index < |v| then Some(v[index := value]) else None
    case Remove(index) => if index < |v| then Some(v[..index] + v[index + 1..]) else None
    case Truncate(length) => if length <= |v| then Some(v[..length]) else None
    case Reset(values) => Some(values)
  }

  function ApplyDiffs<T>(v: seq<T>, ds: seq<VectorDiff<T>>): Option<seq<T>>
    decreases |ds|
  {
    if ds == [] then Some(v)
    else match ApplyDiff(v, ds[0])
      case None => None
      case Some(next) => ApplyDiffs(next, ds[1..])
  }

  lemma ApplyOne<T>(v: seq<T>, d: VectorDiff<T>)
    ensures ApplyDiffs(v, [d]) == ApplyDiff(v, d)
  {
    assert [d][1..] == [];
  }

  lemma {:induction false} ApplyDiffsConcat<T>(v: seq<T>, a: seq<VectorDiff<T>>, b: seq<VectorDiff<T>>)
    requires ApplyDiffs(v, a).Some?
    ensures ApplyDiffs(v, a + b) == ApplyDiffs(ApplyDiffs(v, a).value, b)
    decreases |a|
  {
    if a == [] {
      assert a + b == b;
    } else {
      assert (a + b)[1..] == a[1..] + b;
      ApplyDiffsConcat(ApplyDiff(v, a[0]).value, a[1..], b);
    }
  }
}
