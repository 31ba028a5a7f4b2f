/** An iterator that hands out a vector chunk by chunk to concurrent callers. A call
    looks at the items under a read lock, then takes from them under a write lock;
    other calls may come in between. */
module ChunkIterator {
  import opened Wrappers

  function Min(a: nat, b: nat): nat {
    if a <= b then a else b
  }

  function Length<T>(items: seq<T>): Option<nat> {
    if |items| < 0x1_0000_0000 then Some(|items|) else None
  }

  class ChunkIterator<T> {
    var items: seq<T>

    constructor (items: seq<T>)
      ensures this.items == items
    {
      this.items := items;
    }

    /** `None` is the panic of a length that is no `u32`. */
    method Len() returns (r: Option<nat>)
      ensures r == Length(items)
    {
      r := Length(items);
    }

    /** The section under the write lock. */
    method Split(chunkSize: nat) returns (head: seq<T>)
      modifies this
      ensures head + items == old(items) && |head| == Min(chunkSize, |old(items)|)
    {
      var size := Min(|items|, chunkSize);
      var tail := items[size..];
      items := items[..size];
      tail, items := items, tail;
      head := tail;
    }

    /** A call that nothing interrupts. */
    method Next(chunkSize: nat) returns (r: Option<seq<T>>)
      modifies this
      ensures r.None? <==> old(items) == []
      ensures r.None? ==> items == old(items)
      ensures r.Some? ==> r.value + items == old(items) && |r.value| == Min(chunkSize, |old(items)|)
    {
      if items == [] {
        r := None;
      } else if chunkSize == 0 {
        r := Some([]);
      } else {
        var head := Split(chunkSize);
        r := Some(head);
      }
    }
  }

  // --- Calls that interrupt each other ---------------------------------------------------

  datatype Step = Check(caller: nat, chunkSize: nat) | Take(caller: nat)

  /** `waiting` are the callers between their two sections; `chunks` is what has been
      handed out under the write lock, in order. */
  datatype State<T> = State(items: seq<T>, waiting: map<nat, nat>, chunks: seq<seq<T>>)

  function Start<T>(items: seq<T>): State<T> {
    State(items, map[], [])
  }

  predicate Enabled<T>(s: State<T>, step: Step) {
    match step
    case Check(caller, _) => caller !in s.waiting
    case Take(caller) => caller in s.waiting
  }

  function Do<T>(s: State<T>, step: Step): State<T>
    requires Enabled(s, step)
  {
    match step
    case Check(caller, chunkSize) =>
      if s.items == [] || chunkSize == 0 then s else s.(waiting := s.waiting[caller := chunkSize])
    case Take(caller) =>
      var size := Min(|s.items|, s.waiting[caller]);
      State(s.items[size..], s.waiting - {caller}, s.chunks + [s.items[..size]])
  }

  ghost predicate StepAt<T>(steps: seq<Step>, states: seq<State<T>>, i: nat) {
    i < |steps| < |states| && Enabled(states[i], steps[i]) && states[i + 1] == Do(states[i], steps[i])
  }

  /** The states of a run, one more than it has steps. */
  ghost predicate IsRun<T>(items: seq<T>, steps: seq<Step>, states: seq<State<T>>) {
    && |states| == |steps| + 1 && states[0] == Start(items)
    && forall i | 0 <= i < |steps| :: StepAt(steps, states, i)
  }

  function Concat<T>(chunks: seq<seq<T>>): seq<T> {
    if chunks == [] then [] else Concat(chunks[..|chunks| - 1]) + chunks[|chunks| - 1]
  }

  /** However the calls interleave, nothing is lost, repeated or reordered. */
  lemma {:induction false} NothingIsLost<T>(items: seq<T>, steps: seq<Step>, states: seq<State<T>>, i: nat)
    requires IsRun(items, steps, states) && i <= |steps|
    ensures Concat(states[i].chunks) + states[i].items == items
    ensures forall caller | caller in states[i].waiting :: states[i].waiting[caller] > 0
  {
    if i > 0 {
      NothingIsLost(items, steps, states, i - 1);
      var s, step := states[i - 1], steps[i - 1];
      assert StepAt(steps, states, i - 1);
      if step.Take? {
        var size := Min(|s.items|, s.waiting[step.caller]);
        assert states[i].chunks[..|s.chunks|] == s.chunks;
        assert s.items == s.items[..size] + s.items[size..];
      }
    }
  }

  function Total<T>(chunks: seq<seq<T>>): nat {
    if chunks == [] then 0 else Total(chunks[..|chunks| - 1]) + |chunks[|chunks| - 1]|
  }

  lemma {:induction false} HandedOut<T>(items: seq<T>, steps: seq<Step>, states: seq<State<T>>, i: nat, j: nat)
    requires IsRun(items, steps, states) && i <= j <= |steps|
    ensures states[i].chunks <= states[j].chunks
    ensures |states[i].items| == |states[j].items| + Total(states[j].chunks[|states[i].chunks|..])
  {
    if i < j {
      HandedOut(items, steps, states, i, j - 1);
      assert StepAt(steps, states, j - 1);
      var before, now, first := states[j - 1].chunks, states[j].chunks, |states[i].chunks|;
      if steps[j - 1].Take? { assert now[first..][..|now| - 1 - first] == before[first..]; }
    }
  }

  /** The length counts down by exactly what is handed out meanwhile, to whomever. So it
      never panics once it did not, and it panics exactly as long as too much is left of
      the original list. */
  lemma LengthCountsDown<T>(items: seq<T>, steps: seq<Step>, states: seq<State<T>>, i: nat, j: nat)
    requires IsRun(items, steps, states) && i <= j <= |steps|
    ensures states[i].chunks <= states[j].chunks
    ensures Length(states[i].items).Some? ==>
              && Length(states[j].items).Some?
              && Length(states[j].items).value ==
                  Length(states[i].items).value - Total(states[j].chunks[|states[i].chunks|..])
    ensures Length(states[j].items).None? <==> |items| >= 0x1_0000_0000 + Total(states[j].chunks)
  {
    HandedOut(items, steps, states, i, j);
    HandedOut(items, steps, states, 0, j);
    assert states[j].chunks[0..] == states[j].chunks;
  }

  /** The step that takes the last items. */
  ghost predicate Drains<T>(steps: seq<Step>, states: seq<State<T>>, k: nat) {
    k < |steps| < |states| && steps[k].Take? && states[k].items != [] && states[k + 1].items == []
  }

  /** The caller started its call at `i` and has not ended it at `j`. */
  ghost predicate Waits<T>(steps: seq<Step>, states: seq<State<T>>, caller: nat, i: nat, j: nat) {
    && i < j < |states| == |steps| + 1 && steps[i].Check? && steps[i].caller == caller && states[i].items != []
    && forall k | i < k < j :: steps[k].caller != caller
  }

  /** A call that asks for something, saw items and gets none was overtaken: another
      caller took the last ones while it waited. */
  lemma {:induction false} EmptyChunkMeansOvertaken<T>(items: seq<T>, steps: seq<Step>, states: seq<State<T>>,
                                                       caller: nat, i: nat, j: nat)
    returns (k: nat)
    requires IsRun(items, steps, states) && Waits(steps, states, caller, i, j) && states[j].items == []
    ensures i < k < j && Drains(steps, states, k) && steps[k].caller != caller
    decreases j - i
  {
    assert StepAt(steps, states, j - 1);
    if states[j - 1].items == [] {
      k := EmptyChunkMeansOvertaken(items, steps, states, caller, i, j - 1);
    } else {
      k := j - 1;
    }
  }

  /** And it gets none exactly in that case. */
  lemma ChunkIsEmptyIff<T>(items: seq<T>, steps: seq<Step>, states: seq<State<T>>, caller: nat, i: nat, j: nat)
    requires IsRun(items, steps, states) && Waits(steps, states, caller, i, j)
    requires j < |steps| && steps[j] == Take(caller)
    ensures |states[j + 1].chunks| == |states[j].chunks| + 1
    ensures states[j + 1].chunks[|states[j].chunks|] == [] <==> exists k :: i < k < j && Drains(steps, states, k)
  {
    NothingIsLost(items, steps, states, j);
    assert StepAt(steps, states, j);
    if states[j].items == [] {
      var k := EmptyChunkMeansOvertaken(items, steps, states, caller, i, j);
    } else {
      forall k | i < k < j ensures !Drains(steps, states, k) { StaysEmpty(items, steps, states, k + 1, j); }
    }
  }

  /** Whoever asks for something and sees items will take some, whatever the others do. */
  lemma {:induction false} CallGoesOn<T>(items: seq<T>, steps: seq<Step>, states: seq<State<T>>,
                                         caller: nat, i: nat, j: nat)
    requires IsRun(items, steps, states) && Waits(steps, states, caller, i, j)
    ensures caller in states[j].waiting <==> steps[i].chunkSize > 0
    ensures caller in states[j].waiting ==> states[j].waiting[caller] == steps[i].chunkSize
    decreases j - i
  {
    assert StepAt(steps, states, j - 1);
    if i + 1 < j { CallGoesOn(items, steps, states, caller, i, j - 1); }
  }

  /** And gets the first of those left by then, as many as asked for or all. */
  lemma CallGetsItsChunk<T>(items: seq<T>, steps: seq<Step>, states: seq<State<T>>, caller: nat, i: nat, j: nat)
    requires IsRun(items, steps, states) && Waits(steps, states, caller, i, j)
    requires j < |steps| && steps[j] == Take(caller)
    ensures |states[j + 1].chunks| == |states[j].chunks| + 1
    ensures var chunk := states[j + 1].chunks[|states[j].chunks|];
            && chunk <= states[j].items && |chunk| <= steps[i].chunkSize
            && (|chunk| == steps[i].chunkSize || chunk == states[j].items)
  {
    CallGoesOn(items, steps, states, caller, i, j);
    assert StepAt(steps, states, j);
  }

  lemma {:induction false} StaysEmpty<T>(items: seq<T>, steps: seq<Step>, states: seq<State<T>>, i: nat, j: nat)
    requires IsRun(items, steps, states) && i <= j <= |steps|
    ensures states[i].items == [] ==> states[j].items == []
  {
    if i < j {
      StaysEmpty(items, steps, states, i, j - 1);
      assert StepAt(steps, states, j - 1);
    }
  }
}
