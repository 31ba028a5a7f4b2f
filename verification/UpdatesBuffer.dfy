/** `UpdatesInner`: one buffer of updates, read by several readers at their own pace
    and shrunk as soon as everyone has read its beginning. */
module UpdatesBuffer {

  /** What every reader still has to read. */
  type Queues<U> = map<nat, seq<U>>

  function Pushed<U>(q: Queues<U>, u: U): Queues<U> {
    map t | t in q :: q[t] + [u]
  }

  function Emptied<U>(q: Queues<U>): Queues<U> {
    map t | t in q :: []
  }

  class UpdatesInner<U> {
    var updates: seq<U>
    var lastIndexPerReader: map<nat, nat>
    var lastToken: nat

    ghost predicate Valid()
      reads this
    {
      && 0 in lastIndexPerReader
      && forall t | t in lastIndexPerReader :: lastIndexPerReader[t] <= |updates| && t <= lastToken
    }

    ghost function Queues(): Queues<U>
      requires Valid()
      reads this
    {
      map t | t in lastIndexPerReader :: updates[lastIndexPerReader[t]..]
    }

    constructor ()
      ensures Valid() && Queues() == map[0 := []]
    {
      updates, lastIndexPerReader, lastToken := [], map[0 := 0], 0;
    }

    method Push(u: U)
      requires Valid()
      modifies this
      ensures Valid() && Queues() == Pushed(old(Queues()), u)
      ensures lastToken == old(lastToken)
    {
      updates := updates + [u];
      ghost var q := old(Queues());
      forall t | t in q ensures Queues()[t] == q[t] + [u] {
        assert updates[lastIndexPerReader[t]..] == old(updates)[lastIndexPerReader[t]..] + [u];
      }
    }

    /** Nobody will read what has been pushed so far. */
    method ClearPending()
      requires Valid()
      modifies this
      ensures Valid() && Queues() == Emptied(old(Queues()))
      ensures lastToken == old(lastToken)
    {
      updates := [];
      lastIndexPerReader := map t | t in lastIndexPerReader :: 0;
    }

    /** A new reader starts with everything that is still buffered. */
    method NewReaderToken() returns (token: nat)
      requires Valid()
      modifies this
      ensures Valid() && token !in old(lastIndexPerReader) && token == lastToken == old(lastToken) + 1
      ensures Queues() == old(Queues())[token := updates] && updates == old(updates)
    {
      lastToken := lastToken + 1;
      token := lastToken;
      lastIndexPerReader := lastIndexPerReader[token := 0];
      assert updates[0..] == updates;
    }

    /** A subscriber that goes away no longer holds updates back. */
    method DropReader(token: nat)
      requires Valid() && token != 0
      modifies this
      ensures Valid() && Queues() == old(Queues()) - {token}
    {
      lastIndexPerReader := lastIndexPerReader - {token};
    }

    /** Every reader gets each update once, in order, and nobody else's queue moves. */
    method TakeWithToken(token: nat) returns (slice: seq<U>)
      requires Valid() && token in lastIndexPerReader
      modifies this
      ensures Valid() && slice == old(Queues())[token] && Queues() == old(Queues())[token := []]
      ensures lastToken == old(lastToken)
    {
      GarbageCollect();
      slice := updates[lastIndexPerReader[token]..];
      lastIndexPerReader := lastIndexPerReader[token := |updates|];
      assert updates[|updates|..] == [];
    }

    /** Drop what everyone has read, and only that: some reader is now at the
        beginning of the buffer, and all queues are as before. */
    method GarbageCollect()
      requires Valid()
      modifies this
      ensures Valid() && Queues() == old(Queues())
      ensures lastIndexPerReader.Keys == old(lastIndexPerReader).Keys && lastToken == old(lastToken)
      ensures exists t :: t in lastIndexPerReader && lastIndexPerReader[t] == 0
    {
      var min := Smallest();
      if min > 0 {
        Shrink(min);
      }
    }

    /** The smallest index of any reader. */
    method Smallest() returns (min: nat)
      requires Valid()
      ensures exists t :: t in lastIndexPerReader && lastIndexPerReader[t] == min
      ensures forall t | t in lastIndexPerReader :: min <= lastIndexPerReader[t]
    {
      min := lastIndexPerReader[0];
      ghost var at := 0;
      var rest := lastIndexPerReader.Keys;
      while rest != {}
        invariant rest <= lastIndexPerReader.Keys
        invariant at in lastIndexPerReader && lastIndexPerReader[at] == min
        invariant forall t | t in lastIndexPerReader && t !in rest :: min <= lastIndexPerReader[t]
        decreases |rest|
      {
        var t :| t in rest;
        if lastIndexPerReader[t] < min {
          min, at := lastIndexPerReader[t], t;
        }
        rest := rest - {t};
      }
    }

    /** Forget the updates that everybody has read. */
    method Shrink(min: nat)
      requires Valid() && forall t | t in lastIndexPerReader :: min <= lastIndexPerReader[t]
      modifies this
      ensures Valid() && Queues() == old(Queues()) && lastToken == old(lastToken)
      ensures lastIndexPerReader == map t | t in old(lastIndexPerReader) :: old(lastIndexPerReader)[t] - min
    {
      var before, indices := updates, lastIndexPerReader;
      updates := updates[min..];
      lastIndexPerReader := map t | t in indices :: indices[t] - min;
      forall t | t in indices ensures Queues()[t] == before[indices[t]..] {
        assert before[min..][indices[t] - min..] == before[indices[t]..];
      }
    }

    method IsReaderUpToDate(token: nat) returns (yes: bool)
      requires Valid() && token in lastIndexPerReader
      ensures yes <==> Queues()[token] == []
    {
      yes := lastIndexPerReader[token] == |updates|;
    }
  }
}
