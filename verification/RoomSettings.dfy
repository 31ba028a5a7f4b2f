/** Per-room encryption settings. Each setter reads the stored settings of a room,
    changes one field and saves them all. */
module RoomSettings {
  import opened Wrappers

  datatype Algorithm = OlmV1 | MegolmV1 | Other(name: string)

  /** `rotation` stands for the settings that the bindings do not show. */
  datatype Settings = Settings(algorithm: Algorithm, onlyTrusted: bool, rotation: Option<nat>)

  const Default: Settings := Settings(MegolmV1, false, None)

  type Rooms = map<string, Settings>

  function Get(rooms: Rooms, room: string): Settings {
    if room in rooms then rooms[room] else Default
  }

  datatype Change = SetAlgorithm(algorithm: Algorithm) | SetOnlyTrusted(onlyTrusted: bool)

  function Changed(s: Settings, c: Change): Settings {
    match c
    case SetAlgorithm(a) => s.(algorithm := a)
    case SetOnlyTrusted(b) => s.(onlyTrusted := b)
  }

  // --- One call at a time ------------------------------------------------------------------

  datatype Error = InvalidRoomId | UnsupportedAlgorithm
  datatype Result<T> = Ok(value: T) | Err(error: Error)

  datatype FfiSettings = FfiSettings(algorithm: Algorithm, onlyTrusted: bool)

  function ToFfi(s: Settings): Result<FfiSettings> {
    if s.algorithm.Other? then Err(UnsupportedAlgorithm) else Ok(FfiSettings(s.algorithm, s.onlyTrusted))
  }

  class OlmMachine {
    var rooms: Rooms

    constructor (rooms: Rooms)
      ensures this.rooms == rooms
    {
      this.rooms := rooms;
    }

    method GetRoomSettings(parses: string -> bool, room: string) returns (r: Result<Option<FfiSettings>>)
      ensures !parses(room) ==> r == Err(InvalidRoomId)
      ensures parses(room) && room !in rooms ==> r == Ok(None)
      ensures parses(room) && room in rooms ==>
                if rooms[room].algorithm.Other? then r == Err(UnsupportedAlgorithm)
                else r == Ok(Some(FfiSettings(rooms[room].algorithm, rooms[room].onlyTrusted)))
    {
      if !parses(room) {
        return Err(InvalidRoomId);
      }
      if room !in rooms {
        return Ok(None);
      }
      match ToFfi(rooms[room])
      case Ok(s) => r := Ok(Some(s));
      case Err(e) => r := Err(e);
    }

    method SetRoomAlgorithm(parses: string -> bool, room: string, algorithm: Algorithm) returns (r: Result<()>)
      requires !algorithm.Other?
      modifies this
      ensures r.Ok? <==> parses(room)
      ensures rooms == if r.Ok? then Apply(old(rooms), [(room, SetAlgorithm(algorithm))]) else old(rooms)
    {
      if !parses(room) {
        return Err(InvalidRoomId);
      }
      var settings := Get(rooms, room);
      settings := settings.(algorithm := algorithm);
      ApplyOne(rooms, room, SetAlgorithm(algorithm));
      rooms := rooms[room := settings];
      r := Ok(());
    }

    method SetRoomOnlyAllowTrustedDevices(parses: string -> bool, room: string, onlyTrusted: bool)
      returns (r: Result<()>)
      modifies this
      ensures r.Ok? <==> parses(room)
      ensures rooms == if r.Ok? then Apply(old(rooms), [(room, SetOnlyTrusted(onlyTrusted))]) else old(rooms)
    {
      if !parses(room) {
        return Err(InvalidRoomId);
      }
      var settings := Get(rooms, room);
      settings := settings.(onlyTrusted := onlyTrusted);
      ApplyOne(rooms, room, SetOnlyTrusted(onlyTrusted));
      rooms := rooms[room := settings];
      r := Ok(());
    }
  }

  type History = seq<(string, Change)>

  /** The rooms after a history of changes. */
  function Apply(rooms: Rooms, h: History): Rooms {
    if h == [] then rooms
    else
      var before, (room, c) := Apply(rooms, h[..|h| - 1]), h[|h| - 1];
      before[room := Changed(Get(before, room), c)]
  }

  lemma ApplyOne(rooms: Rooms, room: string, c: Change)
    ensures Apply(rooms, [(room, c)]) == rooms[room := Changed(Get(rooms, room), c)]
  {
    assert Apply(rooms, [(room, c)][..0]) == rooms;
  }

  /** A field is what was set last for that room … */
  lemma {:induction false} LastChangeWins(rooms: Rooms, h: History, room: string, i: nat)
    requires i < |h| && h[i].0 == room
    ensures h[i].1.SetAlgorithm? && (forall j | i < j < |h| :: !(h[j].0 == room && h[j].1.SetAlgorithm?)) ==>
              Get(Apply(rooms, h), room).algorithm == h[i].1.algorithm
    ensures h[i].1.SetOnlyTrusted? && (forall j | i < j < |h| :: !(h[j].0 == room && h[j].1.SetOnlyTrusted?)) ==>
              Get(Apply(rooms, h), room).onlyTrusted == h[i].1.onlyTrusted
  {
    if i < |h| - 1 {
      LastChangeWins(rooms, h[..|h| - 1], room, i);
    }
  }

  /** … or, if it was never set, what it was, by default or before. */
  lemma {:induction false} UnchangedStays(rooms: Rooms, h: History, room: string)
    ensures (forall j | 0 <= j < |h| :: !(h[j].0 == room && h[j].1.SetAlgorithm?)) ==>
              Get(Apply(rooms, h), room).algorithm == Get(rooms, room).algorithm
    ensures (forall j | 0 <= j < |h| :: !(h[j].0 == room && h[j].1.SetOnlyTrusted?)) ==>
              Get(Apply(rooms, h), room).onlyTrusted == Get(rooms, room).onlyTrusted
    ensures Get(Apply(rooms, h), room).rotation == Get(rooms, room).rotation
    ensures (forall j | 0 <= j < |h| :: h[j].0 != room) ==> (room in Apply(rooms, h) <==> room in rooms)
  {
    if h != [] {
      UnchangedStays(rooms, h[..|h| - 1], room);
    }
  }

  /** Changes of different fields, or of different rooms, commute. */
  lemma ChangesCommute(rooms: Rooms, a: (string, Change), b: (string, Change))
    requires a.0 != b.0 || a.1.SetAlgorithm? != b.1.SetAlgorithm?
    ensures Apply(rooms, [a, b]) == Apply(rooms, [b, a])
  {
    assert [a, b][..1] == [a] && [b, a][..1] == [b];
    ApplyOne(rooms, a.0, a.1);
    ApplyOne(rooms, b.0, b.1);
  }

  // --- Calls that interleave -----------------------------------------------------------------

  datatype Call = Call(room: string, change: Change, read: Settings)

  /** `calls` have read the settings but not saved them yet; `done` is what was saved. */
  datatype State = State(rooms: Rooms, calls: map<nat, Call>, done: History)

  datatype Step = Read(call: nat, room: string, change: Change) | Save(call: nat)

  predicate Enabled(s: State, step: Step) {
    match step
    case Read(call, _, _) => call !in s.calls
    case Save(call) => call in s.calls
  }

  function Do(s: State, step: Step): State
    requires Enabled(s, step)
  {
    match step
    case Read(call, room, change) => s.(calls := s.calls[call := Call(room, change, Get(s.rooms, room))])
    case Save(call) =>
      var c := s.calls[call];
      State(s.rooms[c.room := Changed(c.read, c.change)], s.calls - {call}, s.done + [(c.room, c.change)])
  }

  ghost predicate StepAt(steps: seq<Step>, states: seq<State>, i: nat) {
    i < |steps| < |states| && Enabled(states[i], steps[i]) && states[i + 1] == Do(states[i], steps[i])
  }

  ghost predicate IsRun(rooms: Rooms, steps: seq<Step>, states: seq<State>) {
    |states| == |steps| + 1 && states[0] == State(rooms, map[], []) && forall i | 0 <= i < |steps| ::
        StepAt(steps, states, i)
  }

  /** Each field is as at the start, or as some call saved it. */
  ghost predicate Sourced(rooms: Rooms, done: History, room: string, s: Settings) {
    && (s.algorithm == Get(rooms, room).algorithm || (room, SetAlgorithm(s.algorithm)) in done)
    && (s.onlyTrusted == Get(rooms, room).onlyTrusted || (room, SetOnlyTrusted(s.onlyTrusted)) in done)
    && s.rotation == Get(rooms, room).rotation
  }

  /** However calls interleave, no value appears that nobody wrote. */
  lemma {:induction false} NothingInvented(rooms: Rooms, steps: seq<Step>, states: seq<State>, j: nat)
    requires IsRun(rooms, steps, states) && j <= |steps|
    ensures forall room :: Sourced(rooms, states[j].done, room, Get(states[j].rooms, room))
    ensures forall c | c in states[j].calls ::
            Sourced(rooms, states[j].done, states[j].calls[c].room, states[j].calls[c].read)
  {
    if j > 0 {
      NothingInvented(rooms, steps, states, j - 1);
      assert StepAt(steps, states, j - 1);
      var s, s' := states[j - 1], states[j];
      assert forall x | x in s.done :: x in s'.done;
      if steps[j - 1].Save? {
        var c := s.calls[steps[j - 1].call];
        assert Sourced(rooms, s.done, c.room, c.read) && (c.room, c.change) == s'.done[|s.done|];
        forall room ensures Sourced(rooms, s'.done, room, Get(s'.rooms, room)) {
          assert Sourced(rooms, s.done, room, Get(s.rooms, room));
        }
      }
    }
  }

  /** A call that saves puts the other field back to what it had read. */
  lemma {:induction false} ReadIsOld(rooms: Rooms, steps: seq<Step>, states: seq<State>, i: nat, k: nat)
    requires IsRun(rooms, steps, states) && i < k < |steps| && steps[i].Read? && steps[k] == Save(steps[i].call)
    requires forall j | i < j < k :: steps[j].call != steps[i].call
    ensures steps[i].call in states[k].calls
    ensures states[k].calls[steps[i].call] == Call(steps[i].room, steps[i].change, Get(states[i].rooms, steps[i].room))
    ensures Get(states[k + 1].rooms, steps[i].room) == Changed(Get(states[i].rooms, steps[i].room), steps[i].change)
  {
    StillRead(rooms, steps, states, i, k);
    assert StepAt(steps, states, k);
  }

  lemma {:induction false} StillRead(rooms: Rooms, steps: seq<Step>, states: seq<State>, i: nat, k: nat)
    requires IsRun(rooms, steps, states) && i < k <= |steps| && steps[i].Read?
    requires forall j | i < j < k :: steps[j].call != steps[i].call
    ensures steps[i].call in states[k].calls
    ensures states[k].calls[steps[i].call] == Call(steps[i].room, steps[i].change, Get(states[i].rooms, steps[i].room))
  {
    assert StepAt(steps, states, k - 1);
    if i < k - 1 {
      StillRead(rooms, steps, states, i, k - 1);
    }
  }

  /** So a save undoes a change of the other field if and only if that field has changed
      since the read. */
  lemma LostUpdateIff(rooms: Rooms, steps: seq<Step>, states: seq<State>, i: nat, k: nat)
    requires IsRun(rooms, steps, states) && i < k < |steps| && steps[i].Read? && steps[k] == Save(steps[i].call)
    requires forall j | i < j < k :: steps[j].call != steps[i].call
    ensures var room := steps[i].room;
            var (at, before, after) := (Get(states[i].rooms, room), Get(states[k].rooms, room),
                                        Get(states[k + 1].rooms, room));
            if steps[i].change.SetAlgorithm?
            then after.onlyTrusted != before.onlyTrusted <==> before.onlyTrusted != at.onlyTrusted
            else after.algorithm != before.algorithm <==> before.algorithm != at.algorithm
  {
    ReadIsOld(rooms, steps, states, i, k);
  }

  // --- When a run is sequential ------------------------------------------------------------

  /** The other field, as a change that sets it. */
  function OtherField(s: Settings, c: Change): Change {
    if c.SetAlgorithm? then SetOnlyTrusted(s.onlyTrusted) else SetAlgorithm(s.algorithm)
  }

  predicate ChangesOther(x: (string, Change), room: string, c: Change) {
    x.0 == room && x.1.SetAlgorithm? != c.SetAlgorithm?
  }

  predicate IsLastOther(h: History, m: nat, room: string, c: Change) {
    m < |h| && ChangesOther(h[m], room, c) && forall j | m < j < |h| :: !ChangesOther(h[j], room, c)
  }

  /** A call that read when `n` changes of `h` were saved misses none of the later ones: the
      last of them to the other field, if any, set it to what the call had read. */
  predicate MissesNothing(rooms: Rooms, h: History, n: nat, room: string, c: Change)
    requires n <= |h|
  {
    forall m | n <= m < |h| && IsLastOther(h, m, room, c) :: h[m].1 == OtherField(Get(Apply(rooms, h[..n]), room), c)
  }

  lemma {:induction false} ApplyConcat(rooms: Rooms, a: History, b: History)
    ensures Apply(rooms, a + b) == Apply(Apply(rooms, a), b)
  {
    if b == [] {
      assert a + b == a;
    } else {
      assert (a + b)[..|a + b| - 1] == a + b[..|b| - 1];
      ApplyConcat(rooms, a, b[..|b| - 1]);
    }
  }

  lemma {:induction false} LastOther(h: History, n: nat, room: string, c: Change) returns (m: nat)
    requires exists j :: n <= j < |h| && ChangesOther(h[j], room, c)
    ensures n <= m && IsLastOther(h, m, room, c)
  {
    m := |h| - 1;
    while !ChangesOther(h[m], room, c)
      invariant n <= m < |h| && forall j | m < j < |h| :: !ChangesOther(h[j], room, c)
      decreases m
    {
      m := m - 1;
    }
  }

  lemma OtherIsLast(rooms: Rooms, h: History, m: nat, room: string, c: Change)
    requires IsLastOther(h, m, room, c)
    ensures OtherField(Get(Apply(rooms, h), room), c) == h[m].1
  {
    LastChangeWins(rooms, h, room, m);
    assert forall j | m < j < |h| :: !ChangesOther(h[j], room, c);
  }

  lemma OtherStays(rooms: Rooms, h: History, n: nat, room: string, c: Change)
    requires n <= |h| && forall j | n <= j < |h| :: !ChangesOther(h[j], room, c)
    ensures OtherField(Get(Apply(rooms, h), room), c) == OtherField(Get(Apply(rooms, h[..n]), room), c)
  {
    var rest := h[n..];
    assert h[..n] + rest == h;
    ApplyConcat(rooms, h[..n], rest);
    forall j | 0 <= j < |rest| ensures !ChangesOther(rest[j], room, c) { assert rest[j] == h[n + j]; }
    UnchangedStays(Apply(rooms, h[..n]), rest, room);
  }

  lemma MissesNothingIff(rooms: Rooms, h: History, n: nat, room: string, c: Change)
    requires n <= |h|
    ensures MissesNothing(rooms, h, n, room, c) <==>
            OtherField(Get(Apply(rooms, h), room), c) == OtherField(Get(Apply(rooms, h[..n]), room), c)
  {
    hide Apply, Get, OtherField, ChangesOther;
    if exists j :: n <= j < |h| && ChangesOther(h[j], room, c) {
      var m := LastOther(h, n, room, c);
      OtherIsLast(rooms, h, m, room, c);
      forall k | n <= k < |h| && IsLastOther(h, k, room, c) ensures k == m {
      }
    } else {
      OtherStays(rooms, h, n, room, c);
    }
  }

  /** The call that reads at `i` saves at `k`. */
  ghost predicate IsCall(steps: seq<Step>, i: nat, k: nat) {
    && i < k < |steps| && steps[i].Read? && steps[k] == Save(steps[i].call)
    && forall j | i < j < k :: steps[j].call != steps[i].call
  }

  lemma {:induction false} DoneGrows(rooms: Rooms, steps: seq<Step>, states: seq<State>, i: nat, k: nat)
    requires IsRun(rooms, steps, states) && i <= k <= |steps|
    ensures states[i].done <= states[k].done
  {
    if i < k {
      DoneGrows(rooms, steps, states, i, k - 1);
      assert StepAt(steps, states, k - 1);
    }
  }

  lemma {:induction false} HasRead(rooms: Rooms, steps: seq<Step>, states: seq<State>, call: nat, k: nat)
    returns (i: nat)
    requires IsRun(rooms, steps, states) && k <= |steps| && call in states[k].calls
    ensures i < k && steps[i].Read? && steps[i].call == call && forall j | i < j < k :: steps[j].call != call
  {
    assert StepAt(steps, states, k - 1);
    if steps[k - 1].Read? && steps[k - 1].call == call {
      i := k - 1;
    } else {
      i := HasRead(rooms, steps, states, call, k - 1);
    }
  }

  /** The call at `i` and `k` misses nothing that was saved in between. */
  ghost predicate SavesWell(rooms: Rooms, steps: seq<Step>, states: seq<State>, i: nat, k: nat)
    requires IsRun(rooms, steps, states)
  {
    IsCall(steps, i, k) ==>
      && |states[i].done| <= |states[k].done|
      && MissesNothing(rooms, states[k].done, |states[i].done|, steps[i].room, steps[i].change)
  }

  ghost predicate IsSequential(rooms: Rooms, s: State) {
    s.rooms == Apply(rooms, s.done)
  }

  lemma SameAfterChange(rooms: Rooms, a: History, h: History, room: string, c: Change)
    ensures Changed(Get(Apply(rooms, a), room), c) == Changed(Get(Apply(rooms, h), room), c) <==>
            OtherField(Get(Apply(rooms, a), room), c) == OtherField(Get(Apply(rooms, h), room), c)
  {
    UnchangedStays(rooms, a, room);
    UnchangedStays(rooms, h, room);
  }

  /** As long as the run is sequential, a save keeps it so if and only if the call misses
      nothing. */
  lemma SaveIsSequentialIff(rooms: Rooms, steps: seq<Step>, states: seq<State>, i: nat, k: nat)
    requires IsRun(rooms, steps, states) && IsCall(steps, i, k)
    requires IsSequential(rooms, states[i]) && IsSequential(rooms, states[k])
    ensures IsSequential(rooms, states[k + 1]) <==> SavesWell(rooms, steps, states, i, k)
  {
    hide Apply, Get, Changed, MissesNothing, OtherField;
    StillRead(rooms, steps, states, i, k);
    assert StepAt(steps, states, k);
    DoneGrows(rooms, steps, states, i, k);
    var h, n, room, c := states[k].done, |states[i].done|, steps[i].room, steps[i].change;
    assert h[..n] == states[i].done;
    SameAfterChange(rooms, h[..n], h, room, c);
    MissesNothingIff(rooms, h, n, room, c);
    AppliedMore(rooms, h, room, c);
    var x, y := Changed(Get(Apply(rooms, h[..n]), room), c), Changed(Get(Apply(rooms, h), room), c);
    assert states[k + 1].rooms == Apply(rooms, h)[room := x] && states[k + 1].done == h + [(room, c)];
    assert Apply(rooms, h)[room := x] == Apply(rooms, h)[room := y] <==> x == y by {
      assert Apply(rooms, h)[room := x][room] == x && Apply(rooms, h)[room := y][room] == y;
    }
  }

  lemma AppliedMore(rooms: Rooms, h: History, room: string, c: Change)
    ensures Apply(rooms, h + [(room, c)]) == Apply(rooms, h)[room := Changed(Get(Apply(rooms, h), room), c)]
  {
    assert (h + [(room, c)])[..|h|] == h;
  }

  /** A run gives at every point the settings of its saves one after the other, if and only
      if no call misses a change that was saved between its read and its save. */
  lemma {:induction false} SequentialIff(rooms: Rooms, steps: seq<Step>, states: seq<State>, j: nat)
    requires IsRun(rooms, steps, states) && j <= |steps|
    ensures (forall k | 0 <= k <= j :: IsSequential(rooms, states[k])) <==>
            (forall i, k | 0 <= i < k < j :: SavesWell(rooms, steps, states, i, k))
  {
    hide SavesWell, IsSequential;
    if j > 0 {
      SequentialIff(rooms, steps, states, j - 1);
      var last := j - 1;
      assert StepAt(steps, states, last);
      if forall k | 0 <= k <= last :: IsSequential(rooms, states[k]) {
        if steps[last].Save? {
          var i := HasRead(rooms, steps, states, steps[last].call, last);
          SaveIsSequentialIff(rooms, steps, states, i, last);
          forall i' | 0 <= i' < last && i' != i ensures SavesWell(rooms, steps, states, i', last) {
            OnlyRead(rooms, steps, states, i, i', last);
          }
        } else {
          forall i | 0 <= i < last ensures SavesWell(rooms, steps, states, i, last) {
            OnlySavesSave(rooms, steps, states, i, last);
          }
          ReadIsSequential(rooms, states[last], states[j], steps[last]);
        }
      }
    } else {
      assert IsSequential(rooms, states[0]) by { StartIsSequential(rooms); }
    }
  }

  lemma OnlyRead(rooms: Rooms, steps: seq<Step>, states: seq<State>, i: nat, i': nat, k: nat)
    requires IsRun(rooms, steps, states) && IsCall(steps, i, k) && i' < k && i' != i
    ensures SavesWell(rooms, steps, states, i', k)
  {
    if i' < i { assert steps[i].call == steps[k].call; } else { assert steps[i'].call != steps[i].call; }
  }

  lemma OnlySavesSave(rooms: Rooms, steps: seq<Step>, states: seq<State>, i: nat, k: nat)
    requires IsRun(rooms, steps, states) && k < |steps| && !steps[k].Save?
    ensures SavesWell(rooms, steps, states, i, k)
  {
  }

  lemma ReadIsSequential(rooms: Rooms, s: State, s': State, step: Step)
    requires IsSequential(rooms, s) && step.Read? && Enabled(s, step) && s' == Do(s, step)
    ensures IsSequential(rooms, s')
  {
  }

  lemma StartIsSequential(rooms: Rooms)
    ensures IsSequential(rooms, State(rooms, map[], []))
  {
  }

  /** No call starts while another for the same room is in progress. */
  ghost predicate OneByOne(rooms: Rooms, steps: seq<Step>, states: seq<State>) {
    && IsRun(rooms, steps, states)
    && forall i, c | 0 <= i < |steps| && steps[i].Read? && c in states[i].calls ::
        states[i].calls[c].room != steps[i].room
  }

  /** Then the settings are those of a sequential run, whatever happens to other rooms. */
  lemma {:induction false} OneByOneIsSequential(rooms: Rooms, steps: seq<Step>, states: seq<State>, j: nat)
    requires OneByOne(rooms, steps, states) && j <= |steps|
    ensures states[j].rooms == Apply(rooms, states[j].done)
    ensures forall c | c in states[j].calls :: states[j].calls[c].read == Get(states[j].rooms, states[j].calls[c].room)
    ensures forall c, d | c in states[j].calls && d in states[j].calls && c != d ::
            states[j].calls[c].room != states[j].calls[d].room
  {
    if j > 0 {
      OneByOneIsSequential(rooms, steps, states, j - 1);
      assert StepAt(steps, states, j - 1);
      var s := states[j - 1];
      if steps[j - 1].Save? {
        assert states[j].done[..|s.done|] == s.done;
      }
    }
  }

  /** Two calls for one room that overlap: the algorithm that was set is lost. */
  lemma OverlapLosesUpdate() returns (steps: seq<Step>, states: seq<State>)
    ensures IsRun(map[], steps, states) && |steps| == 4
    ensures states[4].done == [("room", SetAlgorithm(OlmV1)), ("room", SetOnlyTrusted(true))]
    ensures states[4].rooms == map["room" := Settings(MegolmV1, true, None)]
  {
    var a, b := SetAlgorithm(OlmV1), SetOnlyTrusted(true);
    steps := [Read(1, "room", a), Read(2, "room", b), Save(1), Save(2)];
    var s0 := State(map[], map[], []);
    var s1 := Do(s0, steps[0]);
    var s2 := Do(s1, steps[1]);
    var s3 := Do(s2, steps[2]);
    var s4 := Do(s3, steps[3]);
    states := [s0, s1, s2, s3, s4];
    assert forall i | 0 <= i < 4 :: StepAt(steps, states, i);
  }
}
