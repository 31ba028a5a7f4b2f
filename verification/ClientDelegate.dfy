/** Setting the client's delegate, and reporting session changes to it. Calls check the
    slot, start a loop that receives session changes, and only then write the slot;
    everything else may happen in between. */
module ClientDelegate {
  import opened Wrappers

  type Delegate = nat
  type Call = nat

  datatype Change = UnknownToken(softLogout: bool) | TokensRefreshed
  datatype Phase = Checked(delegate: Delegate) | Subscribed(delegate: Delegate)
  datatype Reply = AlreadySet | Ok | OkWithTask
  datatype Callback = AuthError(delegate: Delegate, softLogout: bool)

  /** `calls` are the calls in progress, `loops` the loops they started, each with the
      changes it has not received yet; `callbacks` are the reports that have been handed over
      to be delivered. */
  datatype State = State(slot: Option<Delegate>, calls: map<Call, Phase>, replies: map<Call, Reply>,
                         loops: map<Call, seq<Change>>, callbacks: seq<Callback>, dropped: seq<Change>)

  const Start: State := State(None, map[], map[], map[], [], [])

  datatype Step =
    | Begin(call: Call, delegate: Option<Delegate>)
    | Subscribe(call: Call)
    | Write(call: Call)
    | Broadcast(change: Change)
    | Process(call: Call)
    | Lag(call: Call)
    | Abort(call: Call)

  predicate Enabled(s: State, step: Step) {
    match step
    case Begin(call, _) => call !in s.calls && call !in s.replies
    case Subscribe(call) => call in s.calls && s.calls[call].Checked?
    case Write(call) => call in s.calls && s.calls[call].Subscribed?
    case Broadcast(_) => true
    case Process(call) => call in s.loops && s.loops[call] != []
    case Lag(call) => call in s.loops && s.loops[call] != []
    case Abort(call) => call in s.loops
  }

  function Do(s: State, step: Step): State
    requires Enabled(s, step)
  {
    match step
    case Begin(call, delegate) =>
      if s.slot.Some? then s.(replies := s.replies[call := AlreadySet])
      else if delegate.None? then s.(replies := s.replies[call := Ok])
      else s.(calls := s.calls[call := Checked(delegate.value)])
    case Subscribe(call) =>
      s.(calls := s.calls[call := Subscribed(s.calls[call].delegate)], loops := s.loops[call := []])
    case Write(call) =>
      s.(slot := if s.slot.None? then Some(s.calls[call].delegate) else s.slot, calls := s.calls - {call},
         replies := s.replies[call := OkWithTask])
    case Broadcast(change) =>
      s.(loops := map l | l in s.loops :: s.loops[l] + [change])
    case Process(call) =>
      var change := s.loops[call][0];
      var s' := s.(loops := s.loops[call := s.loops[call][1..]]);
      if s.slot.None? then s'.(dropped := s.dropped + [change])
      else if change.UnknownToken? then s'.(callbacks := s.callbacks + [AuthError(s.slot.value, change.softLogout)])
      else s'
    case Lag(call) => s.(loops := s.loops[call := s.loops[call][1..]])
    case Abort(call) => s.(loops := s.loops - {call})
  }

  ghost predicate StepAt(steps: seq<Step>, states: seq<State>, i: nat) {
    i < |steps| < |states| && Enabled(states[i], steps[i]) && states[i + 1] == Do(states[i], steps[i])
  }

  ghost predicate IsRun(steps: seq<Step>, states: seq<State>) {
    |states| == |steps| + 1 && states[0] == Start && forall i | 0 <= i < |steps| :: StepAt(steps, states, i)
  }

  // --- The slot ------------------------------------------------------------------------

  /** Once written, the slot is never replaced … */
  lemma {:induction false} SlotIsKept(steps: seq<Step>, states: seq<State>, i: nat, j: nat)
    requires IsRun(steps, states) && i <= j <= |steps| && states[i].slot.Some?
    ensures states[j].slot == states[i].slot
  {
    if i < j {
      SlotIsKept(steps, states, i, j - 1);
      assert StepAt(steps, states, j - 1);
    }
  }

  /** … and it is the first call to reach the write that fills it. */
  lemma FirstWriteWins(steps: seq<Step>, states: seq<State>, i: nat, j: nat)
    requires IsRun(steps, states) && i < j <= |steps| && steps[i].Write? && states[i].slot.None?
    ensures steps[i].call in states[i].calls && states[j].slot == Some(states[i].calls[steps[i].call].delegate)
  {
    assert StepAt(steps, states, i);
    SlotIsKept(steps, states, i + 1, j);
  }

  /** The slot holds a value exactly when some call has written. */
  lemma {:induction false} SlotIsWrittenIff(steps: seq<Step>, states: seq<State>, j: nat)
    requires IsRun(steps, states) && j <= |steps|
    ensures states[j].slot.Some? <==> exists i :: 0 <= i < j && steps[i].Write?
  {
    if j > 0 {
      SlotIsWrittenIff(steps, states, j - 1);
      assert StepAt(steps, states, j - 1);
    }
  }

  /** A call that begins after a successful one has ended is refused; so two successful
      calls always overlapped. */
  lemma LaterCallIsRefused(steps: seq<Step>, states: seq<State>, i: nat, j: nat)
    requires IsRun(steps, states) && i < j < |steps| && steps[i].Write? && steps[j].Begin?
    ensures steps[j].call in states[j + 1].replies && states[j + 1].replies[steps[j].call] == AlreadySet
    ensures states[j + 1].loops == states[j].loops && states[j + 1].slot == states[j].slot
  {
    SlotIsWrittenIff(steps, states, j);
    assert StepAt(steps, states, j);
  }

  /** A call that has begun is either in progress or has its reply … */
  lemma {:induction false} CallIsAnsweredOnce(steps: seq<Step>, states: seq<State>, call: Call, j: nat)
    requires IsRun(steps, states) && j <= |steps|
    ensures call in states[j].calls || call in states[j].replies <==> exists i :: 0 <= i < j && BeginsAt(steps, i, call)
    ensures !(call in states[j].calls && call in states[j].replies)
  {
    if j > 0 {
      CallIsAnsweredOnce(steps, states, call, j - 1);
      assert StepAt(steps, states, j - 1);
      if steps[j - 1].Begin? && steps[j - 1].call == call { assert BeginsAt(steps, j - 1, call); }
    }
  }

  /** Which reply: the error if the slot was written when the call began, nothing to hold on to
      if it brought no delegate, and otherwise, at its write, its task. */
  lemma ReplyIs(steps: seq<Step>, states: seq<State>, i: nat)
    requires IsRun(steps, states) && i < |steps|
    ensures var written := exists j :: 0 <= j < i && steps[j].Write?;
            && (steps[i].Begin? ==>
                  var call, s' := steps[i].call, states[i + 1];
                  if written then call in s'.replies && s'.replies[call] == AlreadySet
                  else if steps[i].delegate.None? then call in s'.replies && s'.replies[call] == Ok
                  else call in s'.calls && s'.calls[call] == Checked(steps[i].delegate.value))
            && (steps[i].Write? ==> steps[i].call in states[i + 1].replies
                                    && states[i + 1].replies[steps[i].call] == OkWithTask)
  {
    SlotIsWrittenIff(steps, states, i);
    assert StepAt(steps, states, i);
  }

  predicate BeginsAt(steps: seq<Step>, i: nat, call: Call) {
    i < |steps| && steps[i].Begin? && steps[i].call == call
  }

  /** … which never changes. */
  lemma {:induction false} RepliesAreKept(steps: seq<Step>, states: seq<State>, call: Call, i: nat, j: nat)
    requires IsRun(steps, states) && i <= j <= |steps| && call in states[i].replies && call !in states[i].calls
    ensures call in states[j].replies && states[j].replies[call] == states[i].replies[call] && call !in states[j].calls
  {
    if i < j {
      RepliesAreKept(steps, states, call, i, j - 1);
      assert StepAt(steps, states, j - 1);
    }
  }

  // --- Callbacks -------------------------------------------------------------------------

  /** Every authentication error goes to the stored delegate. */
  lemma {:induction false} CallbacksGoToSlot(steps: seq<Step>, states: seq<State>, j: nat, k: nat)
    requires IsRun(steps, states) && j <= |steps| && k < |states[j].callbacks|
    ensures states[j].slot == Some(states[j].callbacks[k].delegate)
  {
    if j > 0 {
      assert StepAt(steps, states, j - 1);
      if k < |states[j - 1].callbacks| {
        CallbacksGoToSlot(steps, states, j - 1, k);
        assert states[j - 1].callbacks[k] == states[j].callbacks[k];
        SlotIsKept(steps, states, j - 1, j);
      }
    }
  }

  /** A change that a loop handles is reported if and only if the slot has been written
      and the token is unknown; before the write it is dropped. */
  lemma ProcessedIff(steps: seq<Step>, states: seq<State>, j: nat)
    requires IsRun(steps, states) && j < |steps| && steps[j].Process?
    ensures var s, s' := states[j], states[j + 1];
            && steps[j].call in s.loops && s.loops[steps[j].call] != []
            && var change := s.loops[steps[j].call][0];
               var written := exists i :: 0 <= i < j && steps[i].Write?;
               && (s'.dropped == if written then s.dropped else s.dropped + [change])
               && s.slot.Some? == written
               && (s'.callbacks == if s.slot.Some? && change.UnknownToken?
                                   then s.callbacks + [AuthError(s.slot.value, change.softLogout)] else s.callbacks)
  {
    assert StepAt(steps, states, j);
    SlotIsWrittenIff(steps, states, j);
  }

  /** Nothing but handling a change calls back or drops one. */
  lemma OnlyProcessReports(steps: seq<Step>, states: seq<State>, j: nat)
    requires IsRun(steps, states) && j < |steps| && !steps[j].Process?
    ensures states[j + 1].callbacks == states[j].callbacks && states[j + 1].dropped == states[j].dropped
  {
    assert StepAt(steps, states, j);
  }

  // --- One loop or more --------------------------------------------------------------------

  /** No call begins while another is in progress. */
  ghost predicate OneByOne(steps: seq<Step>, states: seq<State>) {
    IsRun(steps, states) && forall i | 0 <= i < |steps| && steps[i].Begin? :: states[i].calls == map[]
  }

  /** Then there is at most one loop. */
  lemma {:induction false} OneLoop(steps: seq<Step>, states: seq<State>, j: nat)
    requires OneByOne(steps, states) && j <= |steps|
    ensures forall a, b | a in states[j].loops && b in states[j].loops :: a == b
    ensures forall a, b | a in states[j].calls && b in states[j].calls :: a == b
    ensures states[j].slot.None? ==> states[j].loops.Keys <= states[j].calls.Keys
    ensures states[j].slot.Some? ==> states[j].calls == map[]
  {
    if j > 0 {
      OneLoop(steps, states, j - 1);
      assert StepAt(steps, states, j - 1);
    }
  }

  /** The unknown tokens among changes, by whether each is a soft logout. */
  function Errors(changes: seq<Change>): seq<bool> {
    if changes == [] then []
    else
      var last := changes[|changes| - 1];
      Errors(changes[..|changes| - 1]) + if last.UnknownToken? then [last.softLogout] else []
  }

  lemma {:induction false} ErrorsFirst(changes: seq<Change>)
    requires changes != []
    ensures Errors(changes) == Errors(changes[..1]) + Errors(changes[1..])
  {
    hide Errors;
    if |changes| > 1 {
      var front, last := changes[..|changes| - 1], changes[|changes| - 1];
      ErrorsFirst(front);
      assert changes == front + [last] && front[..1] == changes[..1] && changes[1..] == front[1..] + [last];
      ErrorsMore(front, last);
      ErrorsMore(front[1..], last);
    } else {
      assert changes[..1] == changes && changes[1..] == [];
      NoErrors();
    }
  }

  function Broadcasts(steps: seq<Step>): seq<Change> {
    if steps == [] then []
    else
      var last := steps[|steps| - 1];
      Broadcasts(steps[..|steps| - 1]) + if last.Broadcast? then [last.change] else []
  }

  function Reported(callbacks: seq<Callback>): seq<bool> {
    seq(|callbacks|, i requires 0 <= i < |callbacks| => callbacks[i].softLogout)
  }

  /** `a` is `b` with some elements left out. */
  predicate Within<T(==)>(a: seq<T>, b: seq<T>)
    decreases |b|
  {
    || a == []
    || (b != [] && (Within(a, b[..|b| - 1])
                    || (a[|a| - 1] == b[|b| - 1] && Within(a[..|a| - 1], b[..|b| - 1]))))
  }

  lemma {:induction false} WithinIsShorter<T>(a: seq<T>, b: seq<T>)
    requires Within(a, b)
    ensures |a| <= |b|
    decreases |b|
  {
    if a != [] {
      if Within(a, b[..|b| - 1]) {
        WithinIsShorter(a, b[..|b| - 1]);
      } else {
        WithinIsShorter(a[..|a| - 1], b[..|b| - 1]);
      }
    }
  }

  lemma WithinMore<T>(a: seq<T>, b: seq<T>, x: T)
    requires Within(a, b)
    ensures Within(a, b + [x]) && Within(a + [x], b + [x])
  {
    assert (b + [x])[..|b|] == b && (a + [x])[..|a|] == a;
  }

  /** Leaving out one more. */
  lemma {:induction false} WithinLess<T>(a: seq<T>, b: seq<T>, k: nat)
    requires Within(a, b) && k < |a|
    ensures Within(a[..k] + a[k + 1..], b)
    decreases |b|
  {
    var a' := a[..k] + a[k + 1..];
    var front := b[..|b| - 1];
    if Within(a, front) {
      WithinLess(a, front, k);
    } else if k == |a| - 1 {
      assert a' == a[..|a| - 1];
    } else {
      WithinLess(a[..|a| - 1], front, k);
      assert a[..|a| - 1][..k] + a[..|a| - 1][k + 1..] == a'[..|a'| - 1];
    }
  }

  lemma {:induction false} WithinPrefix<T>(a: seq<T>, b: seq<T>, k: nat)
    requires Within(a, b) && k <= |a|
    ensures Within(a[..k], b)
    decreases |a|
  {
    if k < |a| {
      WithinLess(a, b, |a| - 1);
      assert a[..|a| - 1] + a[|a|..] == a[..|a| - 1] && a[..|a| - 1][..k] == a[..k];
      WithinPrefix(a[..|a| - 1], b, k);
    } else {
      assert a[..k] == a;
    }
  }

  /** What is reported so far and what `loop` has yet to handle are among what was broadcast. */
  ghost predicate Accounted(s: State, steps: seq<Step>) {
    && Within(Reported(s.callbacks), Errors(Broadcasts(steps)))
    && forall l | l in s.loops :: Within(Reported(s.callbacks) + Errors(s.loops[l]), Errors(Broadcasts(steps)))
  }

  lemma ErrorsMore(changes: seq<Change>, change: Change)
    ensures Errors(changes + [change]) == Errors(changes) + if change.UnknownToken? then [change.softLogout] else []
  {
    assert (changes + [change])[..|changes|] == changes;
  }

  lemma BroadcastsMore(steps: seq<Step>, step: Step)
    ensures Broadcasts(steps + [step]) == Broadcasts(steps) + if step.Broadcast? then [step.change] else []
  {
    assert (steps + [step])[..|steps|] == steps;
  }

  lemma BroadcastAccounted(s: State, steps: seq<Step>, change: Change)
    requires Accounted(s, steps)
    ensures Accounted(Do(s, Broadcast(change)), steps + [Broadcast(change)])
  {
    hide Within, Errors, Broadcasts;
    var told, all := Reported(s.callbacks), Errors(Broadcasts(steps));
    BroadcastsMore(steps, Broadcast(change));
    ErrorsMore(Broadcasts(steps), change);
    assert all + [] == all;
    if change.UnknownToken? { WithinMore(told, all, change.softLogout); }
    forall l | l in s.loops
      ensures Within(told + Errors(s.loops[l] + [change]), Errors(Broadcasts(steps + [Broadcast(change)])))
    {
      var queue := s.loops[l];
      ErrorsMore(queue, change);
      if change.UnknownToken? {
        WithinMore(told + Errors(queue), all, change.softLogout);
        assert told + Errors(queue) + [change.softLogout] == told + (Errors(queue) + [change.softLogout]);
      } else {
        assert Errors(queue) + [] == Errors(queue);
      }
    }
  }

  lemma OneError(change: Change)
    ensures Errors([change]) == if change.UnknownToken? then [change.softLogout] else []
  {
    assert [change][..0] == [];
  }

  /** What is left to handle after one more change, reported or not, is among the rest. */
  lemma OneReceived(told: seq<bool>, queue: seq<Change>, bs: seq<bool>)
    requires queue != [] && Within(told + Errors(queue), bs)
    ensures Within(told + Errors(queue[1..]), bs)
    ensures queue[0].UnknownToken? ==>
              var more := told + [queue[0].softLogout]; Within(more, bs) && Within(more + Errors(queue[1..]), bs)
  {
    hide Within, Errors;
    var change, rest, all := queue[0], queue[1..], told + Errors(queue);
    ErrorsFirst(queue);
    assert queue[..1] == [change];
    OneError(change);
    if change.UnknownToken? {
      WithinLess(all, bs, |told|);
      assert all[..|told|] + all[|told| + 1..] == told + Errors(rest);
      WithinPrefix(all, bs, |told| + 1);
      assert all[..|told| + 1] == told + [change.softLogout];
      assert told + [change.softLogout] + Errors(rest) == all;
    } else {
      assert told + Errors(rest) == all;
    }
  }

  /** A loop that receives a change reports it or not. */
  lemma ReceivedAccounted(s: State, steps: seq<Step>, l: Call, step: Step)
    requires Accounted(s, steps) && l in s.loops && s.loops[l] != [] && (step == Process(l) || step == Lag(l))
    requires forall m | m in s.loops :: m == l
    ensures Accounted(Do(s, step), steps)
  {
    hide Within, Errors, Broadcasts;
    var change, told := s.loops[l][0], Reported(s.callbacks);
    OneReceived(told, s.loops[l], Errors(Broadcasts(steps)));
    if s.slot.Some? && change.UnknownToken? {
      assert Reported(s.callbacks + [AuthError(s.slot.value, change.softLogout)]) == told + [change.softLogout];
    }
  }

  lemma StepAccounted(s: State, steps: seq<Step>, step: Step)
    requires Accounted(s, steps) && Enabled(s, step) && forall a, b | a in s.loops && b in s.loops :: a == b
    ensures Accounted(Do(s, step), steps + [step])
  {
    hide Within, Errors, Broadcasts;
    BroadcastsMore(steps, step);
    if !step.Broadcast? { assert Broadcasts(steps) + [] == Broadcasts(steps); }
    match step {
      case Broadcast(change) => BroadcastAccounted(s, steps, change);
      case Process(l) => ReceivedAccounted(s, steps, l, step);
      case Lag(l) => ReceivedAccounted(s, steps, l, step);
      case Subscribe(l) => NoErrors(); assert Reported(s.callbacks) + [] == Reported(s.callbacks);
      case _ =>
    }
  }

  lemma NoErrors()
    ensures Errors([]) == [] && Errors(Broadcasts([])) == [] && Within([], Errors(Broadcasts([])))
  {
  }

  // --- How many loops ----------------------------------------------------------------------

  /** How many calls bring a delegate before any has reached the write. */
  function EarlyCalls(steps: seq<Step>): nat {
    if steps == [] then 0
    else
      var front, last := steps[..|steps| - 1], steps[|steps| - 1];
      EarlyCalls(front) + if last.Begin? && last.delegate.Some? && forall s | s in front :: !s.Write? then 1 else 0
  }

  /** The calls that have started a loop or will. */
  ghost function Starters(s: State): set<Call> {
    s.loops.Keys + s.calls.Keys
  }

  ghost predicate LoopsAreOfCalls(s: State) {
    && s.loops.Keys <= s.calls.Keys + s.replies.Keys
    && forall call | call in s.calls && s.calls[call].Subscribed? :: call in s.loops
  }

  lemma LoopsStayOfCalls(s: State, step: Step)
    requires LoopsAreOfCalls(s) && Enabled(s, step) && !step.Abort?
    ensures LoopsAreOfCalls(Do(s, step))
  {
  }

  lemma KeysStep(s: State, step: Step)
    requires Enabled(s, step) && !step.Abort?
    ensures Do(s, step).loops.Keys == s.loops.Keys + if step.Subscribe? then {step.call} else {}
    ensures Do(s, step).calls.Keys ==
            if step.Begin? && step.delegate.Some? && s.slot.None? then s.calls.Keys + {step.call}
            else if step.Write? then s.calls.Keys - {step.call} else s.calls.Keys
  {
  }

  lemma OneMore(a: set<Call>, b: set<Call>, call: Call)
    requires call !in a + b
    ensures |a + (b + {call})| == |a + b| + 1
  {
    assert a + (b + {call}) == (a + b) + {call};
  }

  lemma SameUnion(a: set<Call>, b: set<Call>, call: Call)
    requires call in b
    ensures (a + {call}) + b == a + b
    ensures call in a ==> a + (b - {call}) == a + b
  {
  }

  lemma StartersStep(s: State, step: Step)
    requires LoopsAreOfCalls(s) && Enabled(s, step) && !step.Abort?
    ensures |Starters(Do(s, step))| == |Starters(s)| + if step.Begin? && step.delegate.Some? && s.slot.None? then 1
            else 0
  {
    hide Do;
    KeysStep(s, step);
    var loops, calls := s.loops.Keys, s.calls.Keys;
    match step {
      case Begin(call, delegate) => if delegate.Some? && s.slot.None? { OneMore(loops, calls, call); }
      case Subscribe(call) => SameUnion(loops, calls, call);
      case Write(call) => SameUnion(loops, calls, call);
      case _ =>
    }
  }

  /** Until loops are aborted, there is one for each of these calls that has come to it. */
  lemma {:induction false} LoopsAre(steps: seq<Step>, states: seq<State>, j: nat)
    requires IsRun(steps, states) && j <= |steps| && forall i | 0 <= i < j :: !steps[i].Abort?
    ensures LoopsAreOfCalls(states[j]) && |Starters(states[j])| == EarlyCalls(steps[..j])
  {
    hide Do, Enabled, Starters, LoopsAreOfCalls;
    if j > 0 {
      LoopsAre(steps, states, j - 1);
      assert StepAt(steps, states, j - 1);
      LoopsStayOfCalls(states[j - 1], steps[j - 1]);
      StartersStep(states[j - 1], steps[j - 1]);
      assert steps[..j][..j - 1] == steps[..j - 1];
      SlotIsWrittenIff(steps, states, j - 1);
    } else {
      NoStarters();
    }
  }

  lemma NoStarters()
    ensures LoopsAreOfCalls(Start) && Starters(Start) == {}
  {
  }

  /** When all calls have been answered and nothing was aborted, there are exactly as many
      loops as calls that began before the first write; so at most one if and only if no
      two calls did. */
  lemma LoopsIff(steps: seq<Step>, states: seq<State>)
    requires IsRun(steps, states) && states[|steps|].calls == map[] && forall i | 0 <= i < |steps| :: !steps[i].Abort?
    ensures |states[|steps|].loops| == EarlyCalls(steps)
    ensures |states[|steps|].loops| <= 1 <==> EarlyCalls(steps) <= 1
  {
    LoopsAre(steps, states, |steps|);
    assert steps[..|steps|] == steps;
    assert states[|steps|].loops.Keys + {} == states[|steps|].loops.Keys;
  }

  // --- Reported once, or more often ----------------------------------------------------------

  lemma FewerStarters(a: set<Call>, b: set<Call>)
    requires a <= b
    ensures |a| <= |b|
  {
    assert b == a + (b - a);
  }

  /** Aborted or not, there are at most as many loops as calls that begin before the first
      write. */
  lemma {:induction false} LoopsBound(steps: seq<Step>, states: seq<State>, j: nat)
    requires IsRun(steps, states) && j <= |steps|
    ensures |Starters(states[j])| <= EarlyCalls(steps[..j])
    ensures states[j].loops.Keys <= states[j].calls.Keys + states[j].replies.Keys
  {
    hide Do, Enabled;
    if j > 0 {
      LoopsBound(steps, states, j - 1);
      assert StepAt(steps, states, j - 1);
      assert steps[..j][..j - 1] == steps[..j - 1];
      SlotIsWrittenIff(steps, states, j - 1);
      StartersBound(states[j - 1], steps[j - 1]);
      LoopsStayKnown(states[j - 1], steps[j - 1]);
    } else {
      NoStarters();
    }
  }

  lemma StartersBound(s: State, step: Step)
    requires s.loops.Keys <= s.calls.Keys + s.replies.Keys && Enabled(s, step)
    ensures |Starters(Do(s, step))| <= |Starters(s)| + if step.Begin? && step.delegate.Some? && s.slot.None? then 1
            else 0
  {
    hide Do, Enabled, Starters;
    if step.Begin? && step.delegate.Some? && s.slot.None? {
      NewStarter(s, step);
    } else {
      NoNewStarters(s, step);
      FewerStarters(Starters(Do(s, step)), Starters(s));
    }
  }

  lemma NewStarter(s: State, step: Step)
    requires s.loops.Keys <= s.calls.Keys + s.replies.Keys && Enabled(s, step)
    requires step.Begin? && step.delegate.Some? && s.slot.None?
    ensures |Starters(Do(s, step))| == |Starters(s)| + 1
  {
    KeysStep(s, step);
    OneMore(s.loops.Keys, s.calls.Keys, step.call);
  }

  lemma NoNewStarters(s: State, step: Step)
    requires Enabled(s, step) && !(step.Begin? && step.delegate.Some? && s.slot.None?)
    ensures Starters(Do(s, step)) <= Starters(s)
  {
    if step.Abort? {
      assert Do(s, step).loops.Keys == s.loops.Keys - {step.call};
    } else {
      KeysStep(s, step);
      hide Do;
    }
  }

  lemma LoopsStayKnown(s: State, step: Step)
    requires s.loops.Keys <= s.calls.Keys + s.replies.Keys && Enabled(s, step)
    ensures Do(s, step).loops.Keys <= Do(s, step).calls.Keys + Do(s, step).replies.Keys
  {
  }

  lemma OnlyLoop(s: State)
    requires |Starters(s)| <= 1
    ensures forall a, b | a in s.loops && b in s.loops :: a == b
  {
    forall a, b | a in s.loops && b in s.loops ensures a == b {
      FewerStarters({a, b}, Starters(s));
    }
  }

  /** If no two calls begin before the first write, no error is ever reported twice, and all
      are handed over in the order of the broadcasts. Each is then delivered by a task of its
      own, so they may arrive in another order. */
  lemma {:induction false} ReportedOnce(steps: seq<Step>, states: seq<State>, j: nat)
    requires IsRun(steps, states) && j <= |steps| && EarlyCalls(steps[..j]) <= 1
    ensures Accounted(states[j], steps[..j])
    ensures |states[j].callbacks| <= |Errors(Broadcasts(steps[..j]))|
  {
    hide Within, Do, Starters;
    if j > 0 {
      assert steps[..j][..j - 1] == steps[..j - 1];
      ReportedOnce(steps, states, j - 1);
      LoopsBound(steps, states, j - 1);
      OnlyLoop(states[j - 1]);
      assert StepAt(steps, states, j - 1);
      assert steps[..j] == steps[..j - 1] + [steps[j - 1]];
      StepAccounted(states[j - 1], steps[..j - 1], steps[j - 1]);
    } else {
      NoErrors();
      assert Reported([]) == [];
    }
    WithinIsShorter(Reported(states[j].callbacks), Errors(Broadcasts(steps[..j])));
  }

  /** In particular if calls come one by one. */
  lemma {:induction false} OneByOneIsEarly(steps: seq<Step>, states: seq<State>, j: nat)
    requires OneByOne(steps, states) && j <= |steps|
    ensures EarlyCalls(steps[..j]) <= 1
    ensures states[j].slot.None? && EarlyCalls(steps[..j]) == 1 ==> states[j].calls != map[]
  {
    if j > 0 {
      OneByOneIsEarly(steps, states, j - 1);
      assert StepAt(steps, states, j - 1);
      assert steps[..j][..j - 1] == steps[..j - 1];
      SlotIsWrittenIff(steps, states, j - 1);
      if steps[j - 1].Subscribe? { assert steps[j - 1].call in states[j].calls; }
      if steps[j - 1].Begin? && steps[j - 1].delegate.Some? && states[j - 1].slot.None? {
        assert steps[j - 1].call in states[j].calls;
      }
    }
  }

  function EndOf(states: seq<State>): State
    requires states != []
  {
    states[|states| - 1]
  }

  lemma {:induction false} RunMore(steps: seq<Step>, states: seq<State>, step: Step)
    requires IsRun(steps, states) && Enabled(EndOf(states), step)
    ensures IsRun(steps + [step], states + [Do(EndOf(states), step)])
  {
    hide Do, Enabled;
    var steps', states' := steps + [step], states + [Do(EndOf(states), step)];
    forall i | 0 <= i < |steps'| ensures StepAt(steps', states', i) {
      if i < |steps| { assert StepAt(steps, states, i); }
    }
  }

  /** A broadcast of `n` errors. */
  function Many(n: nat): seq<Change> {
    seq(n, _ => UnknownToken(true))
  }

  lemma {:induction false} ManyErrors(queue: seq<Change>, n: nat)
    ensures |Errors(queue + Many(n))| == |Errors(queue)| + n
  {
    if n > 0 {
      ManyErrors(queue, n - 1);
      assert queue + Many(n) == queue + Many(n - 1) + [UnknownToken(true)];
      ErrorsMore(queue + Many(n - 1), UnknownToken(true));
    } else {
      assert queue + Many(0) == queue;
    }
  }

  lemma {:induction false} BroadcastMany(steps: seq<Step>, states: seq<State>, n: nat)
    returns (steps': seq<Step>, states': seq<State>)
    requires IsRun(steps, states)
    ensures steps <= steps' && IsRun(steps', states') && Broadcasts(steps') == Broadcasts(steps) + Many(n)
    ensures var s, s' := EndOf(states), EndOf(states');
            && s'.slot == s.slot && s'.loops.Keys == s.loops.Keys && s'.callbacks == s.callbacks
            && forall l | l in s.loops :: s'.loops[l] == s.loops[l] + Many(n)
  {
    hide Broadcasts;
    steps', states' := steps, states;
    if n > 0 {
      steps', states' := BroadcastMany(steps, states, n - 1);
      var step, s := Broadcast(UnknownToken(true)), EndOf(states');
      RunMore(steps', states', step);
      BroadcastsMore(steps', step);
      assert Many(n) == Many(n - 1) + [UnknownToken(true)];
      assert Broadcasts(steps) + Many(n) == Broadcasts(steps) + Many(n - 1) + [UnknownToken(true)];
      steps', states' := steps' + [step], states' + [Do(s, step)];
    } else {
      assert Broadcasts(steps) + Many(0) == Broadcasts(steps);
    }
  }

  /** A loop that handles all it has received reports each error among it. */
  lemma {:induction false} Drain(steps: seq<Step>, states: seq<State>, l: Call)
    returns (steps': seq<Step>, states': seq<State>)
    requires IsRun(steps, states) && EndOf(states).slot.Some? && l in EndOf(states).loops
    ensures steps <= steps' && IsRun(steps', states') && Broadcasts(steps') == Broadcasts(steps)
    ensures var s, s' := EndOf(states), EndOf(states');
            && s'.slot == s.slot && s'.loops == s.loops[l := []]
            && |s'.callbacks| == |s.callbacks| + |Errors(s.loops[l])|
    decreases |EndOf(states).loops[l]|
  {
    hide Broadcasts, Errors;
    var s := EndOf(states);
    steps', states' := steps, states;
    if s.loops[l] != [] {
      var step := Process(l);
      RunMore(steps, states, step);
      BroadcastsMore(steps, step);
      assert Broadcasts(steps) + [] == Broadcasts(steps);
      ErrorsFirst(s.loops[l]);
      OneError(s.loops[l][0]);
      assert s.loops[l][..1] == [s.loops[l][0]];
      steps', states' := Drain(steps + [step], states + [Do(s, step)], l);
    } else {
      NoErrors();
    }
  }

  /** Two loops can always be made to report more than is broadcast. */
  lemma {:induction false} TwoLoopsRepeat(steps: seq<Step>, states: seq<State>, a: Call, b: Call)
    returns (steps': seq<Step>, states': seq<State>)
    requires IsRun(steps, states) && EndOf(states).slot.Some?
    requires a != b && a in EndOf(states).loops && b in EndOf(states).loops
    ensures steps <= steps' && IsRun(steps', states')
    ensures |EndOf(states').callbacks| > |Errors(Broadcasts(steps'))|
  {
    hide Broadcasts, Errors, StepAt;
    var n := |Errors(Broadcasts(steps))| + 1;
    var steps1, states1 := BroadcastMany(steps, states, n);
    ManyErrors(Broadcasts(steps), n);
    ManyErrors(EndOf(states).loops[a], n);
    ManyErrors(EndOf(states).loops[b], n);
    var steps2, states2 := Drain(steps1, states1, a);
    steps', states' := Drain(steps2, states2, b);
  }

  lemma {:induction false} EarlyIsDecided(steps: seq<Step>, more: seq<Step>)
    requires exists s :: s in steps && s.Write?
    ensures EarlyCalls(steps + more) == EarlyCalls(steps)
  {
    if more == [] {
      assert steps + more == steps;
    } else {
      assert (steps + more)[..|steps + more| - 1] == steps + more[..|more| - 1];
      EarlyIsDecided(steps, more[..|more| - 1]);
      var s :| s in steps && s.Write?;
      assert s in steps + more[..|more| - 1];
    }
  }

  lemma TwoOf(s: set<Call>) returns (a: Call, b: Call)
    requires |s| >= 2
    ensures a != b && a in s && b in s
  {
    a :| a in s;
    assert |s - {a}| == |s| - 1;
    b :| b in s - {a};
  }

  /** No run that goes on from this one reports more errors than are broadcast. */
  ghost predicate NeverRepeats(steps: seq<Step>) {
    forall steps', states' | steps <= steps' && IsRun(steps', states') ::
      |EndOf(states').callbacks| <= |Errors(Broadcasts(steps'))|
  }

  /** Once a delegate is set, all calls are answered and nothing was aborted: whatever
      happens later, no error is reported twice, if and only if one call alone began before
      the first write. */
  lemma {:induction false} ReportedTwiceIff(steps: seq<Step>, states: seq<State>)
    requires IsRun(steps, states) && EndOf(states).calls == map[] && EndOf(states).slot.Some?
    requires forall i | 0 <= i < |steps| :: !steps[i].Abort?
    ensures NeverRepeats(steps) <==> EarlyCalls(steps) == 1
  {
    hide Errors, Broadcasts, EarlyCalls;
    LoopsIff(steps, states);
    SlotIsWrittenIff(steps, states, |steps|);
    assert exists s :: s in steps && s.Write?;
    WrittenHasBegun(steps, states);
    if EarlyCalls(steps) == 1 {
      forall steps', states' | steps <= steps' && IsRun(steps', states')
        ensures |EndOf(states').callbacks| <= |Errors(Broadcasts(steps'))|
      {
        EarlyIsDecided(steps, steps'[|steps|..]);
        assert steps + steps'[|steps|..] == steps' == steps'[..|steps'|];
        ReportedOnce(steps', states', |steps'|);
      }
    } else {
      var a, b := TwoOf(EndOf(states).loops.Keys);
      var steps', states' := TwoLoopsRepeat(steps, states, a, b);
    }
  }

  /** Whoever writes has begun before anyone wrote. */
  lemma {:induction false} WrittenHasBegun(steps: seq<Step>, states: seq<State>)
    requires IsRun(steps, states) && EndOf(states).slot.Some?
    ensures EarlyCalls(steps) >= 1
  {
    BegunEarly(steps, states, |steps|);
    assert steps[..|steps|] == steps;
  }

  lemma {:induction false} BegunEarly(steps: seq<Step>, states: seq<State>, j: nat)
    requires IsRun(steps, states) && j <= |steps|
    ensures states[j].slot.Some? || states[j].calls != map[] ==> EarlyCalls(steps[..j]) >= 1
  {
    if j > 0 {
      BegunEarly(steps, states, j - 1);
      assert StepAt(steps, states, j - 1);
      assert steps[..j][..j - 1] == steps[..j - 1];
      SlotIsWrittenIff(steps, states, j - 1);
      if steps[j - 1].Subscribe? || steps[j - 1].Write? { assert steps[j - 1].call in states[j - 1].calls; }
    }
  }

  /** What one loop has reported. */
  function ReportedBy(l: Call, steps: seq<Step>, states: seq<State>): seq<bool>
    requires |states| == |steps| + 1
  {
    if steps == [] then []
    else
      var front, step, s := |steps| - 1, steps[|steps| - 1], states[|steps| - 1];
      ReportedBy(l, steps[..front], states[..front + 1]) +
      if step == Process(l) && l in s.loops && s.loops[l] != [] && s.slot.Some? then Errors([s.loops[l][0]]) else []
  }

  /** Each loop that nothing disturbs reports all errors once there is a delegate, one by
      one; so each is reported as many times as there are loops. */
  lemma {:induction false} EachLoopReportsAll(steps: seq<Step>, states: seq<State>, l: Call, m: nat, j: nat)
    requires IsRun(steps, states) && m <= j <= |steps| && states[m].slot.Some? && l in states[m].loops
    requires forall i | m <= i < j :: steps[i] != Lag(l) && steps[i] != Abort(l) && steps[i] != Subscribe(l)
    ensures l in states[j].loops
    ensures ReportedBy(l, steps[m..j], states[m..j + 1]) + Errors(states[j].loops[l])
            == Errors(states[m].loops[l]) + Errors(Broadcasts(steps[m..j]))
  {
    hide Errors, Broadcasts, Do;
    if m < j {
      EachLoopReportsAll(steps, states, l, m, j - 1);
      var s, step := states[j - 1], steps[j - 1];
      assert StepAt(steps, states, j - 1);
      SlotIsKept(steps, states, m, j - 1);
      assert steps[m..j] == steps[m..j - 1] + [step] && steps[m..j][..j - 1 - m] == steps[m..j - 1];
      assert states[m..j + 1][..j - m] == states[m..j];
      LoopStep(s, step, l);
      var new_, all := NewError(step), Errors(Broadcasts(steps[m..j - 1]));
      BroadcastErrors(steps[m..j - 1], step);
      Regroup(ReportedBy(l, steps[m..j - 1], states[m..j]), if step == Process(l) then Errors([s.loops[l][0]]) else [],
              Errors(s.loops[l]), Errors(Do(s, step).loops[l]), Errors(states[m].loops[l]), all, new_);
    } else {
      assert steps[m..j] == [];
      NoErrors();
    }
  }

  function NewError(step: Step): seq<bool> {
    if step.Broadcast? && step.change.UnknownToken? then [step.change.softLogout] else []
  }

  lemma BroadcastErrors(steps: seq<Step>, step: Step)
    ensures Errors(Broadcasts(steps + [step])) == Errors(Broadcasts(steps)) + NewError(step)
  {
    hide Errors, Broadcasts;
    BroadcastsMore(steps, step);
    if step.Broadcast? {
      ErrorsMore(Broadcasts(steps), step.change);
    } else {
      assert Broadcasts(steps) + [] == Broadcasts(steps);
    }
  }

  lemma Regroup<T>(told: seq<T>, x: seq<T>, queue: seq<T>, queue': seq<T>, first: seq<T>, all: seq<T>, new_: seq<T>)
    requires told + queue == first + all && x + queue' == queue + new_
    ensures (told + x) + queue' == first + (all + new_)
  {
    assert (told + x) + queue' == told + (x + queue') == (told + queue) + new_;
  }

  /** A step of the loop, or of others, seen by the loop. */
  lemma LoopStep(s: State, step: Step, l: Call)
    requires Enabled(s, step) && l in s.loops && s.slot.Some?
    requires step != Lag(l) && step != Abort(l) && step != Subscribe(l)
    ensures l in Do(s, step).loops
    ensures (if step == Process(l) then Errors([s.loops[l][0]]) else []) + Errors(Do(s, step).loops[l])
            == Errors(s.loops[l]) + NewError(step)
  {
    hide Errors;
    if step.Broadcast? {
      ErrorsMore(s.loops[l], step.change);
    } else if step == Process(l) {
      ErrorsFirst(s.loops[l]);
      assert s.loops[l][..1] == [s.loops[l][0]];
    }
  }

  /** Two calls that race both succeed; the second delegate is discarded, but its loop
      stays, and every error is reported twice to the first. */
  lemma RacingCallsReportTwice() returns (steps: seq<Step>, states: seq<State>)
    ensures IsRun(steps, states) && |steps| == 9
    ensures states[9].slot == Some(7) && states[9].replies == map[1 := OkWithTask, 2 := OkWithTask]
    ensures states[9].callbacks == [AuthError(7, true), AuthError(7, true)]
    ensures forall i | 0 <= i < 9 :: steps[i].Broadcast? <==> i == 6
  {
    var s1 := Do(Start, Begin(1, Some(7)));
    var s2 := Do(s1, Begin(2, Some(8)));
    var s3 := Do(s2, Subscribe(1));
    var s4 := Do(s3, Subscribe(2));
    var s5 := Do(s4, Write(1));
    var s6 := Do(s5, Write(2));
    var s7 := Do(s6, Broadcast(UnknownToken(true)));
    var s8 := Do(s7, Process(1));
    var s9 := Do(s8, Process(2));
    steps := [Begin(1, Some(7)), Begin(2, Some(8)), Subscribe(1), Subscribe(2), Write(1), Write(2),
              Broadcast(UnknownToken(true)), Process(1), Process(2)];
    states := [Start, s1, s2, s3, s4, s5, s6, s7, s8, s9];
    forall i | 0 <= i < 9 ensures StepAt(steps, states, i) {
    }
    assert s9.replies == map[1 := OkWithTask, 2 := OkWithTask];
  }
}
