/** The push rules event handler of the notification settings. All clones of the
    settings share one slot for it; each clone removes it when it is dropped. */
module NotificationHandlers {
  import opened Wrappers

  type Handler = nat

  /** `pending` are the handlers that are registered but not in the slot yet: setting a
      delegate registers first and takes the lock of the slot afterwards. */
  datatype State = State(registered: set<Handler>, slot: Option<Handler>, pending: set<Handler>, used: set<Handler>,
                         clones: nat)

  datatype Step =
    | Register(handler: Handler)
    | Fill(handler: Handler)
    | Clear
    | Clone
    | Drop

  const Start: State := State({}, None, {}, {}, 1)

  predicate Enabled(s: State, step: Step) {
    && s.clones > 0
    && match step
       case Register(handler) => handler !in s.used
       case Fill(handler) => handler in s.pending
       case _ => true
  }

  function Unregister(s: State): set<Handler> {
    if s.slot.Some? then s.registered - {s.slot.value} else s.registered
  }

  function Do(s: State, step: Step): State
    requires Enabled(s, step)
  {
    match step
    case Register(handler) =>
      s.(registered := s.registered + {handler}, pending := s.pending + {handler}, used := s.used + {handler})
    case Fill(handler) => s.(slot := Some(handler), pending := s.pending - {handler})
    case Clear => s.(registered := Unregister(s), slot := None)
    case Clone => s.(clones := s.clones + 1)
    case Drop => s.(registered := Unregister(s), clones := s.clones - 1)
  }

  /** `set_delegate` and `Drop` as written. */
  class NotificationSettings {
    var s: State

    constructor ()
      ensures s == Start
    {
      s := Start;
    }

    method SetDelegate(handler: Option<Handler>)
      requires s.clones > 0 && (handler.Some? ==> handler.value !in s.used)
      modifies this
      ensures handler.None? ==> s == Do(old(s), Step.Clear)
      ensures handler.Some? ==> s == Do(Do(old(s), Register(handler.value)), Fill(handler.value))
    {
      if handler.Some? {
        s := s.(registered := s.registered + {handler.value}, used := s.used + {handler.value});
        assert old(s).pending + {handler.value} - {handler.value} == old(s).pending - {handler.value};
        s := s.(slot := Some(handler.value), pending := s.pending - {handler.value});
      } else {
        if s.slot.Some? {
          s := s.(registered := s.registered - {s.slot.value});
        }
        s := s.(slot := None);
      }
    }

    method Finish()
      requires s.clones > 0
      modifies this
      ensures s == Do(old(s), Drop)
    {
      if s.slot.Some? {
        s := s.(registered := s.registered - {s.slot.value});
      }
      s := s.(clones := s.clones - 1);
    }
  }

  // --- What a run leaves registered, told from its steps alone ------------------------------

  function Last(steps: seq<Step>): Step
    requires steps != []
  {
    steps[|steps| - 1]
  }

  function Front(steps: seq<Step>): seq<Step>
    requires steps != []
  {
    steps[..|steps| - 1]
  }

  /** The state after these steps; `None` if they are not possible. */
  function After(steps: seq<Step>): Option<State> {
    if steps == [] then Some(Start)
    else match After(Front(steps))
      case None => None
      case Some(s) => if Enabled(s, Last(steps)) then Some(Do(s, Last(steps))) else None
  }

  /** The handler put into the slot last, unless the slot was cleared or a clone dropped
      since. */
  function Live(steps: seq<Step>): set<Handler> {
    if steps == [] then {}
    else match Last(steps)
      case Fill(handler) => {handler}
      case Clear => {}
      case Drop => {}
      case _ => Live(Front(steps))
  }

  /** The handlers that were live when another took their place. */
  function Overwritten(steps: seq<Step>): set<Handler> {
    if steps == [] then {}
    else Overwritten(Front(steps)) + (if Last(steps).Fill? then Live(Front(steps)) else {})
  }

  function Unfilled(steps: seq<Step>): set<Handler> {
    if steps == [] then {}
    else match Last(steps)
      case Register(handler) => Unfilled(Front(steps)) + {handler}
      case Fill(handler) => Unfilled(Front(steps)) - {handler}
      case _ => Unfilled(Front(steps))
  }

  /** Registered are exactly the handlers that were overwritten while live, the live one,
      and those about to be put into the slot. */
  lemma {:induction false} RegisteredAre(steps: seq<Step>, s: State)
    requires After(steps) == Some(s)
    ensures s.registered == Overwritten(steps) + Live(steps) + Unfilled(steps)
    ensures s.pending == Unfilled(steps) && s.pending <= s.used && Overwritten(steps) <= s.used
    ensures Live(steps) <= s.used && Live(steps) !! Overwritten(steps) !! s.pending
    ensures s.slot.Some? ==> s.slot.value in s.used && s.slot.value !in s.pending && s.slot.value !in Overwritten(steps)
    ensures Live(steps) == {} || (s.slot.Some? && Live(steps) == {s.slot.value})
  {
    if steps != [] {
      RegisteredAre(Front(steps), After(Front(steps)).value);
    }
  }

  /** No handler is put into the slot while another is live. */
  predicate ClearsFirst(steps: seq<Step>) {
    steps == [] || (ClearsFirst(Front(steps)) && (Last(steps).Fill? ==> Live(Front(steps)) == {}))
  }

  lemma {:induction false} NothingOverwrittenIff(steps: seq<Step>)
    ensures ClearsFirst(steps) <==> Overwritten(steps) == {}
  {
    if steps != [] { NothingOverwrittenIff(Front(steps)); }
  }

  /** After the last clone is gone, with no call in progress, nothing is registered if and
      only if the slot was always cleared first. */
  lemma NothingLeftIff(steps: seq<Step>, s: State)
    requires After(steps) == Some(s) && s.clones == 0 && s.pending == {}
    ensures s.registered == {} <==> ClearsFirst(steps)
  {
    RegisteredAre(steps, s);
    NothingOverwrittenIff(steps);
    EndsWithDrop(steps, s);
  }

  lemma EndsWithDrop(steps: seq<Step>, s: State)
    requires After(steps) == Some(s) && s.clones == 0
    ensures steps != [] && Last(steps) == Drop
  {
  }

  /** Until then such runs keep at most one handler, besides those of calls in progress. */
  lemma AtMostOne(steps: seq<Step>, s: State)
    requires After(steps) == Some(s) && ClearsFirst(steps)
    ensures |s.registered - s.pending| <= 1
  {
    RegisteredAre(steps, s);
    NothingOverwrittenIff(steps);
    assert s.registered - s.pending == Live(steps);
  }

  lemma AfterMore(steps: seq<Step>, k: nat, s: State, s': State)
    requires k < |steps| && After(steps[..k]) == Some(s) && Enabled(s, steps[k]) && Do(s, steps[k]) == s'
    ensures After(steps[..k + 1]) == Some(s')
  {
    assert Front(steps[..k + 1]) == steps[..k];
  }

  /** Setting a delegate twice keeps the first one's handler for ever. */
  lemma SecondSetKeepsFirst()
    ensures After([Register(1), Fill(1), Register(2), Fill(2), Drop]) == Some(State({1}, Some(2), {}, {1, 2}, 0))
  {
    var steps := [Register(1), Fill(1), Register(2), Fill(2), Drop];
    AfterMore(steps, 0, Start, State({1}, None, {1}, {1}, 1));
    AfterMore(steps, 1, State({1}, None, {1}, {1}, 1), State({1}, Some(1), {}, {1}, 1));
    AfterMore(steps, 2, State({1}, Some(1), {}, {1}, 1), State({1, 2}, Some(1), {2}, {1, 2}, 1));
    AfterMore(steps, 3, State({1, 2}, Some(1), {2}, {1, 2}, 1), State({1, 2}, Some(2), {}, {1, 2}, 1));
    AfterMore(steps, 4, State({1, 2}, Some(2), {}, {1, 2}, 1), State({1}, Some(2), {}, {1, 2}, 0));
    assert steps[..5] == steps;
  }
}
