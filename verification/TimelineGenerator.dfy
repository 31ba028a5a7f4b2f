/** The benchmark that fills a timeline with messages, reactions, edits and redactions. */
module TimelineGenerator {
  datatype Kind = Message | Reaction(target: nat) | Edit(target: nat) | Redaction(target: nat)

  /** Events refer to each other by identifier; here an identifier is the index. */
  datatype Event = Event(id: nat, sender: nat, kind: Kind)

  method Generate(count: nat) returns (events: seq<Event>)
    ensures |events| == count
    ensures forall i | 0 <= i < count :: events[i].id == i && events[i].sender == i % 3
    ensures forall i | 0 <= i < count :: (events[i].kind.Message? <==> i % 10 < 6)
    ensures forall i | 0 <= i < count :: IsScripted(events[i], i)
    ensures forall i | 0 <= i < count :: Sound(events, i)
    ensures forall i, j | 0 <= i < j < count :: Apart(events[i], events[j])
  {
    events := [];
    var i := 0;
    while i < count
      invariant 0 <= i <= count && |events| == i
      invariant forall k | 0 <= k < i :: events[k] == EventAt(k)
    {
      var sender := i % 3;
      var j := i % 10;
      if j < 6 {
        events := events + [Event(i, sender, Message)];
      } else if j < 8 {
        var previous := events[i - 2].id;
        events := events + [Event(i, sender, Reaction(previous))];
      } else if j == 8 {
        var previous := events[i - 3].id;
        events := events + [Event(i, sender, Edit(previous))];
      } else {
        var previous := events[i - 6].id;
        events := events + [Event(i, sender, Redaction(previous))];
      }
      i := i + 1;
    }
    forall k | 0 <= k < count ensures Sound(events, k) { IsSound(events, k); }
    forall k, l | 0 <= k < l < count ensures Apart(events[k], events[l]) { AreApart(k, l); }
  }

  /** Of ten events, six are messages, two react to the message two before, one edits the one
      three before, and one redacts the one six before. */
  predicate IsScripted(e: Event, i: nat) {
    && (e.kind.Reaction? <==> i % 10 == 6 || i % 10 == 7) && (e.kind.Reaction? ==> e.kind.target + 2 == i)
    && (e.kind.Edit? <==> i % 10 == 8) && (e.kind.Edit? ==> e.kind.target + 3 == i)
    && (e.kind.Redaction? <==> i % 10 == 9) && (e.kind.Redaction? ==> e.kind.target + 6 == i)
  }

  function EventAt(i: nat): Event {
    var j := i % 10;
    Event(i, i % 3,
          if j < 6 then Message else if j < 8 then Reaction(i - 2) else if j == 8 then Edit(i - 3)
              else Redaction(i - 6))
  }

  /** What an event refers to is an earlier message; an edit or a redaction comes from
      the sender of that message. */
  predicate Sound(events: seq<Event>, i: nat)
    requires i < |events|
  {
    var e := events[i];
    !e.kind.Message? ==>
      && e.kind.target < i && events[e.kind.target].kind.Message? && events[e.kind.target].id == e.kind.target
      && (e.kind.Edit? || e.kind.Redaction? ==> events[e.kind.target].sender == e.sender)
  }

  /** No message gets two reactions, edits or redactions, and none that is redacted gets
      anything else. */
  predicate Apart(a: Event, b: Event) {
    !a.kind.Message? && !b.kind.Message? && a.kind.target == b.kind.target ==>
      || (a.kind.Reaction? && b.kind.Edit?)
      || (a.kind.Edit? && b.kind.Reaction?)
  }

  lemma IsSound(events: seq<Event>, i: nat)
    requires i < |events| && forall k | 0 <= k < |events| :: events[k] == EventAt(k)
    ensures Sound(events, i)
  {
    if i % 10 >= 6 {
      var t := EventAt(i).kind.target;
      assert events[t] == EventAt(t);
      assert t % 10 < 6;
    }
  }

  lemma AreApart(i: nat, j: nat)
    requires i < j
    ensures Apart(EventAt(i), EventAt(j))
  {
    TargetDigit(i);
    TargetDigit(j);
  }

  /** Which of ten messages an event refers to tells what it is. */
  lemma TargetDigit(i: nat)
    ensures var k := EventAt(i).kind;
            && (k.Reaction? ==> k.target + 2 == i && k.target % 10 in {4, 5})
            && (k.Edit? ==> k.target + 3 == i && k.target % 10 == 5)
            && (k.Redaction? ==> k.target + 6 == i && k.target % 10 == 3)
  {
  }
}
