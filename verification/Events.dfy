/** Realtime events and what one undisturbed publish does to a subscriber's queue. */
module Events {
  import opened Wrappers

  datatype Topic = Notifications | Messages

  // A count update, some other event (a new message, a new feed post), or the signal to refetch.
  datatype Event = Unread(topic: Topic, count: nat) | Other(name: string) | Resync

  const Capacity: nat := 16

  // A full queue loses its oldest event and the new one, and gains the refetch signal.
  function Deliver(queue: seq<Event>, event: Event): (r: seq<Event>)
    requires |queue| <= Capacity
    ensures |r| <= Capacity && r != []
    ensures r[|r| - 1] == event || r[|r| - 1] == Resync
  {
    if |queue| < Capacity then queue + [event] else queue[1..] + [Resync]
  }

  // ---------------------------------------------------------------------------------------------
  // What a client makes of its events
  // ---------------------------------------------------------------------------------------------

  predicate Relevant(e: Event, topic: Topic) {
    e == Resync || (e.Unread? && e.topic == topic)
  }

  function LastRelevant(events: seq<Event>, topic: Topic): Option<Event> {
    if events == [] then None
    else if Relevant(events[|events| - 1], topic) then Some(events[|events| - 1])
    else LastRelevant(events[..|events| - 1], topic)
  }

  lemma {:induction false} LastRelevantOfConcat(a: seq<Event>, b: seq<Event>, topic: Topic)
    ensures LastRelevant(a + b, topic) ==
            if LastRelevant(b, topic).Some? then LastRelevant(b, topic) else LastRelevant(a, topic)
  {
    if b == [] {
      assert a + b == a;
    } else {
      var n := |b| - 1;
      assert (a + b)[..|a + b| - 1] == a + b[..n];
      LastRelevantOfConcat(a, b[..n], topic);
    }
  }

  // Delivering an event makes it, or the refetch signal, the last the client sees.
  lemma DeliveredIsLast(processed: seq<Event>, queue: seq<Event>, event: Event, topic: Topic)
    requires |queue| <= Capacity
    ensures var last := LastRelevant(processed + Deliver(queue, event), topic);
            if |queue| == Capacity then last == Some(Resync)
            else if Relevant(event, topic) then last == Some(event)
            else last == LastRelevant(processed + queue, topic)
  {
    if |queue| < Capacity {
      assert processed + Deliver(queue, event) == (processed + queue) + [event];
      LastRelevantOfConcat(processed + queue, [event], topic);
      assert LastRelevant([], topic) == None;
      assert [event][..0] == [];
    } else {
      assert processed + Deliver(queue, event) == (processed + queue[1..]) + [Resync];
      LastRelevantOfConcat(processed + queue[1..], [Resync], topic);
    }
  }

  lemma LastOfOneMore(events: seq<Event>, event: Event, topic: Topic)
    ensures LastRelevant(events + [event], topic) ==
            if Relevant(event, topic) then Some(event) else LastRelevant(events, topic)
  {
    assert (events + [event])[..|events|] == events;
  }
}
