/** One event stream, from its subscription to its end. */
module RealtimeStream {
  import opened Wrappers
  import opened Events
  import opened Hub

  // What happens next: somebody publishes to the user, or the stream's loop wakes up because the
  // client is gone, because an event is queued, or for its heartbeat, which looks the session up
  // again.  Writes may fail.
  datatype Step = Published(event: Event) | Gone | Queued(writes: bool) | Heartbeat(session: Option<int>, writes: bool)

  // What the client was sent, what waits for it, and whether the stream goes on.
  datatype View = View(written: seq<Event>, queue: seq<Event>, live: bool)

  function Play(user: int, v: View, step: Step): (w: View)
    requires |v.queue| <= Capacity
    ensures |w.queue| <= Capacity
  {
    if !v.live then v
    else
      match step
      case Published(event) => v.(queue := Deliver(v.queue, event))
      case Gone => v.(live := false)
      case Queued(writes) =>
        if v.queue == [] then v
        else View(if writes then v.written + [v.queue[0]] else v.written, v.queue[1..], writes)
      case Heartbeat(session, writes) => v.(live := session == Some(user) && writes)
  }

  function PlayAll(user: int, v: View, steps: seq<Step>): (w: View)
    requires |v.queue| <= Capacity
    ensures |w.queue| <= Capacity
  {
    if steps == [] then v else Play(user, PlayAll(user, v, steps[..|steps| - 1]), steps[|steps| - 1])
  }

  // What the greeting adds: nothing when the count cannot be read or the write fails, which the
  // stream does not mind.
  function Greeting(count: Option<nat>, writes: bool): seq<Event> {
    if count.Some? && writes then [Unread(Notifications, count.value)] else []
  }

  // The view after the subscription, the publishes that come before the count is read, and the
  // greeting.
  function Opened(early: seq<Event>, count: Option<nat>, writes: bool): (v: View)
    ensures |v.queue| <= Capacity && v.live && v.written == Greeting(count, writes)
  {
    View(Greeting(count, writes), Arrived([], early), true)
  }

  function Arrived(queue: seq<Event>, events: seq<Event>): (r: seq<Event>)
    requires |queue| <= Capacity
    ensures |r| <= Capacity
  {
    if events == [] then queue else Deliver(Arrived(queue, events[..|events| - 1]), events[|events| - 1])
  }

  // Subscribes, reads the count, then serves the loop until it ends.  The client is sent exactly
  // what the view says, and the hub is left without a trace of the subscription.
  method Stream(hub: Hub, user: int, early: seq<Event>, count: Option<nat>, writes: bool, steps: seq<Step>)
    returns (written: seq<Event>)
    requires hub.Valid()
    modifies hub, hub.Subscribed(user)
    ensures hub.Valid() && hub.subscribers == old(hub.subscribers)
    ensures written == PlayAll(user, Opened(early, count, writes), steps).written
  {
    var subscription := hub.Subscribe(user);
    assert subscription.channel in hub.Subscribed(user) && subscription.channel in hub.Listed();
    PublishAll(hub, user, subscription.channel, early);
    written := [];
    if count.Some? && writes {
      written := [Unread(Notifications, count.value)];
    }
    written := Serve(hub, user, subscription.channel, written, steps);
    subscription.Cancel();
  }

  // Others publish to the user, one after the other.
  method PublishAll(hub: Hub, user: int, channel: Channel, events: seq<Event>)
    requires hub.Valid() && channel in hub.Subscribed(user)
    modifies hub.Subscribed(user)
    ensures hub.Valid() && hub.subscribers == old(hub.subscribers)
    ensures |old(channel.queue)| <= Capacity && channel.queue == Arrived(old(channel.queue), events)
  {
    for k := 0 to |events|
      invariant hub.Valid() && hub.subscribers == old(hub.subscribers)
      invariant |old(channel.queue)| <= Capacity && channel.queue == Arrived(old(channel.queue), events[..k])
    {
      hub.Publish(user, events[k]);
      assert events[..k + 1][..k] == events[..k];
    }
    assert events[..|events|] == events;
  }

  // The loop.
  method Serve(hub: Hub, user: int, channel: Channel, greeting: seq<Event>, steps: seq<Step>) returns (written: seq<Event>)
    requires hub.Valid() && channel in hub.Subscribed(user)
    modifies hub.Subscribed(user)
    ensures hub.Valid() && hub.subscribers == old(hub.subscribers)
    ensures |old(channel.queue)| <= Capacity
    ensures written == PlayAll(user, View(greeting, old(channel.queue), true), steps).written
  {
    written := greeting;
    ghost var start := View(greeting, channel.queue, true);
    var live, i := true, 0;
    while i < |steps| && live
      invariant 0 <= i <= |steps| && |start.queue| <= Capacity
      invariant hub.Valid() && hub.subscribers == old(hub.subscribers)
      invariant PlayAll(user, start, steps[..i]) == View(written, channel.queue, live)
    {
      assert steps[..i + 1][..i] == steps[..i];
      written, live := Turn(hub, user, channel, written, steps[i]);
      i := i + 1;
    }
    EndedStays(user, start, steps, i);
  }

  // One turn of the loop, or one publish to the user.
  method Turn(hub: Hub, user: int, channel: Channel, before: seq<Event>, step: Step) returns (written: seq<Event>, live: bool)
    requires hub.Valid() && channel in hub.Subscribed(user)
    modifies hub.Subscribed(user)
    ensures hub.Valid() && hub.subscribers == old(hub.subscribers)
    ensures |old(channel.queue)| <= Capacity
    ensures View(written, channel.queue, live) == Play(user, View(before, old(channel.queue), true), step)
  {
    written, live := before, true;
    match step {
      case Published(event) => hub.Publish(user, event);
      case Gone => live := false;
      case Queued(writes) =>
        if channel.queue != [] {
          var event := channel.queue[0];
          channel.TryReceive();
          if writes {
            written := written + [event];
          } else {
            live := false;
          }
        }
      case Heartbeat(session, writes) =>
        live := session == Some(user) && writes;
    }
  }

  // An ended stream sends nothing more.
  lemma {:induction false} EndedStays(user: int, v: View, steps: seq<Step>, i: nat)
    requires |v.queue| <= Capacity && i <= |steps|
    requires i < |steps| ==> !PlayAll(user, v, steps[..i]).live
    ensures PlayAll(user, v, steps) == PlayAll(user, v, steps[..i])
    decreases |steps|
  {
    if i < |steps| {
      var init := steps[..|steps| - 1];
      assert init[..i] == steps[..i];
      EndedStays(user, v, init, i);
    } else {
      assert steps[..i] == steps;
    }
  }

  function Sent(steps: seq<Step>): seq<Event> {
    if steps == [] then []
    else
      var last := steps[|steps| - 1];
      Sent(steps[..|steps| - 1]) + if last.Published? then [last.event] else []
  }

  // A live stream never loses the latest word on a counter: the last relevant event written or
  // queued is the last one sent or published, or a resync.
  lemma {:induction false} LatestIsKept(user: int, v: View, steps: seq<Step>, topic: Topic)
    requires |v.queue| <= Capacity && PlayAll(user, v, steps).live
    ensures var w := PlayAll(user, v, steps);
            var last := LastRelevant(w.written + w.queue, topic);
            last == Some(Resync) || last == LastRelevant(v.written + v.queue + Sent(steps), topic)
  {
    if steps == [] {
      assert v.written + v.queue + [] == v.written + v.queue;
    } else {
      var init, step := steps[..|steps| - 1], steps[|steps| - 1];
      var u, w := PlayAll(user, v, init), PlayAll(user, v, steps);
      LatestIsKept(user, v, init, topic);
      var all := v.written + v.queue + Sent(init);
      if step.Published? {
        DeliveredIsLast(u.written, u.queue, step.event, topic);
        assert v.written + v.queue + Sent(steps) == all + [step.event];
        LastOfOneMore(all, step.event, topic);
      } else {
        assert Sent(steps) == Sent(init) && w.written + w.queue == u.written + u.queue;
      }
    }
  }

  // What a step asks for the stream to go on: no hang-up, no failed write, and at a heartbeat a
  // session of this very user.
  predicate Survived(user: int, queue: seq<Event>, step: Step) {
    match step
    case Published(_) => true
    case Gone => false
    case Queued(writes) => writes || queue == []
    case Heartbeat(session, writes) => writes && session.Some? && session.value == user
  }

  lemma {:induction false} OneMoreStep(user: int, v: View, steps: seq<Step>, n: nat)
    requires |v.queue| <= Capacity && n < |steps|
    ensures PlayAll(user, v, steps[..n + 1]) == Play(user, PlayAll(user, v, steps[..n]), steps[n])
    ensures Sent(steps[..n + 1]) == Sent(steps[..n]) + if steps[n].Published? then [steps[n].event] else []
  {
    assert steps[..n + 1][..n] == steps[..n];
  }

  lemma StepLivesIff(user: int, u: View, step: Step)
    requires |u.queue| <= Capacity
    ensures Play(user, u, step).live <==> u.live && Survived(user, u.queue, step)
  {
  }

  ghost predicate SurvivedAll(user: int, v: View, steps: seq<Step>, n: nat)
    requires |v.queue| <= Capacity && n <= |steps|
  {
    forall k :: 0 <= k < n ==> Survived(user, PlayAll(user, v, steps[..k]).queue, steps[k])
  }

  lemma SurvivedOneMore(user: int, v: View, steps: seq<Step>, n: nat)
    requires |v.queue| <= Capacity && 0 < n <= |steps|
    ensures SurvivedAll(user, v, steps, n) <==>
              SurvivedAll(user, v, steps, n - 1) && Survived(user, PlayAll(user, v, steps[..n - 1]).queue, steps[n - 1])
  {
  }

  // A stream goes on exactly as long as it survives every step.
  lemma {:induction false} StreamLivesIff(user: int, v: View, steps: seq<Step>, n: nat)
    requires |v.queue| <= Capacity && n <= |steps|
    ensures PlayAll(user, v, steps[..n]).live <==> v.live && SurvivedAll(user, v, steps, n)
  {
    if n > 0 {
      StreamLivesIff(user, v, steps, n - 1);
      SurvivedOneMore(user, v, steps, n);
      OneMoreStep(user, v, steps, n - 1);
      StepLivesIff(user, PlayAll(user, v, steps[..n - 1]), steps[n - 1]);
    }
  }

  // While no queue overflows, a live stream has written, in order and once each, what was there
  // and what was published, up to the events still queued.
  lemma {:induction false} NothingLostBelowCapacity(user: int, v: View, steps: seq<Step>, n: nat)
    requires |v.queue| <= Capacity && n <= |steps| && PlayAll(user, v, steps[..n]).live
    requires forall k :: 0 <= k < n && steps[k].Published? ==> |PlayAll(user, v, steps[..k]).queue| < Capacity
    ensures var w := PlayAll(user, v, steps[..n]);
            w.written + w.queue == v.written + v.queue + Sent(steps[..n])
  {
    if n == 0 {
      assert v.written + v.queue + [] == v.written + v.queue;
    } else {
      OneMoreStep(user, v, steps, n - 1);
      NothingLostBelowCapacity(user, v, steps, n - 1);
      OneStepLosesNothing(user, PlayAll(user, v, steps[..n - 1]), steps[n - 1], v.written + v.queue + Sent(steps[..n - 1]));
      var last := if steps[n - 1].Published? then [steps[n - 1].event] else [];
      assert v.written + v.queue + (Sent(steps[..n - 1]) + last) == v.written + v.queue + Sent(steps[..n - 1]) + last;
    }
  }

  lemma {:induction false} OneStepLosesNothing(user: int, u: View, step: Step, all: seq<Event>)
    requires |u.queue| <= Capacity && u.live && Play(user, u, step).live && u.written + u.queue == all
    requires step.Published? ==> |u.queue| < Capacity
    ensures var w := Play(user, u, step);
            w.written + w.queue == all + if step.Published? then [step.event] else []
  {
    if step.Queued? && u.queue != [] {
      assert u.written + [u.queue[0]] + u.queue[1..] == u.written + u.queue;
    }
    assert u.written + u.queue + [] == u.written + u.queue;
  }

  // A heartbeat that finds the session dead, or somebody else's, is the end: nothing published
  // before or after it is written any more.
  lemma {:induction false} DeadSessionEndsTheStream(user: int, v: View, steps: seq<Step>, k: nat)
    requires |v.queue| <= Capacity && k < |steps|
    requires steps[k].Heartbeat? && steps[k].session != Some(user)
    ensures PlayAll(user, v, steps).written == PlayAll(user, v, steps[..k]).written
  {
    assert steps[..k + 1][..k] == steps[..k];
    EndedStays(user, v, steps, k + 1);
  }
}
