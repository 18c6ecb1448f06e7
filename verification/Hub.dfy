/** The hub's methods, one call at a time. */
module Hub {
  import opened Events

  class Channel {
    var queue: seq<Event>
    var closed: bool

    constructor ()
      ensures queue == [] && !closed
    {
      queue, closed := [], false;
    }

    // A send that does not block; the caller owes an open channel.
    method TrySend(event: Event) returns (sent: bool)
      requires !closed
      modifies this`queue
      ensures sent == (|old(queue)| < Capacity)
      ensures queue == if sent then old(queue) + [event] else old(queue)
    {
      sent := |queue| < 16;
      if sent {
        queue := queue + [event];
      }
    }

    method TryReceive()
      modifies this`queue
      ensures queue == if old(queue) == [] then [] else old(queue)[1..]
    {
      if queue != [] {
        queue := queue[1..];
      }
    }
  }

  class Hub {
    var subscribers: map<int, set<Channel>>

    constructor ()
      ensures Valid() && subscribers == map[]
    {
      subscribers := map[];
    }

    function Subscribed(user: int): set<Channel>
      reads this
    {
      if user in subscribers then subscribers[user] else {}
    }

    ghost function Listed(): set<Channel>
      reads this
    {
      set u, c | u in subscribers && c in subscribers[u] :: c
    }

    // Listed channels are open and within capacity, belong to one user, and no user's set is empty.
    ghost predicate Valid()
      reads this, Listed()
    {
      && (forall u :: u in subscribers ==> subscribers[u] != {})
      && (forall u, c :: u in subscribers && c in subscribers[u] ==> !c.closed && |c.queue| <= Capacity)
      && (forall u, v :: u in subscribers && v in subscribers && u != v ==> subscribers[u] !! subscribers[v])
    }

    method Subscribe(user: int) returns (subscription: Subscription)
      requires Valid()
      modifies this
      ensures Valid() && fresh(subscription) && fresh(subscription.channel)
      ensures subscription.hub == this && subscription.user == user && subscription.Armed()
      ensures subscription.channel.queue == [] && !subscription.channel.closed
      ensures subscribers == old(subscribers)[user := old(Subscribed(user)) + {subscription.channel}]
    {
      var channel := new Channel();
      if user !in subscribers {
        subscribers := subscribers[user := {}];
      }
      subscribers := subscribers[user := subscribers[user] + {channel}];
      subscription := new Subscription(this, user, channel);
    }

    // Every subscriber of the user, and nobody else, is delivered the event: a full queue loses its
    // oldest event and the new one and gains the signal to refetch.
    method Publish(user: int, event: Event)
      requires Valid()
      modifies Subscribed(user)
      ensures Valid() && subscribers == old(subscribers)
      ensures forall c :: c in Subscribed(user) ==> c.queue == Deliver(old(c.queue), event) && !c.closed
      ensures forall c :: c in Subscribed(user) ==>
                c.queue == if |old(c.queue)| < 16 then old(c.queue) + [event] else old(c.queue)[1..] + [Resync]
    {
      var todo := Subscribed(user);
      while todo != {}
        invariant todo <= Subscribed(user)
        invariant forall c :: c in todo ==> c.queue == old(c.queue)
        invariant forall c :: c in Subscribed(user) - todo ==> c.queue == Deliver(old(c.queue), event)
        invariant forall c :: c in Subscribed(user) ==> c.closed == old(c.closed)
        decreases todo
      {
        var channel :| channel in todo;
        todo := todo - {channel};
        var sent := channel.TrySend(event);
        if !sent {
          channel.TryReceive();
          var _ := channel.TrySend(Resync);
        }
      }
    }
  }

  // What Subscribe hands out: the channel and a cancel function that acts once.
  class Subscription {
    const hub: Hub
    const user: int
    const channel: Channel
    var spent: bool

    constructor (hub: Hub, user: int, channel: Channel)
      ensures this.hub == hub && this.user == user && this.channel == channel && !spent
    {
      this.hub, this.user, this.channel, spent := hub, user, channel, false;
    }

    ghost predicate Armed()
      reads this, hub
    {
      if spent then channel !in hub.Listed() else channel in hub.Subscribed(user)
    }

    // The first call removes the channel, drops an emptied user and closes the channel; any later
    // call changes nothing.
    method Cancel()
      requires hub.Valid() && Armed()
      modifies this, hub, channel
      ensures hub.Valid() && Armed() && spent
      ensures old(spent) ==> hub.subscribers == old(hub.subscribers) && channel.closed == old(channel.closed)
      ensures !old(spent) ==> !old(channel.closed) && channel.closed
      ensures !old(spent) ==>
                var rest := old(hub.Subscribed(user)) - {channel};
                hub.subscribers == if rest == {} then old(hub.subscribers) - {user} else old(hub.subscribers)[user := rest]
      ensures channel.queue == old(channel.queue)
    {
      if spent {
        return;
      }
      spent := true;
      hub.subscribers := hub.subscribers[user := hub.subscribers[user] - {channel}];
      if hub.subscribers[user] == {} {
        hub.subscribers := hub.subscribers - {user};
      }
      channel.closed := true;
      assert forall u :: u in hub.subscribers ==> u in old(hub.subscribers) && hub.subscribers[u] <= old(hub.subscribers[u]) - {channel};
    }
  }
}
