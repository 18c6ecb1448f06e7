/** Unread counters pushed through the hub: store writes, recounts, publishes channel by channel,
    subscriptions and the clients draining their queues, interleaved.

    A service call writes the store, then works off a list of things to publish.  Recounting and
    publishing the count are separate steps, and a publish visits the user's queues one by one: it
    tries to send, and on a full queue drops the oldest event and then tries to send a refetch
    signal, while the client may drain the queue and other publishers may act in between.
  */
module UnreadProtocol {
  import opened Wrappers
  import opened Events
  import opened Publishing

  // `base` holds the counts at the time of the subscription.
  datatype Client = Client(user: int, base: map<Topic, nat>, greeted: bool, processed: seq<Event>, queue: seq<Event>)

  // Where a publisher is: which queues are still to be visited, and whether it is in the middle of
  // replacing the oldest event of one of them.
  datatype Phase = Picking | Full(id: nat) | Dropped(id: nat)

  datatype Walk = Walk(todo: set<nat>, phase: Phase)

  datatype State = State(
    store: map<Key, nat>,
    writers: map<nat, seq<Task>>,
    walks: map<nat, Walk>,
    clients: map<nat, Client>)

  const Init := State(map[], map[], map[], map[])

  datatype Action =
    | Write(w: nat, changes: map<Key, nat>, tasks: seq<Task>)
    | Read(w: nat)
    | Start(w: nat)
    | Try(w: nat, id: nat)
    | Drop(w: nat)
    | Push(w: nat)
    | Finish(w: nat)
    | Subscribe(id: nat, user: int)
    | Greet(id: nat)
    | Drain(id: nat)
    | Cancel(id: nat)

  function Count(store: map<Key, nat>, k: Key): nat {
    if k in store then store[k] else 0
  }

  // A service call recounts every counter it changes.
  predicate WriteOk(s: State, w: nat, changes: map<Key, nat>, tasks: seq<Task>) {
    && w !in s.writers
    && (forall t :: t in tasks ==> !t.SendCount?)
    && (forall k :: k in changes ==> Recount(k.user, k.topic) in tasks)
  }

  // Every call whose tasks cover the counters it changes is such a write.
  lemma CallIsAWrite(s: State, w: nat, topic: Topic, before: int -> nat, after: int -> nat, tasks: seq<Task>)
    returns (changes: map<Key, nat>)
    requires w !in s.writers && Covers(tasks, topic, before, after)
    requires forall user :: Count(s.store, Key(user, topic)) == before(user)
    ensures WriteOk(s, w, changes, tasks)
    ensures forall user :: Count(s.store + changes, Key(user, topic)) == after(user)
    ensures forall k: Key :: k.topic != topic ==> Count(s.store + changes, k) == Count(s.store, k)
  {
    changes := map t | t in tasks && t.Recount? && t.topic == topic :: Key(t.user, topic) := after(t.user);
    forall user
      ensures Count(s.store + changes, Key(user, topic)) == after(user)
    {
      if Key(user, topic) !in changes {
        assert Recount(user, topic) !in tasks;
      }
    }
  }

  predicate AtTask(writers: map<nat, seq<Task>>, w: nat) {
    w in writers && writers[w] != []
  }

  predicate Publishes(writers: map<nat, seq<Task>>, w: nat) {
    AtTask(writers, w) && !writers[w][0].Recount?
  }

  // The hub's lock: publishers share it, subscribing and cancelling need it alone.
  predicate Enabled(s: State, a: Action) {
    match a
    case Write(w, changes, tasks) => WriteOk(s, w, changes, tasks)
    case Read(w) => AtTask(s.writers, w) && s.writers[w][0].Recount?
    case Start(w) => Publishes(s.writers, w) && w !in s.walks
    case Try(w, id) => WalkAt(s, w) && s.walks[w].phase.Picking? && id in s.walks[w].todo && id in s.clients
    case Drop(w) => WalkAt(s, w) && s.walks[w].phase.Full? && s.walks[w].phase.id in s.clients
    case Push(w) => WalkAt(s, w) && s.walks[w].phase.Dropped? && s.walks[w].phase.id in s.clients
    case Finish(w) => WalkAt(s, w) && s.walks[w] == Walk({}, Picking)
    case Subscribe(id, _) => id !in s.clients && s.walks == map[]
    case Greet(id) => id in s.clients && !s.clients[id].greeted
    case Drain(id) => id in s.clients && s.clients[id].greeted && s.clients[id].queue != []
    case Cancel(id) => id in s.clients && s.walks == map[]
  }

  predicate WalkAt(s: State, w: nat) {
    w in s.walks && Publishes(s.writers, w)
  }

  function Subscribers(clients: map<nat, Client>, user: int): set<nat> {
    set id | id in clients && clients[id].user == user
  }

  // A send that does not block: it changes nothing when the queue is full.
  function Queued(c: Client, event: Event): Client {
    if |c.queue| < Capacity then c.(queue := c.queue + [event]) else c
  }

  function Popped(c: Client): Client {
    c.(queue := if c.queue == [] then [] else c.queue[1..])
  }

  function PublishStep(s: State, a: Action): State
    requires Enabled(s, a) && (a.Start? || a.Try? || a.Drop? || a.Push? || a.Finish?)
  {
    match a
    case Start(w) => s.(walks := s.walks[w := Walk(Subscribers(s.clients, s.writers[w][0].user), Picking)])
    case Try(w, id) =>
      var c, rest := s.clients[id], s.walks[w].todo - {id};
      if |c.queue| < Capacity then
        s.(clients := s.clients[id := Queued(c, EventOf(s.writers[w][0]))], walks := s.walks[w := Walk(rest, Picking)])
      else s.(walks := s.walks[w := Walk(rest, Full(id))])
    case Drop(w) =>
      var id := s.walks[w].phase.id;
      s.(clients := s.clients[id := Popped(s.clients[id])], walks := s.walks[w := s.walks[w].(phase := Dropped(id))])
    case Push(w) =>
      var id := s.walks[w].phase.id;
      s.(clients := s.clients[id := Queued(s.clients[id], Resync)], walks := s.walks[w := s.walks[w].(phase := Picking)])
    case Finish(w) => s.(writers := s.writers[w := s.writers[w][1..]], walks := s.walks - {w})
  }

  function Next(s: State, a: Action): State
    requires Enabled(s, a)
  {
    match a
    case Write(w, changes, tasks) => s.(store := s.store + changes, writers := s.writers[w := tasks])
    case Read(w) =>
      var t := s.writers[w][0];
      s.(writers := s.writers[w := [SendCount(t.user, t.topic, Count(s.store, Key(t.user, t.topic)))] + s.writers[w][1..]])
    case Subscribe(id, user) =>
      var base := map[Notifications := Count(s.store, Key(user, Notifications)), Messages := Count(s.store, Key(user, Messages))];
      s.(clients := s.clients[id := Client(user, base, false, [], [])])
    case Greet(id) =>
      var c := s.clients[id];
      s.(clients := s.clients[id := c.(greeted := true,
                                       processed := [Unread(Notifications, Count(s.store, Key(c.user, Notifications)))])])
    case Drain(id) =>
      var c := s.clients[id];
      s.(clients := s.clients[id := c.(processed := c.processed + [c.queue[0]], queue := c.queue[1..])])
    case Cancel(id) => s.(clients := s.clients - {id})
    case _ => PublishStep(s, a)
  }

  // A visit that nobody disturbs does to the queue what one call of the hub's Publish does.
  lemma UndisturbedVisitDelivers(s: State, w: nat, id: nat)
    requires Enabled(s, Try(w, id)) && |s.clients[id].queue| <= Capacity
    ensures var queue, event, tried := s.clients[id].queue, EventOf(s.writers[w][0]), Next(s, Try(w, id));
            if tried.walks[w].phase.Picking? then tried.clients[id].queue == Deliver(queue, event)
            else
              && Enabled(tried, Drop(w)) && Enabled(Next(tried, Drop(w)), Push(w))
              && Next(Next(tried, Drop(w)), Push(w)).clients[id].queue == Deliver(queue, event)
              && Next(Next(tried, Drop(w)), Push(w)).walks[w] == Walk(s.walks[w].todo - {id}, Picking)
  {
    var tried := Next(s, Try(w, id));
    if !tried.walks[w].phase.Picking? {
      var dropped := Next(tried, Drop(w));
      assert dropped.clients[id].queue == s.clients[id].queue[1..];
    }
  }

  // ---------------------------------------------------------------------------------------------
  // Serialised runs
  // ---------------------------------------------------------------------------------------------

  predicate IsSending(writers: map<nat, seq<Task>>, w: nat, k: Key) {
    AtTask(writers, w) && writers[w][0].SendCount? && Key(writers[w][0].user, writers[w][0].topic) == k
  }

  // Two rules under which one user's publishes are serialised: no counter is recounted while an
  // earlier count of it is on its way, and no two publishers are at one user's queues at once.
  datatype Rules = Rules(recounts: bool, publishes: bool)

  const Serial := Rules(true, true)

  predicate Obeys(rules: Rules, s: State, a: Action)
    requires Enabled(s, a)
  {
    && (rules.recounts && a.Read? ==>
          var t := s.writers[a.w][0];
          forall v :: v in s.writers ==> !IsSending(s.writers, v, Key(t.user, t.topic)))
    && (rules.publishes && a.Start? ==>
          forall v :: v in s.walks && Publishes(s.writers, v) ==> s.writers[v][0].user != s.writers[a.w][0].user)
  }

  function Run(rules: Rules, acts: seq<Action>): Option<State> {
    if acts == [] then Some(Init)
    else
      var before := Run(rules, acts[..|acts| - 1]);
      var a := acts[|acts| - 1];
      if before.Some? && Enabled(before.value, a) && Obeys(rules, before.value, a) then Some(Next(before.value, a))
      else None
  }

  // ---------------------------------------------------------------------------------------------
  // What a client believes
  // ---------------------------------------------------------------------------------------------

  // Everything this client has been shown or will be shown once it drains its queue.
  function Stream(c: Client): seq<Event> {
    c.processed + c.queue
  }

  // The client holds the current count, or was told to refetch, or never needed an update.
  predicate Converged(store: map<Key, nat>, c: Client, topic: Topic) {
    match LastRelevant(Stream(c), topic)
    case Some(Unread(_, n)) => n == Count(store, Key(c.user, topic))
    case Some(_) => true
    case None => topic in c.base && c.base[topic] == Count(store, Key(c.user, topic))
  }

  // A recount of this counter is still to come.
  ghost predicate RecountDue(writers: map<nat, seq<Task>>, k: Key) {
    exists w :: w in writers && Recount(k.user, k.topic) in writers[w]
  }

  // A count of this topic still has to reach this client.
  predicate Awaits(s: State, w: nat, id: nat, topic: Topic)
    requires id in s.clients
  {
    IsSending(s.writers, w, Key(s.clients[id].user, topic)) && (w in s.walks ==> id in s.walks[w].todo)
  }

  // A publisher has found this client's queue full and not yet tried to send the refetch signal.
  predicate Replacing(s: State, w: nat, id: nat) {
    w in s.walks && !s.walks[w].phase.Picking? && s.walks[w].phase.id == id
  }

  // Something about this counter is still on its way to this client.
  ghost predicate Pending(s: State, id: nat, topic: Topic)
    requires id in s.clients
  {
    || RecountDue(s.writers, Key(s.clients[id].user, topic))
    || (exists w :: Awaits(s, w, id, topic))
    || (exists w :: Replacing(s, w, id))
  }

  // ---------------------------------------------------------------------------------------------
  // The invariant of serialised runs
  // ---------------------------------------------------------------------------------------------

  ghost predicate ClientsInv(clients: map<nat, Client>) {
    forall id :: id in clients ==> |clients[id].queue| <= Capacity && (clients[id].greeted || clients[id].processed == [])
  }

  // Counts are sent first, one per counter at a time, and are current unless a recount is due.
  ghost predicate WritersInv(store: map<Key, nat>, writers: map<nat, seq<Task>>) {
    && (forall w, i :: w in writers && 0 < i < |writers[w]| ==> !writers[w][i].SendCount?)
    && (forall v, w, k :: IsSending(writers, v, k) && IsSending(writers, w, k) ==> v == w)
    && (forall w, k :: IsSending(writers, w, k) && !RecountDue(writers, k) ==> writers[w][0].count == Count(store, k))
  }

  // A publisher visits queues of its user, and has made room where it has dropped an event.
  ghost predicate WalkOk(s: State, w: nat)
    requires w in s.walks
  {
    && Publishes(s.writers, w)
    && s.walks[w].todo <= Subscribers(s.clients, s.writers[w][0].user)
    && (!s.walks[w].phase.Picking? ==> s.walks[w].phase.id in Subscribers(s.clients, s.writers[w][0].user))
    && (s.walks[w].phase.Dropped? ==> |s.clients[s.walks[w].phase.id].queue| < Capacity)
  }

  ghost predicate WalksInv(s: State) {
    && (forall w :: w in s.walks ==> WalkOk(s, w))
    && (forall v, w :: v in s.walks && w in s.walks && s.writers[v][0].user == s.writers[w][0].user ==> v == w)
  }

  ghost predicate Settled(s: State) {
    forall id, topic :: id in s.clients && !Pending(s, id, topic) ==> Converged(s.store, s.clients[id], topic)
  }

  ghost predicate Inv(s: State) {
    ClientsInv(s.clients) && WritersInv(s.store, s.writers) && WalksInv(s) && Settled(s)
  }

  // ---------------------------------------------------------------------------------------------
  // Writes and recounts
  // ---------------------------------------------------------------------------------------------

  // What stays pending after a step that leaves the walks and the clients alone.
  lemma PendingStays(s: State, s': State, id: nat, topic: Topic)
    requires id in s.clients && s'.clients == s.clients && s'.walks == s.walks
    requires RecountDue(s.writers, Key(s.clients[id].user, topic)) ==> RecountDue(s'.writers, Key(s.clients[id].user, topic))
    requires forall w :: IsSending(s.writers, w, Key(s.clients[id].user, topic)) ==>
                         IsSending(s'.writers, w, Key(s.clients[id].user, topic))
    ensures Pending(s, id, topic) ==> Pending(s', id, topic)
  {
    forall w | Awaits(s, w, id, topic)
      ensures Awaits(s', w, id, topic)
    {
    }
    forall w | Replacing(s, w, id)
      ensures Replacing(s', w, id)
    {
    }
  }

  lemma WriteKeepsWriters(s: State, w: nat, changes: map<Key, nat>, tasks: seq<Task>)
    requires WritersInv(s.store, s.writers) && WriteOk(s, w, changes, tasks)
    ensures WritersInv(s.store + changes, s.writers[w := tasks])
    ensures forall v, k :: IsSending(s.writers[w := tasks], v, k) <==> IsSending(s.writers, v, k)
    ensures forall k :: RecountDue(s.writers, k) ==> RecountDue(s.writers[w := tasks], k)
    ensures forall k :: k in changes ==> RecountDue(s.writers[w := tasks], k)
  {
    var writers := s.writers[w := tasks];
    forall v, k
      ensures IsSending(writers, v, k) <==> IsSending(s.writers, v, k)
    {
    }
    forall k | RecountDue(s.writers, k)
      ensures RecountDue(writers, k)
    {
      var v :| v in s.writers && Recount(k.user, k.topic) in s.writers[v];
      assert v in writers && Recount(k.user, k.topic) in writers[v];
    }
    forall k | k in changes
      ensures RecountDue(writers, k)
    {
      assert w in writers && Recount(k.user, k.topic) in writers[w];
    }
  }

  lemma WriteKeepsInv(s: State, w: nat, changes: map<Key, nat>, tasks: seq<Task>)
    requires Inv(s) && Enabled(s, Write(w, changes, tasks))
    ensures Inv(Next(s, Write(w, changes, tasks)))
  {
    var s' := Next(s, Write(w, changes, tasks));
    WriteKeepsWriters(s, w, changes, tasks);
    forall v | v in s'.walks
      ensures WalkOk(s', v) && v != w
    {
      assert WalkOk(s, v);
    }
    forall id, topic | id in s'.clients && !Pending(s', id, topic)
      ensures Converged(s'.store, s'.clients[id], topic)
    {
      PendingStays(s, s', id, topic);
      assert Key(s.clients[id].user, topic) !in changes;
    }
  }

  lemma ReadKeepsWriters(s: State, w: nat)
    requires WritersInv(s.store, s.writers) && Enabled(s, Read(w)) && Obeys(Serial, s, Read(w))
    ensures var writers, t := Next(s, Read(w)).writers, s.writers[w][0];
            && WritersInv(s.store, writers)
            && (forall v, k :: IsSending(writers, v, k) <==> IsSending(s.writers, v, k) || (v == w && k == Key(t.user, t.topic)))
            && forall k :: k != Key(t.user, t.topic) && RecountDue(s.writers, k) ==> RecountDue(writers, k)
  {
    var writers, t := Next(s, Read(w)).writers, s.writers[w][0];
    var key := Key(t.user, t.topic);
    forall v, k
      ensures IsSending(writers, v, k) <==> IsSending(s.writers, v, k) || (v == w && k == key)
    {
    }
    forall k | k != key && RecountDue(s.writers, k)
      ensures RecountDue(writers, k)
    {
      var v :| v in s.writers && Recount(k.user, k.topic) in s.writers[v];
      var i :| 0 <= i < |s.writers[v]| && s.writers[v][i] == Recount(k.user, k.topic);
      assert v in writers && writers[v][i] == Recount(k.user, k.topic);
    }
  }

  lemma ReadKeepsInv(s: State, w: nat)
    requires Inv(s) && Enabled(s, Read(w)) && Obeys(Serial, s, Read(w))
    ensures Inv(Next(s, Read(w)))
  {
    var s', t := Next(s, Read(w)), s.writers[w][0];
    ReadKeepsWriters(s, w);
    forall v | v in s'.walks
      ensures WalkOk(s', v) && v != w
    {
      assert WalkOk(s, v);
    }
    forall id, topic | id in s'.clients && !Pending(s', id, topic)
      ensures Converged(s'.store, s'.clients[id], topic)
    {
      if Key(s.clients[id].user, topic) == Key(t.user, t.topic) {
        assert Awaits(s', w, id, topic);
      } else {
        PendingStays(s, s', id, topic);
      }
    }
  }

  // ---------------------------------------------------------------------------------------------
  // Publishing
  // ---------------------------------------------------------------------------------------------

  lemma StartKeepsInv(s: State, w: nat)
    requires Inv(s) && Enabled(s, Start(w)) && Obeys(Serial, s, Start(w))
    ensures Inv(Next(s, Start(w)))
  {
    var s' := Next(s, Start(w));
    forall v | v in s'.walks
      ensures WalkOk(s', v)
    {
      assert v != w ==> WalkOk(s, v);
    }
    forall id, topic | id in s'.clients && !Pending(s', id, topic)
      ensures !Pending(s, id, topic)
    {
      forall v | Awaits(s, v, id, topic)
        ensures Awaits(s', v, id, topic)
      {
      }
      forall v | Replacing(s, v, id)
        ensures Replacing(s', v, id)
      {
      }
    }
  }

  // The part of a step at one queue that concerns the publishers: the others stay right.
  lemma QueueStepKeepsWalks(s: State, s': State, w: nat, id: nat)
    requires WalksInv(s) && w in s.walks && id in Subscribers(s.clients, s.writers[w][0].user)
    requires s'.writers == s.writers && w in s'.walks && s'.walks == s.walks[w := s'.walks[w]]
    requires id in s'.clients && s'.clients == s.clients[id := s'.clients[id]] && s'.clients[id].user == s.clients[id].user
    requires s'.walks[w].todo <= s.walks[w].todo
    requires !s'.walks[w].phase.Picking? ==> s'.walks[w].phase.id == id
    requires s'.walks[w].phase.Dropped? ==> |s'.clients[id].queue| < Capacity
    ensures WalksInv(s')
  {
    assert forall user :: Subscribers(s'.clients, user) == Subscribers(s.clients, user);
    forall v | v in s'.walks
      ensures WalkOk(s', v)
    {
      assert WalkOk(s, v);
      if v != w && s.walks[v].phase.Dropped? {
        assert s.walks[v].phase.id in Subscribers(s.clients, s.writers[v][0].user);
        assert s.walks[v].phase.id != id;
      }
    }
  }

  // Another client's pending news stays pending through a step at this one's queue.
  lemma OthersPendingStays(s: State, s': State, w: nat, id: nat, other: nat, topic: Topic)
    requires other in s.clients && other in s'.clients && s'.clients[other].user == s.clients[other].user && other != id
    requires s'.writers == s.writers && w in s.walks && w in s'.walks && s'.walks == s.walks[w := s'.walks[w]]
    requires s'.walks[w].todo >= s.walks[w].todo - {id}
    requires s.walks[w].phase.Picking? || s.walks[w].phase.id == id
    ensures Pending(s, other, topic) ==> Pending(s', other, topic)
  {
    forall v | Awaits(s, v, other, topic)
      ensures Awaits(s', v, other, topic)
    {
    }
    forall v | Replacing(s, v, other)
      ensures Replacing(s', v, other)
    {
    }
  }

  // After a send that succeeds the client is up to date with what it was sent.
  lemma SentIsLast(s: State, w: nat, id: nat, topic: Topic)
    requires Inv(s) && Enabled(s, Try(w, id)) && |s.clients[id].queue| < Capacity
    requires !Pending(Next(s, Try(w, id)), id, topic)
    ensures Converged(s.store, Next(s, Try(w, id)).clients[id], topic)
  {
    var s', c, t := Next(s, Try(w, id)), s.clients[id], s.writers[w][0];
    assert WalkOk(s, w);
    assert s'.clients[id] == c.(queue := c.queue + [EventOf(t)]);
    assert Stream(s'.clients[id]) == Stream(c) + [EventOf(t)];
    LastOfOneMore(Stream(c), EventOf(t), topic);
    if t.SendCount? && t.topic == topic {
      assert IsSending(s.writers, w, Key(c.user, topic));
    } else {
      UnsentStaysPending(s, w, id, topic);
    }
  }

  lemma UnsentStaysPending(s: State, w: nat, id: nat, topic: Topic)
    requires Inv(s) && Enabled(s, Try(w, id)) && |s.clients[id].queue| < Capacity
    requires !(s.writers[w][0].SendCount? && s.writers[w][0].topic == topic)
    ensures Pending(s, id, topic) ==> Pending(Next(s, Try(w, id)), id, topic)
  {
    var s' := Next(s, Try(w, id));
    forall v | Awaits(s, v, id, topic)
      ensures Awaits(s', v, id, topic)
    {
    }
    assert forall v :: Replacing(s, v, id) ==> Replacing(s', v, id);
  }

  lemma TryKeepsInv(s: State, w: nat, id: nat)
    requires Inv(s) && Enabled(s, Try(w, id))
    ensures Inv(Next(s, Try(w, id)))
  {
    var s' := Next(s, Try(w, id));
    assert WalkOk(s, w);
    QueueStepKeepsWalks(s, s', w, id);
    forall other, topic | other in s'.clients && !Pending(s', other, topic)
      ensures Converged(s'.store, s'.clients[other], topic)
    {
      if other != id {
        OthersPendingStays(s, s', w, id, other, topic);
      } else if |s.clients[id].queue| < Capacity {
        SentIsLast(s, w, id, topic);
      } else {
        assert Replacing(s', w, id);
      }
    }
  }

  lemma DropKeepsInv(s: State, w: nat)
    requires Inv(s) && Enabled(s, Drop(w))
    ensures Inv(Next(s, Drop(w)))
  {
    var s', id := Next(s, Drop(w)), s.walks[w].phase.id;
    assert WalkOk(s, w);
    QueueStepKeepsWalks(s, s', w, id);
    assert Replacing(s', w, id);
    forall other, topic | other in s'.clients && !Pending(s', other, topic)
      ensures Converged(s'.store, s'.clients[other], topic)
    {
      OthersPendingStays(s, s', w, id, other, topic);
    }
  }

  // With the queues to itself a publisher always finds room for the refetch signal.
  lemma PushKeepsInv(s: State, w: nat)
    requires Inv(s) && Enabled(s, Push(w))
    ensures Inv(Next(s, Push(w)))
  {
    var s', id := Next(s, Push(w)), s.walks[w].phase.id;
    var c := s.clients[id];
    assert WalkOk(s, w);
    QueueStepKeepsWalks(s, s', w, id);
    assert Stream(s'.clients[id]) == Stream(c) + [Resync];
    forall other, topic | other in s'.clients && !Pending(s', other, topic)
      ensures Converged(s'.store, s'.clients[other], topic)
    {
      if other == id {
        LastOfOneMore(Stream(c), Resync, topic);
      } else {
        OthersPendingStays(s, s', w, id, other, topic);
      }
    }
  }

  lemma FinishKeepsWriters(store: map<Key, nat>, writers: map<nat, seq<Task>>, w: nat)
    requires WritersInv(store, writers) && Publishes(writers, w)
    ensures WritersInv(store, writers[w := writers[w][1..]])
    ensures forall v, k :: IsSending(writers[w := writers[w][1..]], v, k) <==> v != w && IsSending(writers, v, k)
    ensures forall k :: RecountDue(writers, k) ==> RecountDue(writers[w := writers[w][1..]], k)
  {
    var after := writers[w := writers[w][1..]];
    forall v, k
      ensures IsSending(after, v, k) <==> v != w && IsSending(writers, v, k)
    {
    }
    forall k | RecountDue(writers, k)
      ensures RecountDue(after, k)
    {
      var v :| v in writers && Recount(k.user, k.topic) in writers[v];
      var i :| 0 <= i < |writers[v]| && writers[v][i] == Recount(k.user, k.topic);
      assert v in after && after[v][if v == w then i - 1 else i] == Recount(k.user, k.topic);
    }
  }

  lemma FinishKeepsInv(s: State, w: nat)
    requires Inv(s) && Enabled(s, Finish(w))
    ensures Inv(Next(s, Finish(w)))
  {
    var s' := Next(s, Finish(w));
    FinishKeepsWriters(s.store, s.writers, w);
    forall v | v in s'.walks
      ensures WalkOk(s', v)
    {
      assert WalkOk(s, v);
    }
    forall id, topic | id in s'.clients && !Pending(s', id, topic)
      ensures !Pending(s, id, topic)
    {
      forall v | Awaits(s, v, id, topic)
        ensures Awaits(s', v, id, topic)
      {
      }
      forall v | Replacing(s, v, id)
        ensures Replacing(s', v, id)
      {
      }
    }
  }

  // ---------------------------------------------------------------------------------------------
  // The clients' own steps
  // ---------------------------------------------------------------------------------------------

  // The initial count is read after the subscription, so whatever it misses is in the queue.
  lemma GreetConverges(store: map<Key, nat>, c: Client, topic: Topic)
    requires Converged(store, c, topic) && c.processed == []
    ensures Converged(store, c.(greeted := true, processed := [Unread(Notifications, Count(store, Key(c.user, Notifications)))]), topic)
  {
    var shown := [Unread(Notifications, Count(store, Key(c.user, Notifications)))];
    LastRelevantOfConcat(shown, c.queue, topic);
    LastRelevantOfConcat([], c.queue, topic);
    assert shown[..0] == [];
  }

  // A step of a client leaves what is pending for the others, and for itself, as it was.
  lemma ClientStepKeepsPending(s: State, a: Action, id: nat, topic: Topic)
    requires Enabled(s, a) && (a.Subscribe? || a.Greet? || a.Drain? || a.Cancel?)
    requires id in s.clients && id in Next(s, a).clients
    ensures Pending(s, id, topic) <==> Pending(Next(s, a), id, topic)
  {
    var s' := Next(s, a);
    assert s'.clients[id].user == s.clients[id].user;
    forall v
      ensures Awaits(s, v, id, topic) <==> Awaits(s', v, id, topic)
      ensures Replacing(s, v, id) <==> Replacing(s', v, id)
    {
    }
  }

  lemma ClientStepKeepsWalks(s: State, a: Action)
    requires WalksInv(s) && Enabled(s, a) && (a.Subscribe? || a.Greet? || a.Drain? || a.Cancel?)
    ensures WalksInv(Next(s, a))
  {
    var s' := Next(s, a);
    forall v | v in s'.walks
      ensures WalkOk(s', v)
    {
      assert WalkOk(s, v);
    }
  }

  lemma ClientStepKeepsInv(s: State, a: Action)
    requires Inv(s) && Enabled(s, a) && (a.Subscribe? || a.Greet? || a.Drain? || a.Cancel?)
    ensures Inv(Next(s, a))
  {
    var s' := Next(s, a);
    ClientStepKeepsWalks(s, a);
    forall id, topic | id in s'.clients && !Pending(s', id, topic)
      ensures Converged(s.store, s'.clients[id], topic)
    {
      if a.Subscribe? && id == a.id {
        NewClientConverges(s, id, a.user, topic);
      } else {
        ClientStepKeepsPending(s, a, id, topic);
        ClientStepConverges(s, a, id, topic);
      }
    }
  }

  lemma NewClientConverges(s: State, id: nat, user: int, topic: Topic)
    requires Enabled(s, Subscribe(id, user))
    ensures Converged(s.store, Next(s, Subscribe(id, user)).clients[id], topic)
  {
    assert Stream(Next(s, Subscribe(id, user)).clients[id]) == [];
    assert topic == Notifications || topic == Messages;
  }

  lemma ClientStepConverges(s: State, a: Action, id: nat, topic: Topic)
    requires Enabled(s, a) && (a.Subscribe? || a.Greet? || a.Drain? || a.Cancel?)
    requires id in s.clients && id in Next(s, a).clients && ClientsInv(s.clients)
    requires Converged(s.store, s.clients[id], topic)
    ensures Converged(s.store, Next(s, a).clients[id], topic)
  {
    if a.Greet? && id == a.id {
      GreetConverges(s.store, s.clients[id], topic);
    } else {
      assert Stream(Next(s, a).clients[id]) == Stream(s.clients[id]);
    }
  }

  lemma StepKeepsInv(s: State, a: Action)
    requires Inv(s) && Enabled(s, a) && Obeys(Serial, s, a)
    ensures Inv(Next(s, a))
  {
    match a
    case Write(w, changes, tasks) => WriteKeepsInv(s, w, changes, tasks);
    case Read(w) => ReadKeepsInv(s, w);
    case Start(w) => StartKeepsInv(s, w);
    case Try(w, id) => TryKeepsInv(s, w, id);
    case Drop(w) => DropKeepsInv(s, w);
    case Push(w) => PushKeepsInv(s, w);
    case Finish(w) => FinishKeepsInv(s, w);
    case _ => ClientStepKeepsInv(s, a);
  }

  lemma {:induction false} SerialRunsKeepInv(acts: seq<Action>)
    requires Run(Serial, acts).Some?
    ensures Inv(Run(Serial, acts).value)
  {
    if acts != [] {
      SerialRunsKeepInv(acts[..|acts| - 1]);
      StepKeepsInv(Run(Serial, acts[..|acts| - 1]).value, acts[|acts| - 1]);
    }
  }

  // ---------------------------------------------------------------------------------------------
  // Convergence
  // ---------------------------------------------------------------------------------------------

  // In every run that serialises each user's recounts and publishes, at whatever moment nothing
  // about a counter is still on its way to a subscriber, its stream ends, for that counter, in the
  // current value or in a refetch signal; if it holds neither, the counter is as it was when the
  // client subscribed.
  lemma ClientsConverge(acts: seq<Action>, id: nat, topic: Topic)
    requires Run(Serial, acts).Some? && id in Run(Serial, acts).value.clients
    requires !Pending(Run(Serial, acts).value, id, topic)
    ensures Converged(Run(Serial, acts).value.store, Run(Serial, acts).value.clients[id], topic)
  {
    SerialRunsKeepInv(acts);
  }

  // A client that has drained its queue was shown the current count, or a later refetch signal.
  lemma DrainedClientIsCurrent(acts: seq<Action>, id: nat)
    requires Run(Serial, acts).Some? && id in Run(Serial, acts).value.clients
    requires var s := Run(Serial, acts).value;
             s.clients[id].greeted && s.clients[id].queue == [] && !Pending(s, id, Notifications)
    ensures var s := Run(Serial, acts).value;
            var last := LastRelevant(s.clients[id].processed, Notifications);
            last == Some(Resync) || last == Some(Unread(Notifications, Count(s.store, Key(s.clients[id].user, Notifications))))
  {
    var s := Run(Serial, acts).value;
    ClientsConverge(acts, id, Notifications);
    GreetedHasCount(acts, id);
    assert Stream(s.clients[id]) == s.clients[id].processed;
    LastIsRelevant(s.clients[id].processed, Notifications);
  }

  // Once no call has anything left to publish, every client holds the current counts: the last thing
  // it was or will be shown about a topic is the current count or a refetch signal, and if there is
  // none the count is what it was when the client subscribed.
  lemma QuietClientsAreCurrent(acts: seq<Action>, id: nat, topic: Topic)
    requires Run(Serial, acts).Some? && id in Run(Serial, acts).value.clients
    requires var s := Run(Serial, acts).value; forall w :: w in s.writers ==> s.writers[w] == []
    ensures var s := Run(Serial, acts).value;
            var c := s.clients[id];
            var now := Count(s.store, Key(c.user, topic));
            match LastRelevant(c.processed + c.queue, topic)
            case None => topic in c.base && c.base[topic] == now
            case Some(e) => e == Resync || e == Unread(topic, now)
  {
    var s := Run(Serial, acts).value;
    assert !Pending(s, id, topic) by {
      SerialRunsKeepInv(acts);
      assert forall w :: w in s.walks ==> WalkOk(s, w);
    }
    ClientsConverge(acts, id, topic);
    LastIsRelevant(s.clients[id].processed + s.clients[id].queue, topic);
  }

  lemma {:induction false} LastIsRelevant(events: seq<Event>, topic: Topic)
    ensures LastRelevant(events, topic).Some? ==> Relevant(LastRelevant(events, topic).value, topic)
    ensures (exists i :: 0 <= i < |events| && Relevant(events[i], topic)) ==> LastRelevant(events, topic).Some?
  {
    if events != [] {
      LastIsRelevant(events[..|events| - 1], topic);
    }
  }

  lemma GreetingStays(s: State, a: Action, id: nat)
    requires Enabled(s, a) && id in Next(s, a).clients && Next(s, a).clients[id].greeted
    ensures id in s.clients && s.clients[id].greeted ==> s.clients[id].processed <= Next(s, a).clients[id].processed
    ensures !(id in s.clients && s.clients[id].greeted) ==>
              Next(s, a).clients[id].processed != [] && Relevant(Next(s, a).clients[id].processed[0], Notifications)
  {
  }

  lemma {:induction false} GreetedHasCount(acts: seq<Action>, id: nat)
    requires Run(Serial, acts).Some? && id in Run(Serial, acts).value.clients && Run(Serial, acts).value.clients[id].greeted
    ensures var c := Run(Serial, acts).value.clients[id];
            c.processed != [] && Relevant(c.processed[0], Notifications)
    ensures LastRelevant(Run(Serial, acts).value.clients[id].processed, Notifications).Some?
  {
    var s, a := Run(Serial, acts[..|acts| - 1]).value, acts[|acts| - 1];
    GreetingStays(s, a, id);
    if id in s.clients && s.clients[id].greeted {
      GreetedHasCount(acts[..|acts| - 1], id);
    }
    LastIsRelevant(Run(Serial, acts).value.clients[id].processed, Notifications);
  }

  // ---------------------------------------------------------------------------------------------
  // Neither rule can be dropped
  // ---------------------------------------------------------------------------------------------

  ghost predicate Reachable(rules: Rules, s: State) {
    exists acts :: Run(rules, acts) == Some(s)
  }

  // A subscriber whom nothing is on its way to, with an outdated count and no refetch signal.
  ghost predicate LeftBehind(s: State, id: nat, topic: Topic) {
    id in s.clients && !Pending(s, id, topic) && !Converged(s.store, s.clients[id], topic)
  }

  lemma Step(rules: Rules, s: State, a: Action)
    requires Reachable(rules, s) && Enabled(s, a) && Obeys(rules, s, a)
    ensures Reachable(rules, Next(s, a))
  {
    var acts :| Run(rules, acts) == Some(s);
    assert (acts + [a])[..|acts|] == acts;
    assert Run(rules, acts + [a]) == Some(Next(s, a));
  }

  const K: Key := Key(7, Notifications)

  const Greeted: Client := Client(7, map[Notifications := 0, Messages := 0], true, [Unread(Notifications, 0)], [])

  // The only client is the greeted one, with these events in its queue.
  predicate Alone(s: State, queue: seq<Event>) {
    s.clients == map[0 := Greeted.(queue := queue)]
  }

  lemma Begin(rules: Rules) returns (s: State)
    ensures Reachable(rules, s) && Alone(s, []) && s.store == map[] && s.writers == map[] && s.walks == map[]
  {
    assert Run(rules, []) == Some(Init);
    Step(rules, Init, Subscribe(0, 7));
    var s0 := Next(Init, Subscribe(0, 7));
    Step(rules, s0, Greet(0));
    s := Next(s0, Greet(0));
  }

  // One writer sets the counter and recounts it.
  lemma Recounted(rules: Rules, s: State, w: nat, n: nat) returns (t: State)
    requires Reachable(rules, s) && w !in s.writers
    requires rules.recounts ==> forall v :: v in s.writers ==> !IsSending(s.writers, v, K)
    ensures Reachable(rules, t) && t.walks == s.walks && t.clients == s.clients
    ensures t.store == s.store[K := n] && t.writers == s.writers[w := [SendCount(7, Notifications, n)]]
  {
    t := Changed(rules, s, w, n);
    Step(rules, t, Read(w));
    assert [SendCount(7, Notifications, n)] + t.writers[w][1..] == [SendCount(7, Notifications, n)];
    t := Next(t, Read(w));
  }

  lemma Changed(rules: Rules, s: State, w: nat, n: nat) returns (t: State)
    requires Reachable(rules, s) && w !in s.writers
    ensures Reachable(rules, t) && t.walks == s.walks && t.clients == s.clients
    ensures t.store == s.store[K := n] && t.writers == s.writers[w := [Recount(7, Notifications)]]
  {
    var due := [Recount(7, Notifications)];
    assert due[0] == Recount(7, Notifications);
    Step(rules, s, Write(w, map[K := n], due));
    t := Next(s, Write(w, map[K := n], due));
  }

  // A publisher goes to the queues.
  lemma Started(rules: Rules, s: State, w: nat, queue: seq<Event>) returns (t: State)
    requires Reachable(rules, s) && Enabled(s, Start(w)) && Obeys(rules, s, Start(w))
    requires Alone(s, queue) && s.writers[w][0].user == 7
    ensures Reachable(rules, t) && t.store == s.store && t.writers == s.writers && t.clients == s.clients
    ensures t.walks == s.walks[w := Walk({0}, Picking)]
  {
    Step(rules, s, Start(w));
    assert Subscribers(s.clients, 7) == {0};
    t := Next(s, Start(w));
  }

  // It visits the only queue.
  lemma Tried(rules: Rules, s: State, w: nat, queue: seq<Event>) returns (t: State)
    requires Reachable(rules, s) && Publishes(s.writers, w) && Alone(s, queue)
    requires w in s.walks && s.walks[w] == Walk({0}, Picking)
    ensures Reachable(rules, t) && t.store == s.store && t.writers == s.writers
    ensures t.walks == s.walks[w := if |queue| < Capacity then Walk({}, Picking) else Walk({}, Full(0))]
    ensures Alone(t, if |queue| < Capacity then queue + [EventOf(s.writers[w][0])] else queue)
  {
    Step(rules, s, Try(w, 0));
    assert {0} - {0} == {};
    t := Next(s, Try(w, 0));
    assert t.clients.Keys == {0};
  }

  // It is done.
  lemma Finished(rules: Rules, s: State, w: nat) returns (t: State)
    requires Reachable(rules, s) && Publishes(s.writers, w) && w in s.walks && s.walks[w] == Walk({}, Picking)
    ensures Reachable(rules, t) && t.store == s.store && t.clients == s.clients
    ensures t.writers == s.writers[w := s.writers[w][1..]] && t.walks == s.walks - {w}
  {
    Step(rules, s, Finish(w));
    t := Next(s, Finish(w));
  }

  // A whole publish with nobody else at the queues and room in the only one.
  lemma Published(rules: Rules, s: State, w: nat, queue: seq<Event>) returns (t: State)
    requires Reachable(rules, s) && s.walks == map[] && Alone(s, queue) && |queue| < Capacity
    requires Publishes(s.writers, w) && s.writers[w][0].user == 7
    ensures Reachable(rules, t) && t.store == s.store && t.walks == map[]
    ensures t.writers == s.writers[w := s.writers[w][1..]] && Alone(t, queue + [EventOf(s.writers[w][0])])
  {
    var s1 := Started(rules, s, w, queue);
    var s2 := Tried(rules, s1, w, queue);
    t := Finished(rules, s2, w);
    assert t.walks.Keys == {};
  }

  // With all tasks done and the last relevant event an old count, the client is left behind.
  lemma OldCountIsLast(s: State, queue: seq<Event>)
    requires Alone(s, queue) && s.walks == map[] && forall w :: w in s.writers ==> s.writers[w] == []
    requires LastRelevant(Greeted.processed + queue, Notifications).Some?
    requires LastRelevant(Greeted.processed + queue, Notifications).value.Unread?
    requires LastRelevant(Greeted.processed + queue, Notifications).value.count != Count(s.store, K)
    ensures LeftBehind(s, 0, Notifications)
  {
  }

  // Two writers recount in one order and publish in the other: without the first rule the client
  // is left with the older count.
  lemma RecountsMustNotOverlap()
    ensures exists s :: Reachable(Rules(false, true), s) && LeftBehind(s, 0, Notifications)
  {
    var rules := Rules(false, true);
    var s := Begin(rules);
    s := Recounted(rules, s, 0, 1);
    s := Recounted(rules, s, 1, 2);
    assert s.writers[0] == [SendCount(7, Notifications, 1)] && s.writers[1] == [SendCount(7, Notifications, 2)];
    s := Published(rules, s, 1, []);
    assert [] + [Unread(Notifications, 2)] == [Unread(Notifications, 2)];
    s := Published(rules, s, 0, [Unread(Notifications, 2)]);
    var queue := [Unread(Notifications, 2)] + [Unread(Notifications, 1)];
    assert Greeted.processed + queue == (Greeted.processed + [Unread(Notifications, 2)]) + [Unread(Notifications, 1)];
    LastOfOneMore(Greeted.processed + [Unread(Notifications, 2)], Unread(Notifications, 1), Notifications);
    OldCountIsLast(s, queue);
  }

  function Others(n: nat): (events: seq<Event>)
    ensures |events| == n && forall i :: 0 <= i < n ==> events[i] == Other("x")
  {
    seq(n, i => Other("x"))
  }

  // The queue after some announcements that nobody has read.
  lemma {:induction false} Announced(rules: Rules, n: nat) returns (s: State)
    requires n <= Capacity
    ensures Reachable(rules, s) && Alone(s, Others(n)) && s.store == map[] && s.walks == map[]
    ensures forall w :: w in s.writers ==> w < n && s.writers[w] == []
  {
    if n == 0 {
      s := Begin(rules);
      assert Others(0) == [];
    } else {
      s := Announced(rules, n - 1);
      s := Written(rules, s, n - 1);
      s := Published(rules, s, n - 1, Others(n - 1));
      assert Others(n - 1) + [Other("x")] == Others(n);
    }
  }

  // A call that only has something to announce.
  lemma Written(rules: Rules, s: State, w: nat) returns (t: State)
    requires Reachable(rules, s) && w !in s.writers
    ensures Reachable(rules, t) && t.store == s.store && t.walks == s.walks && t.clients == s.clients
    ensures t.writers == s.writers[w := [Announce(7, "x")]]
  {
    Step(rules, s, Write(w, map[], [Announce(7, "x")]));
    t := Next(s, Write(w, map[], [Announce(7, "x")]));
    assert s.store + map[] == s.store;
  }

  lemma {:induction false} OthersAreIrrelevant(events: seq<Event>, n: nat, topic: Topic)
    ensures LastRelevant(events + Others(n), topic) == LastRelevant(events, topic)
  {
    if n == 0 {
      assert events + Others(0) == events;
    } else {
      assert events + Others(n) == (events + Others(n - 1)) + [Other("x")];
      LastOfOneMore(events + Others(n - 1), Other("x"), topic);
      OthersAreIrrelevant(events, n - 1, topic);
    }
  }

  // Two publishers at one full queue: the second fills the slot the first has freed, and the count
  // and the refetch signal are both lost.  Without the second rule the client is left behind.
  lemma PublishesMustNotOverlap()
    ensures exists s :: Reachable(Rules(true, false), s) && LeftBehind(s, 0, Notifications)
  {
    var rules := Rules(true, false);
    var full := Others(Capacity);
    var s := BothThere(rules);
    s := SlotTaken(rules, s);
    s := Finished(rules, s, 16);
    s := Finished(rules, s, 17);
    assert s.walks.Keys == {};
    GreetingIsLast();
    OldCountIsLast(s, full);
  }

  lemma GreetingIsLast()
    ensures LastRelevant(Greeted.processed + Others(Capacity), Notifications) == Some(Unread(Notifications, 0))
  {
    OthersAreIrrelevant(Greeted.processed, Capacity, Notifications);
    LastOfOneMore([], Unread(Notifications, 0), Notifications);
    assert [] + [Unread(Notifications, 0)] == Greeted.processed;
  }

  // The first has found the queue full and the second is about to visit it.
  lemma BothThere(rules: Rules) returns (s: State)
    requires !rules.publishes
    ensures Reachable(rules, s) && Alone(s, Others(Capacity)) && s.store == map[K := 1]
    ensures s.walks == map[16 := Walk({}, Full(0)), 17 := Walk({0}, Picking)]
    ensures 16 in s.writers && s.writers[16] == [SendCount(7, Notifications, 1)]
    ensures 17 in s.writers && s.writers[17] == [Announce(7, "x")]
    ensures forall w :: w in s.writers && w != 16 && w != 17 ==> s.writers[w] == []
  {
    s := Announced(rules, Capacity);
    s := Recounted(rules, s, 16, 1);
    s := Written(rules, s, 17);
    s := Started(rules, s, 16, Others(Capacity));
    s := Started(rules, s, 17, Others(Capacity));
    s := Tried(rules, s, 16, Others(Capacity));
  }

  // The first drops an event, the second announces, and there is no room for the refetch signal.
  lemma SlotTaken(rules: Rules, s: State) returns (t: State)
    requires Reachable(rules, s) && Alone(s, Others(Capacity))
    requires s.walks == map[16 := Walk({}, Full(0)), 17 := Walk({0}, Picking)]
    requires Publishes(s.writers, 16) && Publishes(s.writers, 17) && s.writers[17][0] == Announce(7, "x")
    ensures Reachable(rules, t) && t.store == s.store && t.writers == s.writers && Alone(t, Others(Capacity))
    ensures t.walks == map[16 := Walk({}, Picking), 17 := Walk({}, Picking)]
  {
    t := DroppedOne(rules, s);
    t := Tried(rules, t, 17, Others(15));
    assert Others(15) + [Other("x")] == Others(Capacity);
    t := PushedInVain(rules, t);
  }

  lemma DroppedOne(rules: Rules, s: State) returns (t: State)
    requires Reachable(rules, s) && Alone(s, Others(Capacity)) && Publishes(s.writers, 16)
    requires 16 in s.walks && s.walks[16] == Walk({}, Full(0))
    ensures Reachable(rules, t) && t.store == s.store && t.writers == s.writers && Alone(t, Others(15))
    ensures t.walks == s.walks[16 := Walk({}, Dropped(0))]
  {
    Step(rules, s, Drop(16));
    t := Next(s, Drop(16));
    assert Others(16)[1..] == Others(15);
  }

  lemma PushedInVain(rules: Rules, s: State) returns (t: State)
    requires Reachable(rules, s) && Alone(s, Others(Capacity)) && Publishes(s.writers, 16)
    requires 16 in s.walks && s.walks[16] == Walk({}, Dropped(0))
    ensures Reachable(rules, t) && t.store == s.store && t.writers == s.writers && Alone(t, Others(Capacity))
    ensures t.walks == s.walks[16 := Walk({}, Picking)]
  {
    Step(rules, s, Push(16));
    t := Next(s, Push(16));
  }
}
