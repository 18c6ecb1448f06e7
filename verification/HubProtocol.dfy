/** The realtime hub under any interleaving of publishers, subscribers and cancels.

    The subscriber map is guarded by a reader-writer lock: publishers hold it for reading while
    they walk the channels of a user, Subscribe and Cancel hold it for writing.  A channel is
    closed after its cancel has released the lock.  Sending on a closed channel or closing one
    twice would panic.
  */
module HubProtocol {
  import opened Wrappers
  import opened Events

  // `sent` records, oldest first, which publisher made each send.
  datatype Channel = Channel(user: int, queue: seq<Event>, closed: bool, sent: seq<nat>)

  datatype Walk = Picking | Full(c: nat) | Dropped(c: nat, mark: nat)

  datatype Publisher = Publisher(user: int, event: Event, todo: set<nat>, walk: Walk)

  datatype Writer = Subscribing(c: nat, user: int, step: SubscribeStep) | Cancelling(c: nat)

  datatype SubscribeStep = Locked | Made | Added

  // The life of one cancel function; it runs at most once.
  datatype Cancel = Armed | Entered | HasLock | Deleted | Pruned | Closing | Spent

  datatype State = State(
    channels: map<nat, Channel>,
    subscribers: map<int, set<nat>>,
    publishers: map<nat, Publisher>,
    cancels: map<nat, Cancel>,
    writer: Option<Writer>,
    panicked: bool)

  const Init := State(map[], map[], map[], map[], None, false)

  datatype Action =
    | SubscribeLock(c: nat, user: int)
    | SubscribeMake
    | SubscribeAdd
    | SubscribeUnlock
    | CancelCall(c: nat)
    | CancelLock(c: nat)
    | CancelDelete(c: nat)
    | CancelPrune(c: nat)
    | CancelUnlock(c: nat)
    | CancelClose(c: nat)
    | PublishLock(p: nat, user: int, event: Event)
    | PublishTry(p: nat, c: nat)
    | PublishDrop(p: nat)
    | PublishResync(p: nat)
    | PublishUnlock(p: nat)
    | Receive(c: nat)

  predicate Unlocked(s: State) {
    s.writer.None? && s.publishers == map[]
  }

  predicate CancelAt(s: State, c: nat, phase: Cancel) {
    c in s.cancels && s.cancels[c] == phase
  }

  predicate WriterAt(s: State, step: SubscribeStep) {
    s.writer.Some? && s.writer.value.Subscribing? && s.writer.value.step == step
  }

  predicate Enabled(s: State, a: Action) {
    match a
    case SubscribeLock(c, _) => c !in s.channels && Unlocked(s)
    case SubscribeMake => WriterAt(s, Locked)
    case SubscribeAdd => WriterAt(s, Made)
    case SubscribeUnlock => WriterAt(s, Added)
    case CancelCall(c) => c in s.cancels
    case CancelLock(c) => CancelAt(s, c, Entered) && Unlocked(s)
    case CancelDelete(c) => CancelAt(s, c, HasLock)
    case CancelPrune(c) => CancelAt(s, c, Deleted)
    case CancelUnlock(c) => CancelAt(s, c, Pruned)
    case CancelClose(c) => CancelAt(s, c, Closing)
    case PublishLock(p, _, _) => p !in s.publishers && s.writer.None?
    case PublishTry(p, c) => p in s.publishers && s.publishers[p].walk.Picking? && c in s.publishers[p].todo
    case PublishDrop(p) => p in s.publishers && s.publishers[p].walk.Full?
    case PublishResync(p) => p in s.publishers && s.publishers[p].walk.Dropped?
    case PublishUnlock(p) => p in s.publishers && s.publishers[p].walk.Picking? && s.publishers[p].todo == {}
    case Receive(c) => c in s.channels && s.channels[c].queue != []
  }

  function Subscribed(s: State, user: int): set<nat> {
    if user in s.subscribers then s.subscribers[user] else {}
  }

  // A send that does not block: panics on a closed channel, reports false on a full one.
  function Send(s: State, p: nat, c: nat, event: Event): (State, bool) {
    if c !in s.channels || s.channels[c].closed then (s.(panicked := true), false)
    else if |s.channels[c].queue| < Capacity then
      var ch := s.channels[c];
      (s.(channels := s.channels[c := ch.(queue := ch.queue + [event], sent := ch.sent + [p])]), true)
    else (s, false)
  }

  function Walked(s: State, p: nat, walk: Walk): State
    requires p in s.publishers
  {
    s.(publishers := s.publishers[p := s.publishers[p].(walk := walk)])
  }

  function PublishStep(s: State, a: Action): State
    requires Enabled(s, a) && Walks(a)
  {
    var pub := s.publishers[a.p];
    match a
    case PublishTry(p, c) =>
      var (s', ok) := Send(s, p, c, pub.event);
      s'.(publishers := s.publishers[p := pub.(todo := pub.todo - {c}, walk := if ok || s'.panicked then Picking else Full(c))])
    case PublishDrop(p) =>
      var c := pub.walk.c;
      if c !in s.channels then Walked(s, p, Picking)
      else
        var ch := s.channels[c];
        var rest := if ch.queue == [] then [] else ch.queue[1..];
        Walked(s.(channels := s.channels[c := ch.(queue := rest)]), p, Dropped(c, |ch.sent|))
    case PublishResync(p) =>
      Walked(Send(s, p, pub.walk.c, Resync).0, p, Picking)
  }

  function CancelStep(s: State, a: Action): State
    requires Enabled(s, a) && Cancels(a)
  {
    var c := a.c;
    match a
    case CancelCall(_) => if s.cancels[c].Armed? then s.(cancels := s.cancels[c := Entered]) else s
    case CancelLock(_) => s.(cancels := s.cancels[c := HasLock], writer := Some(Cancelling(c)))
    case CancelDelete(_) =>
      var s' := s.(cancels := s.cancels[c := Deleted]);
      if c in s.channels && s.channels[c].user in s.subscribers then
        var user := s.channels[c].user;
        s'.(subscribers := s.subscribers[user := s.subscribers[user] - {c}])
      else s'
    case CancelPrune(_) =>
      var s' := s.(cancels := s.cancels[c := Pruned]);
      if c in s.channels && Subscribed(s, s.channels[c].user) == {} then
        s'.(subscribers := s.subscribers - {s.channels[c].user})
      else s'
    case CancelUnlock(_) => s.(cancels := s.cancels[c := Closing], writer := None)
    case CancelClose(_) =>
      var s' := s.(cancels := s.cancels[c := Spent]);
      if c !in s.channels || s.channels[c].closed then s'.(panicked := true)
      else s'.(channels := s.channels[c := s.channels[c].(closed := true)])
  }

  function SubscribeNext(s: State, a: Action): State
    requires Enabled(s, a) && Subscribes(a)
  {
    match a
    case SubscribeLock(c, user) =>
      s.(channels := s.channels[c := Channel(user, [], false, [])], writer := Some(Subscribing(c, user, Locked)))
    case SubscribeMake =>
      var w := s.writer.value;
      s.(subscribers := if w.user in s.subscribers then s.subscribers else s.subscribers[w.user := {}],
         writer := Some(w.(step := Made)))
    case SubscribeAdd =>
      var w := s.writer.value;
      s.(subscribers := s.subscribers[w.user := Subscribed(s, w.user) + {w.c}], writer := Some(w.(step := Added)))
    case SubscribeUnlock =>
      s.(cancels := s.cancels[s.writer.value.c := Armed], writer := None)
  }

  predicate Walks(a: Action) { a.PublishTry? || a.PublishDrop? || a.PublishResync? }

  predicate Subscribes(a: Action) { a.SubscribeLock? || a.SubscribeMake? || a.SubscribeAdd? || a.SubscribeUnlock? }

  predicate Cancels(a: Action) {
    a.CancelCall? || a.CancelLock? || a.CancelDelete? || a.CancelPrune? || a.CancelUnlock? || a.CancelClose?
  }

  function Next(s: State, a: Action): State
    requires Enabled(s, a)
  {
    if Walks(a) then PublishStep(s, a)
    else if Subscribes(a) then SubscribeNext(s, a)
    else if Cancels(a) then CancelStep(s, a)
    else
      match a
      case PublishLock(p, user, event) =>
        s.(publishers := s.publishers[p := Publisher(user, event, Subscribed(s, user), Picking)])
      case PublishUnlock(p) => s.(publishers := s.publishers - {p})
      case Receive(c) => s.(channels := s.channels[c := s.channels[c].(queue := s.channels[c].queue[1..])])
  }

  function Run(acts: seq<Action>): Option<State> {
    if acts == [] then Some(Init)
    else
      var before := Run(acts[..|acts| - 1]);
      if before.Some? && Enabled(before.value, acts[|acts| - 1])
      then Some(Next(before.value, acts[|acts| - 1]))
      else None
  }

  // ---------------------------------------------------------------------------------------------
  // The invariant
  // ---------------------------------------------------------------------------------------------

  predicate CancelInside(s: State, c: nat) {
    CancelAt(s, c, HasLock) || CancelAt(s, c, Deleted) || CancelAt(s, c, Pruned)
  }

  // Only a writer is inside while it is inside, and it is the one its phase says.
  ghost predicate LockInv(s: State) {
    && (s.writer.Some? ==> s.publishers == map[])
    && (forall c :: CancelInside(s, c) ==> s.writer == Some(Cancelling(c)))
    && (s.writer.Some? && s.writer.value.Cancelling? ==> CancelInside(s, s.writer.value.c))
    && (s.writer.Some? && s.writer.value.Subscribing? ==> SubscribingOk(s, s.writer.value))
  }

  ghost predicate SubscribingOk(s: State, w: Writer)
    requires w.Subscribing?
  {
    && w.c in s.channels && s.channels[w.c].user == w.user && !s.channels[w.c].closed && w.c !in s.cancels
    && (w.step.Made? ==> w.user in s.subscribers)
    && (w.step.Added? ==> w.c in Subscribed(s, w.user))
  }

  // A channel in the map is open and its cancel has not removed it yet.
  ghost predicate MapInv(s: State) {
    && (forall u, c :: u in s.subscribers && c in s.subscribers[u] ==>
          && c in s.channels && s.channels[c].user == u && !s.channels[c].closed
          && (c in s.cancels ==> s.cancels[c].Armed? || s.cancels[c].Entered? || s.cancels[c].HasLock?))
    && (forall c :: c in s.cancels ==> c in s.channels && (s.channels[c].closed ==> s.cancels[c].Spent?))
    && (forall c :: c in s.channels && c !in s.cancels ==> !s.channels[c].closed)
  }

  // The users that may map to an empty set: only inside a write section.
  ghost predicate NoEmptySets(s: State) {
    forall u :: u in s.subscribers && s.subscribers[u] == {} ==> MayBeEmpty(s, u)
  }

  ghost predicate MayBeEmpty(s: State, u: int) {
    || (WriterAt(s, Made) && s.writer.value.user == u)
    || (s.writer.Some? && s.writer.value.Cancelling? && CancelAt(s, s.writer.value.c, Deleted) &&
        s.writer.value.c in s.channels && s.channels[s.writer.value.c].user == u)
  }

  ghost predicate WalkInv(s: State) {
    forall p :: p in s.publishers ==>
      && s.publishers[p].todo <= Subscribed(s, s.publishers[p].user)
      && (!s.publishers[p].walk.Picking? ==> s.publishers[p].walk.c in Subscribed(s, s.publishers[p].user))
      && (s.publishers[p].walk.Dropped? ==> RoomKept(s, p, s.publishers[p].walk))
  }

  ghost predicate RoomKept(s: State, p: nat, walk: Walk)
    requires walk.Dropped?
  {
    walk.c in s.channels && RoomSinceDrop(s.channels[walk.c], p, walk.mark)
  }

  // A slot freed by a drop is only ever taken by a later send, and that send was another's.
  ghost predicate RoomSinceDrop(ch: Channel, p: nat, mark: nat) {
    && mark <= |ch.sent|
    && |ch.queue| + 1 <= Capacity + (|ch.sent| - mark)
    && forall k :: mark <= k < |ch.sent| ==> ch.sent[k] != p
  }

  ghost predicate Bounded(s: State) {
    forall c :: c in s.channels ==> |s.channels[c].queue| <= Capacity
  }

  ghost predicate Inv(s: State) {
    !s.panicked && LockInv(s) && MapInv(s) && NoEmptySets(s) && WalkInv(s) && Bounded(s)
  }

  // A publisher's step touches one channel and its own walk; everyone else's stay right.
  lemma OtherWalksKeep(s: State, s': State, p: nat, c: nat)
    requires WalkInv(s) && s'.subscribers == s.subscribers && p in s.publishers && p in s'.publishers
    requires forall q :: q in s'.publishers ==> q in s.publishers && (q != p ==> s'.publishers[q] == s.publishers[q])
    requires c in s.channels && c in s'.channels && s'.channels == s.channels[c := s'.channels[c]]
    requires s.channels[c].sent <= s'.channels[c].sent <= s.channels[c].sent + [p]
    requires |s'.channels[c].queue| - |s.channels[c].queue| <= |s'.channels[c].sent| - |s.channels[c].sent|
    requires s'.publishers[p].todo <= Subscribed(s, s'.publishers[p].user)
    requires !s'.publishers[p].walk.Picking? ==> s'.publishers[p].walk.c == c && c in Subscribed(s, s'.publishers[p].user)
    requires s'.publishers[p].walk.Dropped? ==> RoomSinceDrop(s'.channels[c], p, s'.publishers[p].walk.mark)
    ensures WalkInv(s')
  {
    forall q | q in s'.publishers && s'.publishers[q].walk.Dropped?
      ensures RoomKept(s', q, s'.publishers[q].walk)
    {
      if q != p {
        assert RoomKept(s, q, s.publishers[q].walk);
      }
    }
  }

  // The map and the lock do not notice a change inside one open channel.
  lemma OpenChannelKeeps(s: State, s': State, c: nat)
    requires LockInv(s) && MapInv(s) && NoEmptySets(s) && Bounded(s)
    requires s'.subscribers == s.subscribers && s'.cancels == s.cancels && s'.writer == s.writer
    requires s.writer.Some? ==> s'.publishers == map[]
    requires c in s.channels && c in s'.channels && s'.channels == s.channels[c := s'.channels[c]]
    requires s'.channels[c].user == s.channels[c].user && s'.channels[c].closed == s.channels[c].closed
    requires |s'.channels[c].queue| <= Capacity
    ensures LockInv(s') && MapInv(s') && NoEmptySets(s') && Bounded(s')
  {
  }

  // The channel a publisher is at is listed, so it is open.
  lemma WalksOpenChannels(s: State, p: nat, c: nat)
    requires MapInv(s) && WalkInv(s) && p in s.publishers
    requires c in s.publishers[p].todo || (!s.publishers[p].walk.Picking? && s.publishers[p].walk.c == c)
    ensures c in Subscribed(s, s.publishers[p].user) && c in s.channels && !s.channels[c].closed
  {
  }

  lemma TryKeepsInv(s: State, p: nat, c: nat)
    requires Inv(s) && Enabled(s, PublishTry(p, c))
    ensures Inv(Next(s, PublishTry(p, c)))
  {
    var s' := Next(s, PublishTry(p, c));
    WalksOpenChannels(s, p, c);
    assert s'.channels == s.channels[c := s'.channels[c]];
    OtherWalksKeep(s, s', p, c);
    OpenChannelKeeps(s, s', c);
  }

  lemma DropKeepsInv(s: State, p: nat)
    requires Inv(s) && Enabled(s, PublishDrop(p))
    ensures Inv(Next(s, PublishDrop(p)))
  {
    var s', c := Next(s, PublishDrop(p)), s.publishers[p].walk.c;
    WalksOpenChannels(s, p, c);
    assert RoomSinceDrop(s'.channels[c], p, |s.channels[c].sent|);
    OtherWalksKeep(s, s', p, c);
    OpenChannelKeeps(s, s', c);
  }

  lemma ResyncKeepsInv(s: State, p: nat)
    requires Inv(s) && Enabled(s, PublishResync(p))
    ensures Inv(Next(s, PublishResync(p)))
  {
    var s', c := Next(s, PublishResync(p)), s.publishers[p].walk.c;
    WalksOpenChannels(s, p, c);
    assert s'.channels == s.channels[c := s'.channels[c]];
    OtherWalksKeep(s, s', p, c);
    OpenChannelKeeps(s, s', c);
  }

  lemma CancelLockKeepsInv(s: State, c: nat)
    requires Inv(s) && Enabled(s, CancelLock(c))
    ensures Inv(Next(s, CancelLock(c)))
  {
    assert forall u :: u in s.subscribers ==> s.subscribers[u] != {};
  }

  lemma CancelDeleteKeepsInv(s: State, c: nat)
    requires Inv(s) && Enabled(s, CancelDelete(c))
    ensures Inv(Next(s, CancelDelete(c)))
  {
    assert s.writer == Some(Cancelling(c));
    assert forall u :: u in s.subscribers ==> s.subscribers[u] != {};
  }

  lemma CancelPruneKeepsInv(s: State, c: nat)
    requires Inv(s) && Enabled(s, CancelPrune(c))
    ensures Inv(Next(s, CancelPrune(c)))
  {
    assert s.writer == Some(Cancelling(c));
    assert forall u :: u in s.subscribers && s.subscribers[u] == {} ==> u == s.channels[c].user;
  }

  lemma CancelUnlockKeepsInv(s: State, c: nat)
    requires Inv(s) && Enabled(s, CancelUnlock(c))
    ensures Inv(Next(s, CancelUnlock(c)))
  {
    assert s.writer == Some(Cancelling(c));
    assert forall u :: u in s.subscribers ==> s.subscribers[u] != {};
  }

  lemma CancelCloseKeepsInv(s: State, c: nat)
    requires Inv(s) && Enabled(s, CancelClose(c))
    ensures Inv(Next(s, CancelClose(c)))
  {
    var s' := Next(s, CancelClose(c));
    assert forall u :: u in s.subscribers ==> c !in s.subscribers[u];
    assert s'.subscribers == s.subscribers && s'.writer == s.writer && s'.publishers == s.publishers;
    assert s'.channels == s.channels[c := s.channels[c].(closed := true)];
    ClosingKeepsWalks(s, s', c);
  }

  // No publisher is at a channel that is not listed.
  lemma ClosingKeepsWalks(s: State, s': State, c: nat)
    requires WalkInv(s) && MapInv(s) && c in s.channels && s'.channels == s.channels[c := s.channels[c].(closed := true)]
    requires s'.subscribers == s.subscribers && s'.publishers == s.publishers
    ensures WalkInv(s')
  {
    forall p | p in s'.publishers && s'.publishers[p].walk.Dropped?
      ensures RoomKept(s', p, s'.publishers[p].walk)
    {
      assert RoomKept(s, p, s.publishers[p].walk);
    }
  }

  lemma SubscribeStepKeepsInv(s: State, a: Action)
    requires Inv(s) && Enabled(s, a) && Subscribes(a)
    ensures Inv(Next(s, a))
  {
  }

  lemma {:induction false} NextKeepsInv(s: State, a: Action)
    requires Inv(s) && Enabled(s, a)
    ensures Inv(Next(s, a))
  {
    if Walks(a) {
      match a
      case PublishTry(p, c) => TryKeepsInv(s, p, c);
      case PublishDrop(p) => DropKeepsInv(s, p);
      case PublishResync(p) => ResyncKeepsInv(s, p);
    } else if Subscribes(a) {
      SubscribeStepKeepsInv(s, a);
    } else {
      match a
      case CancelLock(c) => CancelLockKeepsInv(s, c);
      case CancelDelete(c) => CancelDeleteKeepsInv(s, c);
      case CancelPrune(c) => CancelPruneKeepsInv(s, c);
      case CancelUnlock(c) => CancelUnlockKeepsInv(s, c);
      case CancelClose(c) => CancelCloseKeepsInv(s, c);
      case CancelCall(c) => CancelCallKeepsInv(s, c);
      case PublishLock(_, _, _) => PublisherComesAndGoes(s, a);
      case PublishUnlock(_) => PublisherComesAndGoes(s, a);
      case Receive(c) => ReceiveKeepsInv(s, c);
    }
  }

  lemma CancelCallKeepsInv(s: State, c: nat)
    requires Inv(s) && Enabled(s, CancelCall(c))
    ensures Inv(Next(s, CancelCall(c)))
  {
  }

  // Entering and leaving the lock only adds or removes a publisher.
  lemma PublisherComesAndGoes(s: State, a: Action)
    requires Inv(s) && Enabled(s, a) && (a.PublishLock? || a.PublishUnlock?)
    ensures Inv(Next(s, a))
  {
    var s' := Next(s, a);
    assert s'.channels == s.channels && s'.subscribers == s.subscribers && s'.cancels == s.cancels && s'.writer == s.writer;
    forall p | p in s'.publishers && p in s.publishers && s'.publishers[p].walk.Dropped?
      ensures RoomKept(s', p, s'.publishers[p].walk)
    {
      assert RoomKept(s, p, s.publishers[p].walk);
    }
  }

  lemma ReceiveKeepsInv(s: State, c: nat)
    requires Inv(s) && Enabled(s, Receive(c))
    ensures Inv(Next(s, Receive(c)))
  {
    var s' := Next(s, Receive(c));
    forall p | p in s'.publishers && s'.publishers[p].walk.Dropped?
      ensures RoomKept(s', p, s'.publishers[p].walk)
    {
      assert RoomKept(s, p, s.publishers[p].walk);
    }
  }

  lemma {:induction false} RunsKeepInv(acts: seq<Action>)
    requires Run(acts).Some?
    ensures Inv(Run(acts).value)
  {
    if acts != [] {
      RunsKeepInv(acts[..|acts| - 1]);
      NextKeepsInv(Run(acts[..|acts| - 1]).value, acts[|acts| - 1]);
    }
  }

  // ---------------------------------------------------------------------------------------------
  // What every run guarantees
  // ---------------------------------------------------------------------------------------------

  // No send hits a closed channel, no channel is closed twice, no queue outgrows its capacity,
  // and between write sections no user maps to an empty set.
  lemma {:induction false} HubIsSafe(acts: seq<Action>)
    requires Run(acts).Some?
    ensures var s := Run(acts).value;
            && !s.panicked
            && (forall c :: c in s.channels ==> |s.channels[c].queue| <= Capacity)
            && (s.writer.None? ==> forall u :: u in s.subscribers ==> s.subscribers[u] != {})
            && (forall u, c :: u in s.subscribers && c in s.subscribers[u] ==> c in s.channels && !s.channels[c].closed)
  {
    RunsKeepInv(acts);
  }

  // A publisher that finds no room for its resync lost it to another publisher, which sent on
  // that channel after the drop and before the attempt, both holding the lock.
  lemma {:induction false} LostResyncMeansOverlap(acts: seq<Action>, p: nat)
    requires Run(acts).Some? && Enabled(Run(acts).value, PublishResync(p))
    ensures var s := Run(acts).value;
            var walk := s.publishers[p].walk;
            && walk.c in s.channels && walk.mark <= |s.channels[walk.c].sent|
            && (Next(s, PublishResync(p)).channels == s.channels ==>
                  exists k :: walk.mark <= k < |s.channels[walk.c].sent| && s.channels[walk.c].sent[k] != p)
  {
    RunsKeepInv(acts);
    var s := Run(acts).value;
    var walk := s.publishers[p].walk;
    var ch := s.channels[walk.c];
    assert RoomSinceDrop(ch, p, walk.mark);
    if |ch.queue| == Capacity {
      assert ch.sent[walk.mark] != p;
    } else {
      assert Next(s, PublishResync(p)).channels[walk.c].queue == ch.queue + [Resync];
    }
  }

  // ---------------------------------------------------------------------------------------------
  // A resync can be lost
  // ---------------------------------------------------------------------------------------------

  ghost predicate Reachable(s: State) {
    exists acts :: Run(acts) == Some(s)
  }

  lemma {:induction false} Step(s: State, a: Action)
    requires Reachable(s) && Enabled(s, a)
    ensures Reachable(Next(s, a))
  {
    var acts :| Run(acts) == Some(s);
    assert (acts + [a])[..|acts|] == acts;
    assert Run(acts + [a]) == Some(Next(s, a));
  }

  const Ping: Event := Other("x")

  // One subscriber, whose queue holds so many events that nobody has read, and no writer.
  predicate OneChannel(s: State, n: nat) {
    && !s.panicked && s.subscribers == map[7 := {0}] && s.writer.None?
    && 0 in s.channels && s.channels[0].user == 7 && !s.channels[0].closed
    && |s.channels[0].queue| == n && Resync !in s.channels[0].queue
  }

  lemma OneSubscriber() returns (s: State)
    ensures Reachable(s) && OneChannel(s, 0) && s.publishers == map[]
  {
    assert Run([]) == Some(Init);
    Step(Init, SubscribeLock(0, 7));
    s := Next(Init, SubscribeLock(0, 7));
    Step(s, SubscribeMake);
    s := Next(s, SubscribeMake);
    Step(s, SubscribeAdd);
    s := Next(s, SubscribeAdd);
    assert {} + {0} == {0};
    Step(s, SubscribeUnlock);
    s := Next(s, SubscribeUnlock);
  }

  // A publisher takes the lock.
  lemma TookLock(s: State, p: nat, n: nat) returns (t: State)
    requires Reachable(s) && OneChannel(s, n) && p !in s.publishers
    ensures Reachable(t) && OneChannel(t, n) && t.channels == s.channels
    ensures t.publishers == s.publishers[p := Publisher(7, Ping, {0}, Picking)]
  {
    Step(s, PublishLock(p, 7, Ping));
    t := Next(s, PublishLock(p, 7, Ping));
  }

  // It tries to send to the channel.
  lemma Offered(s: State, p: nat, n: nat) returns (t: State)
    requires Reachable(s) && OneChannel(s, n) && p in s.publishers && s.publishers[p] == Publisher(7, Ping, {0}, Picking)
    ensures Reachable(t) && OneChannel(t, if n < Capacity then n + 1 else n)
    ensures t.publishers == s.publishers[p := Publisher(7, Ping, {}, if n < Capacity then Picking else Full(0))]
  {
    Step(s, PublishTry(p, 0));
    t := Next(s, PublishTry(p, 0));
    var none: set<nat> := {0} - {0};
    assert none == {};
    assert t.channels[0].queue == if n < Capacity then s.channels[0].queue + [Ping] else s.channels[0].queue;
  }

  lemma Pinged(s: State, p: nat, n: nat) returns (t: State)
    requires Reachable(s) && OneChannel(s, n) && s.publishers == map[] && n < Capacity
    ensures Reachable(t) && OneChannel(t, n + 1) && t.publishers == map[]
  {
    t := TookLock(s, p, n);
    t := Offered(t, p, n);
    Step(t, PublishUnlock(p));
    t := Next(t, PublishUnlock(p));
    assert t.publishers.Keys == {};
  }

  lemma {:induction false} Filled(n: nat) returns (s: State)
    requires n <= Capacity
    ensures Reachable(s) && OneChannel(s, n) && s.publishers == map[]
  {
    if n == 0 {
      s := OneSubscriber();
    } else {
      s := Filled(n - 1);
      s := Pinged(s, n, n - 1);
    }
  }

  lemma Popped(s: State, p: nat, n: nat) returns (t: State)
    requires Reachable(s) && OneChannel(s, n) && n > 0
    requires p in s.publishers && s.publishers[p] == Publisher(7, Ping, {}, Full(0))
    ensures Reachable(t) && OneChannel(t, n - 1)
    ensures t.publishers == s.publishers[p := Publisher(7, Ping, {}, Dropped(0, |s.channels[0].sent|))]
  {
    Step(s, PublishDrop(p));
    t := Next(s, PublishDrop(p));
  }

  // Two publishers at a full channel: the second takes the slot that the first has freed, the
  // first finds no room for its resync, and the queue holds none.
  lemma ResyncCanBeLost()
    ensures exists s, p :: Reachable(s) && Enabled(s, PublishResync(p)) && Next(s, PublishResync(p)).channels == s.channels &&
                           OneChannel(s, Capacity)
  {
    var s := Filled(Capacity);
    s := TookLock(s, 20, Capacity);
    s := TookLock(s, 21, Capacity);
    s := Offered(s, 20, Capacity);
    s := Popped(s, 20, Capacity);
    s := Offered(s, 21, Capacity - 1);
    assert Enabled(s, PublishResync(20)) && Next(s, PublishResync(20)).channels == s.channels;
  }
}
