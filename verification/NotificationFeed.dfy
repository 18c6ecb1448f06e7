/** The notification service: rows written, then the count published through the hub. */
module NotificationFeed {
  import opened Wrappers
  import opened Events
  import opened Hub
  import opened Publishing
  import opened Relations

  datatype Notification = Notification(recipient: int, actor: int, kind: string, read: bool)

  function Unseen(rows: seq<Notification>, user: int): nat {
    if rows == [] then 0
    else Unseen(rows[..|rows| - 1], user) +
         if rows[|rows| - 1].recipient == user && !rows[|rows| - 1].read then 1 else 0
  }

  // The rows from lo up to hi are marked read for their recipient.
  function Seen(rows: seq<Notification>, user: int, lo: nat, hi: nat): (r: seq<Notification>)
    ensures |r| == |rows|
  {
    seq(|rows|, i requires 0 <= i < |rows| =>
      if lo <= i < hi && rows[i].recipient == user then rows[i].(read := true) else rows[i])
  }

  lemma {:induction false} SeeingMovesOneCount(rows: seq<Notification>, user: int, lo: nat, hi: nat, other: int)
    ensures other != user ==> Unseen(Seen(rows, user, lo, hi), other) == Unseen(rows, other)
    ensures lo == 0 && |rows| <= hi ==> Unseen(Seen(rows, user, lo, hi), user) == 0
    ensures hi == lo + 1 ==>
              Unseen(Seen(rows, user, lo, hi), user) ==
              Unseen(rows, user) - if lo < |rows| && rows[lo].recipient == user && !rows[lo].read then 1 else 0
  {
    if rows != [] {
      var n := |rows| - 1;
      SeeingMovesOneCount(rows[..n], user, lo, hi, other);
      assert Seen(rows, user, lo, hi)[..n] == Seen(rows[..n], user, lo, hi);
    }
  }

  lemma SeeingMovesOne(rows: seq<Notification>, user: int, lo: nat, hi: nat)
    ensures forall other :: other != user ==> Unseen(Seen(rows, user, lo, hi), other) == Unseen(rows, other)
    ensures lo == 0 && |rows| <= hi ==> Unseen(Seen(rows, user, lo, hi), user) == 0
    ensures hi == lo + 1 ==>
              Unseen(Seen(rows, user, lo, hi), user) ==
              Unseen(rows, user) - if lo < |rows| && rows[lo].recipient == user && !rows[lo].read then 1 else 0
  {
    SeeingMovesOneCount(rows, user, lo, hi, user);
    forall other | other != user
      ensures Unseen(Seen(rows, user, lo, hi), other) == Unseen(rows, other)
    {
      SeeingMovesOneCount(rows, user, lo, hi, other);
    }
  }

  function DeliverTimes(queue: seq<Event>, event: Event, n: nat): (r: seq<Event>)
    requires |queue| <= Capacity
    ensures |r| <= Capacity
  {
    if n == 0 then queue else Deliver(DeliverTimes(queue, event, n - 1), event)
  }

  function Occurrences(xs: seq<int>, x: int): nat {
    if xs == [] then 0 else Occurrences(xs[..|xs| - 1], x) + if xs[|xs| - 1] == x then 1 else 0
  }

  function Told(queue: seq<Event>, event: Event, users: seq<int>, user: int): seq<Event>
    requires |queue| <= Capacity
  {
    DeliverTimes(queue, event, Occurrences(users, user))
  }

  lemma ToldOneMore(queue: seq<Event>, event: Event, users: seq<int>, i: nat, user: int)
    requires |queue| <= Capacity && i < |users|
    ensures Told(queue, event, users[..i + 1], user) ==
            if users[i] == user then Deliver(Told(queue, event, users[..i], user), event) else Told(queue, event, users[..i], user)
  {
    assert users[..i + 1][..i] == users[..i];
  }

  // The users among these, once each is told as often as it is listed.
  ghost function Audience(hub: Hub, users: seq<int>): set<Channel>
    reads hub
  {
    set i, c | 0 <= i < |users| && c in hub.Subscribed(users[i]) :: c
  }

  // ---------------------------------------------------------------------------------------------
  // What calls publish
  // ---------------------------------------------------------------------------------------------

  ghost function Counts(rows: seq<Notification>): int -> nat {
    user => Unseen(rows, user)
  }

  // Creating a notification and marking some read publish the recipient's count.
  function CountTasks(recipient: int): seq<Task> {
    [Recount(recipient, Notifications)]
  }

  lemma CountIsWorkedOff(queue: seq<Event>, user: int, recipient: int, count: int -> nat)
    requires |queue| <= Capacity
    ensures Worked(queue, user, CountTasks(recipient), Notifications, count) ==
            if user == recipient then Deliver(queue, Unread(Notifications, count(recipient))) else queue
  {
    WorkedOneMore(queue, user, [], Recount(recipient, Notifications), Notifications, count);
    assert [] + [Recount(recipient, Notifications)] == CountTasks(recipient);
  }

  lemma CountIsCovered(recipient: int, up: nat, down: nat, before: int -> nat, after: int -> nat)
    requires OnlyMoved(before, after, recipient, up, down)
    ensures Covers(CountTasks(recipient), Notifications, before, after)
  {
    assert CountTasks(recipient)[0] == Recount(recipient, Notifications);
  }

  // A new post is announced to each user listed.
  function FeedTasks(users: seq<int>, name: string): seq<Task> {
    seq(|users|, i requires 0 <= i < |users| => Announce(users[i], name))
  }

  lemma {:induction false} FeedIsWorkedOff(queue: seq<Event>, user: int, users: seq<int>, name: string, topic: Topic, count: int -> nat)
    requires |queue| <= Capacity
    ensures Worked(queue, user, FeedTasks(users, name), topic, count) == Told(queue, Other(name), users, user)
  {
    if users != [] {
      var n := |users| - 1;
      FeedIsWorkedOff(queue, user, users[..n], name, topic, count);
      assert FeedTasks(users, name)[..n] == FeedTasks(users[..n], name);
    }
  }

  // ---------------------------------------------------------------------------------------------
  // Who hears of whom
  // ---------------------------------------------------------------------------------------------

  predicate Muted(rows: set<Relation>, a: int, b: int) {
    Relation(a, b, Mute) in rows
  }

  // The recipient does not hear of the actor, given the row the lookup happens to read: it is
  // himself, the row shows a block, there is a mute, or mentions are off.
  predicate Silent(rows: set<Relation>, mentionsOff: set<int>, actor: int, recipient: int, kind: string, row: Option<Relation>) {
    || actor == recipient || ShowsBlock(row) || Muted(rows, recipient, actor)
    || (kind == "mention" && recipient in mentionsOff)
  }

  // Whatever row the lookup reads.
  predicate SurelySilent(rows: set<Relation>, mentionsOff: set<int>, actor: int, recipient: int, kind: string) {
    || actor == recipient || OnlyBlocks(rows, recipient, actor) || Muted(rows, recipient, actor)
    || (kind == "mention" && recipient in mentionsOff)
  }

  predicate MaybeSilent(rows: set<Relation>, mentionsOff: set<int>, actor: int, recipient: int, kind: string) {
    SurelySilent(rows, mentionsOff, actor, recipient, kind) || Blocks(rows, recipient, actor)
  }

  lemma SilenceIsThatOfLookups(rows: set<Relation>, mentionsOff: set<int>, actor: int, recipient: int, kind: string)
    ensures (forall row :: Lookup(rows, recipient, actor, row) ==> Silent(rows, mentionsOff, actor, recipient, kind, row)) <==>
            SurelySilent(rows, mentionsOff, actor, recipient, kind)
    ensures (exists row :: Lookup(rows, recipient, actor, row) && Silent(rows, mentionsOff, actor, recipient, kind, row)) <==>
            MaybeSilent(rows, mentionsOff, actor, recipient, kind)
  {
    LookupShowsBlockIff(rows, recipient, actor);
    var row := GetRow(rows, recipient, actor);
  }

  // A blocked actor is heard of by nobody who blocks him exactly when there is a mute too or no
  // follow: a follow beside the block may hide it, a mute beside it makes up for that.
  lemma BlockedActorIsSilencedIff(rows: set<Relation>, actor: int, recipient: int, kind: string)
    requires actor != recipient && Blocks(rows, recipient, actor)
    ensures SurelySilent(rows, {}, actor, recipient, kind) <==>
            Muted(rows, recipient, actor) || Relation(recipient, actor, Follow) !in rows
  {
  }

  class NotificationService {
    const hub: Hub
    var relations: set<Relation>
    var mentionsOff: set<int>
    var rows: seq<Notification>

    constructor (hub: Hub)
      ensures this.hub == hub && rows == []
    {
      this.hub := hub;
      relations, mentionsOff, rows := {}, {}, [];
    }

    // The recipient's subscribers are sent its count; nobody else is sent anything.
    method PublishUnreadCount(recipient: int)
      requires hub.Valid()
      modifies hub.Subscribed(recipient)
      ensures hub.Valid() && hub.subscribers == old(hub.subscribers)
      ensures forall u, c :: u in hub.subscribers && c in hub.subscribers[u] ==>
                c.queue == Worked(old(c.queue), u, CountTasks(recipient), Notifications, Counts(rows))
    {
      hub.Publish(recipient, Unread(Notifications, Unseen(rows, recipient)));
      forall u, c | u in hub.subscribers && c in hub.subscribers[u]
        ensures c.queue == Worked(old(c.queue), u, CountTasks(recipient), Notifications, Counts(rows))
      {
        CountIsWorkedOff(old(c.queue), u, recipient, Counts(rows));
        assert u != recipient ==> c !in hub.Subscribed(recipient);
      }
    }

    // Whether the recipient is to hear of the actor.
    method Wants(actor: int, recipient: int, kind: string) returns (wanted: bool)
      ensures SurelySilent(relations, mentionsOff, actor, recipient, kind) ==> !wanted
      ensures !wanted ==> MaybeSilent(relations, mentionsOff, actor, recipient, kind)
    {
      LookupShowsBlockIff(relations, recipient, actor);
      if actor == recipient {
        return false;
      }
      var relationship := GetByIDs(relations, recipient, actor);
      if relationship.Some? && relationship.value.kind == Block {
        return false;
      }
      if Relation(recipient, actor, Mute) in relations {
        return false;
      }
      if kind == "mention" && recipient in mentionsOff {
        return false;
      }
      return true;
    }

    // An unwanted notification leaves no trace; another adds one to the recipient's count alone,
    // and the subscribers are sent what covers that.
    method Create(actor: int, recipient: int, kind: string) returns (created: bool)
      requires hub.Valid()
      modifies this`rows, hub.Subscribed(recipient)
      ensures hub.Valid() && hub.subscribers == old(hub.subscribers)
      ensures actor == recipient || Relation(recipient, actor, Mute) in relations || (kind == "mention" && recipient in mentionsOff) ||
              (Relation(recipient, actor, Block) in relations && Relation(recipient, actor, Follow) !in relations) ==>
                !created
      ensures !created ==>
                actor == recipient || Relation(recipient, actor, Mute) in relations || (kind == "mention" && recipient in mentionsOff) ||
                Relation(recipient, actor, Block) in relations
      ensures !created ==> rows == old(rows) && forall c :: c in hub.Subscribed(recipient) ==> c.queue == old(c.queue)
      ensures created ==>
                && rows == old(rows) + [Notification(recipient, actor, kind, false)]
                && OnlyMoved(old(Counts(rows)), Counts(rows), recipient, 1, 0)
                && Covers(CountTasks(recipient), Notifications, old(Counts(rows)), Counts(rows))
                && forall u, c :: u in hub.subscribers && c in hub.subscribers[u] ==>
                     c.queue == Worked(old(c.queue), u, CountTasks(recipient), Notifications, Counts(rows))
    {
      created := Wants(actor, recipient, kind);
      if !created {
        return;
      }
      rows := rows + [Notification(recipient, actor, kind, false)];
      assert rows[..|old(rows)|] == old(rows);
      CountIsCovered(recipient, 1, 0, old(Counts(rows)), Counts(rows));
      PublishUnreadCount(recipient);
    }

    // Marks one row of the recipient; unknown or foreign rows are reported and change nothing.
    method MarkRead(recipient: int, id: nat) returns (found: bool)
      requires hub.Valid()
      modifies this`rows, hub.Subscribed(recipient)
      ensures hub.Valid() && hub.subscribers == old(hub.subscribers)
      ensures found == (id < |old(rows)| && old(rows)[id].recipient == recipient)
      ensures !found ==> rows == old(rows) && forall c :: c in hub.Subscribed(recipient) ==> c.queue == old(c.queue)
      ensures found ==>
                && rows == old(rows)[id := old(rows)[id].(read := true)]
                && OnlyMoved(old(Counts(rows)), Counts(rows), recipient, 0, if old(rows)[id].read then 0 else 1)
                && Covers(CountTasks(recipient), Notifications, old(Counts(rows)), Counts(rows))
                && forall u, c :: u in hub.subscribers && c in hub.subscribers[u] ==>
                     c.queue == Worked(old(c.queue), u, CountTasks(recipient), Notifications, Counts(rows))
    {
      found := id < |rows| && rows[id].recipient == recipient;
      if !found {
        return;
      }
      rows := rows[id := rows[id].(read := true)];
      assert rows == Seen(old(rows), recipient, id, id + 1);
      SeeingMovesOne(old(rows), recipient, id, id + 1);
      CountIsCovered(recipient, 0, if old(rows)[id].read then 0 else 1, old(Counts(rows)), Counts(rows));
      PublishUnreadCount(recipient);
    }

    // The recipient's count drops to zero and that is what its subscribers are sent.
    method MarkAllRead(recipient: int)
      requires hub.Valid()
      modifies this`rows, hub.Subscribed(recipient)
      ensures hub.Valid() && hub.subscribers == old(hub.subscribers)
      ensures |rows| == |old(rows)| && forall i :: 0 <= i < |rows| ==>
                rows[i] == if old(rows)[i].recipient == recipient then old(rows)[i].(read := true) else old(rows)[i]
      ensures Unseen(rows, recipient) == 0
      ensures OnlyMoved(old(Counts(rows)), Counts(rows), recipient, 0, Unseen(old(rows), recipient))
      ensures Covers(CountTasks(recipient), Notifications, old(Counts(rows)), Counts(rows))
      ensures forall u, c :: u in hub.subscribers && c in hub.subscribers[u] ==>
                c.queue == Worked(old(c.queue), u, CountTasks(recipient), Notifications, Counts(rows))
    {
      rows := Seen(rows, recipient, 0, |rows|);
      SeeingMovesOne(old(rows), recipient, 0, |old(rows)|);
      CountIsCovered(recipient, 0, Unseen(old(rows), recipient), old(Counts(rows)), Counts(rows));
      PublishUnreadCount(recipient);
    }

    method Tell(user: int, event: Event)
      requires hub.Valid()
      modifies hub.Subscribed(user)
      ensures hub.Valid() && hub.subscribers == old(hub.subscribers)
      ensures forall u, c :: u in hub.subscribers && c in hub.subscribers[u] ==>
                c.queue == if u == user then Deliver(old(c.queue), event) else old(c.queue)
    {
      hub.Publish(user, event);
      forall u, c | u in hub.subscribers && c in hub.subscribers[u]
        ensures c.queue == if u == user then Deliver(old(c.queue), event) else old(c.queue)
      {
        if u != user {
          assert c !in old(hub.Subscribed(user));
        }
      }
    }

    // Every follower and the author are sent the event once per listing, and nobody else is.
    method PublishFeedPost(author: int, followers: seq<int>, event: Event)
      requires hub.Valid()
      modifies Audience(hub, followers + [author])
      ensures hub.Valid() && hub.subscribers == old(hub.subscribers)
      ensures forall u, c :: u in hub.subscribers && c in hub.subscribers[u] ==>
                c.queue == Told(old(c.queue), event, followers + [author], u)
    {
      var recipients := followers + [author];
      var i := 0;
      while i < |recipients|
        invariant 0 <= i <= |recipients|
        invariant hub.Valid() && hub.subscribers == old(hub.subscribers)
        invariant forall u, c :: u in hub.subscribers && c in hub.subscribers[u] ==>
                    c.queue == Told(old(c.queue), event, recipients[..i], u)
      {
        assert forall c :: c in hub.Subscribed(recipients[i]) ==> c in Audience(hub, recipients);
        forall u, c | u in hub.subscribers && c in hub.subscribers[u]
          ensures Told(old(c.queue), event, recipients[..i + 1], u) ==
                  if u == recipients[i] then Deliver(c.queue, event) else c.queue
        {
          ToldOneMore(old(c.queue), event, recipients, i, u);
        }
        Tell(recipients[i], event);
        i := i + 1;
      }
      assert recipients[..i] == recipients;
    }
  }
}
