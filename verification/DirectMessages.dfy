/** The direct-message service: rows written, then the counts published through the hub. */
module DirectMessages {
  import opened Wrappers
  import opened Events
  import opened Hub
  import opened Publishing
  import opened Relations

  // ---------------------------------------------------------------------------------------------
  // Unread direct messages
  // ---------------------------------------------------------------------------------------------

  datatype Message = Message(conversation: nat, sender: int, body: string, read: bool)

  // The two participants, smaller id first.
  type Conversations = map<nat, (int, int)>

  function Pair(a: int, b: int): (int, int) {
    if a < b then (a, b) else (b, a)
  }

  predicate Participates(conversations: Conversations, id: nat, user: int) {
    id in conversations && (conversations[id].0 == user || conversations[id].1 == user)
  }

  predicate UnreadBy(m: Message, conversations: Conversations, viewer: int) {
    Participates(conversations, m.conversation, viewer) && m.sender != viewer && !m.read
  }

  function UnreadMessages(messages: seq<Message>, conversations: Conversations, viewer: int): nat {
    if messages == [] then 0
    else UnreadMessages(messages[..|messages| - 1], conversations, viewer) +
         if UnreadBy(messages[|messages| - 1], conversations, viewer) then 1 else 0
  }

  function MarkedRead(messages: seq<Message>, conversations: Conversations, id: nat, reader: int): (r: seq<Message>)
    ensures |r| == |messages|
  {
    seq(|messages|, i requires 0 <= i < |messages| =>
      if messages[i].conversation == id && UnreadBy(messages[i], conversations, reader)
      then messages[i].(read := true) else messages[i])
  }

  // A participant's reading marks the conversation's messages by the other one, and touches nothing else.
  ghost predicate ReadBy(before: seq<Message>, after: seq<Message>, id: nat, reader: int) {
    |after| == |before| && forall i :: 0 <= i < |before| ==>
      after[i] == if before[i].conversation == id && before[i].sender != reader then before[i].(read := true) else before[i]
  }

  // A new message is unread for the other participant and for nobody else.
  lemma SendRaisesOneCount(messages: seq<Message>, conversations: Conversations, m: Message, other: int, user: int)
    requires m.conversation in conversations && conversations[m.conversation] == Pair(m.sender, other)
    requires m.sender != other && !m.read
    ensures UnreadMessages(messages + [m], conversations, user) ==
            UnreadMessages(messages, conversations, user) + if user == other then 1 else 0
  {
    assert (messages + [m])[..|messages|] == messages;
  }

  // Opening a conversation whose id no message carries yet changes no count.
  lemma {:induction false} NewConversationKeepsCounts(messages: seq<Message>, before: Conversations, after: Conversations, user: int)
    requires forall i :: 0 <= i < |messages| ==> messages[i].conversation in before
    requires forall id :: id in before ==> id in after && after[id] == before[id]
    ensures UnreadMessages(messages, after, user) == UnreadMessages(messages, before, user)
  {
    if messages != [] {
      NewConversationKeepsCounts(messages[..|messages| - 1], before, after, user);
    }
  }

  ghost predicate Consistent(messages: seq<Message>, conversations: Conversations) {
    && (forall id :: id in conversations ==> conversations[id].0 < conversations[id].1)
    && (forall i, j :: i in conversations && j in conversations && conversations[i] == conversations[j] ==> i == j)
    && (forall k :: 0 <= k < |messages| ==> Participates(conversations, messages[k].conversation, messages[k].sender))
  }

  // The reader's unread messages of one conversation.
  function UnreadIn(messages: seq<Message>, conversations: Conversations, id: nat, reader: int): nat {
    if messages == [] then 0
    else
      var m := messages[|messages| - 1];
      UnreadIn(messages[..|messages| - 1], conversations, id, reader) +
      if m.conversation == id && UnreadBy(m, conversations, reader) then 1 else 0
  }

  // Reading a conversation clears it for the reader, leaves the reader's other conversations as
  // they were, and moves nobody else's count.
  lemma {:induction false} ReadingClearsOneConversation(messages: seq<Message>, conversations: Conversations, id: nat,
                                                        reader: int, user: int)
    requires Consistent(messages, conversations)
    ensures var after := MarkedRead(messages, conversations, id, reader);
            && UnreadMessages(after, conversations, reader) ==
               UnreadMessages(messages, conversations, reader) - UnreadIn(messages, conversations, id, reader)
            && UnreadIn(after, conversations, id, reader) == 0
            && (user != reader ==> UnreadMessages(after, conversations, user) == UnreadMessages(messages, conversations, user))
  {
    if messages != [] {
      var n := |messages| - 1;
      ReadingClearsOneConversation(messages[..n], conversations, id, reader, user);
      assert MarkedRead(messages, conversations, id, reader)[..n] == MarkedRead(messages[..n], conversations, id, reader);
    }
  }

  // What a sent message and a read conversation publish.
  function SendTasks(sender: int, other: int): seq<Task> {
    [Announce(other, "dm.new"), Recount(other, Messages), Recount(sender, Messages)]
  }

  function ReadTasks(viewer: int): seq<Task> {
    [Recount(viewer, Messages)]
  }

  // Worked off, the tasks of a sent message reach both parties' queues and no others.
  lemma SendIsWorkedOff(queue: seq<Event>, user: int, sender: int, other: int, count: int -> nat)
    requires |queue| <= Capacity && sender != other
    ensures Worked(queue, user, SendTasks(sender, other), Messages, count) ==
            if user == other then Deliver(Deliver(queue, Other("dm.new")), Unread(Messages, count(other)))
            else if user == sender then Deliver(queue, Unread(Messages, count(sender)))
            else queue
  {
    var one, two, three := Announce(other, "dm.new"), Recount(other, Messages), Recount(sender, Messages);
    WorkedOneMore(queue, user, [], one, Messages, count);
    WorkedOneMore(queue, user, [] + [one], two, Messages, count);
    WorkedOneMore(queue, user, [] + [one] + [two], three, Messages, count);
    assert [] + [one] + [two] + [three] == SendTasks(sender, other);
  }

  lemma ReadIsWorkedOff(queue: seq<Event>, user: int, viewer: int, count: int -> nat)
    requires |queue| <= Capacity
    ensures Worked(queue, user, ReadTasks(viewer), Messages, count) ==
            if user == viewer then Deliver(queue, Unread(Messages, count(viewer))) else queue
  {
    WorkedOneMore(queue, user, [], Recount(viewer, Messages), Messages, count);
    assert [] + [Recount(viewer, Messages)] == ReadTasks(viewer);
  }

  ghost function Counts(messages: seq<Message>, conversations: Conversations): int -> nat {
    user => UnreadMessages(messages, conversations, user)
  }

  lemma ReadingMovesOneCount(messages: seq<Message>, conversations: Conversations, id: nat, viewer: int)
    requires Consistent(messages, conversations)
    ensures var after := MarkedRead(messages, conversations, id, viewer);
            && OnlyMoved(Counts(messages, conversations), Counts(after, conversations), viewer, 0,
                         UnreadIn(messages, conversations, id, viewer))
            && UnreadIn(after, conversations, id, viewer) == 0 && Consistent(after, conversations)
  {
    ReadingClearsOneConversation(messages, conversations, id, viewer, viewer);
    forall user | user != viewer
      ensures UnreadMessages(MarkedRead(messages, conversations, id, viewer), conversations, user) ==
              UnreadMessages(messages, conversations, user)
    {
      ReadingClearsOneConversation(messages, conversations, id, viewer, user);
    }
  }

  lemma SendIsCovered(sender: int, other: int, before: int -> nat, after: int -> nat)
    requires OnlyMoved(before, after, other, 1, 0)
    ensures Covers(SendTasks(sender, other), Messages, before, after)
  {
    assert SendTasks(sender, other)[1] == Recount(other, Messages);
  }

  lemma ReadIsCovered(viewer: int, read: nat, before: int -> nat, after: int -> nat)
    requires OnlyMoved(before, after, viewer, 0, read)
    ensures Covers(ReadTasks(viewer), Messages, before, after)
  {
    assert ReadTasks(viewer)[0] == Recount(viewer, Messages);
  }

  datatype User = User(id: int, softDeleted: bool)

  datatype Refusal = UserNotFound | Forbidden | MessageYourself | ConversationNotFound

  // ---------------------------------------------------------------------------------------------
  // Who may write to whom
  // ---------------------------------------------------------------------------------------------

  // The answer, given the rows that the two lookups of the pair happen to read.
  function Answer(users: map<string, User>, sender: int, recipient: string, one: Option<Relation>, other: Option<Relation>): Option<Refusal> {
    if recipient !in users || users[recipient].softDeleted then Some(UserNotFound)
    else if ShowsBlock(one) || ShowsBlock(other) then Some(Forbidden)
    else if users[recipient].id == sender then Some(MessageYourself)
    else None
  }

  // The answers that are possible on this table.
  function Answers(users: map<string, User>, rows: set<Relation>, sender: int, recipient: string): set<Option<Refusal>> {
    if recipient !in users || users[recipient].softDeleted then {Some(UserNotFound)}
    else
      var other := users[recipient].id;
      (if BlockedEitherWay(rows, other, sender) then {Some(Forbidden)} else {}) +
      (if SurelyBlocked(rows, other, sender) then {} else if other == sender then {Some(MessageYourself)} else {None})
  }

  // They are exactly those that some outcome of the two lookups leads to.
  lemma AnswersAreThoseOfLookups(users: map<string, User>, rows: set<Relation>, sender: int, recipient: string, answer: Option<Refusal>)
    requires recipient in users
    ensures var other := users[recipient].id;
            answer in Answers(users, rows, sender, recipient) <==>
            exists one, two :: Lookup(rows, other, sender, one) && Lookup(rows, sender, other, two) &&
                               answer == Answer(users, sender, recipient, one, two)
  {
    var other := users[recipient].id;
    BlockIsFoundIff(rows, other, sender);
    var one := GetRow(rows, other, sender);
    var two := GetRow(rows, sender, other);
    assert Lookup(rows, other, sender, one) && Lookup(rows, sender, other, two);
  }

  // A message between users of whom one blocks the other is always refused exactly when one of
  // the directions holds a block and no row of another kind.
  lemma BlockedPairIsRefusedIff(users: map<string, User>, rows: set<Relation>, sender: int, recipient: string)
    requires recipient in users && !users[recipient].softDeleted && users[recipient].id != sender
    requires BlockedEitherWay(rows, users[recipient].id, sender)
    ensures Answers(users, rows, sender, recipient) == {Some(Forbidden)} <==> SurelyBlocked(rows, users[recipient].id, sender)
    ensures None in Answers(users, rows, sender, recipient) <==> !SurelyBlocked(rows, users[recipient].id, sender)
  {
    var none: Option<Refusal> := None;
    assert none in {none} && none !in {Some(Forbidden)};
  }

  // An unknown or deleted recipient is reported as such and nobody else is; a block that stands
  // alone is found; only a block is reported as one; and only then is one's own name looked at.
  predicate RefusalFits(users: map<string, User>, rows: set<Relation>, sender: int, recipient: string, refusal: Option<Refusal>) {
    if recipient !in users || users[recipient].softDeleted then refusal == Some(UserNotFound)
    else
      var other := users[recipient].id;
      && (refusal == Some(Forbidden) ==>
            Relation(other, sender, Block) in rows || Relation(sender, other, Block) in rows)
      && (refusal != Some(Forbidden) ==>
            && (Relation(other, sender, Block) in rows ==>
                  Relation(other, sender, Follow) in rows || Relation(other, sender, Mute) in rows)
            && (Relation(sender, other, Block) in rows ==>
                  Relation(sender, other, Follow) in rows || Relation(sender, other, Mute) in rows)
            && refusal == if other == sender then Some(MessageYourself) else None)
  }

  class DmService {
    const hub: Hub
    var users: map<string, User>
    var relations: set<Relation>
    var conversations: Conversations
    var messages: seq<Message>

    constructor (hub: Hub)
      ensures this.hub == hub && Consistent(messages, conversations)
    {
      this.hub := hub;
      users, relations, conversations, messages := map[], {}, map[], [];
    }

    function UnreadCount(viewer: int): nat
      reads this
    {
      UnreadMessages(messages, conversations, viewer)
    }

    // Both directions of the pair are looked up, one after the other.
    method FindsBlock(a: int, b: int) returns (blocked: bool)
      ensures SurelyBlocked(relations, a, b) ==> blocked
      ensures blocked ==> BlockedEitherWay(relations, a, b)
    {
      LookupShowsBlockIff(relations, a, b);
      LookupShowsBlockIff(relations, b, a);
      var pairs := [(a, b), (b, a)];
      var i := 0;
      while i < |pairs|
        invariant 0 <= i <= |pairs|
        invariant i > 0 ==> !OnlyBlocks(relations, a, b)
        invariant i > 1 ==> !OnlyBlocks(relations, b, a)
      {
        var row := GetByIDs(relations, pairs[i].0, pairs[i].1);
        if row.Some? && row.value.kind == Block {
          return true;
        }
        i := i + 1;
      }
      return false;
    }

    method GetOrCreateConversation(a: int, b: int) returns (id: nat)
      requires a != b && Consistent(messages, conversations)
      modifies this`conversations
      ensures Consistent(messages, conversations)
      ensures id in conversations && conversations[id] == Pair(a, b)
      ensures conversations == old(conversations)[id := Pair(a, b)]
      ensures id in old(conversations) ==> conversations == old(conversations)
      ensures forall user :: UnreadMessages(messages, conversations, user) == old(UnreadMessages(messages, conversations, user))
    {
      if exists k :: k in conversations && conversations[k] == Pair(a, b) {
        id :| id in conversations && conversations[id] == Pair(a, b);
      } else {
        id := FreshId(conversations.Keys);
        conversations := conversations[id := Pair(a, b)];
        forall user
          ensures UnreadMessages(messages, conversations, user) == old(UnreadMessages(messages, conversations, user))
        {
          NewConversationKeepsCounts(messages, old(conversations), conversations, user);
        }
      }
    }

    method PublishUnreadCount(viewer: int)
      requires hub.Valid()
      modifies hub.Subscribed(viewer)
      ensures hub.Valid() && hub.subscribers == old(hub.subscribers)
      ensures forall c :: c in hub.Subscribed(viewer) ==>
                c.queue == Deliver(old(c.queue), Unread(Messages, UnreadCount(viewer))) && !c.closed
    {
      hub.Publish(viewer, Unread(Messages, UnreadCount(viewer)));
    }

    method AddMessage(id: nat, sender: int, other: int, body: string)
      requires Consistent(messages, conversations) && sender != other
      requires id in conversations && conversations[id] == Pair(sender, other)
      modifies this`messages
      ensures Consistent(messages, conversations)
      ensures messages == old(messages) + [Message(id, sender, body, false)]
      ensures OnlyMoved(old(Counts(messages, conversations)), Counts(messages, conversations), other, 1, 0)
    {
      var m := Message(id, sender, body, false);
      messages := messages + [m];
      forall user
        ensures UnreadMessages(messages, conversations, user) ==
                old(UnreadMessages(messages, conversations, user)) + if user == other then 1 else 0
      {
        SendRaisesOneCount(old(messages), conversations, m, other, user);
      }
    }

    // The recipient is told of the message, then both parties of their counts.
    method PublishSent(sender: int, other: int)
      requires hub.Valid() && sender != other
      modifies hub.Subscribed(sender), hub.Subscribed(other)
      ensures hub.Valid() && hub.subscribers == old(hub.subscribers)
      ensures forall u, c :: u in hub.subscribers && c in hub.subscribers[u] ==>
                c.queue == Worked(old(c.queue), u, SendTasks(sender, other), Messages, Counts(messages, conversations))
    {
      hub.Publish(other, Other("dm.new"));
      PublishUnreadCount(other);
      PublishUnreadCount(sender);
      forall u, c | u in hub.subscribers && c in hub.subscribers[u]
        ensures c.queue == Worked(old(c.queue), u, SendTasks(sender, other), Messages, Counts(messages, conversations))
      {
        SendIsWorkedOff(old(c.queue), u, sender, other, Counts(messages, conversations));
        assert u != sender ==> c !in hub.Subscribed(sender);
        assert u != other ==> c !in hub.Subscribed(other);
      }
    }

    // Whether the message is refused, and why.
    method Refuse(sender: int, recipient: string) returns (refusal: Option<Refusal>)
      ensures refusal in Answers(users, relations, sender, recipient)
      ensures RefusalFits(users, relations, sender, recipient, refusal)
      ensures refusal.None? ==> recipient in users && users[recipient].id != sender
    {
      if recipient !in users || users[recipient].softDeleted {
        return Some(UserNotFound);
      }
      var other := users[recipient].id;
      var blocked := FindsBlock(other, sender);
      if blocked {
        return Some(Forbidden);
      }
      if other == sender {
        return Some(MessageYourself);
      }
      return None;
    }

    // Stores the message: it is unread for the recipient alone.
    method StoreMessage(sender: int, other: int, body: string)
      requires Consistent(messages, conversations) && sender != other
      modifies this`conversations, this`messages
      ensures Consistent(messages, conversations)
      ensures |messages| == |old(messages)| + 1 && messages[..|old(messages)|] == old(messages)
      ensures var m := messages[|old(messages)|];
              m == Message(m.conversation, sender, body, false) &&
              m.conversation in conversations && conversations[m.conversation] == Pair(sender, other)
      ensures OnlyMoved(old(Counts(messages, conversations)), Counts(messages, conversations), other, 1, 0)
    {
      var id := GetOrCreateConversation(sender, other);
      AddMessage(id, sender, other, body);
    }

    // The message is stored, then published.
    method Accept(sender: int, other: int, body: string)
      requires hub.Valid() && Consistent(messages, conversations) && sender != other
      modifies this`conversations, this`messages, hub.Subscribed(sender), hub.Subscribed(other)
      ensures hub.Valid() && Consistent(messages, conversations) && hub.subscribers == old(hub.subscribers)
      ensures |messages| == |old(messages)| + 1 && messages[..|old(messages)|] == old(messages)
      ensures var m := messages[|old(messages)|];
              m == Message(m.conversation, sender, body, false) &&
              m.conversation in conversations && conversations[m.conversation] == Pair(sender, other)
      ensures OnlyMoved(old(Counts(messages, conversations)), Counts(messages, conversations), other, 1, 0)
      ensures Covers(SendTasks(sender, other), Messages, old(Counts(messages, conversations)), Counts(messages, conversations))
      ensures forall u, c :: u in hub.subscribers && c in hub.subscribers[u] ==>
                c.queue == Worked(old(c.queue), u, SendTasks(sender, other), Messages, Counts(messages, conversations))
    {
      StoreMessage(sender, other, body);
      SendIsCovered(sender, other, old(Counts(messages, conversations)), Counts(messages, conversations));
      PublishSent(sender, other);
    }

    // A refused message changes nothing.  An accepted one is stored and is unread for its recipient
    // alone; then the subscribers of both parties are sent what the call publishes, which covers
    // the counter it changed.
    method Send(sender: int, recipient: string, body: string) returns (refusal: Option<Refusal>)
      requires hub.Valid() && Consistent(messages, conversations)
      modifies this`conversations, this`messages
      modifies hub.Subscribed(sender)
      modifies if recipient in users then hub.Subscribed(users[recipient].id) else {}
      ensures hub.Valid() && Consistent(messages, conversations) && hub.subscribers == old(hub.subscribers)
      ensures refusal in Answers(users, relations, sender, recipient)
      ensures RefusalFits(users, relations, sender, recipient, refusal)
      ensures refusal.Some? ==> messages == old(messages) && conversations == old(conversations)
      ensures refusal.Some? ==> forall c :: c in old(hub.Listed()) ==> c.queue == old(c.queue)
      ensures refusal.None? ==> recipient in users
      ensures refusal.None? ==>
                && |messages| == |old(messages)| + 1 && messages[..|old(messages)|] == old(messages)
                && var m, other := messages[|old(messages)|], users[recipient].id;
                   m == Message(m.conversation, sender, body, false) &&
                   m.conversation in conversations && conversations[m.conversation] == Pair(sender, other) &&
                   OnlyMoved(old(Counts(messages, conversations)), Counts(messages, conversations), other, 1, 0) &&
                   Covers(SendTasks(sender, other), Messages, old(Counts(messages, conversations)), Counts(messages, conversations))
      ensures refusal.None? ==>
                forall u, c :: u in hub.subscribers && c in hub.subscribers[u] ==>
                  c.queue == Worked(old(c.queue), u, SendTasks(sender, users[recipient].id), Messages, Counts(messages, conversations))
    {
      refusal := Refuse(sender, recipient);
      if refusal.Some? {
        return;
      }
      Accept(sender, users[recipient].id, body);
    }

    // The reader's count drops by exactly the conversation's unread messages and nobody else's
    // moves; then the reader's subscribers are sent what covers that.
    method MarkRead(viewer: int, id: nat) returns (refusal: Option<Refusal>)
      requires hub.Valid() && Consistent(messages, conversations)
      modifies this`messages, hub.Subscribed(viewer)
      ensures hub.Valid() && Consistent(messages, conversations) && hub.subscribers == old(hub.subscribers)
      ensures refusal == if id in conversations && viewer in [conversations[id].0, conversations[id].1] then None else Some(ConversationNotFound)
      ensures refusal.Some? ==> messages == old(messages) && forall c :: c in old(hub.Listed()) ==> c.queue == old(c.queue)
      ensures refusal.None? ==>
                && ReadBy(old(messages), messages, id, viewer)
                && UnreadIn(messages, conversations, id, viewer) == 0
                && OnlyMoved(old(Counts(messages, conversations)), Counts(messages, conversations), viewer, 0,
                             UnreadIn(old(messages), conversations, id, viewer))
                && Covers(ReadTasks(viewer), Messages, old(Counts(messages, conversations)), Counts(messages, conversations))
      ensures refusal.None? ==>
                forall u, c :: u in hub.subscribers && c in hub.subscribers[u] ==>
                  c.queue == Worked(old(c.queue), u, ReadTasks(viewer), Messages, Counts(messages, conversations))
    {
      if !Participates(conversations, id, viewer) {
        return Some(ConversationNotFound);
      }
      MarkConversation(viewer, id);
      PublishRead(viewer);
      return None;
    }

    method PublishRead(viewer: int)
      requires hub.Valid()
      modifies hub.Subscribed(viewer)
      ensures hub.Valid() && hub.subscribers == old(hub.subscribers)
      ensures forall u, c :: u in hub.subscribers && c in hub.subscribers[u] ==>
                c.queue == Worked(old(c.queue), u, ReadTasks(viewer), Messages, Counts(messages, conversations))
    {
      PublishUnreadCount(viewer);
      forall u, c | u in hub.subscribers && c in hub.subscribers[u]
        ensures c.queue == Worked(old(c.queue), u, ReadTasks(viewer), Messages, Counts(messages, conversations))
      {
        ReadIsWorkedOff(old(c.queue), u, viewer, Counts(messages, conversations));
        assert u != viewer ==> c !in hub.Subscribed(viewer);
      }
    }

    method MarkConversation(viewer: int, id: nat)
      requires Consistent(messages, conversations) && Participates(conversations, id, viewer)
      modifies this`messages
      ensures Consistent(messages, conversations)
      ensures ReadBy(old(messages), messages, id, viewer) && UnreadIn(messages, conversations, id, viewer) == 0
      ensures OnlyMoved(old(Counts(messages, conversations)), Counts(messages, conversations), viewer, 0,
                        UnreadIn(old(messages), conversations, id, viewer))
      ensures Covers(ReadTasks(viewer), Messages, old(Counts(messages, conversations)), Counts(messages, conversations))
    {
      messages := MarkedRead(messages, conversations, id, viewer);
      ReadingMovesOneCount(old(messages), conversations, id, viewer);
      ReadIsCovered(viewer, UnreadIn(old(messages), conversations, id, viewer),
                    old(Counts(messages, conversations)), Counts(messages, conversations));
    }
  }

  // Any number not yet in use.
  method FreshId(taken: set<nat>) returns (id: nat)
    ensures id !in taken
  {
    id := 0;
    var left := taken;
    while id in taken
      invariant left == set k | k in taken && id <= k
      decreases left
    {
      assert id in left;
      left := left - {id};
      id := id + 1;
    }
  }
}
