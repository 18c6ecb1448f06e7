/** What a service call publishes after its writes, and how that covers the counters it changed. */
module Publishing {
  import opened Wrappers
  import opened Events

  datatype Key = Key(user: int, topic: Topic)

  // A call works off its tasks in order: it tells a user of something, or recounts one of the
  // user's counters and then sends the count.
  datatype Task =
    | Announce(user: int, name: string)
    | Recount(user: int, topic: Topic)
    | SendCount(user: int, topic: Topic, count: nat)

  function EventOf(t: Task): Event
    requires !t.Recount?
  {
    if t.Announce? then Other(t.name) else Unread(t.topic, t.count)
  }

  // Every counter whose value differs is recounted.
  ghost predicate Covers(tasks: seq<Task>, topic: Topic, before: int -> nat, after: int -> nat) {
    && (forall t :: t in tasks ==> !t.SendCount?)
    && (forall user :: before(user) != after(user) ==> Recount(user, topic) in tasks)
  }

  // One user's count has gone up or down by this much, and no other has changed.
  ghost predicate OnlyMoved(before: int -> nat, after: int -> nat, user: int, up: nat, down: nat) {
    after(user) + down == before(user) + up && forall u :: u != user ==> after(u) == before(u)
  }

  // What one of the user's queues holds after a call has worked off its tasks undisturbed.
  function Worked(queue: seq<Event>, user: int, tasks: seq<Task>, topic: Topic, count: int -> nat): (r: seq<Event>)
    requires |queue| <= Capacity
    ensures |r| <= Capacity
  {
    if tasks == [] then queue
    else
      var rest, t := Worked(queue, user, tasks[..|tasks| - 1], topic, count), tasks[|tasks| - 1];
      Done(rest, user, t, topic, count)
  }

  function Done(queue: seq<Event>, user: int, t: Task, topic: Topic, count: int -> nat): (r: seq<Event>)
    requires |queue| <= Capacity
    ensures |r| <= Capacity
  {
    if t.user != user then queue
    else if t.Recount? then Deliver(queue, Unread(topic, count(user)))
    else Deliver(queue, EventOf(t))
  }

  lemma WorkedOneMore(queue: seq<Event>, user: int, tasks: seq<Task>, t: Task, topic: Topic, count: int -> nat)
    requires |queue| <= Capacity
    ensures Worked(queue, user, tasks + [t], topic, count) == Done(Worked(queue, user, tasks, topic, count), user, t, topic, count)
  {
    assert (tasks + [t])[..|tasks|] == tasks;
  }
}
