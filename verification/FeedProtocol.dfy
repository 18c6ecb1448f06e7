/** The home-feed cache with everything interleaved: a write and its invalidations, user by user,
    are separate steps, and so are reading a feed and storing the page.
  */
module FeedProtocol {
  import opened Wrappers
  import opened FeedKeys

  datatype StoredPage = StoredPage(owner: int, cursor: string, readAt: nat, storedAt: nat)

  // A post write; `dropped` says for which users, and when, its invalidation deleted the pages.
  datatype TimedWrite = TimedWrite(author: int, at: nat, dropped: map<int, nat>)

  datatype Fill = Fill(owner: int, cursor: string, readAt: nat)

  datatype State = State(
    entries: map<string, StoredPage>,
    fills: map<nat, Fill>,
    writes: seq<TimedWrite>,
    follows: set<(int, int)>,
    clock: nat)

  const Init := State(map[], map[], [], {}, 0)

  datatype Action =
    | WritePost(author: int)
    | Drop(write: nat, user: int)
    | ReadFeed(fill: nat, user: int, cursor: string)
    | StoreFeed(fill: nat)
    | Expire(key: string)
    | SetFollow(follower: int, author: int, following: bool)

  predicate Enabled(s: State, a: Action) {
    match a
    case Drop(write, user) =>
      write < |s.writes| && (user == s.writes[write].author || (user, s.writes[write].author) in s.follows)
    case ReadFeed(fill, _, _) => fill !in s.fills
    case StoreFeed(fill) => fill in s.fills
    case _ => true
  }

  function Next(s: State, a: Action): State
    requires Enabled(s, a)
  {
    match a
    case WritePost(author) => s.(writes := s.writes + [TimedWrite(author, s.clock, map[])], clock := s.clock + 1)
    case Drop(write, user) =>
      var w := s.writes[write];
      s.(entries := map k | k in s.entries && !GlobMatch(FeedPattern(user), k) :: s.entries[k],
         writes := s.writes[write := w.(dropped := w.dropped[user := s.clock])],
         clock := s.clock + 1)
    case ReadFeed(fill, user, cursor) =>
      s.(fills := s.fills[fill := Fill(user, cursor, s.clock)], clock := s.clock + 1)
    case StoreFeed(fill) =>
      var f := s.fills[fill];
      s.(entries := s.entries[FeedKey(f.owner, f.cursor) := StoredPage(f.owner, f.cursor, f.readAt, s.clock)],
         fills := s.fills - {fill}, clock := s.clock + 1)
    case Expire(key) => s.(entries := s.entries - {key}, clock := s.clock + 1)
    case SetFollow(follower, author, following) =>
      s.(follows := if following then s.follows + {(follower, author)} else s.follows - {(follower, author)},
         clock := s.clock + 1)
  }

  function Run(acts: seq<Action>): Option<State> {
    if acts == [] then Some(Init)
    else
      var before := Run(acts[..|acts| - 1]);
      if before.Some? && Enabled(before.value, acts[|acts| - 1])
      then Some(Next(before.value, acts[|acts| - 1]))
      else None
  }

  ghost predicate Inv(s: State) {
    && (forall k :: k in s.entries ==> k == FeedKey(s.entries[k].owner, s.entries[k].cursor))
    && (forall k :: k in s.entries ==> s.entries[k].readAt < s.entries[k].storedAt < s.clock)
    && (forall f :: f in s.fills ==> s.fills[f].readAt < s.clock)
    && (forall i :: 0 <= i < |s.writes| ==> s.writes[i].at < s.clock)
    && (forall i, u :: 0 <= i < |s.writes| && u in s.writes[i].dropped ==> s.writes[i].at < s.writes[i].dropped[u] < s.clock)
    && (forall k, i :: k in s.entries && 0 <= i < |s.writes| ==> DroppedBefore(s.entries[k], s.writes[i]))
  }

  // Pages of a user that survive are stored after the user's pages were dropped.
  ghost predicate DroppedBefore(page: StoredPage, w: TimedWrite) {
    page.owner in w.dropped ==> w.dropped[page.owner] < page.storedAt
  }

  lemma DropKeepsInv(s: State, write: nat, user: int)
    requires Inv(s) && Enabled(s, Drop(write, user))
    ensures Inv(Next(s, Drop(write, user)))
  {
    var s' := Next(s, Drop(write, user));
    forall k, i | k in s'.entries && 0 <= i < |s'.writes|
      ensures DroppedBefore(s'.entries[k], s'.writes[i])
    {
      PatternFindsExactlyTheUser(user, s.entries[k].owner, s.entries[k].cursor);
      assert DroppedBefore(s.entries[k], s.writes[i]);
    }
  }

  lemma StoreKeepsInv(s: State, fill: nat)
    requires Inv(s) && Enabled(s, StoreFeed(fill))
    ensures Inv(Next(s, StoreFeed(fill)))
  {
    var s', f := Next(s, StoreFeed(fill)), s.fills[fill];
    forall k, i | k in s'.entries && 0 <= i < |s'.writes|
      ensures DroppedBefore(s'.entries[k], s'.writes[i])
    {
      if k != FeedKey(f.owner, f.cursor) {
        assert DroppedBefore(s.entries[k], s.writes[i]);
      }
    }
  }

  lemma OtherStepsKeepInv(s: State, a: Action)
    requires Inv(s) && Enabled(s, a) && !a.Drop? && !a.StoreFeed?
    ensures Inv(Next(s, a))
  {
    var s' := Next(s, a);
    forall k, i | k in s'.entries && 0 <= i < |s'.writes|
      ensures DroppedBefore(s'.entries[k], s'.writes[i])
    {
      if i < |s.writes| {
        assert DroppedBefore(s.entries[k], s.writes[i]);
      }
    }
  }

  lemma {:induction false} RunsKeepInv(acts: seq<Action>)
    requires Run(acts).Some?
    ensures Inv(Run(acts).value)
  {
    if acts != [] {
      var s, a := Run(acts[..|acts| - 1]).value, acts[|acts| - 1];
      RunsKeepInv(acts[..|acts| - 1]);
      match a
      case Drop(write, user) => DropKeepsInv(s, write, user);
      case StoreFeed(fill) => StoreKeepsInv(s, fill);
      case _ => OtherStepsKeepInv(s, a);
    }
  }

  // ---------------------------------------------------------------------------------------------
  // When a cached page is stale
  // ---------------------------------------------------------------------------------------------

  // The page misses a write whose invalidation has already passed over its owner, so nothing will
  // drop it on that account any more.
  ghost predicate Stale(page: StoredPage, writes: seq<TimedWrite>) {
    exists i :: 0 <= i < |writes| && page.owner in writes[i].dropped && page.readAt < writes[i].at
  }

  ghost predicate AllFresh(s: State) {
    forall k :: k in s.entries ==> !Stale(s.entries[k], s.writes)
  }

  // Since the feed was read a write was made and its invalidation has passed over the user: what
  // the step would have to look for before it stores the page.
  ghost predicate Overtaken(s: State, fill: nat) {
    fill in s.fills && exists i :: WriteOvertakes(s, s.fills[fill], i)
  }

  predicate WriteOvertakes(s: State, f: Fill, i: int) {
    0 <= i < |s.writes| && f.readAt < s.writes[i].at && f.owner in s.writes[i].dropped
  }

  // Storing a page leaves a stale one exactly when the fill was overtaken.
  lemma StoreIsStaleIffOvertaken(s: State, fill: nat)
    requires Inv(s) && Enabled(s, StoreFeed(fill))
    ensures var s', f := Next(s, StoreFeed(fill)), s.fills[fill];
            && FeedKey(f.owner, f.cursor) in s'.entries
            && (Stale(s'.entries[FeedKey(f.owner, f.cursor)], s'.writes) <==> Overtaken(s, fill))
  {
    var f := s.fills[fill];
    assert forall i :: WriteOvertakes(s, f, i) <==> 0 <= i < |s.writes| && f.owner in s.writes[i].dropped && f.readAt < s.writes[i].at;
  }

  // No other step makes a page stale: what an invalidation passes over it also removes.
  lemma OnlyStoringMakesStale(s: State, a: Action, key: string)
    requires Inv(s) && Enabled(s, a) && key in Next(s, a).entries && Stale(Next(s, a).entries[key], Next(s, a).writes)
    ensures (key in s.entries && Stale(s.entries[key], s.writes)) || (a.StoreFeed? && Overtaken(s, a.fill))
  {
    var s' := Next(s, a);
    var page := s'.entries[key];
    var i :| 0 <= i < |s'.writes| && page.owner in s'.writes[i].dropped && page.readAt < s'.writes[i].at;
    if a.StoreFeed? && key == FeedKey(s.fills[a.fill].owner, s.fills[a.fill].cursor) {
      assert WriteOvertakes(s, s.fills[a.fill], i);
    } else if a.Drop? {
      PatternFindsExactlyTheUser(a.user, s.entries[key].owner, s.entries[key].cursor);
      assert i < |s.writes| && page.owner in s.writes[i].dropped;
    } else {
      assert i < |s.writes| && page.owner in s.writes[i].dropped;
    }
  }

  lemma {:induction false} ValidPrefix(acts: seq<Action>, n: nat)
    requires Run(acts).Some? && n <= |acts|
    ensures Run(acts[..n]).Some?
    decreases |acts|
  {
    if n == |acts| {
      assert acts[..n] == acts;
    } else {
      ValidPrefix(acts[..|acts| - 1], n);
      assert acts[..|acts| - 1][..n] == acts[..n];
    }
  }

  // The state after the first n steps of a run.
  ghost function At(acts: seq<Action>, n: nat): State
    requires Run(acts).Some? && n <= |acts|
  {
    ValidPrefix(acts, n);
    Run(acts[..n]).value
  }

  lemma {:induction false} Stepwise(acts: seq<Action>, n: nat)
    requires Run(acts).Some? && n < |acts|
    ensures Enabled(At(acts, n), acts[n]) && At(acts, n + 1) == Next(At(acts, n), acts[n])
  {
    ValidPrefix(acts, n + 1);
    assert acts[..n + 1][..n] == acts[..n];
  }

  lemma {:induction false} InvAt(acts: seq<Action>, n: nat)
    requires Run(acts).Some? && n <= |acts|
    ensures Inv(At(acts, n))
  {
    ValidPrefix(acts, n);
    RunsKeepInv(acts[..n]);
  }

  // The step at index n stored a page whose fill had been overtaken.
  ghost predicate StoredLate(acts: seq<Action>, n: nat)
    requires Run(acts).Some? && n < |acts|
  {
    acts[n].StoreFeed? && Overtaken(At(acts, n), acts[n].fill)
  }

  ghost predicate FreshAfter(acts: seq<Action>, n: nat)
    requires Run(acts).Some? && n <= |acts|
  {
    AllFresh(At(acts, n))
  }

  lemma StepKeepsFresh(s: State, a: Action)
    requires Inv(s) && Enabled(s, a) && AllFresh(s) && !(a.StoreFeed? && Overtaken(s, a.fill))
    ensures AllFresh(Next(s, a))
  {
    var s' := Next(s, a);
    forall key | key in s'.entries
      ensures !Stale(s'.entries[key], s'.writes)
    {
      if Stale(s'.entries[key], s'.writes) {
        OnlyStoringMakesStale(s, a, key);
      }
    }
  }

  lemma {:induction false} FreshUntilStoredLate(acts: seq<Action>, n: nat)
    requires Run(acts).Some? && n <= |acts|
    requires forall k :: 0 <= k < n ==> !StoredLate(acts, k)
    ensures FreshAfter(acts, n)
  {
    if n > 0 {
      FreshUntilStoredLate(acts, n - 1);
      Stepwise(acts, n - 1);
      InvAt(acts, n - 1);
      assert !StoredLate(acts, n - 1);
      StepKeepsFresh(At(acts, n - 1), acts[n - 1]);
    }
  }

  lemma {:induction false} StoredLateIsStale(acts: seq<Action>, n: nat)
    requires Run(acts).Some? && n < |acts| && StoredLate(acts, n)
    ensures !FreshAfter(acts, n + 1)
  {
    Stepwise(acts, n);
    InvAt(acts, n);
    StoreIsStaleIffOvertaken(At(acts, n), acts[n].fill);
  }

  // Throughout a run every cached page holds all invalidated writes exactly when no page is ever
  // stored whose fill had been overtaken.
  lemma {:induction false} AlwaysFreshIffNeverStoredLate(acts: seq<Action>)
    requires Run(acts).Some?
    ensures (forall n :: 0 <= n <= |acts| ==> FreshAfter(acts, n)) <==> (forall n :: 0 <= n < |acts| ==> !StoredLate(acts, n))
  {
    if forall n :: 0 <= n < |acts| ==> !StoredLate(acts, n) {
      forall n | 0 <= n <= |acts|
        ensures FreshAfter(acts, n)
      {
        FreshUntilStoredLate(acts, n);
      }
    }
    forall n | 0 <= n < |acts| && StoredLate(acts, n)
      ensures !FreshAfter(acts, n + 1)
    {
      StoredLateIsStale(acts, n);
    }
  }

  // So a run whose fills no write interrupts keeps every page fresh.
  lemma {:induction false} UninterruptedFillsStayFresh(acts: seq<Action>)
    requires Run(acts).Some?
    requires forall n :: 0 <= n < |acts| && acts[n].StoreFeed? ==> Uninterrupted(At(acts, n), acts[n].fill)
    ensures forall n :: 0 <= n <= |acts| ==> FreshAfter(acts, n)
  {
    forall n | 0 <= n < |acts|
      ensures !StoredLate(acts, n)
    {
      assert acts[n].StoreFeed? ==> Uninterrupted(At(acts, n), acts[n].fill);
    }
    AlwaysFreshIffNeverStoredLate(acts);
  }

  // No write has been made since the feed was read.
  predicate Uninterrupted(s: State, fill: nat) {
    fill in s.fills ==> forall i :: 0 <= i < |s.writes| ==> s.writes[i].at <= s.fills[fill].readAt
  }

  // ---------------------------------------------------------------------------------------------
  // The same, told from the steps alone
  // ---------------------------------------------------------------------------------------------

  function WritesIn(acts: seq<Action>): nat {
    if acts == [] then 0 else WritesIn(acts[..|acts| - 1]) + if acts[|acts| - 1].WritePost? then 1 else 0
  }

  // The fill that a store step at n would end was begun at i.
  predicate BegunAt(acts: seq<Action>, fill: nat, i: nat, n: nat)
    requires n <= |acts|
  {
    && i < n && acts[i].ReadFeed? && acts[i].fill == fill
    && forall k :: i < k < n ==> acts[k] != StoreFeed(fill)
  }

  // Times are positions: every fill was begun at its time.
  ghost predicate FillsRecorded(acts: seq<Action>, s: State) {
    && (forall f :: f in s.fills ==> BegunAt(acts, f, s.fills[f].readAt, |acts|) && acts[s.fills[f].readAt].user == s.fills[f].owner)
    && (forall f: nat, i: nat :: BegunAt(acts, f, i, |acts|) ==> f in s.fills && s.fills[f].readAt == i)
  }

  // The write of each number was made at its time, and was dropped for exactly the users that some
  // step dropped it for.
  ghost predicate WritesRecorded(acts: seq<Action>, s: State) {
    && s.clock == |acts| && |s.writes| == WritesIn(acts)
    && (forall w :: 0 <= w < |s.writes| ==> MadeAt(acts, w, s.writes[w].at))
    && (forall w: nat, p: nat :: MadeAt(acts, w, p) ==> w < |s.writes| && s.writes[w].at == p)
    && (forall w, u :: 0 <= w < |s.writes| && u in s.writes[w].dropped ==> DroppedAt(acts, w, u, s.writes[w].dropped[u]))
    && (forall w: nat, u, j: nat :: DroppedAt(acts, w, u, j) ==> w < |s.writes| && u in s.writes[w].dropped)
  }

  predicate MadeAt(acts: seq<Action>, w: nat, p: nat) {
    p < |acts| && acts[p].WritePost? && WritesIn(acts[..p]) == w
  }

  predicate DroppedAt(acts: seq<Action>, w: nat, user: int, j: nat) {
    j < |acts| && acts[j] == Drop(w, user)
  }

  lemma {:induction false} FillsStayRecorded(acts: seq<Action>, s: State, a: Action)
    requires FillsRecorded(acts, s) && s.clock == |acts| && Enabled(s, a)
    ensures FillsRecorded(acts + [a], Next(s, a))
  {
    var after := acts + [a];
    forall f: nat, i: nat | i < |acts|
      ensures BegunAt(after, f, i, |after|) <==> BegunAt(acts, f, i, |acts|) && a != StoreFeed(f)
    {
      assert after[i] == acts[i] && after[|acts|] == a;
      assert forall k :: i < k < |acts| ==> after[k] == acts[k];
    }
    assert forall f: nat :: BegunAt(after, f, |acts|, |after|) <==> a.ReadFeed? && a.fill == f;
  }

  lemma {:induction false} WritesStayRecorded(acts: seq<Action>, s: State, a: Action)
    requires WritesRecorded(acts, s) && Enabled(s, a)
    ensures WritesRecorded(acts + [a], Next(s, a))
  {
    var after := acts + [a];
    assert after[..|acts|] == acts && after[|acts|] == a;
    forall w: nat, p: nat
      ensures MadeAt(after, w, p) <==> MadeAt(acts, w, p) || (p == |acts| && a.WritePost? && w == WritesIn(acts))
    {
      assert p < |acts| ==> after[p] == acts[p] && after[..p] == acts[..p];
    }
    forall w: nat, u, j: nat
      ensures DroppedAt(after, w, u, j) <==> DroppedAt(acts, w, u, j) || (j == |acts| && a == Drop(w, u))
    {
      assert j < |acts| ==> after[j] == acts[j];
    }
  }

  lemma {:induction false} RunsAreRecorded(acts: seq<Action>)
    requires Run(acts).Some?
    ensures FillsRecorded(acts, Run(acts).value) && WritesRecorded(acts, Run(acts).value)
  {
    if acts != [] {
      var init, a := acts[..|acts| - 1], acts[|acts| - 1];
      RunsAreRecorded(init);
      FillsStayRecorded(init, Run(init).value, a);
      WritesStayRecorded(init, Run(init).value, a);
      assert init + [a] == acts;
    }
  }

  // After the feed was read at i, a post was written at p and dropped for the owner at j.
  predicate Crossed(acts: seq<Action>, fill: nat, i: nat, p: nat, j: nat) {
    && i < p < j < |acts| && BegunAt(acts, fill, i, |acts|)
    && acts[p].WritePost? && acts[j] == Drop(WritesIn(acts[..p]), acts[i].user)
  }

  // A page is stored late exactly when its steps enclose a write and then that write's drop.
  lemma {:induction false} OvertakenIffCrossed(acts: seq<Action>, fill: nat)
    requires Run(acts).Some?
    ensures Overtaken(Run(acts).value, fill) <==> exists i: nat, p: nat, j: nat :: Crossed(acts, fill, i, p, j)
  {
    RunsAreRecorded(acts);
    RunsKeepInv(acts);
    var s := Run(acts).value;
    if Overtaken(s, fill) {
      var f := s.fills[fill];
      var w: nat :| WriteOvertakes(s, f, w);
      var j := s.writes[w].dropped[f.owner];
      assert MadeAt(acts, w, s.writes[w].at) && DroppedAt(acts, w, f.owner, j);
      assert Crossed(acts, fill, f.readAt, s.writes[w].at, j);
    }
    forall i: nat, p: nat, j: nat | Crossed(acts, fill, i, p, j)
      ensures Overtaken(s, fill)
    {
      var w := WritesIn(acts[..p]);
      assert MadeAt(acts, w, p) && DroppedAt(acts, w, acts[i].user, j);
      assert WriteOvertakes(s, s.fills[fill], w);
    }
  }

  // The step at n stores a page whose steps enclose a write and its drop.
  ghost predicate StoredAcross(acts: seq<Action>, n: nat)
    requires n < |acts|
  {
    acts[n].StoreFeed? && exists i: nat, p: nat, j: nat :: Crossed(acts[..n], acts[n].fill, i, p, j)
  }

  // So whether a run keeps every page fresh can be told from its steps alone.
  lemma {:induction false} AlwaysFreshIffNeverAcross(acts: seq<Action>)
    requires Run(acts).Some?
    ensures (forall n :: 0 <= n <= |acts| ==> FreshAfter(acts, n)) <==> (forall n :: 0 <= n < |acts| ==> !StoredAcross(acts, n))
  {
    forall n | 0 <= n < |acts|
      ensures StoredLate(acts, n) <==> StoredAcross(acts, n)
    {
      ValidPrefix(acts, n);
      if acts[n].StoreFeed? {
        OvertakenIffCrossed(acts[..n], acts[n].fill);
      }
    }
    AlwaysFreshIffNeverStoredLate(acts);
  }

  // A page can be stored late: the author reads the feed, posts, drops the pages and stores.
  function LateRun(): seq<Action> {
    [ReadFeed(0, 7, "")] + [WritePost(7)] + [Drop(0, 7)] + [StoreFeed(0)]
  }

  lemma Appended(acts: seq<Action>, a: Action)
    requires Run(acts).Some? && Enabled(Run(acts).value, a)
    ensures Run(acts + [a]) == Some(Next(Run(acts).value, a))
  {
    assert (acts + [a])[..|acts|] == acts;
  }

  lemma PagesCanBeStoredLate()
    ensures Run(LateRun()).Some? && !AllFresh(Run(LateRun()).value)
  {
    var one, two := [ReadFeed(0, 7, "")], [ReadFeed(0, 7, "")] + [WritePost(7)];
    var three := two + [Drop(0, 7)];
    Appended([], ReadFeed(0, 7, ""));
    Appended(one, WritePost(7));
    Appended(two, Drop(0, 7));
    var s := Run(three).value;
    assert s.fills[0] == Fill(7, "", 0) && |s.writes| == 1 && s.writes[0].at == 1 && 7 in s.writes[0].dropped;
    Appended(three, StoreFeed(0));
    RunsKeepInv(three);
    assert WriteOvertakes(s, s.fills[0], 0);
    StoreIsStaleIffOvertaken(s, 0);
  }
}
