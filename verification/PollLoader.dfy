/** Loading the generated polls, and the votes on them. */
module PollLoader {
  import opened Wrappers
  import opened Dataset
  import opened PostTree

  // Option ids by position.
  datatype PollRow = PollRow(options: seq<int>, endsAt: Option<int>)

  datatype Outcome = Recorded | BadRequest | AlreadyExists | NotFound

  // The generated posts, polls and votes with the ids their loading has given so far.
  datatype Community = Community(posts: seq<Post>, polls: seq<Poll>, votes: seq<Vote>, userIDs: seq<int>, postIDs: seq<int>)
  {
    predicate HasPoll(i: int)
      requires 0 <= i < |posts|
    {
      0 <= posts[i].poll < |polls|
    }

    // Votes on a poll name one of its options and a user; the posts have ids of their own.
    predicate InRange() {
      && |postIDs| == |posts|
      && Distinct(postIDs)
      && forall v :: v in votes && 0 <= v.post < |posts| && HasPoll(v.post) ==>
           0 <= v.option < polls[posts[v.post].poll].options && 0 <= v.voter < |userIDs|
    }
  }

  // The votes on one poll: of two by the same user, the first stands.
  function CastOn(votes: seq<Vote>, post: int, key: int, options: seq<int>, userIDs: seq<int>, ballots: map<(int, int), int>): map<(int, int), int>
    requires forall v :: v in votes && v.post == post ==> 0 <= v.option < |options| && 0 <= v.voter < |userIDs|
  {
    if votes == [] then ballots
    else
      var v := votes[|votes| - 1];
      var before := CastOn(votes[..|votes| - 1], post, key, options, userIDs, ballots);
      if v.post != post || (key, userIDs[v.voter]) in before then before
      else before[(key, userIDs[v.voter]) := options[v.option]]
  }

  // The first posts' polls are in the store.
  predicate Ready(rows: map<int, PollRow>, c: Community, n: nat)
    requires c.InRange() && n <= |c.posts|
  {
    forall i :: 0 <= i < n && c.HasPoll(i) ==>
      && c.postIDs[i] in rows
      && |rows[c.postIDs[i]].options| == c.polls[c.posts[i].poll].options
      && rows[c.postIDs[i]].endsAt == c.polls[c.posts[i].poll].endsAt
  }

  // Nothing else was added, and what was there is unchanged.
  ghost predicate OnlyAdded(before: map<int, PollRow>, rows: map<int, PollRow>, c: Community, n: nat)
    requires c.InRange() && n <= |c.posts|
  {
    && (forall id :: id in before ==> id in rows && rows[id] == before[id])
    && forall id :: id in rows && id !in before ==> exists i :: 0 <= i < n && c.HasPoll(i) && id == c.postIDs[i]
  }

  predicate Open(c: Community, i: int, now: int)
    requires 0 <= i < |c.posts|
  {
    c.HasPoll(i) && !Over(c.polls[c.posts[i].poll].endsAt, now)
  }

  // The ballots after the votes on the first posts; votes on a poll that has ended are skipped.
  function CastUpTo(rows: map<int, PollRow>, c: Community, n: nat, now: int, ballots: map<(int, int), int>): map<(int, int), int>
    requires c.InRange() && n <= |c.posts| && Ready(rows, c, n)
  {
    if n == 0 then ballots
    else
      var earlier := CastUpTo(rows, c, n - 1, now, ballots);
      if Open(c, n - 1, now) then
        CastOn(c.votes, n - 1, c.postIDs[n - 1], rows[c.postIDs[n - 1]].options, c.userIDs, earlier)
      else earlier
  }

  // Polls created later do not matter.
  lemma {:induction false} CastUpToFrame(rows: map<int, PollRow>, more: map<int, PollRow>, c: Community, n: nat, now: int, ballots: map<(int, int), int>)
    requires c.InRange() && n <= |c.posts| && Ready(rows, c, n)
    requires forall id :: id in rows ==> id in more && more[id] == rows[id]
    ensures Ready(more, c, n) && CastUpTo(more, c, n, now, ballots) == CastUpTo(rows, c, n, now, ballots)
  {
    if n > 0 {
      CastUpToFrame(rows, more, c, n - 1, now, ballots);
    }
  }

  // An option id belongs to one option of one poll.
  ghost predicate OptionsApart(rows: map<int, PollRow>) {
    forall p, q, i, j ::
      (p in rows && q in rows && 0 <= i < |rows[p].options| && 0 <= j < |rows[q].options| && !(p == q && i == j)) ==>
        rows[p].options[i] != rows[q].options[j]
  }

  // Each option id is recorded with its poll and position.
  ghost predicate Owned(rows: map<int, PollRow>, owners: map<int, (int, int)>, last: nat) {
    && (forall o :: o in owners ==> o <= last)
    && (forall p, i :: p in rows && 0 <= i < |rows[p].options| ==>
          rows[p].options[i] in owners && owners[rows[p].options[i]] == (p, i))
  }

  lemma OwnersKeepApart(rows: map<int, PollRow>, owners: map<int, (int, int)>, last: nat)
    requires Owned(rows, owners, last)
    ensures OptionsApart(rows)
  {
    forall p, q, i, j | p in rows && q in rows && 0 <= i < |rows[p].options| && 0 <= j < |rows[q].options| && !(p == q && i == j)
      ensures rows[p].options[i] != rows[q].options[j]
    {
      assert owners[rows[p].options[i]] == (p, i) && owners[rows[q].options[j]] == (q, j);
    }
  }

  // A poll with the next ids, in order.
  lemma {:induction false} NextIdsAreOwned(rows: map<int, PollRow>, owners: map<int, (int, int)>, last: nat, post: int, row: PollRow)
    returns (more: map<int, (int, int)>)
    requires Owned(rows, owners, last) && post !in rows
    requires forall i :: 0 <= i < |row.options| ==> row.options[i] == last + 1 + i
    ensures Owned(rows[post := row], more, last + |row.options|)
  {
    var added := map o | o in row.options :: (post, o - last - 1);
    more := owners + added;
    var after := rows[post := row];
    forall p, i | p in after && 0 <= i < |after[p].options|
      ensures after[p].options[i] in more && more[after[p].options[i]] == (p, i)
    {
      if p == post {
        assert after[p].options[i] in added;
      } else {
        assert rows[p].options[i] in owners;
      }
    }
  }

  class PollStore {
    var rows: map<int, PollRow>
    var ballots: map<(int, int), int>
    var lastOption: nat

    ghost var owners: map<int, (int, int)>

    // No option id is used twice, within a poll or across polls.
    ghost predicate Valid()
      reads this`rows, this`owners, this`lastOption
    {
      Owned(rows, owners, lastOption)
    }

    constructor ()
      ensures Valid() && rows == map[] && ballots == map[]
    {
      rows, ballots, lastOption := map[], map[], 0;
      owners := map[];
    }

    // One poll to a post, with at most four options.
    method Create(postID: int, options: nat, endsAt: Option<int>) returns (ok: bool)
      requires Valid()
      modifies this`rows, this`owners, this`lastOption
      ensures Valid() && OptionsApart(rows)
      ensures ok <==> postID !in old(rows) && options <= 4
      ensures !ok ==> rows == old(rows)
      ensures ok ==> postID in rows && rows == old(rows)[postID := rows[postID]]
      ensures ok ==> |rows[postID].options| == options && rows[postID].endsAt == endsAt
    {
      OwnersKeepApart(rows, owners, lastOption);
      if postID in rows || options > 4 {
        return false;
      }
      var first := lastOption + 1;
      var ids := seq(options, i => first + i);
      owners := NextIdsAreOwned(rows, owners, lastOption, postID, PollRow(ids, endsAt));
      rows := rows[postID := PollRow(ids, endsAt)];
      lastOption := lastOption + options;
      OwnersKeepApart(rows, owners, lastOption);
      return true;
    }

    method Vote(postID: int, optionID: int, userID: int, now: int) returns (outcome: Outcome)
      modifies this`ballots
      ensures outcome.NotFound? <==> postID !in rows
      ensures outcome.BadRequest? <==>
              postID in rows &&
              ((rows[postID].endsAt.Some? && rows[postID].endsAt.value < now) || optionID !in rows[postID].options)
      ensures outcome.AlreadyExists? ==> (postID, userID) in old(ballots)
      ensures outcome.Recorded? ==> (postID, userID) !in old(ballots)
      ensures ballots == if outcome.Recorded? then old(ballots)[(postID, userID) := optionID] else old(ballots)
    {
      if postID !in rows {
        return NotFound;
      }
      if Over(rows[postID].endsAt, now) || optionID !in rows[postID].options {
        return BadRequest;
      }
      if (postID, userID) in ballots {
        return AlreadyExists;
      }
      ballots := ballots[(postID, userID) := optionID];
      return Recorded;
    }

    // The votes on one poll: those refused are skipped.
    method ApplyVotes(c: Community, i: nat, now: int)
      requires c.InRange() && i < |c.posts| && c.HasPoll(i) && Ready(rows, c, i + 1)
      modifies this`ballots
      ensures ballots ==
              if Open(c, i, now) then CastOn(c.votes, i, c.postIDs[i], rows[c.postIDs[i]].options, c.userIDs, old(ballots))
              else old(ballots)
    {
      var options := rows[c.postIDs[i]].options;
      var j := 0;
      while j < |c.votes|
        invariant 0 <= j <= |c.votes| && options == rows[c.postIDs[i]].options
        invariant ballots ==
                  if Open(c, i, now) then CastOn(c.votes[..j], i, c.postIDs[i], options, c.userIDs, old(ballots))
                  else old(ballots)
      {
        var v := c.votes[j];
        assert c.votes[..j + 1][..j] == c.votes[..j];
        if v.post == i {
          var _ := Vote(c.postIDs[i], options[v.option], c.userIDs[v.voter], now);
        }
        j := j + 1;
      }
      assert c.votes[..j] == c.votes;
    }

    // Loads polls and votes post by post.  It stops where a poll cannot be created.
    method ApplyPolls(c: Community, now: int) returns (failed: Option<nat>)
      requires c.InRange() && Valid()
      modifies this
      ensures Valid()
      ensures var n := if failed.Some? && failed.value < |c.posts| then failed.value else |c.posts|;
              && (failed.Some? ==>
                    && failed.value < |c.posts| && c.HasPoll(failed.value)
                    && (c.postIDs[failed.value] in old(rows) || c.polls[c.posts[failed.value].poll].options > 4))
              && (forall i :: 0 <= i < n && c.HasPoll(i) ==>
                    c.postIDs[i] !in old(rows) && c.polls[c.posts[i].poll].options <= 4)
              && Ready(rows, c, n) && OnlyAdded(old(rows), rows, c, n)
              && ballots == CastUpTo(rows, c, n, now, old(ballots))
    {
      var i := 0;
      while i < |c.posts|
        invariant 0 <= i <= |c.posts| && Valid()
        invariant Ready(rows, c, i) && OnlyAdded(old(rows), rows, c, i)
        invariant forall k :: 0 <= k < i && c.HasPoll(k) ==>
                    c.postIDs[k] !in old(rows) && c.polls[c.posts[k].poll].options <= 4
        invariant ballots == CastUpTo(rows, c, i, now, old(ballots))
      {
        if c.HasPoll(i) {
          ghost var before := rows;
          var poll := c.polls[c.posts[i].poll];
          var ok := Create(c.postIDs[i], poll.options, poll.endsAt);
          if !ok {
            return Some(i);
          }
          CastUpToFrame(before, rows, c, i, now, old(ballots));
          ApplyVotes(c, i, now);
        }
        i := i + 1;
      }
      return None;
    }
  }

  // ---------------------------------------------------------------------------------------------
  // Every vote that can count does
  // ---------------------------------------------------------------------------------------------

  function VotesOn(votes: seq<Vote>, post: int): nat {
    if votes == [] then 0
    else VotesOn(votes[..|votes| - 1], post) + if votes[|votes| - 1].post == post then 1 else 0
  }

  predicate VotesInRange(votes: seq<Vote>, post: int, options: seq<int>, userIDs: seq<int>) {
    forall v :: v in votes && v.post == post ==> 0 <= v.option < |options| && 0 <= v.voter < |userIDs|
  }

  function KeysOn(votes: seq<Vote>, post: int, key: int, userIDs: seq<int>): set<(int, int)>
    requires forall v :: v in votes && v.post == post ==> 0 <= v.voter < |userIDs|
  {
    set v | v in votes && v.post == post :: (key, userIDs[v.voter])
  }

  // The new ballots are those of the users who voted on the poll; the others stay.
  lemma {:induction false} CastOnKeys(votes: seq<Vote>, post: int, key: int, options: seq<int>, userIDs: seq<int>, ballots: map<(int, int), int>)
    requires VotesInRange(votes, post, options, userIDs)
    ensures var after := CastOn(votes, post, key, options, userIDs, ballots);
            && after.Keys == ballots.Keys + KeysOn(votes, post, key, userIDs)
            && forall b :: b in ballots ==> after[b] == ballots[b]
  {
    if votes != [] {
      var rest, v := votes[..|votes| - 1], votes[|votes| - 1];
      CastOnKeys(rest, post, key, options, userIDs, ballots);
      assert KeysOn(votes, post, key, userIDs) ==
             KeysOn(rest, post, key, userIDs) + if v.post == post then {(key, userIDs[v.voter])} else {};
    }
  }

  lemma LastVoteIsNew(votes: seq<Vote>, post: int, key: int, userIDs: seq<int>)
    requires votes != [] && votes[|votes| - 1].post == post && OneVoteEach(votes) && Distinct(userIDs)
    requires forall v :: v in votes && v.post == post ==> 0 <= v.voter < |userIDs|
    ensures (key, userIDs[votes[|votes| - 1].voter]) !in KeysOn(votes[..|votes| - 1], post, key, userIDs)
  {
    var rest, v := votes[..|votes| - 1], votes[|votes| - 1];
    forall w | w in rest && w.post == post
      ensures userIDs[w.voter] != userIDs[v.voter]
    {
      var i :| 0 <= i < |rest| && rest[i] == w;
      assert votes[i] == w && !SameBallot(votes[i], votes[|votes| - 1]);
    }
  }

  // The vote's ballot names the option it names.
  predicate Stands(ballots: map<(int, int), int>, v: Vote, key: int, options: seq<int>, userIDs: seq<int>)
    requires 0 <= v.option < |options| && 0 <= v.voter < |userIDs|
  {
    var b := (key, userIDs[v.voter]);
    b in ballots && ballots[b] == options[v.option]
  }

  lemma PrefixIsFine(votes: seq<Vote>, post: int, options: seq<int>, userIDs: seq<int>)
    requires votes != [] && VotesInRange(votes, post, options, userIDs) && OneVoteEach(votes)
    ensures VotesInRange(votes[..|votes| - 1], post, options, userIDs) && OneVoteEach(votes[..|votes| - 1])
  {
  }

  // With one vote to a user each vote on the poll is recorded as it was cast.
  lemma {:induction false} CastOnStands(votes: seq<Vote>, post: int, key: int, options: seq<int>, userIDs: seq<int>, ballots: map<(int, int), int>)
    requires VotesInRange(votes, post, options, userIDs)
    requires OneVoteEach(votes) && Distinct(userIDs)
    requires forall b: (int, int) :: b in ballots ==> b.0 != key
    ensures forall v :: v in votes && v.post == post ==>
              Stands(CastOn(votes, post, key, options, userIDs, ballots), v, key, options, userIDs)
  {
    if votes != [] {
      var rest, v := votes[..|votes| - 1], votes[|votes| - 1];
      PrefixIsFine(votes, post, options, userIDs);
      CastOnStands(rest, post, key, options, userIDs, ballots);
      if v.post == post {
        CastOnKeys(rest, post, key, options, userIDs, ballots);
        LastVoteIsNew(votes, post, key, userIDs);
      }
    }
  }

  // And so there are as many new ballots as votes on the poll.
  lemma {:induction false} CastOnCounts(votes: seq<Vote>, post: int, key: int, options: seq<int>, userIDs: seq<int>, ballots: map<(int, int), int>)
    requires VotesInRange(votes, post, options, userIDs)
    requires OneVoteEach(votes) && Distinct(userIDs)
    requires forall b: (int, int) :: b in ballots ==> b.0 != key
    ensures |CastOn(votes, post, key, options, userIDs, ballots)| == |ballots| + VotesOn(votes, post)
  {
    if votes != [] {
      var rest, v := votes[..|votes| - 1], votes[|votes| - 1];
      PrefixIsFine(votes, post, options, userIDs);
      CastOnCounts(rest, post, key, options, userIDs, ballots);
      if v.post == post {
        CastOnKeys(rest, post, key, options, userIDs, ballots);
        LastVoteIsNew(votes, post, key, userIDs);
      }
    }
  }

  // How many votes there are on the open polls of the first posts.
  function OpenVotes(c: Community, n: nat, now: int): nat
    requires n <= |c.posts|
  {
    if n == 0 then 0
    else OpenVotes(c, n - 1, now) + if Open(c, n - 1, now) then VotesOn(c.votes, n - 1) else 0
  }

  predicate Counts(c: Community, n: nat, v: Vote, now: int)
    requires n <= |c.posts|
  {
    0 <= v.post < n && Open(c, v.post, now)
  }

  function Key(c: Community, v: Vote): (int, int)
    requires c.InRange() && v in c.votes && 0 <= v.post < |c.posts| && c.HasPoll(v.post)
  {
    (c.postIDs[v.post], c.userIDs[v.voter])
  }

  function CountedKeys(c: Community, n: nat, now: int): set<(int, int)>
    requires c.InRange() && n <= |c.posts|
  {
    set v | v in c.votes && Counts(c, n, v, now) :: Key(c, v)
  }

  lemma CountedKeysGrow(c: Community, n: nat, now: int)
    requires c.InRange() && 0 < n <= |c.posts|
    ensures CountedKeys(c, n, now) ==
            CountedKeys(c, n - 1, now) +
            if Open(c, n - 1, now) then KeysOn(c.votes, n - 1, c.postIDs[n - 1], c.userIDs) else {}
  {
  }

  // Exactly the votes on open polls lead to new ballots.
  lemma {:induction false} OnlyOpenVotesCount(rows: map<int, PollRow>, c: Community, n: nat, now: int, ballots: map<(int, int), int>)
    requires c.InRange() && n <= |c.posts| && Ready(rows, c, n)
    ensures var after := CastUpTo(rows, c, n, now, ballots);
            && after.Keys == ballots.Keys + CountedKeys(c, n, now)
            && forall b :: b in ballots ==> after[b] == ballots[b]
  {
    if n > 0 {
      CountedKeysGrow(c, n, now);
      OnlyOpenVotesCount(rows, c, n - 1, now, ballots);
      var earlier := CastUpTo(rows, c, n - 1, now, ballots);
      if Open(c, n - 1, now) {
        CastOnKeys(c.votes, n - 1, c.postIDs[n - 1], rows[c.postIDs[n - 1]].options, c.userIDs, earlier);
      }
    }
  }

  // The ballots before the votes on a post are not on that post.
  lemma EarlierElsewhere(rows: map<int, PollRow>, c: Community, i: nat, now: int, ballots: map<(int, int), int>)
    requires c.InRange() && i < |c.posts| && Ready(rows, c, i)
    requires forall b: (int, int) :: b in ballots ==> b.0 !in c.postIDs
    ensures forall b: (int, int) :: b in CastUpTo(rows, c, i, now, ballots) ==> b.0 != c.postIDs[i]
  {
    OnlyOpenVotesCount(rows, c, i, now, ballots);
    forall b: (int, int) | b in CastUpTo(rows, c, i, now, ballots)
      ensures b.0 != c.postIDs[i]
    {
      assert b in ballots || b in CountedKeys(c, i, now);
    }
  }

  // With one vote to a user and post, and no earlier ballots on these posts, there are as many new
  // ballots as votes on open polls.
  lemma {:induction false} BallotsAreOpenVotes(rows: map<int, PollRow>, c: Community, n: nat, now: int, ballots: map<(int, int), int>)
    requires c.InRange() && n <= |c.posts| && Ready(rows, c, n)
    requires OneVoteEach(c.votes) && Distinct(c.userIDs)
    requires forall b: (int, int) :: b in ballots ==> b.0 !in c.postIDs
    ensures |CastUpTo(rows, c, n, now, ballots)| == |ballots| + OpenVotes(c, n, now)
  {
    if n > 0 {
      BallotsAreOpenVotes(rows, c, n - 1, now, ballots);
      if Open(c, n - 1, now) {
        EarlierElsewhere(rows, c, n - 1, now, ballots);
        CastOnCounts(c.votes, n - 1, c.postIDs[n - 1], rows[c.postIDs[n - 1]].options, c.userIDs,
                     CastUpTo(rows, c, n - 1, now, ballots));
      }
    }
  }

  // Each of them with the option that was voted for.
  lemma {:induction false} EveryOpenVoteStands(rows: map<int, PollRow>, c: Community, n: nat, now: int, ballots: map<(int, int), int>, v: Vote)
    requires c.InRange() && n <= |c.posts| && Ready(rows, c, n)
    requires OneVoteEach(c.votes) && Distinct(c.userIDs)
    requires forall b: (int, int) :: b in ballots ==> b.0 !in c.postIDs
    requires v in c.votes && Counts(c, n, v, now)
    ensures Stands(CastUpTo(rows, c, n, now, ballots), v, c.postIDs[v.post], rows[c.postIDs[v.post]].options, c.userIDs)
  {
    var i := n - 1;
    if v.post < i {
      EveryOpenVoteStands(rows, c, i, now, ballots, v);
      LaterVotesKeep(rows, c, i, now, ballots);
    } else {
      EarlierElsewhere(rows, c, i, now, ballots);
      CastOnStands(c.votes, i, c.postIDs[i], rows[c.postIDs[i]].options, c.userIDs, CastUpTo(rows, c, i, now, ballots));
    }
  }

  lemma LaterVotesKeep(rows: map<int, PollRow>, c: Community, i: nat, now: int, ballots: map<(int, int), int>)
    requires c.InRange() && i < |c.posts| && Ready(rows, c, i + 1)
    ensures var earlier, after := CastUpTo(rows, c, i, now, ballots), CastUpTo(rows, c, i + 1, now, ballots);
            forall b :: b in earlier ==> b in after && after[b] == earlier[b]
  {
    if Open(c, i, now) {
      CastOnKeys(c.votes, i, c.postIDs[i], rows[c.postIDs[i]].options, c.userIDs, CastUpTo(rows, c, i, now, ballots));
    }
  }

  // Generated polls and votes always load, and the ballots added are as many as the votes on polls
  // that are open.
  method SeedPolls(store: PollStore, c: Community, top: nat, now: int) returns (failed: Option<nat>)
    requires WellMade(c.posts, c.polls, c.votes, |c.userIDs|, top) && Distinct(c.userIDs)
    requires |c.postIDs| == |c.posts| && Distinct(c.postIDs)
    requires forall id :: id in c.postIDs ==> id !in store.rows
    requires forall b: (int, int) :: b in store.ballots ==> b.0 !in c.postIDs
    requires store.Valid()
    modifies store
    ensures failed.None? && store.Valid() && OptionsApart(store.rows)
    ensures c.InRange() && Ready(store.rows, c, |c.posts|) && OnlyAdded(old(store.rows), store.rows, c, |c.posts|)
    ensures forall v :: v in c.votes && Open(c, v.post, now) ==>
              Stands(store.ballots, v, c.postIDs[v.post], store.rows[c.postIDs[v.post]].options, c.userIDs)
    ensures |store.ballots| == |old(store.ballots)| + OpenVotes(c, |c.posts|, now)
  {
    assert forall i :: 0 <= i < |c.posts| ==> c.postIDs[i] in c.postIDs;
    failed := store.ApplyPolls(c, now);
    OwnersKeepApart(store.rows, store.owners, store.lastOption);
    forall v | v in c.votes && Open(c, v.post, now)
      ensures Stands(store.ballots, v, c.postIDs[v.post], store.rows[c.postIDs[v.post]].options, c.userIDs)
    {
      EveryOpenVoteStands(store.rows, c, |c.posts|, now, old(store.ballots), v);
    }
    BallotsAreOpenVotes(store.rows, c, |c.posts|, now, old(store.ballots));
  }
}
