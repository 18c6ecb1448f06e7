/** The generated posts: replies point backwards, polls sit on top-level posts, votes fit polls. */
module PostTree {
  import opened Wrappers
  import opened Dataset

  // References are by index in the dataset; -1 stands for none.
  datatype Post = Post(author: int, parent: int, quoted: int, poll: int)

  // A poll without an end stays open.
  datatype Poll = Poll(options: nat, endsAt: Option<int>)

  predicate Over(endsAt: Option<int>, now: int) {
    endsAt.Some? && now > endsAt.value
  }

  datatype Vote = Vote(post: int, voter: int, option: int)

  // Top-level posts come first, and every other post replies to an earlier one.
  predicate Backwards(posts: seq<Post>, top: nat) {
    forall i :: 0 <= i < |posts| ==>
      && posts[i].quoted == -1
      && if i < top then posts[i].parent == -1 else 0 <= posts[i].parent < i
  }

  function PollCount(posts: seq<Post>): nat {
    if posts == [] then 0
    else PollCount(posts[..|posts| - 1]) + if posts[|posts| - 1].poll == -1 then 0 else 1
  }

  // The polls are numbered by the posts that carry them, which are top-level posts.
  predicate PollsFit(posts: seq<Post>, polls: seq<Poll>) {
    && |polls| == PollCount(posts)
    && (forall i :: 0 <= i < |posts| && posts[i].poll != -1 ==>
          posts[i].poll == PollCount(posts[..i]) && posts[i].parent == -1)
    && forall k :: 0 <= k < |polls| ==> 2 <= polls[k].options <= 4
  }

  predicate VoteFits(posts: seq<Post>, polls: seq<Poll>, v: Vote) {
    && 0 <= v.post < |posts| && 0 <= posts[v.post].poll < |polls|
    && 0 <= v.option < polls[posts[v.post].poll].options
    && v.voter != posts[v.post].author
  }

  predicate SameBallot(v: Vote, w: Vote) {
    v.post == w.post && v.voter == w.voter
  }

  predicate OneVoteEach(votes: seq<Vote>) {
    forall i, j :: 0 <= i < j < |votes| ==> !SameBallot(votes[i], votes[j])
  }

  // Nobody votes twice on a post, or on his own.
  predicate VotesFit(posts: seq<Post>, polls: seq<Poll>, votes: seq<Vote>) {
    && (forall i :: 0 <= i < |votes| ==> VoteFits(posts, polls, votes[i]))
    && OneVoteEach(votes)
  }

  predicate PeopleFit(posts: seq<Post>, votes: seq<Vote>, users: nat) {
    && (forall i :: 0 <= i < |posts| ==> 0 <= posts[i].author < users)
    && forall i :: 0 <= i < |votes| ==> 0 <= votes[i].voter < users
  }

  predicate WellMade(posts: seq<Post>, polls: seq<Poll>, votes: seq<Vote>, users: nat, top: nat) {
    Backwards(posts, top) && PollsFit(posts, polls) && VotesFit(posts, polls, votes) && PeopleFit(posts, votes, users)
  }

  // The votes of one new poll.
  predicate Ballots(votes: seq<Vote>, post: int, author: int, options: nat, users: nat) {
    && (forall i :: 0 <= i < |votes| ==>
          && votes[i].post == post && 0 <= votes[i].option < options
          && votes[i].voter != author && 0 <= votes[i].voter < users)
    && forall i, j :: 0 <= i < j < |votes| ==> votes[i].voter != votes[j].voter
  }

  lemma PostAppended(posts: seq<Post>, p: Post, polls: seq<Poll>, more: seq<Poll>, votes: seq<Vote>, ballots: seq<Vote>, users: nat, top: nat)
    requires WellMade(posts, polls, votes, users, top)
    requires p.quoted == -1 && 0 <= p.author < users
    requires if |posts| < top then p.parent == -1 else 0 <= p.parent < |posts|
    requires if p.poll == -1 then more == [] && ballots == []
             else
               && p.poll == |polls| && |more| == 1 && 2 <= more[0].options <= 4 && p.parent == -1
               && Ballots(ballots, |posts|, p.author, more[0].options, users)
    ensures WellMade(posts + [p], polls + more, votes + ballots, users, top)
  {
    var posts' := posts + [p];
    assert posts'[..|posts|] == posts;
    forall i | 0 <= i < |posts|
      ensures posts'[i] == posts[i] && posts'[..i] == posts[..i]
    {
    }
    forall i | 0 <= i < |votes + ballots|
      ensures VoteFits(posts', polls + more, (votes + ballots)[i])
    {
      assert i < |votes| ==> VoteFits(posts, polls, votes[i]);
    }
  }

  // ---------------------------------------------------------------------------------------------
  // What the shape gives
  // ---------------------------------------------------------------------------------------------

  lemma {:induction false} CountGrows(posts: seq<Post>, i: nat, j: nat)
    requires i < j <= |posts|
    ensures PollCount(posts[..i]) + (if posts[i].poll == -1 then 0 else 1) <= PollCount(posts[..j])
    decreases j
  {
    assert posts[..j][..j - 1] == posts[..j - 1];
    if i < j - 1 {
      CountGrows(posts, i, j - 1);
    }
  }

  lemma {:induction false} Carrier(posts: seq<Post>, k: nat) returns (i: nat)
    requires k < PollCount(posts)
    ensures i < |posts| && posts[i].poll != -1 && PollCount(posts[..i]) == k
  {
    var n := |posts| - 1;
    var rest := posts[..n];
    if k < PollCount(rest) {
      i := Carrier(rest, k);
      assert rest[..i] == posts[..i];
    } else {
      i := n;
    }
  }

  predicate Carried(posts: seq<Post>, k: int) {
    exists i :: 0 <= i < |posts| && posts[i].poll == k
  }

  // Every poll belongs to exactly one post.
  lemma OnePostPerPoll(posts: seq<Post>, polls: seq<Poll>)
    requires PollsFit(posts, polls)
    ensures forall k :: 0 <= k < |polls| ==> Carried(posts, k)
    ensures forall i, j :: 0 <= i < j < |posts| && posts[i].poll != -1 ==> posts[i].poll != posts[j].poll
    ensures forall i :: 0 <= i < |posts| ==> -1 <= posts[i].poll < |polls|
  {
    forall k | 0 <= k < |polls|
      ensures Carried(posts, k)
    {
      var i := Carrier(posts, k);
      assert posts[i].poll == k;
    }
    forall i, j | 0 <= i < j < |posts| && posts[i].poll != -1
      ensures posts[i].poll != posts[j].poll
    {
      CountGrows(posts, i, j);
    }
    forall i | 0 <= i < |posts|
      ensures -1 <= posts[i].poll < |polls|
    {
      CountGrows(posts, i, |posts|);
      assert posts[..|posts|] == posts;
    }
  }

  // A post, the post it replies to, and so on.
  function Thread(posts: seq<Post>, top: nat, i: nat): (path: seq<nat>)
    requires Backwards(posts, top) && i < |posts|
    ensures path != [] && path[0] == i
    ensures forall k :: 0 <= k < |path| ==> path[k] < |posts|
    ensures forall k :: 0 <= k < |path| - 1 ==> posts[path[k]].parent == path[k + 1] < path[k]
    ensures path[|path| - 1] < top && posts[path[|path| - 1]].parent == -1
  {
    if posts[i].parent == -1 then [i] else [i] + Thread(posts, top, posts[i].parent)
  }

  // The same, of the lists as they are afterwards.
  lemma {:induction false} PostMade(posts: seq<Post>, p: Post, polls: seq<Poll>, polls': seq<Poll>, votes: seq<Vote>, votes': seq<Vote>, users: nat, top: nat)
    requires WellMade(posts, polls, votes, users, top)
    requires p.quoted == -1 && 0 <= p.author < users
    requires if |posts| < top then p.parent == -1 else 0 <= p.parent < |posts|
    requires polls <= polls' && votes <= votes'
    requires if p.poll == -1 then polls' == polls && votes' == votes
             else
               && p.poll == |polls| && |polls'| == |polls| + 1 && 2 <= polls'[|polls|].options <= 4 && p.parent == -1
               && Ballots(votes'[|votes|..], |posts|, p.author, polls'[|polls|].options, users)
    ensures WellMade(posts + [p], polls', votes', users, top)
  {
    var more, ballots := polls'[|polls|..], votes'[|votes|..];
    assert polls' == polls + more && votes' == votes + ballots;
    PostAppended(posts, p, polls, more, votes, ballots, users, top);
  }

  class PostGenerator {
    var posts: seq<Post>
    var polls: seq<Poll>
    var votes: seq<Vote>

    constructor ()
      ensures posts == [] && polls == [] && votes == []
    {
      posts, polls, votes := [], [], [];
    }

    method GenPoll(postIdx: int, author: int, now: int, scale: Scale) returns (pollIdx: int)
      modifies this`polls, this`votes
      ensures pollIdx == |old(polls)| && |polls| == |old(polls)| + 1 && old(polls) <= polls
      ensures 2 <= polls[pollIdx].options <= 4
      ensures old(votes) <= votes && |votes| <= |old(votes)| + PollVoteMax
      ensures Ballots(votes[|old(votes)|..], postIdx, author, polls[pollIdx].options, TotalUsers(scale))
    {
      var opts := Number(2, 4);
      var days := Number(1, 7);
      polls := polls + [Poll(opts, Some(now + days))];
      pollIdx := |polls| - 1;
      var seen: set<int> := {};
      var ballots: seq<Vote> := [];
      var v := 0;
      var max := Number(0, PollVoteMax);
      while v < max
        invariant 0 <= v && max <= PollVoteMax && |ballots| <= v && |ballots| <= PollVoteMax
        invariant Ballots(ballots, postIdx, author, opts, TotalUsers(scale))
        invariant seen == set w | w in ballots :: w.voter
        invariant polls == old(polls) + [Poll(opts, Some(now + days))] && votes == old(votes)
        decreases PollVoteMax - v
      {
        var voter := Number(0, TotalUsers(scale) - 1);
        if voter != author && voter !in seen {
          seen := seen + {voter};
          var option := Number(0, opts - 1);
          ballots := ballots + [Vote(postIdx, voter, option)];
        }
        v := v + 1;
        max := Number(0, PollVoteMax);
      }
      votes := votes + ballots;
      assert votes[|old(votes)|..] == ballots;
    }

    method AddPost(author: int, parent: int, poll: bool, now: int, scale: Scale)
      requires WellMade(posts, polls, votes, TotalUsers(scale), TopLevelPosts(scale))
      requires 0 <= author < TotalUsers(scale)
      requires if |posts| < TopLevelPosts(scale) then parent == -1 else 0 <= parent < |posts| && !poll
      modifies this
      ensures WellMade(posts, polls, votes, TotalUsers(scale), TopLevelPosts(scale))
      ensures |posts| == |old(posts)| + 1 && posts[..|old(posts)|] == old(posts)
      ensures posts[|posts| - 1].author == author && posts[|posts| - 1].parent == parent
      ensures posts[|posts| - 1].poll != -1 <==> poll
    {
      var pollIdx := -1;
      if poll {
        pollIdx := GenPoll(|posts|, author, now, scale);
      }
      var p := Post(author, parent, -1, pollIdx);
      PostMade(posts, p, old(polls), polls, old(votes), votes, TotalUsers(scale), TopLevelPosts(scale));
      posts := posts + [p];
    }

    method GenPosts(now: int, scale: Scale)
      requires posts == [] && polls == [] && votes == []
      modifies this
      ensures WellMade(posts, polls, votes, TotalUsers(scale), TopLevelPosts(scale))
      ensures |posts| == TopLevelPosts(scale) + ReplyPosts(scale)
      ensures forall i :: 0 <= i < ReplyPosts(scale) && i % 7 == 3 ==>
                posts[TopLevelPosts(scale) + i].parent == TopLevelPosts(scale) + i - 1
      ensures forall i :: 0 <= i < |posts| ==>
                if i < TopLevelPosts(scale) then posts[i].parent == -1 else 0 <= posts[i].parent < i && posts[i].poll == -1
      ensures forall v :: v in votes ==>
                && 0 <= v.post < |posts| && 0 <= posts[v.post].poll < |polls| && v.voter != posts[v.post].author
                && 0 <= v.option < polls[posts[v.post].poll].options <= 4
      ensures forall i, j :: 0 <= i < j < |votes| ==> votes[i].post != votes[j].post || votes[i].voter != votes[j].voter
    {
      var i := 0;
      while i < TopLevelPosts(scale)
        invariant 0 <= i <= TopLevelPosts(scale) && |posts| == i
        invariant WellMade(posts, polls, votes, TotalUsers(scale), TopLevelPosts(scale))
      {
        var author := Number(0, TotalUsers(scale) - 1);
        var chance := Number(1, 100);
        AddPost(author, -1, chance <= 10, now, scale);
        i := i + 1;
      }
      i := 0;
      while i < ReplyPosts(scale)
        invariant 0 <= i <= ReplyPosts(scale) && |posts| == TopLevelPosts(scale) + i
        invariant WellMade(posts, polls, votes, TotalUsers(scale), TopLevelPosts(scale))
        invariant forall k :: 0 <= k < i && k % 7 == 3 ==>
                    posts[TopLevelPosts(scale) + k].parent == TopLevelPosts(scale) + k - 1
      {
        var author := Number(0, TotalUsers(scale) - 1);
        var parent := Number(0, |posts| - 1);
        if i % 7 == 3 && |posts| > TopLevelPosts(scale) {
          parent := |posts| - 1;
        }
        AddPost(author, parent, false, now, scale);
        i := i + 1;
      }
    }
  }
}
