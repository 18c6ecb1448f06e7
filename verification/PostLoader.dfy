/** Loading the generated posts, polls and votes into the store. */
module PostLoader {
  import opened Wrappers
  import opened Dataset
  import opened PostTree

  datatype PostRow = PostRow(author: int, parent: Option<int>, quoted: Option<int>)

  predicate InRange(posts: seq<Post>, users: nat) {
    forall i :: 0 <= i < |posts| ==>
      0 <= posts[i].author < users && posts[i].parent < |posts| && posts[i].quoted < |posts|
  }

  function RowOf(p: Post, ids: seq<int>, userIDs: seq<int>): PostRow
    requires 0 <= p.author < |userIDs| && p.parent < |ids| && p.quoted < |ids|
  {
    PostRow(userIDs[p.author],
            if p.parent >= 0 then Some(ids[p.parent]) else None,
            if p.quoted >= 0 then Some(ids[p.quoted]) else None)
  }

  // The row is by the post's author and refers to the rows of the posts the post refers to.
  predicate IsRowOf(row: PostRow, p: Post, ids: seq<int>, userIDs: seq<int>)
    requires 0 <= p.author < |userIDs| && p.parent < |ids| && p.quoted < |ids|
  {
    && row.author == userIDs[p.author]
    && (if p.parent < 0 then row.parent == None else row.parent == Some(ids[p.parent]))
    && (if p.quoted < 0 then row.quoted == None else row.quoted == Some(ids[p.quoted]))
  }

  predicate Refers(p: Post, i: int) {
    p.parent >= i || p.quoted >= i
  }

  // The rows added are those of the first posts, each under an id of its own.
  ghost predicate Stored(before: map<int, PostRow>, rows: map<int, PostRow>, posts: seq<Post>, n: nat, ids: seq<int>, userIDs: seq<int>)
    requires n <= |posts| == |ids| && InRange(posts, |userIDs|)
  {
    && (forall i :: 0 <= i < n ==>
          ids[i] in rows && ids[i] !in before && IsRowOf(rows[ids[i]], posts[i], ids, userIDs))
    && (forall i, j :: 0 <= i < j < n ==> ids[i] != ids[j])
    && (forall id :: id in rows ==> id in before || id in ids[..n])
    && (forall id :: id in before ==> id in rows && rows[id] == before[id])
  }

  class PostStore {
    var rows: map<int, PostRow>
    var lastPost: nat

    predicate Valid() reads this {
      forall id :: id in rows ==> 1 <= id <= lastPost
    }

    constructor ()
      ensures Valid() && rows == map[]
    {
      rows, lastPost := map[], 0;
    }

    // A post needs the posts it refers to.
    method Create(row: PostRow) returns (id: Option<int>)
      requires Valid()
      modifies this
      ensures Valid() && lastPost >= old(lastPost)
      ensures id.Some? <==>
              (row.parent.Some? ==> row.parent.value in old(rows)) && (row.quoted.Some? ==> row.quoted.value in old(rows))
      ensures id.None? ==> rows == old(rows)
      ensures id.Some? ==> id.value !in old(rows) && id.value > 0 && rows == old(rows)[id.value := row]
    {
      if (row.parent.Some? && row.parent.value !in rows) || (row.quoted.Some? && row.quoted.value !in rows) {
        return None;
      }
      lastPost := lastPost + 1;
      rows := rows[lastPost := row];
      return Some(lastPost);
    }

    // Loads posts in order.  It stops at the first post that refers to itself or to a later one,
    // whose id is still zero then.
    method ApplyPosts(posts: seq<Post>, userIDs: seq<int>) returns (failed: Option<nat>, postIDs: seq<int>)
      requires Valid() && InRange(posts, |userIDs|)
      modifies this
      ensures Valid() && |postIDs| == |posts|
      ensures var n := if failed.Some? && failed.value < |posts| then failed.value else |posts|;
              && (failed.Some? ==> failed.value < |posts| && Refers(posts[failed.value], failed.value))
              && (forall i :: 0 <= i < n ==> !Refers(posts[i], i))
              && Stored(old(rows), rows, posts, n, postIDs, userIDs)
    {
      var ids := new int[|posts|](_ => 0);
      var i := 0;
      while i < |posts|
        invariant 0 <= i <= |posts| && Valid()
        invariant forall k :: 0 <= k < i ==> !Refers(posts[k], k)
        invariant forall k :: i <= k < |posts| ==> ids[k] == 0
        invariant Stored(old(rows), rows, posts, i, ids[..], userIDs)
      {
        ghost var before, was := rows, ids[..];
        var id := Create(RowOf(posts[i], ids[..], userIDs));
        if id.None? {
          assert Refers(posts[i], i);
          return Some(i), ids[..];
        }
        ids[i] := id.value;
        assert ids[..] == was[i := id.value];
        StoredGrows(old(rows), before, posts, i, was, userIDs, id.value);
        i := i + 1;
      }
      return None, ids[..];
    }
  }

  lemma StoredGrows(before: map<int, PostRow>, rows: map<int, PostRow>, posts: seq<Post>, n: nat, ids: seq<int>, userIDs: seq<int>, id: int)
    requires n < |posts| == |ids| && InRange(posts, |userIDs|)
    requires Stored(before, rows, posts, n, ids, userIDs) && id !in rows
    requires forall i :: 0 <= i <= n ==> !Refers(posts[i], i)
    ensures Stored(before, rows[id := RowOf(posts[n], ids, userIDs)], posts, n + 1, ids[n := id], userIDs)
  {
    var ids' := ids[n := id];
    assert ids'[..n + 1] == ids[..n] + [id];
  }

  // Threads survive: the stored ancestors of a post are the rows of its generated ancestors, up to
  // a row without a parent.
  lemma ThreadsAreStored(before: map<int, PostRow>, rows: map<int, PostRow>, posts: seq<Post>, top: nat, ids: seq<int>, userIDs: seq<int>, i: nat)
    requires |posts| == |ids| && InRange(posts, |userIDs|) && Stored(before, rows, posts, |posts|, ids, userIDs)
    requires Backwards(posts, top) && i < |posts|
    ensures var path := Thread(posts, top, i);
            && (forall k :: 0 <= k < |path| ==> ids[path[k]] in rows)
            && (forall k :: 0 <= k < |path| - 1 ==> rows[ids[path[k]]].parent == Some(ids[path[k + 1]]))
            && rows[ids[path[|path| - 1]]].parent == None
  {
    var path := Thread(posts, top, i);
    forall k | 0 <= k < |path| - 1
      ensures rows[ids[path[k]]].parent == Some(ids[path[k + 1]])
    {
      assert posts[path[k]].parent == path[k + 1];
    }
  }

  // Generating and loading: it never fails, whatever is drawn and whatever the store holds.
  method Seed(store: PostStore, userIDs: seq<int>, now: int, scale: Scale) returns (g: PostGenerator, postIDs: seq<int>)
    requires store.Valid() && |userIDs| == TotalUsers(scale)
    modifies store
    ensures fresh(g) && store.Valid()
    ensures WellMade(g.posts, g.polls, g.votes, |userIDs|, TopLevelPosts(scale))
    ensures |g.posts| == TopLevelPosts(scale) + ReplyPosts(scale) == |postIDs| && InRange(g.posts, |userIDs|)
    ensures Stored(old(store.rows), store.rows, g.posts, |g.posts|, postIDs, userIDs)
  {
    g := new PostGenerator();
    g.GenPosts(now, scale);
    var failed;
    failed, postIDs := store.ApplyPosts(g.posts, userIDs);
    assert failed.None?;
  }
}
