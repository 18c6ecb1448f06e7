/** The home-feed cache behind handlers that run one at a time: pages are filled on a miss and
    dropped after every write their owner should see.
  */
module FeedCache {
  import opened Wrappers
  import opened FeedKeys

  datatype Page = Page(owner: int, cursor: string, filledAt: nat)

  // A post write, when it happened, who followed whom then as (follower, author), and whether the
  // followers could be looked up.
  datatype PostWrite = PostWrite(author: int, at: nat, follows: set<(int, int)>, lookupOk: bool)

  // Filled after every write by the owner, and after every write by an author the owner followed
  // when it happened, unless the followers could not be looked up.
  ghost predicate Fresh(page: Page, writes: seq<PostWrite>) {
    && (forall i :: 0 <= i < |writes| && writes[i].author == page.owner ==> writes[i].at < page.filledAt)
    && (forall i :: 0 <= i < |writes| && (page.owner, writes[i].author) in writes[i].follows && writes[i].lookupOk ==>
          writes[i].at < page.filledAt)
  }

  // A write leaves a page fresh that shows nothing of its author.
  lemma FreshThroughWrite(page: Page, writes: seq<PostWrite>, w: PostWrite)
    requires Fresh(page, writes)
    requires page.owner != w.author && !(w.lookupOk && (page.owner, w.author) in w.follows)
    ensures Fresh(page, writes + [w])
  {
  }

  predicate Named(entries: map<string, Page>) {
    forall k :: k in entries ==> k == FeedKey(entries[k].owner, entries[k].cursor)
  }

  function Without(entries: map<string, Page>, users: set<int>): map<string, Page> {
    map k | k in entries && entries[k].owner !in users :: entries[k]
  }

  lemma WithoutTwice(entries: map<string, Page>, a: set<int>, b: set<int>)
    ensures Without(Without(entries, a), b) == Without(entries, a + b)
  {
  }

  class FeedCache {
    var entries: map<string, Page>
    var follows: set<(int, int)>  // (follower, author)
    var clock: nat
    ghost var writes: seq<PostWrite>  // the history of post writes

    constructor ()
      ensures Valid() && entries == map[] && writes == []
    {
      entries, follows, clock := map[], {}, 0;
      writes := [];
    }

    // Every cached page is newer than the last write by its owner or by any author its owner
    // followed when that write happened.
    ghost predicate Valid()
      reads this
    {
      && Named(entries)
      && (forall k :: k in entries ==> entries[k].filledAt < clock && Fresh(entries[k], writes))
      && (forall i :: 0 <= i < |writes| ==> writes[i].at < clock)
    }

    method GetFollowerIDs(author: int) returns (ids: set<int>)
      ensures forall u :: u in ids <==> (u, author) in follows
    {
      ids := set f: (int, int) | f in follows && f.1 == author :: f.0;
      forall u | (u, author) in follows
        ensures u in ids
      {
        assert (u, author).0 == u;
      }
    }

    // Scans the keys of one user's pattern and deletes what it finds: that user's pages, no others.
    method InvalidateHomeFeed(user: int)
      requires Named(entries)
      modifies this`entries
      ensures Named(entries) && entries == Without(old(entries), {user})
    {
      var left := entries.Keys;
      var keys: set<string> := {};
      while left != {}
        invariant entries == old(entries) && left <= entries.Keys
        invariant forall k :: k in keys <==> k in entries && k !in left && entries[k].owner == user
        decreases left
      {
        var k := AnyOf(left);
        left := left - {k};
        PatternFindsExactlyTheUser(user, entries[k].owner, entries[k].cursor);
        if GlobMatch(FeedPattern(user), k) {
          keys := keys + {k};
        }
      }
      entries := entries - keys;
    }

    // Drops the pages of the user and of everybody who follows them; when the followers cannot be
    // looked up only the user's own.
    method InvalidateFeedForUserAndFollowers(user: int, lookupOk: bool)
      requires Named(entries)
      modifies this`entries
      ensures Named(entries)
      ensures forall k :: k in entries ==> k in old(entries) && entries[k] == old(entries)[k]
      ensures forall k :: k in old(entries) ==>
                (k in entries <==> old(entries)[k].owner != user && !(lookupOk && (old(entries)[k].owner, user) in follows))
    {
      InvalidateHomeFeed(user);
      if !lookupOk {
        return;
      }
      var ids := GetFollowerIDs(user);
      var left := ids;
      ghost var done := {user};
      while left != {}
        invariant {user} <= done && done + left == {user} + ids && Named(entries)
        invariant entries == Without(old(entries), done)
        decreases left
      {
        var id := AnyOf(left);
        InvalidateHomeFeed(id);
        WithoutTwice(old(entries), done, {id});
        left, done := left - {id}, done + {id};
      }
      assert done == {user} + ids;
    }

    // Creating, editing, deleting, pinning or unpinning a post: the write, then the invalidation.
    method WritePost(author: int, lookupOk: bool)
      requires Valid()
      modifies this
      ensures Valid() && follows == old(follows)
      ensures writes == old(writes) + [PostWrite(author, old(clock), old(follows), lookupOk)] && clock == old(clock) + 1
      ensures forall k :: k in entries ==> k in old(entries) && entries[k] == old(entries)[k]
      ensures forall k :: k in old(entries) ==>
                (k in entries <==> old(entries)[k].owner != author && !(lookupOk && (old(entries)[k].owner, author) in follows))
    {
      ghost var w := PostWrite(author, clock, follows, lookupOk);
      writes := writes + [w];
      clock := clock + 1;
      InvalidateFeedForUserAndFollowers(author, lookupOk);
      forall k | k in entries
        ensures entries[k].filledAt < clock && Fresh(entries[k], writes)
      {
        FreshThroughWrite(entries[k], old(writes), w);
      }
    }

    // A hit serves the cached page, a miss reads the feed and caches it.
    method GetHomeFeed(user: int, cursor: string) returns (page: Page, hit: bool)
      requires Valid()
      modifies this`entries, this`clock
      ensures Valid() && page.owner == user && page.cursor == cursor && Fresh(page, writes)
      ensures hit == (FeedKey(user, cursor) in old(entries))
      ensures entries == if hit then old(entries) else old(entries)[FeedKey(user, cursor) := page]
    {
      var key := FeedKey(user, cursor);
      hit := key in entries;
      if hit {
        page := entries[key];
        FeedKeyInjective(user, cursor, page.owner, page.cursor);
        return;
      }
      page := Page(user, cursor, clock);
      clock := clock + 1;
      entries := entries[key := page];
    }

    // A page may time out, and follow relations may change, at any time; neither touches the rest.

    method Expire(key: string)
      requires Valid()
      modifies this`entries
      ensures Valid() && entries == old(entries) - {key}
    {
      entries := entries - {key};
    }

    method SetFollow(follower: int, author: int, following: bool)
      requires Valid()
      modifies this`follows
      ensures Valid() && follows == if following then old(follows) + {(follower, author)} else old(follows) - {(follower, author)}
    {
      follows := if following then follows + {(follower, author)} else follows - {(follower, author)};
    }
  }
}
