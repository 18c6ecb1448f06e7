/** The hashtag and mention tables, kept in step with post contents, and the trends read from them. */
module HashtagIndex {
  import opened Wrappers
  import opened TagScan

  datatype Post = Post(content: string, parent: Option<int>, softDeleted: bool, createdAt: int)

  datatype Trend = Trend(name: string, count: nat)

  const DaySeconds: int := 86400

  // ---------------------------------------------------------------------------------------------
  // The order of trends
  // ---------------------------------------------------------------------------------------------

  // The order of the database's collation: callers may rely on it being a strict total one.
  ghost predicate StrictTotal(less: (string, string) -> bool) {
    && (forall a, b :: !(less(a, b) && less(b, a)))
    && (forall a, b :: a != b ==> less(a, b) || less(b, a))
    && (forall a, b, c :: less(a, b) && less(b, c) ==> less(a, c))
  }

  // Larger counts first, then names in ascending order.
  predicate Before(less: (string, string) -> bool, a: Trend, b: Trend) {
    a.count > b.count || (a.count == b.count && less(a.name, b.name))
  }

  lemma BeforeIsStrictTotal(less: (string, string) -> bool, a: Trend, b: Trend, c: Trend)
    requires StrictTotal(less)
    ensures !(Before(less, a, b) && Before(less, b, a))
    ensures a != b ==> Before(less, a, b) || Before(less, b, a)
    ensures Before(less, a, b) && Before(less, b, c) ==> Before(less, a, c)
  {
  }

  ghost predicate IsBest(less: (string, string) -> bool, rows: set<Trend>, best: Trend) {
    best in rows && forall r :: r in rows && r != best ==> Before(less, best, r)
  }

  // The first `limit` of the rows in order: sorted, from the rows, and before all the others.
  ghost predicate IsTop(less: (string, string) -> bool, trends: seq<Trend>, rows: set<Trend>, limit: nat) {
    && |trends| == (if limit <= |rows| then limit else |rows|)
    && (forall i, j :: 0 <= i < j < |trends| ==> Before(less, trends[i], trends[j]))
    && (forall i :: 0 <= i < |trends| ==> trends[i] in rows)
    && (forall r, i :: r in rows && r !in trends && 0 <= i < |trends| ==> Before(less, trends[i], r))
  }

  // The first of the rows that are left once some are taken.
  ghost predicate IsNext(less: (string, string) -> bool, best: Trend, rows: set<Trend>, taken: seq<Trend>) {
    best in rows && best !in taken && forall r :: r in rows && r !in taken && r != best ==> Before(less, best, r)
  }

  lemma {:induction false} NextIsDetermined(less: (string, string) -> bool, a: Trend, b: Trend, rows: set<Trend>, taken: seq<Trend>)
    requires StrictTotal(less) && IsNext(less, a, rows, taken) && IsNext(less, b, rows, taken)
    ensures a == b
  {
    BeforeIsStrictTotal(less, a, b, a);
  }

  lemma {:induction false} TopGoesInOrder(less: (string, string) -> bool, a: seq<Trend>, rows: set<Trend>, limit: nat, i: nat)
    requires StrictTotal(less) && IsTop(less, a, rows, limit) && i < |a|
    ensures IsNext(less, a[i], rows, a[..i])
  {
    forall j | 0 <= j < i
      ensures a[j] != a[i]
    {
      BeforeIsStrictTotal(less, a[j], a[i], a[j]);
    }
    assert a == a[..i] + [a[i]] + a[i + 1..];
    forall r | r in rows && r !in a[..i] && r != a[i]
      ensures Before(less, a[i], r)
    {
      assert r in a ==> r in a[i + 1..];
    }
  }

  lemma {:induction false} TopsAgree(less: (string, string) -> bool, a: seq<Trend>, b: seq<Trend>, rows: set<Trend>, limit: nat, n: nat)
    requires StrictTotal(less) && IsTop(less, a, rows, limit) && IsTop(less, b, rows, limit) && n <= |a|
    ensures a[..n] == b[..n]
  {
    if n > 0 {
      TopsAgree(less, a, b, rows, limit, n - 1);
      TopGoesInOrder(less, a, rows, limit, n - 1);
      TopGoesInOrder(less, b, rows, limit, n - 1);
      NextIsDetermined(less, a[n - 1], b[n - 1], rows, a[..n - 1]);
      assert a[..n] == a[..n - 1] + [a[n - 1]] && b[..n] == b[..n - 1] + [b[n - 1]];
    }
  }

  // Nothing else is the answer.
  lemma {:induction false} TopIsDetermined(less: (string, string) -> bool, a: seq<Trend>, b: seq<Trend>, rows: set<Trend>, limit: nat)
    requires StrictTotal(less) && IsTop(less, a, rows, limit) && IsTop(less, b, rows, limit)
    ensures a == b
  {
    TopsAgree(less, a, b, rows, limit, |a|);
    assert a == a[..|a|] && b == b[..|b|];
  }

  // ---------------------------------------------------------------------------------------------
  // The tables
  // ---------------------------------------------------------------------------------------------

  function NameSet(p: Pattern, content: string): set<string> {
    set n | n in Extracted(p, content)
  }

  // Live top-level posts of the last day.
  predicate Counts(post: Post, now: int) {
    !post.softDeleted && post.parent.None? && post.createdAt >= now - DaySeconds
  }

  // The posts a name is counted for, straight from their contents.
  function Carriers(p: Pattern, posts: map<int, Post>, now: int, name: string): set<int> {
    set q | q in posts && Counts(posts[q], now) && name in Extracted(p, posts[q].content)
  }

  function NamesInUse(p: Pattern, posts: map<int, Post>, now: int): set<string> {
    set q, n | q in posts && Counts(posts[q], now) && n in Extracted(p, posts[q].content) :: n
  }

  // The ranking recomputed from the contents alone.
  function Recount(p: Pattern, posts: map<int, Post>, now: int): set<Trend> {
    set n | n in NamesInUse(p, posts, now) :: Trend(n, |Carriers(p, posts, now, n)|)
  }

  // The live top-level posts of the last 24 hours with a tag that carries the name.
  ghost function PostsTagged(p: Pattern, posts: map<int, Post>, now: int, name: string): set<int> {
    set q | q in posts && !posts[q].softDeleted && posts[q].parent == None && now - posts[q].createdAt <= 24 * 60 * 60 &&
      Carried(p, posts[q].content, name)
  }

  // Up to a limit, names with how many such posts they have, larger counts first and names of
  // equal counts in ascending order; a name left out has no post, or the limit is reached and it
  // comes after all of them.
  ghost predicate DailyTop(p: Pattern, less: (string, string) -> bool, posts: map<int, Post>, now: int, trends: seq<Trend>, limit: nat) {
    && |trends| <= limit
    && (forall i :: 0 <= i < |trends| ==> trends[i].count == |PostsTagged(p, posts, now, trends[i].name)| > 0)
    && (forall i, j :: 0 <= i < j < |trends| ==>
          trends[i].count > trends[j].count || (trends[i].count == trends[j].count && less(trends[i].name, trends[j].name)))
    && (forall name :: (forall i :: 0 <= i < |trends| ==> trends[i].name != name) && PostsTagged(p, posts, now, name) != {} ==>
          |trends| == limit && RanksLast(less, trends, name, |PostsTagged(p, posts, now, name)|))
  }

  predicate RanksLast(less: (string, string) -> bool, trends: seq<Trend>, name: string, count: nat) {
    forall i :: 0 <= i < |trends| ==> trends[i].count > count || (trends[i].count == count && less(trends[i].name, name))
  }

  lemma CarriersAreTagged(p: Pattern, posts: map<int, Post>, now: int, name: string)
    requires p.Valid()
    ensures Carriers(p, posts, now, name) == PostsTagged(p, posts, now, name)
    ensures name in NamesInUse(p, posts, now) <==> PostsTagged(p, posts, now, name) != {}
  {
    forall q | q in posts
      ensures name in Extracted(p, posts[q].content) <==> Carried(p, posts[q].content, name)
    {
      ExtractedAreTheTagNames(p, posts[q].content);
    }
    forall q
      ensures q in Carriers(p, posts, now, name) <==> q in PostsTagged(p, posts, now, name)
    {
    }
    if PostsTagged(p, posts, now, name) != {} {
      var q := SomeOf(PostsTagged(p, posts, now, name));
      assert q in posts && Counts(posts[q], now) && name in Extracted(p, posts[q].content);
    }
    if name in NamesInUse(p, posts, now) {
      var q :| q in posts && Counts(posts[q], now) && name in Extracted(p, posts[q].content);
      assert q in PostsTagged(p, posts, now, name);
    }
  }

  lemma RecountIsOfTagged(p: Pattern, posts: map<int, Post>, now: int, t: Trend)
    requires p.Valid()
    ensures t in Recount(p, posts, now) <==>
              PostsTagged(p, posts, now, t.name) != {} && t.count == |PostsTagged(p, posts, now, t.name)|
  {
    CarriersAreTagged(p, posts, now, t.name);
    if PostsTagged(p, posts, now, t.name) != {} && t.count == |PostsTagged(p, posts, now, t.name)| {
      assert t == Trend(t.name, |Carriers(p, posts, now, t.name)|);
    }
  }

  lemma {:induction false} AllTaken(trends: seq<Trend>, rows: set<Trend>)
    requires forall i, j :: 0 <= i < j < |trends| ==> trends[i] != trends[j]
    requires forall i :: 0 <= i < |trends| ==> trends[i] in rows
    requires |trends| == |rows|
    ensures forall r :: r in rows ==> r in trends
  {
    if trends != [] {
      var init, last := trends[..|trends| - 1], trends[|trends| - 1];
      AllTaken(init, rows - {last});
      assert forall r :: r in rows && r != last ==> r in init;
    }
  }

  // The top of the recounted names is the day's top.
  lemma {:induction false} TopIsDailyTop(p: Pattern, less: (string, string) -> bool, posts: map<int, Post>, now: int, trends: seq<Trend>, limit: nat)
    requires p.Valid() && StrictTotal(less) && IsTop(less, trends, Recount(p, posts, now), limit)
    ensures DailyTop(p, less, posts, now, trends, limit)
  {
    var rows := Recount(p, posts, now);
    forall t
      ensures t in rows <==> PostsTagged(p, posts, now, t.name) != {} && t.count == |PostsTagged(p, posts, now, t.name)|
    {
      RecountIsOfTagged(p, posts, now, t);
    }
    forall name | (forall i :: 0 <= i < |trends| ==> trends[i].name != name) && PostsTagged(p, posts, now, name) != {}
      ensures |trends| == limit && RanksLast(less, trends, name, |PostsTagged(p, posts, now, name)|)
    {
      var t := Trend(name, |PostsTagged(p, posts, now, name)|);
      assert t in rows && t !in trends;
      if |rows| < limit {
        forall i, j | 0 <= i < j < |trends|
          ensures trends[i] != trends[j]
        {
          BeforeIsStrictTotal(less, trends[i], trends[j], trends[i]);
        }
        AllTaken(trends, rows);
      }
    }
  }

  // ---------------------------------------------------------------------------------------------
  // Threads
  // ---------------------------------------------------------------------------------------------

  // The post some replies up.
  function Up(posts: map<int, Post>, q: int, n: nat): Option<int>
    decreases n
  {
    if n == 0 then Some(q)
    else if q in posts && posts[q].parent.Some? then Up(posts, posts[q].parent.value, n - 1)
    else None
  }

  ghost predicate Below(posts: map<int, Post>, q: int, root: int) {
    exists n: nat :: Up(posts, q, n) == Some(root)
  }

  // The post and all posts below it are marked deleted.
  ghost function WithoutThread(posts: map<int, Post>, root: int): map<int, Post> {
    map q | q in posts :: if root in posts && Below(posts, q, root) then posts[q].(softDeleted := true) else posts[q]
  }

  // Follows replies down from the post, as the recursive query does.
  method Descendants(posts: map<int, Post>, root: int) returns (found: set<int>)
    ensures root in posts ==> root in found
    ensures forall q :: q in found ==> root in posts && q in posts && Below(posts, q, root)
    ensures forall q :: q in posts && posts[q].parent.Some? && posts[q].parent.value in found ==> q in found
  {
    found := if root in posts then {root} else {};
    assert Up(posts, root, 0) == Some(root);
    var grown := true;
    while grown
      invariant root in posts ==> root in found
      invariant found <= posts.Keys
      invariant forall q :: q in found ==> root in posts && Below(posts, q, root)
      invariant !grown ==> forall q :: q in posts && posts[q].parent.Some? && posts[q].parent.value in found ==> q in found
      decreases posts.Keys - found, grown
    {
      var more := set q | q in posts && q !in found && posts[q].parent.Some? && posts[q].parent.value in found;
      grown := more != {};
      forall q | q in more
        ensures root in posts && Below(posts, q, root)
      {
        OneBelow(posts, q, root);
      }
      if grown {
        var q := SomeOf(more);
        assert q in posts.Keys - found;
      }
      found := found + more;
    }
  }

  lemma OneBelow(posts: map<int, Post>, q: int, root: int)
    requires q in posts && posts[q].parent.Some? && Below(posts, posts[q].parent.value, root)
    ensures Below(posts, q, root)
  {
    var n: nat :| Up(posts, posts[q].parent.value, n) == Some(root);
    assert Up(posts, q, n + 1) == Some(root);
  }

  lemma {:induction false} UpIsFound(posts: map<int, Post>, q: int, root: int, n: nat, found: set<int>)
    requires q in posts && root in found && Up(posts, q, n) == Some(root)
    requires forall p :: p in posts && posts[p].parent.Some? && posts[p].parent.value in found ==> p in found
    ensures q in found
    decreases n
  {
    if n > 0 && posts[q].parent.value in posts {
      UpIsFound(posts, posts[q].parent.value, root, n - 1, found);
    }
  }

  function Marked(posts: map<int, Post>, below: set<int>): map<int, Post> {
    map q | q in posts :: if q in below then posts[q].(softDeleted := true) else posts[q]
  }

  lemma MarkedIsWithoutThread(posts: map<int, Post>, root: int, found: set<int>)
    requires root in posts ==> root in found
    requires forall q :: q in found ==> root in posts && q in posts && Below(posts, q, root)
    requires forall q :: q in posts && posts[q].parent.Some? && posts[q].parent.value in found ==> q in found
    ensures Marked(posts, found) == WithoutThread(posts, root)
    ensures forall q :: q in posts ==> Marked(posts, found)[q].content == posts[q].content
  {
    DescendantsAreTheThread(posts, root, found);
    forall q | q in posts
      ensures Marked(posts, found)[q] == WithoutThread(posts, root)[q]
    {
    }
    assert Marked(posts, found).Keys == posts.Keys == WithoutThread(posts, root).Keys;
  }

  lemma DescendantsAreTheThread(posts: map<int, Post>, root: int, found: set<int>)
    requires root in posts ==> root in found
    requires forall q :: q in found ==> root in posts && q in posts && Below(posts, q, root)
    requires forall q :: q in posts && posts[q].parent.Some? && posts[q].parent.value in found ==> q in found
    ensures forall q :: q in posts ==> (q in found <==> root in posts && Below(posts, q, root))
  {
    forall q | q in posts && root in posts && Below(posts, q, root)
      ensures q in found
    {
      var n: nat :| Up(posts, q, n) == Some(root);
      UpIsFound(posts, q, root, n, found);
    }
  }

  // The trends count no post of a deleted thread, and all others as before.
  lemma DeletedThreadLeavesTheTrends(posts: map<int, Post>, root: int, q: int, now: int)
    requires q in posts
    ensures Counts(WithoutThread(posts, root)[q], now) <==> Counts(posts[q], now) && !(root in posts && Below(posts, q, root))
  {
  }

  // The names whose ids a post has rows for.
  function NamesFiled(hashtags: map<string, int>, postTags: set<(int, int)>, post: int): set<string> {
    set n | n in hashtags && (post, hashtags[n]) in postTags
  }

  lemma OneMoreName(names: seq<string>, before: seq<string>, name: string)
    requires names == before + [name]
    ensures (set n | n in names) == (set n | n in before) + {name}
  {
  }

  // A new name with an id no row has files nothing.
  lemma {:induction false} NewNameFilesNothing(hashtags: map<string, int>, postTags: set<(int, int)>, name: string, id: int, post: int)
    requires if name in hashtags then hashtags[name] == id else (post, id) !in postTags
    ensures NamesFiled(hashtags[name := id], postTags, post) == NamesFiled(hashtags, postTags, post)
  {
  }

  lemma {:induction false} RowFilesItsName(hashtags: map<string, int>, postTags: set<(int, int)>, name: string, post: int, q: int)
    requires name in hashtags && forall n :: n in hashtags && hashtags[n] == hashtags[name] ==> n == name
    ensures NamesFiled(hashtags, postTags + {(post, hashtags[name])}, q) ==
            NamesFiled(hashtags, postTags, q) + if q == post then {name} else {}
  {
  }

  class HashtagStore {
    const pattern: Pattern
    const less: (string, string) -> bool
    var posts: map<int, Post>
    var hashtags: map<string, int>
    var nextId: int
    var postTags: set<(int, int)>

    constructor (pattern: Pattern, less: (string, string) -> bool)
      requires pattern.Valid() && StrictTotal(less)
      ensures this.pattern == pattern && this.less == less && Valid()
    {
      this.pattern, this.less := pattern, less;
      posts, hashtags, nextId, postTags := map[], map[], 1, {};
    }

    // The names a post is filed under.
    function TagsOf(post: int): set<string>
      reads this`hashtags, this`postTags
    {
      NamesFiled(hashtags, postTags, post)
    }

    ghost predicate Keyed()
      reads this`hashtags, this`nextId, this`postTags
    {
      && pattern.Valid()
      && (forall n, m :: n in hashtags && m in hashtags && hashtags[n] == hashtags[m] ==> n == m)
      && (forall n :: n in hashtags ==> hashtags[n] < nextId)
      && (forall row: (int, int) :: row in postTags ==> exists n :: n in hashtags && hashtags[n] == row.1)
    }

    // Every post is filed under exactly the names its current content holds.
    ghost predicate Valid()
      reads this
    {
      && Keyed() && StrictTotal(less)
      && (forall row: (int, int) :: row in postTags ==> row.0 in posts)
      && (forall q :: q in posts ==> TagsOf(q) == NameSet(pattern, posts[q].content))
    }

    // The row of a name, inserted if it is new; an existing name keeps its id.
    method UpsertHashtag(name: string) returns (id: int)
      requires Keyed()
      modifies this`hashtags, this`nextId
      ensures Keyed() && name in hashtags && hashtags[name] == id
      ensures hashtags == old(hashtags)[name := id]
      ensures name in old(hashtags) ==> hashtags == old(hashtags)
      ensures name !in old(hashtags) ==> forall row: (int, int) :: row in postTags ==> row.1 != id
    {
      if name in hashtags {
        id := hashtags[name];
      } else {
        id := nextId;
        hashtags := hashtags[name := id];
      }
      nextId := nextId + 1;
      forall row: (int, int) | row in postTags
        ensures exists n :: n in hashtags && hashtags[n] == row.1
      {
        var n :| n in old(hashtags) && old(hashtags)[n] == row.1;
        assert n in hashtags && hashtags[n] == row.1;
      }
    }

    // Refiles one post under the names of its content; other posts and existing ids stay.
    method SyncPost(post: int, content: string)
      requires Keyed()
      modifies this`hashtags, this`nextId, this`postTags
      ensures Keyed()
      ensures TagsOf(post) == NameSet(pattern, content)
      ensures forall q :: q != post ==> TagsOf(q) == old(TagsOf(q))
      ensures forall row: (int, int) :: row.0 != post ==> (row in postTags <==> row in old(postTags))
      ensures forall n :: n in old(hashtags) ==> n in hashtags && hashtags[n] == old(hashtags[n])
    {
      postTags := set row: (int, int) | row in postTags && row.0 != post;
      var names := Extract(pattern, content);
      FileUnderAll(post, names);
    }

    method FileUnderAll(post: int, names: seq<string>)
      requires Keyed() && TagsOf(post) == {}
      modifies this`hashtags, this`nextId, this`postTags
      ensures Keyed()
      ensures TagsOf(post) == set n | n in names
      ensures forall q :: q != post ==> TagsOf(q) == old(TagsOf(q))
      ensures forall row: (int, int) :: row.0 != post ==> (row in postTags <==> row in old(postTags))
      ensures forall n :: n in old(hashtags) ==> n in hashtags && hashtags[n] == old(hashtags[n])
    {
      var i := 0;
      while i < |names|
        invariant 0 <= i <= |names| && Keyed()
        invariant TagsOf(post) == set n | n in names[..i]
        invariant forall q :: q != post ==> TagsOf(q) == old(TagsOf(q))
        invariant forall row: (int, int) :: row.0 != post ==> (row in postTags <==> row in old(postTags))
        invariant forall n :: n in old(hashtags) ==> n in hashtags && hashtags[n] == old(hashtags[n])
      {
        FileUnder(post, names[i]);
        OneMoreName(names[..i + 1], names[..i], names[i]);
        i := i + 1;
      }
      assert names[..i] == names;
    }

    method FileUnder(post: int, name: string)
      requires Keyed()
      modifies this`hashtags, this`nextId, this`postTags
      ensures Keyed()
      ensures TagsOf(post) == old(TagsOf(post)) + {name}
      ensures forall q :: q != post ==> TagsOf(q) == old(TagsOf(q))
      ensures forall row: (int, int) :: row.0 != post ==> (row in postTags <==> row in old(postTags))
      ensures forall n :: n in old(hashtags) ==> n in hashtags && hashtags[n] == old(hashtags[n])
    {
      var id := UpsertHashtag(name);
      postTags := postTags + {(post, id)};
      forall q
        ensures TagsOf(q) == old(TagsOf(q)) + if q == post then {name} else {}
      {
        assert name !in old(hashtags) ==> forall row: (int, int) :: row in old(postTags) ==> row.1 != id;
        NewNameFilesNothing(old(hashtags), old(postTags), name, id, q);
        RowFilesItsName(hashtags, old(postTags), name, post, q);
      }
    }

    method Create(post: int, row: Post)
      requires Valid() && post !in posts
      modifies this
      ensures Valid() && posts == old(posts)[post := row]
      ensures forall n :: n in old(hashtags) ==> n in hashtags && hashtags[n] == old(hashtags[n])
    {
      SyncPost(post, row.content);
      posts := posts[post := row];
    }

    // An unchanged content is not synced again.
    method Update(post: int, content: string)
      requires Valid() && post in posts
      modifies this
      ensures Valid() && posts == old(posts)[post := old(posts[post]).(content := content)]
      ensures forall n :: n in old(hashtags) ==> n in hashtags && hashtags[n] == old(hashtags[n])
    {
      if content == posts[post].content {
        return;
      }
      SyncPost(post, content);
      posts := posts[post := posts[post].(content := content)];
    }

    // Deleting a post marks it and everything below it.  Marked posts keep their rows and drop out
    // of the trends.
    method DeleteCascade(post: int) returns (found: bool)
      requires Valid()
      modifies this`posts
      ensures Valid() && posts == WithoutThread(old(posts), post)
      ensures found <==> posts != old(posts)
    {
      var below := Descendants(posts, post);
      var after := Marked(posts, below);
      MarkedIsWithoutThread(posts, post, below);
      found := after != posts;
      posts := after;
    }

    // The grouped join: per name, how many counted posts have a row for it.
    function Joined(now: int): set<Trend>
      reads this
    {
      set n | n in hashtags && JoinedPosts(now, n) != {} :: Trend(n, |JoinedPosts(now, n)|)
    }

    function JoinedPosts(now: int, name: string): set<int>
      requires name in hashtags
      reads this
    {
      set q | q in posts && Counts(posts[q], now) && (q, hashtags[name]) in postTags
    }

    lemma JoinIsRecount(now: int)
      requires Valid()
      ensures Joined(now) == Recount(pattern, posts, now)
    {
      forall q, n | q in posts
        ensures n in TagsOf(q) <==> n in Extracted(pattern, posts[q].content)
      {
        assert TagsOf(q) == NameSet(pattern, posts[q].content);
      }
      forall n | n in hashtags
        ensures JoinedPosts(now, n) == Carriers(pattern, posts, now, n)
      {
        forall q | q in posts && Counts(posts[q], now)
          ensures (q, hashtags[n]) in postTags <==> n in Extracted(pattern, posts[q].content)
        {
          assert n in TagsOf(q) <==> (q, hashtags[n]) in postTags;
        }
      }
      forall n | n in NamesInUse(pattern, posts, now)
        ensures n in hashtags && JoinedPosts(now, n) != {}
      {
        var q :| q in posts && Counts(posts[q], now) && n in Extracted(pattern, posts[q].content);
        assert n in TagsOf(q);
        assert q in JoinedPosts(now, n);
      }
      forall n | n in hashtags && JoinedPosts(now, n) != {}
        ensures n in NamesInUse(pattern, posts, now)
      {
        var q := SomeOf(JoinedPosts(now, n));
        assert q in Carriers(pattern, posts, now, n);
      }
    }

    // The trends are the top of the counts recomputed from the contents.
    method Trends(limit: nat, now: int) returns (trends: seq<Trend>)
      requires Valid()
      ensures DailyTop(pattern, less, posts, now, trends, limit)
      ensures IsTop(less, trends, Recount(pattern, posts, now), limit)
    {
      JoinIsRecount(now);
      var rows := Joined(now);
      trends := TopRows(less, rows, limit);
      TopIsDailyTop(pattern, less, posts, now, trends, limit);
    }
  }

  // Scans rows in order until the limit or the end.
  method TopRows(less: (string, string) -> bool, rows: set<Trend>, limit: nat) returns (trends: seq<Trend>)
    requires StrictTotal(less)
    ensures IsTop(less, trends, rows, limit)
  {
    var left := rows;
    trends := [];
    while |trends| < limit && left != {}
      invariant |trends| <= limit && |trends| + |left| == |rows| && left <= rows
      invariant forall i, j :: 0 <= i < j < |trends| ==> Before(less, trends[i], trends[j])
      invariant forall i :: 0 <= i < |trends| ==> trends[i] in rows
      invariant forall r :: r in rows && r !in left ==> r in trends
      invariant forall r, i :: r in left && 0 <= i < |trends| ==> Before(less, trends[i], r)
      decreases left
    {
      var trend := FirstRow(less, left);
      trends := trends + [trend];
      left := left - {trend};
    }
  }

  // The next row the query returns.
  method FirstRow(less: (string, string) -> bool, rows: set<Trend>) returns (best: Trend)
    requires StrictTotal(less) && rows != {}
    ensures IsBest(less, rows, best)
  {
    best :| best in rows;
    var left := rows - {best};
    while left != {}
      invariant best in rows && best !in left && left <= rows
      invariant forall r :: r in rows && r !in left && r != best ==> Before(less, best, r)
      decreases left
    {
      var r :| r in left;
      left := left - {r};
      BeforeIsStrictTotal(less, r, best, best);
      if Before(less, r, best) {
        forall x | x in rows && x !in left && x != r
          ensures Before(less, r, x)
        {
          BeforeIsStrictTotal(less, r, best, x);
        }
        best := r;
      }
    }
  }
}
