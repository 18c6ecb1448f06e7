/** Generated likes, reposts and bookmarks, and the bookmark categories that are kept. */
module Engagement {
  import opened Wrappers
  import opened Dataset
  import opened PostTree
  import opened Selection

  datatype Kind = Like | Repost | Bookmark

  datatype Mark = Mark(post: int, user: int, category: Option<string>)

  // Who marked which post.
  function Pairs(list: seq<Mark>): set<(int, int)> {
    set m | m in list :: (m.post, m.user)
  }

  predicate OncePerUser(list: seq<Mark>) {
    forall i, j :: 0 <= i < j < |list| ==> !(list[i].post == list[j].post && list[i].user == list[j].user)
  }

  // Somebody else's post.
  predicate Foreign(m: Mark, posts: seq<Post>, users: nat) {
    0 <= m.post < |posts| && 0 <= m.user < users && m.user != posts[m.post].author
  }

  // Each user marks a post once, and none marks his own.
  predicate Proper(list: seq<Mark>, posts: seq<Post>, users: nat) {
    OncePerUser(list) && forall m :: m in list ==> Foreign(m, posts, users)
  }

  // Nobody marks his own post, or one post twice.
  predicate OthersPosts(list: seq<Mark>, posts: seq<Post>) {
    && (forall m :: m in list ==> 0 <= m.post < |posts| && m.user != posts[m.post].author)
    && (forall i, j :: 0 <= i < j < |list| ==> list[i].post != list[j].post || list[i].user != list[j].user)
  }

  lemma ProperIsOthers(list: seq<Mark>, posts: seq<Post>, users: nat)
    requires Proper(list, posts, users)
    ensures OthersPosts(list, posts)
  {
  }

  predicate InCategory(m: Mark, u: int, name: string) {
    m.user == u && m.category == Some(name)
  }

  function CategoriesOf(list: seq<Mark>, u: int): set<string> {
    set m | m in list && m.user == u && m.category.Some? :: m.category.value
  }

  function CountIn(list: seq<Mark>, name: string): nat {
    if list == [] then 0
    else CountIn(list[..|list| - 1], name) + if InCategory(list[|list| - 1], 0, name) then 1 else 0
  }

  // A user's names that were used, in their order.
  function Kept(names: seq<string>, used: set<string>): (kept: seq<string>)
    ensures forall n :: n in kept <==> n in names && n in used
  {
    if names == [] then []
    else Kept(names[..|names| - 1], used) + if names[|names| - 1] in used then [names[|names| - 1]] else []
  }

  function InSet(used: set<string>): string -> bool {
    n => n in used
  }

  lemma {:induction false} KeptOneMore(init: seq<string>, last: string, used: set<string>)
    ensures Kept(init + [last], used) == if InSet(used)(last) then Kept(init, used) + [last] else Kept(init, used)
  {
    assert (init + [last])[..|init|] == init;
  }

  lemma {:induction false} KeptPicks(names: seq<string>, used: set<string>)
    ensures Picks(Kept(names, used), names, InSet(used))
  {
    if names == [] {
      PicksNothing(InSet(used));
    } else {
      var init, last := names[..|names| - 1], names[|names| - 1];
      assert names == init + [last];
      KeptPicks(init, used);
      KeptOneMore(init, last, used);
      PicksOneMore(Kept(init, used), init, InSet(used), last);
    }
  }

  // User 0 has bookmarked every post by others.
  predicate AllTaken(bookmarks: seq<Mark>, posts: seq<Post>) {
    forall i :: 0 <= i < |posts| && posts[i].author != 0 ==> (i, 0) in Pairs(bookmarks)
  }

  predicate Filled(bookmarks: seq<Mark>, posts: seq<Post>, name: string) {
    CountIn(bookmarks, name) >= 2 || AllTaken(bookmarks, posts)
  }

  // Two bookmarks of user 0 carry the name.
  predicate Twice(bookmarks: seq<Mark>, name: string) {
    exists i, j :: 0 <= i < j < |bookmarks| &&
      bookmarks[i].user == 0 && bookmarks[i].category == Some(name) &&
      bookmarks[j].user == 0 && bookmarks[j].category == Some(name)
  }

  // User 0 has bookmarked the post.
  predicate Marked(bookmarks: seq<Mark>, post: int) {
    exists i :: 0 <= i < |bookmarks| && bookmarks[i].post == post && bookmarks[i].user == 0
  }

  lemma {:induction false} CountFinds(list: seq<Mark>, name: string)
    ensures CountIn(list, name) >= 1 ==> exists i :: 0 <= i < |list| && list[i].user == 0 && list[i].category == Some(name)
    ensures CountIn(list, name) >= 2 ==> Twice(list, name)
  {
    if list != [] {
      var init := list[..|list| - 1];
      CountFinds(init, name);
      if Twice(init, name) {
        var i, j :| 0 <= i < j < |init| &&
          init[i].user == 0 && init[i].category == Some(name) && init[j].user == 0 && init[j].category == Some(name);
        assert list[i] == init[i] && list[j] == init[j];
      } else if CountIn(init, name) >= 1 {
        var i :| 0 <= i < |init| && init[i].user == 0 && init[i].category == Some(name);
        assert list[i] == init[i];
      }
    }
  }

  // A filled category holds two bookmarks, or every post by others is bookmarked.
  lemma FilledMeans(bookmarks: seq<Mark>, posts: seq<Post>, name: string)
    requires Filled(bookmarks, posts, name)
    ensures Twice(bookmarks, name) || forall p :: 0 <= p < |posts| && posts[p].author != 0 ==> Marked(bookmarks, p)
  {
    CountFinds(bookmarks, name);
    if AllTaken(bookmarks, posts) {
      forall p | 0 <= p < |posts| && posts[p].author != 0
        ensures Marked(bookmarks, p)
      {
        assert (p, 0) in Pairs(bookmarks);
        var m :| m in bookmarks && (m.post, m.user) == (p, 0);
        var i :| 0 <= i < |bookmarks| && bookmarks[i] == m;
      }
    }
  }

  function Tally(counts: map<string, int>, name: string): int {
    if name in counts then counts[name] else 0
  }

  ghost predicate Tallied(counts: map<string, int>, bookmarks: seq<Mark>) {
    forall n :: Tally(counts, n) == CountIn(bookmarks, n)
  }

  // The posts user 0 has bookmarked.
  ghost predicate Taken(taken: set<int>, bookmarks: seq<Mark>) {
    forall p :: p in taken <==> (p, 0) in Pairs(bookmarks)
  }

  // More bookmarks, and of user 0's only in this category.
  ghost predicate Extends(before: seq<Mark>, after: seq<Mark>, name: string) {
    && Pairs(before) <= Pairs(after) && CountIn(after, name) >= CountIn(before, name)
    && forall n :: n != name ==> CountIn(after, n) == CountIn(before, n)
  }

  lemma AddedOne(before: seq<Mark>, list: seq<Mark>, post: int, name: string, taken: set<int>)
    requires Extends(before, list, name) && OncePerUser(list) && (post, 0) !in Pairs(list) && Taken(taken, list)
    ensures var after := list + [Mark(post, 0, Some(name))];
            && Extends(before, after, name) && CountIn(after, name) == CountIn(list, name) + 1
            && Taken(taken + {post}, after)
  {
    MarkAppended(list, Mark(post, 0, Some(name)));
  }

  // The first of the names are filled, and no other category has changed.
  ghost predicate ToppedUp(before: seq<Mark>, after: seq<Mark>, posts: seq<Post>, names: seq<string>, k: nat)
    requires k <= |names|
  {
    && (forall n :: n in names[..k] ==> Filled(after, posts, n))
    && forall n :: n !in names ==> CountIn(after, n) == CountIn(before, n)
  }

  lemma ToppedUpNext(before: seq<Mark>, list: seq<Mark>, after: seq<Mark>, posts: seq<Post>, names: seq<string>, k: nat, counts: map<string, int>)
    requires k < |names| && ToppedUp(before, list, posts, names, k) && Tallied(counts, list)
    requires Extends(list, after, names[k]) && Filled(after, posts, names[k])
    ensures ToppedUp(before, after, posts, names, k + 1)
    ensures Tallied(counts[names[k] := CountIn(after, names[k])], after)
  {
    assert names[..k + 1] == names[..k] + [names[k]];
    forall n | n in names[..k]
      ensures Filled(after, posts, n)
    {
      assert Filled(list, posts, n);
    }
  }

  lemma AllFilled(before: seq<Mark>, after: seq<Mark>, posts: seq<Post>, names: seq<string>)
    requires ToppedUp(before, after, posts, names, |names|)
    ensures forall n :: n in names ==>
              Twice(after, n) || forall p :: 0 <= p < |posts| && posts[p].author != 0 ==> Marked(after, p)
  {
    assert names[..|names|] == names;
    forall n | n in names
      ensures Twice(after, n) || forall p :: 0 <= p < |posts| && posts[p].author != 0 ==> Marked(after, p)
    {
      FilledMeans(after, posts, n);
    }
  }

  lemma MarkAppended(list: seq<Mark>, m: Mark)
    requires OncePerUser(list) && (m.post, m.user) !in Pairs(list)
    ensures OncePerUser(list + [m]) && Pairs(list + [m]) == Pairs(list) + {(m.post, m.user)}
    ensures forall u :: CategoriesOf(list + [m], u) ==
                        CategoriesOf(list, u) + if m.user == u && m.category.Some? then {m.category.value} else {}
    ensures forall n :: CountIn(list + [m], n) == CountIn(list, n) + if InCategory(m, 0, n) then 1 else 0
  {
    assert (list + [m])[..|list|] == list;
    forall i | 0 <= i < |list|
      ensures !(list[i].post == m.post && list[i].user == m.user)
    {
      assert list[i] in list;
    }
  }

  // What was seen of one kind is what its list holds.
  ghost predicate Agree(seen: set<(Kind, int, int)>, kind: Kind, list: seq<Mark>) {
    forall p, u :: (kind, p, u) in seen <==> (p, u) in Pairs(list)
  }

  lemma SeenAppended(seen: set<(Kind, int, int)>, kind: Kind, list: seq<Mark>, m: Mark, posts: seq<Post>, users: nat)
    requires Agree(seen, kind, list) && (kind, m.post, m.user) !in seen
    requires Proper(list, posts, users) && Foreign(m, posts, users)
    ensures Agree(seen + {(kind, m.post, m.user)}, kind, list + [m]) && Proper(list + [m], posts, users)
    ensures forall other, l :: other != kind && Agree(seen, other, l) ==> Agree(seen + {(kind, m.post, m.user)}, other, l)
    ensures forall u :: CategoriesOf(list + [m], u) ==
                        CategoriesOf(list, u) + if m.user == u && m.category.Some? then {m.category.value} else {}
  {
    MarkAppended(list, m);
  }

  class EngagementGenerator {
    const posts: seq<Post>
    var categories: seq<seq<string>>
    var likes: seq<Mark>
    var reposts: seq<Mark>
    var bookmarks: seq<Mark>
    var seen: set<(Kind, int, int)>
    var used: seq<set<string>>

    ghost predicate Marks()
      reads this`categories, this`likes, this`reposts, this`bookmarks, this`seen
    {
      && Proper(likes, posts, |categories|) && Proper(reposts, posts, |categories|) && Proper(bookmarks, posts, |categories|)
      && (forall m :: m in reposts ==> posts[m.post].parent == -1)
      && Agree(seen, Like, likes) && Agree(seen, Repost, reposts) && Agree(seen, Bookmark, bookmarks)
    }

    ghost predicate Names()
      reads this`categories, this`bookmarks, this`used
    {
      && |used| == |categories|
      && (forall u :: 0 <= u < |used| ==> used[u] == CategoriesOf(bookmarks, u))
      && forall m :: m in bookmarks && 0 <= m.user < |categories| && m.category.Some? ==>
           m.category.value in categories[m.user]
    }

    // The marks so far agree with what was seen and with the names used.
    ghost predicate Valid() reads this {
      Marks() && Names()
    }

    constructor (posts: seq<Post>, categories: seq<seq<string>>)
      ensures this.posts == posts && this.categories == categories
      ensures likes == [] && reposts == [] && bookmarks == [] && Valid()
    {
      this.posts, this.categories := posts, categories;
      likes, reposts, bookmarks, seen := [], [], [], {};
      used := seq(|categories|, i => {});
    }

    // Adds one mark unless the user has marked the post so already.
    method AddEngagement(kind: Kind, post: int, user: int, category: Option<string>)
      requires Valid() && Foreign(Mark(post, user, category), posts, |categories|)
      requires kind.Repost? ==> posts[post].parent == -1
      requires category.Some? ==> kind.Bookmark? && category.value in categories[user]
      modifies this`likes, this`reposts, this`bookmarks, this`seen, this`used
      ensures Valid()
      ensures var more := if (kind, post, user) in old(seen) then [] else [Mark(post, user, category)];
              && likes == old(likes) + (if kind.Like? then more else [])
              && reposts == old(reposts) + (if kind.Repost? then more else [])
              && bookmarks == old(bookmarks) + (if kind.Bookmark? then more else [])
              && used == if more == [] || category.None? then old(used)
                         else old(used)[user := old(used)[user] + {category.value}]
    {
      if (kind, post, user) in seen {
        return;
      }
      var m := Mark(post, user, category);
      SeenAppended(seen, kind, if kind.Like? then likes else if kind.Repost? then reposts else bookmarks, m, posts, |categories|);
      seen := seen + {(kind, post, user)};
      match kind {
        case Like =>
          likes := likes + [m];
        case Repost =>
          reposts := reposts + [m];
        case Bookmark =>
          bookmarks := bookmarks + [m];
          if category.Some? {
            used := used[user := used[user] + {category.value}];
          }
      }
    }

    // Random users like a post; how many times is drawn anew before each.
    method LikePost(i: nat, scale: Scale)
      requires Valid() && i < |posts| && |categories| == TotalUsers(scale)
      modifies this`likes, this`reposts, this`bookmarks, this`seen, this`used
      ensures Valid() && reposts == old(reposts) && bookmarks == old(bookmarks)
      ensures old(likes) <= likes && |likes| <= |old(likes)| + LikeMax
    {
      var l := 0;
      var max := Number(0, LikeMax);
      while l < max
        invariant 0 <= l && max <= LikeMax && Valid() && reposts == old(reposts) && bookmarks == old(bookmarks)
        invariant old(likes) <= likes && |likes| <= |old(likes)| + l && l <= LikeMax
        decreases LikeMax - l
      {
        var u := Number(0, TotalUsers(scale) - 1);
        if u != posts[i].author {
          AddEngagement(Like, i, u, None);
        }
        l := l + 1;
        max := Number(0, LikeMax);
      }
    }

    method RepostPost(i: nat, scale: Scale)
      requires Valid() && i < |posts| && |categories| == TotalUsers(scale) && posts[i].parent == -1
      modifies this`likes, this`reposts, this`bookmarks, this`seen, this`used
      ensures Valid() && likes == old(likes) && bookmarks == old(bookmarks)
      ensures old(reposts) <= reposts && |reposts| <= |old(reposts)| + RepostMax
    {
      var r := 0;
      var max := Number(0, RepostMax);
      while r < max
        invariant 0 <= r && max <= RepostMax && Valid() && likes == old(likes) && bookmarks == old(bookmarks)
        invariant old(reposts) <= reposts && |reposts| <= |old(reposts)| + r && r <= RepostMax
        decreases RepostMax - r
      {
        var u := Number(0, TotalUsers(scale) - 1);
        if u != posts[i].author {
          AddEngagement(Repost, i, u, None);
        }
        r := r + 1;
        max := Number(0, RepostMax);
      }
    }

    method BookmarkPost(i: nat, scale: Scale)
      requires Valid() && i < |posts| && |categories| == TotalUsers(scale)
      modifies this`likes, this`reposts, this`bookmarks, this`seen, this`used
      ensures Valid() && likes == old(likes) && reposts == old(reposts)
      ensures old(bookmarks) <= bookmarks && |bookmarks| <= |old(bookmarks)| + BookmarkMax
    {
      var b := 0;
      var max := Number(0, BookmarkMax);
      while b < max
        invariant 0 <= b && max <= BookmarkMax && Valid() && likes == old(likes) && reposts == old(reposts)
        invariant old(bookmarks) <= bookmarks && |bookmarks| <= |old(bookmarks)| + b && b <= BookmarkMax
        decreases BookmarkMax - b
      {
        var u := Number(0, TotalUsers(scale) - 1);
        if u != posts[i].author {
          var category := DrawCategory(u);
          AddEngagement(Bookmark, i, u, category);
        }
        b := b + 1;
        max := Number(0, BookmarkMax);
      }
    }

    // One bookmark in ten, and each by a user without categories, is uncategorised.
    method DrawCategory(u: int) returns (category: Option<string>)
      requires 0 <= u < |categories|
      ensures category.Some? ==> category.value in categories[u]
    {
      var chance := Number(1, 100);
      var names := categories[u];
      if chance <= 10 || |names| == 0 {
        return None;
      }
      var n := Number(0, |names| - 1);
      return Some(names[n]);
    }

    // Every user keeps the categories he used.
    method Prune()
      requires Valid()
      modifies this`categories
      ensures Valid() && |categories| == |old(categories)|
      ensures forall u :: 0 <= u < |categories| ==> categories[u] == Kept(old(categories)[u], used[u])
      ensures forall u :: 0 <= u < |categories| ==> Picks(categories[u], old(categories)[u], InSet(used[u]))
    {
      forall u | 0 <= u < |categories|
        ensures Picks(Kept(categories[u], used[u]), categories[u], InSet(used[u]))
      {
        KeptPicks(categories[u], used[u]);
      }
      var u := 0;
      while u < |categories|
        invariant 0 <= u <= |categories| == |old(categories)| && Valid()
        invariant forall v :: 0 <= v < u ==> categories[v] == Kept(old(categories)[v], used[v])
        invariant forall v :: u <= v < |categories| ==> categories[v] == old(categories)[v]
      {
        var kept := KeepUsed(categories[u], used[u]);
        categories := categories[u := kept];
        u := u + 1;
      }
    }

    method KeepUsed(names: seq<string>, used: set<string>) returns (kept: seq<string>)
      ensures kept == Kept(names, used)
    {
      kept := [];
      for i := 0 to |names|
        invariant kept == Kept(names[..i], used)
      {
        assert names[..i + 1][..i] == names[..i];
        if names[i] in used {
          kept := kept + [names[i]];
        }
      }
      assert names[..|names|] == names;
    }

    // How often user 0 used each category.
    method CountCategories() returns (counts: map<string, int>)
      ensures Tallied(counts, bookmarks)
    {
      counts := map[];
      for i := 0 to |bookmarks|
        invariant Tallied(counts, bookmarks[..i])
      {
        var m := bookmarks[i];
        assert bookmarks[..i + 1][..i] == bookmarks[..i];
        if m.user == 0 && m.category.Some? {
          counts := counts[m.category.value := Tally(counts, m.category.value) + 1];
        }
      }
      assert bookmarks[..|bookmarks|] == bookmarks;
    }

    // A post by others that user 0 has not bookmarked.
    predicate Candidate(idx: int, taken: set<int>)
      requires 0 <= idx < |posts|
      reads this`seen
    {
      posts[idx].author != 0 && idx !in taken && (Bookmark, idx, 0) !in seen
    }

    // Twice as many random attempts as there are posts, then the first candidate.
    method FindCandidate(taken: set<int>) returns (found: Option<nat>)
      ensures found.Some? ==> found.value < |posts| && Candidate(found.value, taken)
      ensures found.None? ==> forall idx :: 0 <= idx < |posts| ==> !Candidate(idx, taken)
    {
      var attempt := 0;
      while attempt < |posts| * 2
      {
        var cand := Number(0, |posts| - 1);
        if Candidate(cand, taken) {
          return Some(cand);
        }
        attempt := attempt + 1;
      }
      for idx := 0 to |posts|
        invariant forall k :: 0 <= k < idx ==> !Candidate(k, taken)
      {
        if Candidate(idx, taken) {
          return Some(idx);
        }
      }
      return None;
    }

    // One more bookmark of user 0, in this category, unless no post is left.
    method AddOne(name: string, taken: set<int>) returns (found: Option<nat>)
      requires Valid() && |categories| > 0 && name in categories[0] && name in used[0]
      requires Taken(taken, bookmarks)
      modifies this`likes, this`reposts, this`bookmarks, this`seen, this`used
      ensures Valid() && used == old(used) && likes == old(likes) && reposts == old(reposts)
      ensures found.None? ==> bookmarks == old(bookmarks) && AllTaken(bookmarks, posts)
      ensures found.Some? ==>
                && bookmarks == old(bookmarks) + [Mark(found.value, 0, Some(name))]
                && (found.value, 0) !in Pairs(old(bookmarks)) && OncePerUser(old(bookmarks))
    {
      found := FindCandidate(taken);
      if found.None? {
        forall i | 0 <= i < |posts| && posts[i].author != 0
          ensures (i, 0) in Pairs(bookmarks)
        {
          assert !Candidate(i, taken);
        }
      } else {
        AddEngagement(Bookmark, found.value, 0, Some(name));
        assert old(used)[0] + {name} == old(used)[0];
      }
    }

    // Bookmarks of user 0 are added in one category until there are two, or no post is left.
    method FillCategory(name: string, count: int, taken0: set<int>) returns (c: int, taken: set<int>)
      requires Valid() && |categories| > 0 && name in categories[0] && name in used[0]
      requires count == CountIn(bookmarks, name) && Taken(taken0, bookmarks)
      modifies this`likes, this`reposts, this`bookmarks, this`seen, this`used
      ensures Valid() && used == old(used) && likes == old(likes) && reposts == old(reposts)
      ensures c == CountIn(bookmarks, name) && Taken(taken, bookmarks)
      ensures Extends(old(bookmarks), bookmarks, name) && Filled(bookmarks, posts, name)
    {
      c, taken := count, taken0;
      while c < 2
        invariant Valid() && used == old(used) && likes == old(likes) && reposts == old(reposts)
        invariant c == CountIn(bookmarks, name) && Taken(taken, bookmarks)
        invariant Extends(old(bookmarks), bookmarks, name)
        decreases 2 - c
      {
        ghost var before := bookmarks;
        var found := AddOne(name, taken);
        if found.None? {
          break;
        }
        AddedOne(old(bookmarks), before, found.value, name, taken);
        taken := taken + {found.value};
        c := c + 1;
      }
    }

    // Every category of user 0 ends with two bookmarks, or he has bookmarked all posts by others.
    method TopUp()
      requires Valid() && |categories| > 0 && forall n :: n in categories[0] ==> n in used[0]
      modifies this`likes, this`reposts, this`bookmarks, this`seen, this`used
      ensures Valid() && used == old(used) && likes == old(likes) && reposts == old(reposts)
      ensures ToppedUp(old(bookmarks), bookmarks, posts, categories[0], |categories[0]|)
    {
      var counts := CountCategories();
      var taken := set m | m in bookmarks && m.user == 0 :: m.post;
      var names := categories[0];
      var k := 0;
      while k < |names|
        invariant 0 <= k <= |names| && names == categories[0] && Valid() && used == old(used)
        invariant likes == old(likes) && reposts == old(reposts)
        invariant Tallied(counts, bookmarks) && Taken(taken, bookmarks)
        invariant ToppedUp(old(bookmarks), bookmarks, posts, names, k)
      {
        ghost var before := bookmarks;
        var c;
        c, taken := FillCategory(names[k], Tally(counts, names[k]), taken);
        ToppedUpNext(old(bookmarks), before, bookmarks, posts, names, k, counts);
        counts := counts[names[k] := c];
        k := k + 1;
      }
    }

    // Every list holds each user and post once and no author's own; reposts are of top-level
    // posts; each user's categories are those he used, in the order they were in; and the
    // categories of user 0 hold two bookmarks each, unless no post was left.
    method GenEngagement(scale: Scale)
      requires Valid() && |categories| == TotalUsers(scale)
      modifies this
      ensures Valid() && |categories| == |old(categories)|
      ensures forall u :: 0 <= u < |categories| ==>
                categories[u] == Kept(old(categories)[u], CategoriesOf(bookmarks, u))
      ensures forall u :: 0 <= u < |categories| ==> Picks(categories[u], old(categories)[u], InSet(CategoriesOf(bookmarks, u)))
      ensures forall n :: n in categories[0] ==>
                Twice(bookmarks, n) || forall p :: 0 <= p < |posts| && posts[p].author != 0 ==> Marked(bookmarks, p)
      ensures OthersPosts(likes, posts) && OthersPosts(reposts, posts) && OthersPosts(bookmarks, posts)
      ensures forall m :: m in reposts ==> posts[m.post].parent == -1
    {
      var i := 0;
      while i < |posts|
        invariant 0 <= i <= |posts| && Valid() && categories == old(categories)
      {
        LikePost(i, scale);
        if posts[i].parent == -1 {
          RepostPost(i, scale);
        }
        BookmarkPost(i, scale);
        i := i + 1;
      }
      Prune();
      if |categories[0]| > 0 {
        ghost var before := bookmarks;
        TopUp();
        AllFilled(before, bookmarks, posts, categories[0]);
      }
      ProperIsOthers(likes, posts, |categories|);
      ProperIsOthers(reposts, posts, |categories|);
      ProperIsOthers(bookmarks, posts, |categories|);
    }
  }
}
