/** Loading the kept bookmark categories and the likes, reposts and bookmarks. */
module EngagementLoader {
  import opened Wrappers
  import opened Dataset
  import opened PostTree
  import opened Engagement

  predicate MarksInRange(list: seq<Mark>, postIDs: seq<int>, userIDs: seq<int>) {
    forall m :: m in list ==> 0 <= m.post < |postIDs| && 0 <= m.user < |userIDs|
  }

  function RowKey(m: Mark, postIDs: seq<int>, userIDs: seq<int>): (int, int)
    requires 0 <= m.post < |postIDs| && 0 <= m.user < |userIDs|
  {
    (postIDs[m.post], userIDs[m.user])
  }

  function RowKeys(list: seq<Mark>, postIDs: seq<int>, userIDs: seq<int>): set<(int, int)>
    requires MarksInRange(list, postIDs, userIDs)
  {
    set m | m in list :: RowKey(m, postIDs, userIDs)
  }

  // The category id a bookmark is stored with: none unless its name has one.
  function Resolved(m: Mark, ids: map<int, map<string, int>>): Option<int> {
    if m.category.Some? && m.user in ids && m.category.value in ids[m.user] then Some(ids[m.user][m.category.value]) else None
  }

  // The bookmark rows: one that is there already gets the new category.
  function Shelved(list: seq<Mark>, ids: map<int, map<string, int>>, postIDs: seq<int>, userIDs: seq<int>, rows: map<(int, int), Option<int>>): map<(int, int), Option<int>>
    requires MarksInRange(list, postIDs, userIDs)
  {
    if list == [] then rows
    else
      var m := list[|list| - 1];
      Shelved(list[..|list| - 1], ids, postIDs, userIDs, rows)[RowKey(m, postIDs, userIDs) := Resolved(m, ids)]
  }

  // The ids of each user's categories; users without any are left out.
  ghost predicate IdsOf(ids: map<int, map<string, int>>, names: seq<seq<string>>, n: nat, userIDs: seq<int>, categories: map<(int, string), int>)
    requires n <= |names| && |names| <= |userIDs|
  {
    && (forall u :: u in ids <==> 0 <= u < n && names[u] != [])
    && forall u :: u in ids ==> IdsOfUser(ids[u], names[u], userIDs[u], categories)
  }

  ghost predicate IdsOfUser(ids: map<string, int>, names: seq<string>, user: int, categories: map<(int, string), int>) {
    && (forall name :: name in ids <==> name in names)
    && forall name :: name in ids ==> (user, name) in categories && categories[(user, name)] == ids[name]
  }

  lemma {:induction false} OneMoreCategory(ids: map<string, int>, names: seq<string>, name: string, user: int, id: int,
                                           before: map<(int, string), int>, after: map<(int, string), int>)
    requires IdsOfUser(ids, names, user, before)
    requires forall k :: k in before ==> k in after && after[k] == before[k]
    requires (user, name) in after && after[(user, name)] == id
    ensures IdsOfUser(ids[name := id], names + [name], user, after)
  {
  }

  class EngagementStore {
    var categories: map<(int, string), int>
    var lastCategory: nat
    var likes: set<(int, int)>
    var reposts: set<(int, int)>
    var bookmarks: map<(int, int), Option<int>>

    // Every category has an id of its own.
    ghost predicate Valid()
      reads this`categories, this`lastCategory
    {
      && (forall k :: k in categories ==> categories[k] <= lastCategory)
      && forall k, l :: k in categories && l in categories && categories[k] == categories[l] ==> k == l
    }

    constructor ()
      ensures Valid() && categories == map[] && likes == {} && reposts == {} && bookmarks == map[]
    {
      categories, lastCategory := map[], 0;
      likes, reposts, bookmarks := {}, {}, map[];
    }

    // A new category, or none if the user has one of this name.
    method CreateBookmarkCategory(user: int, name: string) returns (id: Option<int>)
      requires Valid()
      modifies this`categories, this`lastCategory
      ensures Valid()
      ensures id.Some? <==> (user, name) !in old(categories)
      ensures categories == if id.Some? then old(categories)[(user, name) := id.value] else old(categories)
    {
      if (user, name) in categories {
        return None;
      }
      lastCategory := lastCategory + 1;
      categories := categories[(user, name) := lastCategory];
      return Some(lastCategory);
    }

    // Creates one category of the user; the id of one that exists is looked up.
    method ApplyCategory(user: int, name: string, before: map<string, int>, ghost done: seq<string>) returns (ids: map<string, int>)
      requires Valid() && IdsOfUser(before, done, user, categories)
      modifies this`categories, this`lastCategory
      ensures Valid() && IdsOfUser(ids, done + [name], user, categories)
      ensures forall k :: k in categories && k !in old(categories) ==> k == (user, name)
      ensures forall k :: k in old(categories) ==> k in categories && categories[k] == old(categories)[k]
    {
      var created := CreateBookmarkCategory(user, name);
      var id := if created.Some? then created.value else categories[(user, name)];
      ids := before[name := id];
      OneMoreCategory(before, done, name, user, id, old(categories), categories);
    }

    // Creates the categories of one user.
    method ApplyCategoriesOf(user: int, names: seq<string>) returns (ids: map<string, int>)
      requires Valid()
      modifies this`categories, this`lastCategory
      ensures Valid() && IdsOfUser(ids, names, user, categories)
      ensures forall k :: k in categories && k !in old(categories) ==> k.0 == user && k.1 in names
      ensures forall k :: k in old(categories) ==> k in categories && categories[k] == old(categories)[k]
    {
      ids := map[];
      ghost var done: seq<string> := [];
      for i := 0 to |names|
        invariant done == names[..i] && Valid() && IdsOfUser(ids, done, user, categories)
        invariant forall k :: k in categories && k !in old(categories) ==> k.0 == user && k.1 in done
        invariant forall k :: k in old(categories) ==> k in categories && categories[k] == old(categories)[k]
      {
        ids := ApplyCategory(user, names[i], ids, done);
        done := done + [names[i]];
      }
      assert done == names;
    }

    method ApplyBookmarkCategories(names: seq<seq<string>>, userIDs: seq<int>) returns (ids: map<int, map<string, int>>)
      requires Valid() && |names| <= |userIDs|
      modifies this`categories, this`lastCategory
      ensures Valid() && IdsOf(ids, names, |names|, userIDs, categories)
      ensures forall k :: k in old(categories) ==> k in categories && categories[k] == old(categories)[k]
    {
      ids := map[];
      for u := 0 to |names|
        invariant Valid() && IdsOf(ids, names, u, userIDs, categories)
        invariant forall k :: k in old(categories) ==> k in categories && categories[k] == old(categories)[k]
      {
        if |names[u]| == 0 {
          continue;
        }
        ghost var before := categories;
        var m := ApplyCategoriesOf(userIDs[u], names[u]);
        IdsStay(ids, names, u, userIDs, before, categories);
        ids := ids[u := m];
      }
    }

    predicate Belongs(id: Option<int>, user: int)
      reads this`categories
    {
      id.Some? ==> exists k :: k in categories && k.0 == user && categories[k] == id.value
    }

    // A bookmark is made or moved; a category that is not the user's is refused.
    method AddBookmark(key: (int, int), category: Option<int>) returns (ok: bool)
      modifies this`bookmarks
      ensures ok == Belongs(category, key.1)
      ensures bookmarks == if ok then old(bookmarks)[key := category] else old(bookmarks)
    {
      ok := Belongs(category, key.1);
      if ok {
        bookmarks := bookmarks[key := category];
      }
    }

    // Inserts the marks in order; those that are there already change nothing, except that a
    // bookmark takes the new category.  It stops at a bookmark whose category is not the user's.
    method ApplyEngagement(g: EngagementGenerator, postIDs: seq<int>, userIDs: seq<int>, ids: map<int, map<string, int>>) returns (failed: Option<nat>)
      requires MarksInRange(g.likes, postIDs, userIDs) && MarksInRange(g.reposts, postIDs, userIDs)
      requires MarksInRange(g.bookmarks, postIDs, userIDs)
      modifies this`likes, this`reposts, this`bookmarks
      ensures likes == old(likes) + RowKeys(g.likes, postIDs, userIDs)
      ensures reposts == old(reposts) + RowKeys(g.reposts, postIDs, userIDs)
      ensures var n := if failed.Some? && failed.value < |g.bookmarks| then failed.value else |g.bookmarks|;
              && (failed.Some? ==>
                    failed.value < |g.bookmarks| &&
                    !Belongs(Resolved(g.bookmarks[failed.value], ids), userIDs[g.bookmarks[failed.value].user]))
              && (forall m :: m in g.bookmarks[..n] ==> Belongs(Resolved(m, ids), userIDs[m.user]))
              && bookmarks == Shelved(g.bookmarks[..n], ids, postIDs, userIDs, old(bookmarks))
    {
      likes := InsertAll(likes, g.likes, postIDs, userIDs);
      reposts := InsertAll(reposts, g.reposts, postIDs, userIDs);
      for i := 0 to |g.bookmarks|
        invariant likes == old(likes) + RowKeys(g.likes, postIDs, userIDs)
        invariant reposts == old(reposts) + RowKeys(g.reposts, postIDs, userIDs)
        invariant forall m :: m in g.bookmarks[..i] ==> Belongs(Resolved(m, ids), userIDs[m.user])
        invariant bookmarks == Shelved(g.bookmarks[..i], ids, postIDs, userIDs, old(bookmarks))
      {
        var m := g.bookmarks[i];
        assert g.bookmarks[..i + 1] == g.bookmarks[..i] + [m];
        assert g.bookmarks[..i + 1][..i] == g.bookmarks[..i];
        var ok := AddBookmark(RowKey(m, postIDs, userIDs), Resolved(m, ids));
        if !ok {
          return Some(i);
        }
      }
      return None;
    }
  }

  method InsertAll(rows: set<(int, int)>, list: seq<Mark>, postIDs: seq<int>, userIDs: seq<int>) returns (after: set<(int, int)>)
    requires MarksInRange(list, postIDs, userIDs)
    ensures after == rows + RowKeys(list, postIDs, userIDs)
  {
    after := rows;
    for i := 0 to |list|
      invariant after == rows + RowKeys(list[..i], postIDs, userIDs)
    {
      assert list[..i + 1] == list[..i] + [list[i]];
      after := after + {RowKey(list[i], postIDs, userIDs)};
    }
    assert list[..|list|] == list;
  }

  lemma IdsStay(ids: map<int, map<string, int>>, names: seq<seq<string>>, n: nat, userIDs: seq<int>, before: map<(int, string), int>, after: map<(int, string), int>)
    requires n <= |names| && |names| <= |userIDs| && IdsOf(ids, names, n, userIDs, before)
    requires forall k :: k in before ==> k in after && after[k] == before[k]
    ensures IdsOf(ids, names, n, userIDs, after)
  {
  }

  // ---------------------------------------------------------------------------------------------
  // What generated marks become
  // ---------------------------------------------------------------------------------------------

  // Each mark by a user on a post has a row of its own.
  lemma {:induction false} RowsAreMarks(list: seq<Mark>, postIDs: seq<int>, userIDs: seq<int>)
    requires OncePerUser(list) && MarksInRange(list, postIDs, userIDs) && Distinct(postIDs) && Distinct(userIDs)
    ensures |RowKeys(list, postIDs, userIDs)| == |list|
  {
    if list != [] {
      var rest, m := list[..|list| - 1], list[|list| - 1];
      RowsAreMarks(rest, postIDs, userIDs);
      LastRowIsNew(list, postIDs, userIDs);
      assert list == rest + [m];
      assert RowKeys(list, postIDs, userIDs) == RowKeys(rest, postIDs, userIDs) + {RowKey(m, postIDs, userIDs)};
    }
  }

  lemma LastRowIsNew(list: seq<Mark>, postIDs: seq<int>, userIDs: seq<int>)
    requires list != [] && OncePerUser(list) && MarksInRange(list, postIDs, userIDs) && Distinct(postIDs) && Distinct(userIDs)
    ensures RowKey(list[|list| - 1], postIDs, userIDs) !in RowKeys(list[..|list| - 1], postIDs, userIDs)
  {
    var rest, m := list[..|list| - 1], list[|list| - 1];
    forall w | w in rest
      ensures RowKey(w, postIDs, userIDs) != RowKey(m, postIDs, userIDs)
    {
      var i :| 0 <= i < |rest| && rest[i] == w;
      assert list[i] == w && !(w.post == m.post && w.user == m.user);
    }
  }

  // Each bookmark is stored with the id of its own category.
  lemma {:induction false} BookmarksAreShelved(list: seq<Mark>, ids: map<int, map<string, int>>, postIDs: seq<int>, userIDs: seq<int>, rows: map<(int, int), Option<int>>, i: nat)
    requires OncePerUser(list) && MarksInRange(list, postIDs, userIDs) && Distinct(postIDs) && Distinct(userIDs)
    requires i < |list|
    ensures var key := RowKey(list[i], postIDs, userIDs);
            var after := Shelved(list, ids, postIDs, userIDs, rows);
            key in after && after[key] == Resolved(list[i], ids)
  {
    var n := |list| - 1;
    if i < n {
      BookmarksAreShelved(list[..n], ids, postIDs, userIDs, rows, i);
      LastRowIsNew(list, postIDs, userIDs);
      assert list[i] in list[..n];
    }
  }

  lemma {:induction false} ShelvedKeys(list: seq<Mark>, ids: map<int, map<string, int>>, postIDs: seq<int>, userIDs: seq<int>, rows: map<(int, int), Option<int>>)
    requires MarksInRange(list, postIDs, userIDs)
    ensures Shelved(list, ids, postIDs, userIDs, rows).Keys == rows.Keys + RowKeys(list, postIDs, userIDs)
  {
    if list != [] {
      var rest, m := list[..|list| - 1], list[|list| - 1];
      ShelvedKeys(rest, ids, postIDs, userIDs, rows);
      assert list == rest + [m];
    }
  }

  // When every name used is among its user's categories, the stored id is missing exactly when the
  // name is, and is that of the user's own category otherwise.
  lemma IdMissingIffNameMissing(m: Mark, ids: map<int, map<string, int>>, names: seq<seq<string>>, userIDs: seq<int>, categories: map<(int, string), int>)
    requires |names| <= |userIDs| && IdsOf(ids, names, |names|, userIDs, categories)
    requires 0 <= m.user < |names| && (m.category.Some? ==> m.category.value in names[m.user])
    ensures Resolved(m, ids).None? <==> m.category.None?
    ensures m.category.Some? ==>
              (userIDs[m.user], m.category.value) in categories &&
              Resolved(m, ids) == Some(categories[(userIDs[m.user], m.category.value)])
  {
  }

  // Rows on new posts are as many as the marks.
  lemma NewRows(rows: set<(int, int)>, list: seq<Mark>, postIDs: seq<int>, userIDs: seq<int>)
    requires OncePerUser(list) && MarksInRange(list, postIDs, userIDs) && Distinct(postIDs) && Distinct(userIDs)
    requires forall k: (int, int) :: k in rows ==> k.0 !in postIDs
    ensures |rows + RowKeys(list, postIDs, userIDs)| == |rows| + |list|
    ensures RowsAdded(rows, rows + RowKeys(list, postIDs, userIDs), list, postIDs, userIDs)
  {
    RowsAreMarks(list, postIDs, userIDs);
    assert rows !! RowKeys(list, postIDs, userIDs);
    forall m | m in list
      ensures (postIDs[m.post], userIDs[m.user]) in RowKeys(list, postIDs, userIDs)
    {
      assert RowKey(m, postIDs, userIDs) in RowKeys(list, postIDs, userIDs);
    }
  }

  // The bookmark's row has no category exactly when the bookmark has none.
  predicate Filed(rows: map<(int, int), Option<int>>, categories: map<(int, string), int>, m: Mark, postIDs: seq<int>, userIDs: seq<int>)
    requires 0 <= m.post < |postIDs| && 0 <= m.user < |userIDs|
  {
    var key := (postIDs[m.post], userIDs[m.user]);
    && key in rows && (rows[key].None? <==> m.category.None?)
    && (m.category.Some? ==>
          (key.1, m.category.value) in categories && rows[key] == Some(categories[(key.1, m.category.value)]))
  }

  // The names bookmarks use are among their users' categories.
  predicate Named(list: seq<Mark>, names: seq<seq<string>>) {
    forall m :: m in list ==> 0 <= m.user < |names| && (m.category.Some? ==> m.category.value in names[m.user])
  }

  lemma AllFiled(list: seq<Mark>, ids: map<int, map<string, int>>, names: seq<seq<string>>, postIDs: seq<int>, userIDs: seq<int>, categories: map<(int, string), int>, rows: map<(int, int), Option<int>>)
    requires OncePerUser(list) && MarksInRange(list, postIDs, userIDs) && Distinct(postIDs) && Distinct(userIDs)
    requires |names| <= |userIDs| && Named(list, names) && IdsOf(ids, names, |names|, userIDs, categories)
    ensures forall m :: m in list ==>
              Filed(Shelved(list, ids, postIDs, userIDs, rows), categories, m, postIDs, userIDs)
  {
    forall m | m in list
      ensures Filed(Shelved(list, ids, postIDs, userIDs, rows), categories, m, postIDs, userIDs)
    {
      var i :| 0 <= i < |list| && list[i] == m;
      BookmarksAreShelved(list, ids, postIDs, userIDs, rows, i);
      IdMissingIffNameMissing(m, ids, names, userIDs, categories);
    }
  }

  // Rows for exactly these marks were added.
  predicate RowsAdded(before: set<(int, int)>, after: set<(int, int)>, list: seq<Mark>, postIDs: seq<int>, userIDs: seq<int>) {
    && before <= after && |after| == |before| + |list|
    && forall m :: m in list ==>
         0 <= m.post < |postIDs| && 0 <= m.user < |userIDs| && (postIDs[m.post], userIDs[m.user]) in after
  }

  // Loading what was generated: it never fails, each mark becomes one row of its own, and each
  // bookmark is filed under its user's category of that name, or under none.
  method SeedEngagement(store: EngagementStore, g: EngagementGenerator, postIDs: seq<int>, userIDs: seq<int>) returns (failed: Option<nat>)
    requires store.Valid() && g.Valid() && |userIDs| == |g.categories| && |postIDs| == |g.posts|
    requires Distinct(postIDs) && Distinct(userIDs)
    requires forall k: (int, int) :: k in store.likes + store.reposts + store.bookmarks.Keys ==> k.0 !in postIDs
    modifies store
    ensures failed.None? && store.Valid()
    ensures RowsAdded(old(store.likes), store.likes, g.likes, postIDs, userIDs)
    ensures RowsAdded(old(store.reposts), store.reposts, g.reposts, postIDs, userIDs)
    ensures |store.bookmarks| == |old(store.bookmarks)| + |g.bookmarks|
    ensures forall m :: m in g.bookmarks ==>
              0 <= m.post < |postIDs| && 0 <= m.user < |userIDs| &&
              Filed(store.bookmarks, store.categories, m, postIDs, userIDs)
  {
    assert MarksInRange(g.likes, postIDs, userIDs) && MarksInRange(g.reposts, postIDs, userIDs);
    assert MarksInRange(g.bookmarks, postIDs, userIDs) && Named(g.bookmarks, g.categories);
    assert OncePerUser(g.likes) && OncePerUser(g.reposts) && OncePerUser(g.bookmarks);
    var ids := store.ApplyBookmarkCategories(g.categories, userIDs);
    EveryIdBelongs(store, g.bookmarks, ids, g.categories, userIDs);
    NewRows(store.likes, g.likes, postIDs, userIDs);
    NewRows(store.reposts, g.reposts, postIDs, userIDs);
    NewRows(store.bookmarks.Keys, g.bookmarks, postIDs, userIDs);
    failed := store.ApplyEngagement(g, postIDs, userIDs, ids);
    assert g.bookmarks[..|g.bookmarks|] == g.bookmarks;
    ShelvedKeys(g.bookmarks, ids, postIDs, userIDs, old(store.bookmarks));
    SameSize(store.bookmarks);
    SameSize(old(store.bookmarks));
    AllFiled(g.bookmarks, ids, g.categories, postIDs, userIDs, store.categories, old(store.bookmarks));
  }

  lemma SameSize(rows: map<(int, int), Option<int>>)
    ensures |rows| == |rows.Keys|
  {
  }

  lemma EveryIdBelongs(store: EngagementStore, list: seq<Mark>, ids: map<int, map<string, int>>, names: seq<seq<string>>, userIDs: seq<int>)
    requires |names| <= |userIDs| && Named(list, names) && IdsOf(ids, names, |names|, userIDs, store.categories)
    ensures forall m :: m in list ==> store.Belongs(Resolved(m, ids), userIDs[m.user])
  {
    forall m | m in list && m.category.Some?
      ensures store.Belongs(Resolved(m, ids), userIDs[m.user])
    {
      IdMissingIffNameMissing(m, ids, names, userIDs, store.categories);
      assert (userIDs[m.user], m.category.value) in store.categories;
    }
  }
}
