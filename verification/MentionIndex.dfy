/** The mention table: a post's mentioned names resolved to active users when it is synced. */
module MentionIndex {
  import opened Wrappers
  import opened TagScan

  datatype User = User(username: string, softDeleted: bool)

  // What changes the table: a post is synced, or a user is created, renamed, deleted or restored.
  datatype Change = Sync(post: int, content: string) | SetUser(id: int, user: User)

  // Equal but for the case of their letters.
  predicate SameName(p: Pattern, a: string, b: string) {
    |a| == |b| && forall i :: 0 <= i < |a| ==> p.lower(a[i]) == p.lower(b[i])
  }

  // The active users whose name some tag of the content carries.
  ghost function Mentioned(p: Pattern, users: map<int, User>, content: string): set<int> {
    set u | u in users && !users[u].softDeleted && exists name :: Carried(p, content, name) && SameName(p, users[u].username, name)
  }

  function UsersIn(rows: set<(int, int)>, post: int): set<int> {
    set row: (int, int) | row in rows && row.0 == post :: row.1
  }

  lemma UsersInRows(rows: set<(int, int)>, post: int, u: int)
    ensures u in UsersIn(rows, post) <==> (post, u) in rows
  {
    if (post, u) in rows {
      var row := (post, u);
      assert row in rows && row.0 == post && row.1 == u;
    }
  }

  lemma SameMembers(a: set<int>, b: set<int>)
    requires forall u :: u in a <==> u in b
    ensures a == b
  {
    forall u | u in a
      ensures u in b
    {
    }
    forall u | u in b
      ensures u in a
    {
    }
  }

  // A name that another user has up to case is refused.
  predicate NameTaken(p: Pattern, users: map<int, User>, id: int, name: string) {
    exists u :: u in users && u != id && SameName(p, users[u].username, name)
  }

  function WithUser(p: Pattern, users: map<int, User>, id: int, user: User): map<int, User> {
    if NameTaken(p, users, id, user.username) then users else users[id := user]
  }

  function UsersAfter(p: Pattern, users: map<int, User>, changes: seq<Change>): map<int, User> {
    if changes == [] then users
    else
      var before, last := UsersAfter(p, users, changes[..|changes| - 1]), changes[|changes| - 1];
      if last.SetUser? then WithUser(p, before, last.id, last.user) else before
  }

  // The users a post's rows hold after a run: those active under the names its content held when
  // it was last synced, whatever has become of them since.
  ghost function MentionsAfter(p: Pattern, users: map<int, User>, changes: seq<Change>, post: int, rows: set<int>): set<int> {
    if changes == [] then rows
    else
      var init, last := changes[..|changes| - 1], changes[|changes| - 1];
      if last.Sync? && last.post == post then Mentioned(p, UsersAfter(p, users, init), last.content)
      else MentionsAfter(p, users, init, post, rows)
  }

  class MentionStore {
    const pattern: Pattern
    var users: map<int, User>
    var postMentions: set<(int, int)>

    constructor (pattern: Pattern)
      requires pattern.Valid()
      ensures this.pattern == pattern && Valid() && users == map[] && postMentions == {}
    {
      this.pattern := pattern;
      users, postMentions := map[], {};
    }

    // User names are unique up to case.
    ghost predicate Valid()
      reads this`users
    {
      && pattern.Valid()
      && forall u, v :: u in users && v in users && SameName(pattern, users[u].username, users[v].username) ==> u == v
    }

    predicate Matches(user: int, name: string)
      requires user in users
      reads this`users
    {
      !users[user].softDeleted && SameName(pattern, users[user].username, name)
    }

    function MentionsOf(post: int): set<int>
      reads this`postMentions
    {
      UsersIn(postMentions, post)
    }

    // One of the first n names stands for this active user.
    ghost predicate NamedBy(user: int, names: seq<string>, n: nat)
      requires n <= |names|
      reads this`users
    {
      user in users && exists k :: 0 <= k < n && Matches(user, names[k])
    }

    method Resolve(name: string) returns (user: Option<int>)
      requires Valid()
      ensures user.Some? ==> user.value in users && Matches(user.value, name)
      ensures user.Some? ==> forall u :: u in users && Matches(u, name) ==> u == user.value
      ensures user.None? ==> forall u :: u in users ==> !Matches(u, name)
    {
      user := None;
      var left := users.Keys;
      while left != {}
        invariant left <= users.Keys
        invariant forall u :: u in users && u !in left ==> !Matches(u, name)
        decreases left
      {
        var u := AnyOf(left);
        if Matches(u, name) {
          return Some(u);
        }
        left := left - {u};
      }
    }

    // The post's rows become exactly the active users its content names; other posts' rows stay.
    method SyncPost(post: int, content: string)
      requires Valid()
      modifies this`postMentions
      ensures Valid()
      ensures forall u :: u in MentionsOf(post) <==> u in Mentioned(pattern, users, content)
      ensures forall row: (int, int) :: row.0 != post ==> (row in postMentions <==> row in old(postMentions))
    {
      postMentions := set row: (int, int) | row in postMentions && row.0 != post;
      var names := Extract(pattern, content);
      InsertMentions(post, names);
      RowsAreMentions(post, content, names);
    }

    // Adds a row for every name that stands for an active user.
    method InsertMentions(post: int, names: seq<string>)
      requires Valid() && forall row: (int, int) :: row in postMentions ==> row.0 != post
      modifies this`postMentions
      ensures Valid()
      ensures forall u :: (post, u) in postMentions <==> NamedBy(u, names, |names|)
      ensures forall row: (int, int) :: row.0 != post ==> (row in postMentions <==> row in old(postMentions))
    {
      var i := 0;
      while i < |names|
        invariant 0 <= i <= |names|
        invariant forall u :: (post, u) in postMentions <==> NamedBy(u, names, i)
        invariant forall row: (int, int) :: row.0 != post ==> (row in postMentions <==> row in old(postMentions))
      {
        var user := Resolve(names[i]);
        forall u
          ensures NamedBy(u, names, i + 1) <==> NamedBy(u, names, i) || user == Some(u)
        {
          if user == Some(u) {
            assert Matches(u, names[i]);
          }
        }
        i := i + 1;
        if user.None? {
          continue;
        }
        postMentions := postMentions + {(post, user.value)};
      }
    }

    // A user is created or changed unless the name is another's; the rows stay as they are.
    method ChangeUser(id: int, user: User)
      requires Valid()
      modifies this`users
      ensures Valid() && users == WithUser(pattern, old(users), id, user)
    {
      if !NameTaken(pattern, users, id, user.username) {
        users := users[id := user];
      }
    }

    // Any run of syncs and user changes.
    method Replay(changes: seq<Change>)
      requires Valid()
      modifies this
      ensures Valid() && users == UsersAfter(pattern, old(users), changes)
      ensures forall post :: MentionsOf(post) == MentionsAfter(pattern, old(users), changes, post, old(MentionsOf(post)))
    {
      var i := 0;
      while i < |changes|
        invariant 0 <= i <= |changes| && Valid() && users == UsersAfter(pattern, old(users), changes[..i])
        invariant forall post :: MentionsOf(post) == MentionsAfter(pattern, old(users), changes[..i], post, old(MentionsOf(post)))
      {
        assert changes[..i + 1][..i] == changes[..i];
        match changes[i] {
          case Sync(post, content) => Resync(post, content);
          case SetUser(id, user) => ChangeUser(id, user);
        }
        i := i + 1;
      }
      assert changes[..i] == changes;
    }

    method Resync(post: int, content: string)
      requires Valid()
      modifies this`postMentions
      ensures Valid() && MentionsOf(post) == Mentioned(pattern, users, content)
      ensures forall other :: other != post ==> MentionsOf(other) == old(MentionsOf(other))
    {
      SyncPost(post, content);
      SameMembers(MentionsOf(post), Mentioned(pattern, users, content));
      forall other | other != post
        ensures MentionsOf(other) == old(MentionsOf(other))
      {
        forall u
          ensures u in MentionsOf(other) <==> u in old(MentionsOf(other))
        {
          var row := (other, u);
          assert row.0 != post;
          UsersInRows(postMentions, other, u);
          UsersInRows(old(postMentions), other, u);
        }
        SameMembers(MentionsOf(other), old(MentionsOf(other)));
      }
    }

    lemma RowsAreMentions(post: int, content: string, names: seq<string>)
      requires forall name :: name in names <==> Carried(pattern, content, name)
      requires forall u :: (post, u) in postMentions <==> NamedBy(u, names, |names|)
      ensures forall u :: u in MentionsOf(post) <==> u in Mentioned(pattern, users, content)
    {
      forall u
        ensures u in MentionsOf(post) <==> (post, u) in postMentions
      {
        UsersInRows(postMentions, post, u);
      }
      forall u
        ensures u in Mentioned(pattern, users, content) <==> NamedBy(u, names, |names|)
      {
        if u in Mentioned(pattern, users, content) {
          var name :| Carried(pattern, content, name) && Matches(u, name);
          var k :| 0 <= k < |names| && names[k] == name;
          assert Matches(u, names[k]);
        }
        if NamedBy(u, names, |names|) {
          var k :| 0 <= k < |names| && Matches(u, names[k]);
          assert Carried(pattern, content, names[k]);
        }
      }
    }
  }
}
