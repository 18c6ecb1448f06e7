/** The names under which home-feed pages are cached, and the pattern that finds one user's pages. */
module FeedKeys {
  import opened Decimal

  function Itoa(n: int): (s: string)
    ensures ':' !in s && '*' !in s && '?' !in s
  {
    if n < 0 then "-" + ItoaNat(-n) else ItoaNat(n)
  }

  function FeedKey(user: int, cursor: string): string {
    "feed:home:" + Itoa(user) + ":" + cursor
  }

  function FeedPattern(user: int): string {
    "feed:home:" + Itoa(user) + ":*"
  }

  // Glob matching as far as these patterns use it: `*` is any text, `?` any character.
  predicate GlobMatch(pattern: string, s: string)
    decreases |pattern|
  {
    if pattern == [] then s == []
    else if pattern[0] == '*' then exists k :: 0 <= k <= |s| && GlobMatch(pattern[1..], s[k..])
    else s != [] && (pattern[0] == '?' || pattern[0] == s[0]) && GlobMatch(pattern[1..], s[1..])
  }

  lemma SignShows(n: int)
    ensures Itoa(n)[0] == '-' <==> n < 0
    ensures n < 0 ==> Itoa(n)[1..] == ItoaNat(-n)
  {
  }

  lemma ItoaInjective(m: int, n: int)
    requires Itoa(m) == Itoa(n)
    ensures m == n
  {
    SignShows(m);
    SignShows(n);
    if m < 0 {
      ItoaNatInjective(-m, -n);
    } else {
      ItoaNatInjective(m, n);
    }
  }

  // A literal followed by a star matches exactly what the literal is a prefix of.
  lemma {:induction false} StarMatchesPrefix(literal: string, s: string)
    requires '*' !in literal && '?' !in literal
    ensures GlobMatch(literal + "*", s) <==> literal <= s
  {
    var pattern := literal + "*";
    if literal == [] {
      assert pattern[1..] == [];
      assert GlobMatch(pattern[1..], s[|s|..]);
    } else {
      assert pattern[0] == literal[0] && pattern[1..] == literal[1..] + "*";
      if s != [] {
        StarMatchesPrefix(literal[1..], s[1..]);
        assert literal == [literal[0]] + literal[1..] && s == [s[0]] + s[1..];
      }
    }
  }

  function FirstColon(s: string): nat {
    if s == [] || s[0] == ':' then 0 else 1 + FirstColon(s[1..])
  }

  lemma {:induction false} ColonAfter(a: string, rest: string)
    requires ':' !in a
    ensures FirstColon(a + ":" + rest) == |a|
  {
    if a != [] {
      assert (a + ":" + rest)[1..] == a[1..] + ":" + rest;
      ColonAfter(a[1..], rest);
    }
  }

  // Two texts without a colon that agree up to their first colon are the same.
  lemma {:induction false} SameBeforeColon(a: string, restA: string, b: string, restB: string)
    requires ':' !in a && ':' !in b
    requires a + ":" + restA == b + ":" + restB
    ensures a == b && restA == restB
  {
    var whole := a + ":" + restA;
    ColonAfter(a, restA);
    ColonAfter(b, restB);
    assert whole[..|a|] == a && whole[..|b|] == b;
    assert whole[|a| + 1..] == restA && whole[|b| + 1..] == restB;
  }

  lemma {:induction false} SameAfterHead(head: string, a: string, restA: string, b: string, restB: string)
    requires ':' !in a && ':' !in b
    requires head + a + ":" + restA == head + b + ":" + restB
    ensures a == b && restA == restB
  {
    var key := head + a + ":" + restA;
    assert key[|head|..] == a + ":" + restA;
    assert key[|head|..] == b + ":" + restB;
    SameBeforeColon(a, restA, b, restB);
  }

  // A key and a prefix up to the user's colon agree only for the same user.
  lemma {:induction false} PrefixNamesTheUser(head: string, user: int, owner: int, cursor: string)
    requires head + Itoa(user) + ":" <= head + Itoa(owner) + ":" + cursor
    ensures user == owner
  {
    var literal, key := head + Itoa(user) + ":", head + Itoa(owner) + ":" + cursor;
    var rest := key[|literal|..];
    assert key == literal + rest;
    SameAfterHead(head, Itoa(user), rest, Itoa(owner), cursor);
    ItoaInjective(user, owner);
  }

  // One user's pattern matches exactly that user's keys, whatever the cursor holds.
  lemma {:induction false} PatternFindsExactlyTheUser(user: int, owner: int, cursor: string)
    ensures GlobMatch(FeedPattern(user), FeedKey(owner, cursor)) <==> user == owner
  {
    var literal, key := "feed:home:" + Itoa(user) + ":", FeedKey(owner, cursor);
    assert FeedPattern(user) == literal + "*";
    StarMatchesPrefix(literal, key);
    if literal <= key {
      PrefixNamesTheUser("feed:home:", user, owner, cursor);
    }
    if user == owner {
      assert key == literal + cursor;
    }
  }

  // Distinct pages never share a key.
  lemma {:induction false} FeedKeyInjective(user: int, cursor: string, owner: int, other: string)
    requires FeedKey(user, cursor) == FeedKey(owner, other)
    ensures user == owner && cursor == other
  {
    SameAfterHead("feed:home:", Itoa(user), cursor, Itoa(owner), other);
    ItoaInjective(user, owner);
  }
}
