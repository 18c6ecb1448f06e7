/** Finding @mentions and #hashtags: a leftmost, non-overlapping regular-expression scan.

    The pattern is (^|non-word) marker (word character){1,cap}, greedy.  What counts as a word
    character and how a character is lower-cased are parameters; the marker is no word character.
  */
module TagScan {
  import opened Wrappers

  datatype Pattern = Pattern(marker: char, cap: nat, isWord: char -> bool, lower: char -> char) {
    ghost predicate Valid() {
      cap > 0 && !isWord(marker)
    }
  }

  // The length of the longest run of word characters from i, up to a limit.
  function Run(p: Pattern, s: string, i: nat, limit: nat): (n: nat)
    requires i <= |s|
    ensures n <= limit && i + n <= |s|
    decreases limit
  {
    if limit == 0 || i == |s| || !p.isWord(s[i]) then 0 else 1 + Run(p, s, i + 1, limit - 1)
  }

  // Run is the longest: it stops only at the limit, the end, or a non-word character.
  lemma {:induction false} RunIsLongest(p: Pattern, s: string, i: nat, limit: nat)
    requires i <= |s|
    ensures var n := Run(p, s, i, limit);
            && (forall k :: i <= k < i + n ==> p.isWord(s[k]))
            && (n == limit || i + n == |s| || !p.isWord(s[i + n]))
    decreases limit
  {
    if limit > 0 && i < |s| && p.isWord(s[i]) {
      RunIsLongest(p, s, i + 1, limit - 1);
    }
  }

  // ---------------------------------------------------------------------------------------------
  // What a match is
  // ---------------------------------------------------------------------------------------------

  // The declarative reading: a marker at i, at the start of the text or after a non-word
  // character, and before a word character.
  predicate IsTag(p: Pattern, s: string, i: nat) {
    && i + 1 < |s| && s[i] == p.marker
    && (i == 0 || !p.isWord(s[i - 1]))
    && p.isWord(s[i + 1])
  }

  // All tag positions from i on, in order.
  function Tags(p: Pattern, s: string, i: nat): seq<nat>
    decreases |s| - i
  {
    if i >= |s| then [] else (if IsTag(p, s, i) then [i] else []) + Tags(p, s, i + 1)
  }

  // The operational reading: a match attempt at position i.  The start-of-text alternative is
  // tried first, then the one that consumes a non-word character.  Yields the marker's position.
  function MatchAt(p: Pattern, s: string, i: nat): Option<nat>
    requires i <= |s|
  {
    if i == 0 && MarkerAndRun(p, s, i) then Some(i)
    else if i < |s| && !p.isWord(s[i]) && MarkerAndRun(p, s, i + 1) then Some(i + 1)
    else None
  }

  predicate MarkerAndRun(p: Pattern, s: string, i: nat)
    requires i <= |s|
  {
    i < |s| && s[i] == p.marker && Run(p, s, i + 1, p.cap) >= 1
  }

  function End(p: Pattern, s: string, marker: nat): nat
    requires marker < |s|
  {
    marker + 1 + Run(p, s, marker + 1, p.cap)
  }

  // An attempt finds exactly a tag at its position (only at the start) or at the next one.
  lemma AttemptsFindTags(p: Pattern, s: string, i: nat)
    requires p.Valid() && i <= |s|
    ensures i == 0 && IsTag(p, s, 0) ==> MatchAt(p, s, i) == Some(0)
    ensures !(i == 0 && IsTag(p, s, 0)) && IsTag(p, s, i + 1) ==> MatchAt(p, s, i) == Some(i + 1)
    ensures MatchAt(p, s, i).Some? ==> IsTag(p, s, MatchAt(p, s, i).value)
  {
  }

  lemma {:induction false} NoTagsBetween(p: Pattern, s: string, i: nat, j: nat)
    requires i <= j && forall k :: i <= k < j ==> !IsTag(p, s, k)
    ensures Tags(p, s, i) == Tags(p, s, j)
    decreases j - i
  {
    if i < j {
      NoTagsBetween(p, s, i + 1, j);
    }
  }

  // Consuming a match skips no tag: behind its marker there are only word characters, up to a
  // position that follows a word character.
  lemma {:induction false} MatchHidesNoTag(p: Pattern, s: string, m: nat)
    requires p.Valid() && IsTag(p, s, m)
    ensures Tags(p, s, m) == [m] + Tags(p, s, End(p, s, m))
    ensures m + 1 < End(p, s, m) <= |s| && p.isWord(s[End(p, s, m) - 1])
  {
    RunIsLongest(p, s, m + 1, p.cap);
    NoTagsBetween(p, s, m + 1, End(p, s, m));
  }

  // The leftmost match from a position, which is the start or follows a word character.
  method NextMatch(p: Pattern, s: string, from: nat) returns (m: Option<nat>)
    requires p.Valid() && Restart(p, s, from)
    ensures m.None? ==> Tags(p, s, from) == []
    ensures m.Some? ==> IsTag(p, s, m.value) && Tags(p, s, from) == Tags(p, s, m.value) && from <= m.value
  {
    var i := from;
    NoTagsBetween(p, s, from, if from == 0 then 0 else from + 1);
    while i <= |s|
      invariant from <= i <= |s| + 1
      invariant Tags(p, s, from) == Tags(p, s, if i == 0 then 0 else i + 1)
    {
      AttemptsFindTags(p, s, i);
      m := MatchAt(p, s, i);
      if m.Some? {
        NoTagsBetween(p, s, if i == 0 then 0 else i + 1, m.value);
        return;
      }
      NoTagsBetween(p, s, if i == 0 then 0 else i + 1, i + 2);
      i := i + 1;
    }
    return None;
  }

  // The scan: from each position the leftmost match, then on from its end.  It finds every tag.
  method FindAll(p: Pattern, s: string) returns (markers: seq<nat>)
    requires p.Valid()
    ensures markers == Tags(p, s, 0)
  {
    markers := [];
    var from := 0;
    while true
      invariant Restart(p, s, from)
      invariant markers + Tags(p, s, from) == Tags(p, s, 0)
      decreases |s| - from
    {
      var m := NextMatch(p, s, from);
      if m.None? {
        return;
      }
      ScanGoesOn(p, s, from, m.value, markers);
      markers := markers + [m.value];
      from := End(p, s, m.value);
    }
  }

  // Where a scan may start: at the beginning, or behind a word character.
  predicate Restart(p: Pattern, s: string, from: nat) {
    from <= |s| && (from > 0 ==> p.isWord(s[from - 1]))
  }

  lemma {:induction false} ScanGoesOn(p: Pattern, s: string, from: nat, m: nat, markers: seq<nat>)
    requires p.Valid() && IsTag(p, s, m) && from <= m && Tags(p, s, from) == Tags(p, s, m)
    ensures (markers + [m]) + Tags(p, s, End(p, s, m)) == markers + Tags(p, s, from)
    ensures Restart(p, s, End(p, s, m)) && from < End(p, s, m)
  {
    MatchHidesNoTag(p, s, m);
    var rest := Tags(p, s, End(p, s, m));
    assert markers + ([m] + rest) == (markers + [m]) + rest;
  }

  // Tags lists exactly the tag positions, in increasing order.
  lemma {:induction false} TagsAreTheTags(p: Pattern, s: string, i: nat)
    ensures forall k :: k in Tags(p, s, i) <==> i <= k < |s| && IsTag(p, s, k)
    ensures forall a :: 0 <= a < |Tags(p, s, i)| ==> i <= Tags(p, s, i)[a] < |s|
    ensures forall a, b :: 0 <= a < b < |Tags(p, s, i)| ==> Tags(p, s, i)[a] < Tags(p, s, i)[b]
    decreases |s| - i
  {
    if i < |s| {
      TagsAreTheTags(p, s, i + 1);
    }
  }

  // ---------------------------------------------------------------------------------------------
  // The extracted names
  // ---------------------------------------------------------------------------------------------

  function Lowered(p: Pattern, s: string): (r: string)
    ensures |r| == |s|
  {
    seq(|s|, i requires 0 <= i < |s| => p.lower(s[i]))
  }

  // The name behind a marker: its word run up to the cap, lower-cased.
  function Name(p: Pattern, s: string, marker: nat): string
    requires marker < |s|
  {
    Lowered(p, s[marker + 1..End(p, s, marker)])
  }

  function Names(p: Pattern, s: string, markers: seq<nat>): seq<string>
    requires forall k :: 0 <= k < |markers| ==> markers[k] < |s|
  {
    seq(|markers|, k requires 0 <= k < |markers| => Name(p, s, markers[k]))
  }

  // Each value once, in the order of first occurrence.
  function Distinct(xs: seq<string>): seq<string> {
    if xs == [] then []
    else
      var init, last := xs[..|xs| - 1], xs[|xs| - 1];
      Distinct(init) + if last in init then [] else [last]
  }

  function Extracted(p: Pattern, s: string): seq<string> {
    TagsAreTheTags(p, s, 0);
    Distinct(Names(p, s, Tags(p, s, 0)))
  }

  lemma DistinctStep(xs: seq<string>, i: nat)
    requires i < |xs|
    ensures Distinct(xs[..i + 1]) == Distinct(xs[..i]) + if xs[i] in xs[..i] then [] else [xs[i]]
    ensures forall x :: x in xs[..i + 1] <==> x in xs[..i] || x == xs[i]
  {
    assert xs[..i + 1][..i] == xs[..i];
    assert xs[..i + 1] == xs[..i] + [xs[i]];
  }

  function FirstIndex(xs: seq<string>, x: string): nat
    requires x in xs
  {
    if xs[0] == x then 0 else 1 + FirstIndex(xs[1..], x)
  }

  lemma {:induction false} FirstIndexInPrefix(xs: seq<string>, ys: seq<string>, x: string)
    requires x in xs
    ensures x in xs + ys && FirstIndex(xs + ys, x) == FirstIndex(xs, x) < |xs|
  {
    if xs[0] != x {
      assert (xs + ys)[1..] == xs[1..] + ys;
      FirstIndexInPrefix(xs[1..], ys, x);
    }
  }

  lemma {:induction false} FirstIndexOfNew(xs: seq<string>, x: string)
    requires x !in xs
    ensures FirstIndex(xs + [x], x) == |xs|
  {
    if xs != [] {
      assert (xs + [x])[1..] == xs[1..] + [x];
      FirstIndexOfNew(xs[1..], x);
    }
  }

  // Distinct keeps exactly the values, once each, ordered by where each first occurs.
  lemma {:induction false} DistinctKeepsFirsts(xs: seq<string>)
    ensures forall x :: x in Distinct(xs) <==> x in xs
    ensures forall i, j :: 0 <= i < j < |Distinct(xs)| ==>
              FirstIndex(xs, Distinct(xs)[i]) < FirstIndex(xs, Distinct(xs)[j])
  {
    if xs != [] {
      var init, last := xs[..|xs| - 1], xs[|xs| - 1];
      assert xs == init + [last];
      DistinctKeepsFirsts(init);
      var r := Distinct(init);
      forall x | x in init
        ensures x in xs && FirstIndex(xs, x) == FirstIndex(init, x) < |init|
      {
        FirstIndexInPrefix(init, [last], x);
      }
      if last !in init {
        FirstIndexOfNew(init, last);
      }
    }
  }

  // The tag at k carries this name: behind a marker at the start of the text or after a non-word
  // character, lower-cased, as many word characters as there are up to the cap, and at least one.
  ghost predicate Carries(p: Pattern, s: string, k: nat, name: string) {
    && 1 <= |name| <= p.cap && k + 1 + |name| <= |s|
    && s[k] == p.marker && (k == 0 || !p.isWord(s[k - 1]))
    && (forall i :: 0 <= i < |name| ==> p.isWord(s[k + 1 + i]) && name[i] == p.lower(s[k + 1 + i]))
    && (|name| == p.cap || k + 1 + |name| == |s| || !p.isWord(s[k + 1 + |name|]))
  }

  lemma {:induction false} TagsCarryTheirNames(p: Pattern, s: string, k: nat, name: string)
    requires p.Valid()
    ensures Carries(p, s, k, name) <==> k < |s| && IsTag(p, s, k) && name == Name(p, s, k)
  {
    if k + 1 < |s| && IsTag(p, s, k) {
      RunIsLongest(p, s, k + 1, p.cap);
      if Carries(p, s, k, name) {
        forall j | k + 1 <= j < k + 1 + |name|
          ensures p.isWord(s[j])
        {
          assert name[j - (k + 1)] == p.lower(s[k + 1 + (j - (k + 1))]);
        }
        SameRun(p, s, k + 1, |name|, |Name(p, s, k)|);
      }
    }
    assert Carries(p, s, k, name) ==> name[0] == p.lower(s[k + 1 + 0]);
  }

  // Two maximal runs from one position have the same length.
  lemma {:induction false} SameRun(p: Pattern, s: string, i: nat, m: nat, n: nat)
    requires m <= p.cap && n <= p.cap && i + m <= |s| && i + n <= |s|
    requires forall k :: i <= k < i + m ==> p.isWord(s[k])
    requires forall k :: i <= k < i + n ==> p.isWord(s[k])
    requires m == p.cap || i + m == |s| || !p.isWord(s[i + m])
    requires n == p.cap || i + n == |s| || !p.isWord(s[i + n])
    ensures m == n
  {
    if n < p.cap && i + n < |s| {
      assert !p.isWord(s[i + n]);
    }
    if m < p.cap && i + m < |s| {
      assert !p.isWord(s[i + m]);
    }
  }

  lemma {:induction false} FirstIndexIsFirst(xs: seq<string>, i: nat)
    requires i < |xs|
    ensures FirstIndex(xs, xs[i]) <= i && xs[FirstIndex(xs, xs[i])] == xs[i]
  {
    if i > 0 && xs[0] != xs[i] {
      FirstIndexIsFirst(xs[1..], i - 1);
    }
  }

  // Some tag that carries the one name stands before every tag that carries the other.
  ghost predicate FirstBefore(p: Pattern, s: string, name: string, other: string) {
    exists k: nat :: Carries(p, s, k, name) && forall m: nat :: Carries(p, s, m, other) ==> k < m
  }

  // Some tag of the text carries this name.
  ghost predicate Carried(p: Pattern, s: string, name: string) {
    exists k: nat :: Carries(p, s, k, name)
  }

  // Exactly the names the tags of the text carry are extracted, each once, in the order in which
  // they first occur.
  ghost predicate TagNames(p: Pattern, s: string, names: seq<string>) {
    && (forall name :: name in names <==> Carried(p, s, name))
    && (forall i, j :: 0 <= i < j < |names| ==> names[i] != names[j] && FirstBefore(p, s, names[i], names[j]))
  }

  lemma {:induction false} NameOfTag(p: Pattern, s: string, k: nat, name: string) returns (a: nat)
    requires p.Valid() && Carries(p, s, k, name)
    ensures var markers := Tags(p, s, 0);
            && (forall b :: 0 <= b < |markers| ==> markers[b] < |s|)
            && a < |markers| && markers[a] == k && Names(p, s, markers)[a] == name
  {
    TagsAreTheTags(p, s, 0);
    TagsCarryTheirNames(p, s, k, name);
    assert k in Tags(p, s, 0);
    a :| 0 <= a < |Tags(p, s, 0)| && Tags(p, s, 0)[a] == k;
  }

  lemma {:induction false} TagOfName(p: Pattern, s: string, a: nat)
    requires p.Valid() && a < |Tags(p, s, 0)| && (forall b :: 0 <= b < |Tags(p, s, 0)| ==> Tags(p, s, 0)[b] < |s|)
    ensures Carries(p, s, Tags(p, s, 0)[a], Names(p, s, Tags(p, s, 0))[a])
  {
    TagsAreTheTags(p, s, 0);
    assert Tags(p, s, 0)[a] in Tags(p, s, 0);
    TagsCarryTheirNames(p, s, Tags(p, s, 0)[a], Names(p, s, Tags(p, s, 0))[a]);
  }

  lemma {:induction false} FirstIndexPrecedes(p: Pattern, s: string, name: string, other: string)
    requires p.Valid() && (forall b :: 0 <= b < |Tags(p, s, 0)| ==> Tags(p, s, 0)[b] < |s|)
    requires var names := Names(p, s, Tags(p, s, 0));
             name in names && other in names && FirstIndex(names, name) < FirstIndex(names, other)
    ensures FirstBefore(p, s, name, other)
  {
    var markers := Tags(p, s, 0);
    var names := Names(p, s, markers);
    TagsAreTheTags(p, s, 0);
    var i :| 0 <= i < |names| && names[i] == name;
    FirstIndexIsFirst(names, i);
    var a := FirstIndex(names, name);
    TagOfName(p, s, a);
    forall m: nat | Carries(p, s, m, other)
      ensures markers[a] < m
    {
      var b := NameOfTag(p, s, m, other);
      FirstIndexIsFirst(names, b);
    }
  }

  lemma {:induction false} ExtractedAreTheTagNames(p: Pattern, s: string)
    requires p.Valid()
    ensures TagNames(p, s, Extracted(p, s))
  {
    var markers := Tags(p, s, 0);
    TagsAreTheTags(p, s, 0);
    var names, result := Names(p, s, markers), Extracted(p, s);
    DistinctKeepsFirsts(names);
    forall name
      ensures name in result <==> Carried(p, s, name)
    {
      if k: nat :| Carries(p, s, k, name) {
        var a := NameOfTag(p, s, k, name);
      }
      if name in names {
        var a :| 0 <= a < |names| && names[a] == name;
        TagOfName(p, s, a);
      }
    }
    forall i, j | 0 <= i < j < |result|
      ensures result[i] != result[j] && FirstBefore(p, s, result[i], result[j])
    {
      assert result[i] in names && result[j] in names;
      FirstIndexPrecedes(p, s, result[i], result[j]);
    }
  }

  method Extract(p: Pattern, content: string) returns (result: seq<string>)
    requires p.Valid()
    ensures TagNames(p, content, result)
    ensures result == Extracted(p, content)
  {
    ExtractedAreTheTagNames(p, content);
    var matches := FindAll(p, content);
    TagsAreTheTags(p, content, 0);
    var seen: set<string> := {};
    result := [];
    ghost var names := Names(p, content, matches);
    var i := 0;
    while i < |matches|
      invariant 0 <= i <= |matches|
      invariant forall n :: n in seen <==> n in names[..i]
      invariant result == Distinct(names[..i])
    {
      var name := Lowered(p, content[matches[i] + 1..End(p, content, matches[i])]);
      assert name == names[i];
      DistinctStep(names, i);
      if name !in seen {
        seen := seen + {name};
        result := result + [name];
      }
      i := i + 1;
    }
    assert names[..i] == names;
  }
}
