/** Making faker user names valid and unique in the generated dataset. */
module Usernames {
  import opened Wrappers
  import opened Decimal
  import opened Dataset
  import opened Selection

  const MaxLength: nat := 16

  predicate NameChar(c: char) {
    'a' <= c <= 'z' || '0' <= c <= '9' || c == '_'
  }

  predicate NameText(s: string) {
    forall i :: 0 <= i < |s| ==> NameChar(s[i])
  }

  // The name characters of a lower-cased text, in order.
  function Sanitized(raw: string, lower: char -> char): (s: string)
    ensures NameText(s)
  {
    if raw == [] then []
    else
      var c := lower(raw[|raw| - 1]);
      Sanitized(raw[..|raw| - 1], lower) + if NameChar(c) then [c] else []
  }

  function LowerCased(raw: string, lower: char -> char): (s: string)
    ensures |s| == |raw| && forall i :: 0 <= i < |s| ==> s[i] == lower(raw[i])
  {
    if raw == [] then [] else LowerCased(raw[..|raw| - 1], lower) + [lower(raw[|raw| - 1])]
  }

  // Lower-case letters, digits and the underscore.
  function Allowed(): char -> bool {
    c => 'a' <= c <= 'z' || '0' <= c <= '9' || c == '_'
  }

  lemma {:induction false} SanitizedOneMore(init: string, last: char, lower: char -> char)
    ensures LowerCased(init + [last], lower) == LowerCased(init, lower) + [lower(last)]
    ensures Sanitized(init + [last], lower) ==
            if Allowed()(lower(last)) then Sanitized(init, lower) + [lower(last)] else Sanitized(init, lower)
  {
    assert (init + [last])[..|init|] == init;
  }

  // Sanitizing lower-cases and then keeps every allowed character, in order, and no other.
  lemma {:induction false} SanitizedPicks(raw: string, lower: char -> char)
    ensures Picks(Sanitized(raw, lower), LowerCased(raw, lower), Allowed())
  {
    if raw == [] {
      PicksNothing(Allowed());
    } else {
      var init, last := raw[..|raw| - 1], raw[|raw| - 1];
      assert raw == init + [last];
      SanitizedPicks(init, lower);
      SanitizedOneMore(init, last, lower);
      PicksOneMore(Sanitized(init, lower), LowerCased(init, lower), Allowed(), lower(last));
    }
  }

  // The base with a number at its end, the base cut only as far as needed for both to fit.
  function Candidate(base: string, i: nat): (s: string)
    requires Fits(i)
    ensures 1 <= |s| <= MaxLength
    ensures NameText(base) ==> NameText(s)
  {
    var suffix := ItoaNat(i);
    var room := MaxLength - |suffix|;
    (if |base| > room then base[..room] else base) + suffix
  }

  // A suffix fits when it has at most sixteen digits.
  predicate Fits(i: nat) {
    |ItoaNat(i)| <= MaxLength
  }

  predicate SuffixTaken(base: string, used: set<string>, i: nat) {
    Fits(i) && Candidate(base, i) in used
  }

  // The suffix that was used: all before it lead to taken names, and so does the bare base.
  ghost predicate FirstFree(base: string, used: set<string>, i: nat) {
    && 1 <= i && Fits(i) && base in used && Candidate(base, i) !in used
    && forall j: nat :: 1 <= j < i ==> SuffixTaken(base, used, j)
  }

  // The numbers that fit are those below a bound.
  lemma {:induction false} FitsBelow(i: nat, d: nat)
    requires i > 0
    ensures |ItoaNat(i)| <= d <==> i < Pow10(d)
  {
    if d > 0 {
      FitsBelow(i, d - 1);
      DigitCount(i, d);
      PowersGrow(d - 1, d);
    }
  }

  function Numbered(base: string, i: nat): Option<string> {
    if Fits(i) then Some(Candidate(base, i)) else None
  }

  lemma NumberedEnds(base: string, i: nat)
    requires i > 0
    ensures Numbered(base, i).Some? <==> i < Pow10(MaxLength)
  {
    FitsBelow(i, MaxLength);
  }

  // A bound below which the suffixes are exactly those that fit.
  lemma SuffixBound(base: string) returns (bound: int)
    ensures forall i: nat :: i > 0 ==> (Numbered(base, i).Some? <==> i < bound)
  {
    bound := Pow10(MaxLength);
    forall i: nat | i > 0
      ensures Numbered(base, i).Some? <==> i < bound
    {
      NumberedEnds(base, i);
    }
  }

  // The search has come past suffix i: it and all before it lead to taken names.
  ghost predicate Searched(base: string, used: set<string>, i: nat) {
    base in used && forall j: nat :: 1 <= j <= i ==> SuffixTaken(base, used, j)
  }

  lemma SearchedNext(base: string, used: set<string>, i: nat)
    requires i > 0 && Searched(base, used, i - 1)
    requires Numbered(base, i).Some? && Numbered(base, i).value in used
    ensures Searched(base, used, i)
  {
  }

  lemma FoundFree(base: string, used: set<string>, i: nat)
    requires i > 0 && Searched(base, used, i - 1)
    requires Numbered(base, i).Some? && Numbered(base, i).value !in used
    ensures FirstFree(base, used, i) && Numbered(base, i) == Some(Candidate(base, i))
  {
  }

  // After a suffix that does not fit no later one fits.
  lemma NoneFits(base: string, used: set<string>, i: nat)
    requires i > 0 && Numbered(base, i).None? && Searched(base, used, i - 1)
    ensures forall j: nat :: 1 <= j && Fits(j) ==> SuffixTaken(base, used, j)
  {
    NumberedEnds(base, i);
    forall j: nat | 1 <= j && Fits(j)
      ensures SuffixTaken(base, used, j)
    {
      NumberedEnds(base, j);
    }
  }

  predicate LegalLength(s: string) {
    1 <= |s| <= MaxLength
  }

  function Names(s: seq<string>): set<string> {
    set i | 0 <= i < |s| :: s[i]
  }

  // The draw that is kept: the first, or the second when the first is empty or too long.
  function Kept(raw: string, redraw: string, lower: char -> char): string {
    var s := Sanitized(raw, lower);
    if s == "" || |s| > MaxLength then Sanitized(redraw, lower) else s
  }

  // Each name is new, made of name characters, and of a legal length when its kept draw was.
  ghost predicate Drawn(names: seq<string>, draws: seq<(string, string)>, lower: char -> char, before: set<string>) {
    && |names| <= |draws|
    && forall i :: 0 <= i < |names| ==>
         && names[i] !in before && names[i] !in names[..i] && NameText(names[i])
         && (LegalLength(Kept(draws[i].0, draws[i].1, lower)) ==> LegalLength(names[i]))
  }

  lemma DrawnGrows(names: seq<string>, n: string, draws: seq<(string, string)>, lower: char -> char, before: set<string>)
    requires |names| < |draws| && Drawn(names, draws, lower, before)
    requires n !in before + Names(names) && NameText(n)
    requires LegalLength(Kept(draws[|names|].0, draws[|names|].1, lower)) ==> LegalLength(n)
    ensures Drawn(names + [n], draws, lower, before) && Names(names + [n]) == Names(names) + {n}
  {
    var more := names + [n];
    assert more[|names|] == n;
    assert forall i :: 0 <= i < |names| ==> more[i] == names[i] && more[..i] == names[..i];
    assert more[..|names|] == names;
  }

  class Generator {
    var usedUsernames: set<string>

    constructor (anchors: set<string>)
      ensures usedUsernames == anchors
    {
      usedUsernames := anchors;
    }

    method Sanitize(raw: string, lower: char -> char) returns (s: string)
      ensures s == Sanitized(raw, lower)
      ensures Picks(s, LowerCased(raw, lower), Allowed())
    {
      SanitizedPicks(raw, lower);
      s := "";
      var i := 0;
      while i < |raw|
        invariant 0 <= i <= |raw| && s == Sanitized(raw[..i], lower)
      {
        assert raw[..i + 1][..i] == raw[..i];
        var c := lower(raw[i]);
        if NameChar(c) {
          s := s + [c];
        }
        i := i + 1;
      }
      assert raw[..i] == raw;
    }

    // Returns an unused name of name characters: the kept draw, or its first free candidate.  The
    // first draw is kept if what is left of it has 1 to 16 characters, else the second.  No
    // name comes back only when every suffix of up to sixteen digits is taken; cutting the base
    // to a negative length would then panic.  The length is right exactly when the kept draw had
    // a right length or was taken.
    method CleanUsername(raw: string, redraw: string, lower: char -> char) returns (name: Option<string>)
      modifies this
      ensures name.Some? ==> name.value !in old(usedUsernames) && usedUsernames == old(usedUsernames) + {name.value}
      ensures name.Some? ==> NameText(name.value)
      ensures var first := Sanitized(raw, lower);
              var base := if 1 <= |first| <= 16 then first else Sanitized(redraw, lower);
              match name
              case Some(n) =>
                (n == base || exists i: nat :: FirstFree(base, old(usedUsernames), i) && n == Candidate(base, i)) &&
                (LegalLength(n) <==> LegalLength(base) || base in old(usedUsernames))
              case None =>
                usedUsernames == old(usedUsernames) && base in usedUsernames &&
                forall i: nat :: 1 <= i && Fits(i) ==> SuffixTaken(base, usedUsernames, i)
    {
      var base := Sanitize(raw, lower);
      if base == "" || |base| > MaxLength {
        base := Sanitize(redraw, lower);
      }
      name := FindFree(base);
      if name.Some? {
        usedUsernames := usedUsernames + {name.value};
      }
    }

    // The names of a dataset's generated users: all different, none an anchor's, and each of a
    // legal length when its kept draw was.  With room for so few users no suffix runs out.
    method GenUsernames(draws: seq<(string, string)>, lower: char -> char) returns (names: seq<string>)
      requires |usedUsernames| + |draws| <= TotalUsers(Demo)
      modifies this
      ensures |names| == |draws| && Drawn(names, draws, lower, old(usedUsernames))
      ensures usedUsernames == old(usedUsernames) + Names(names)
    {
      names := [];
      while |names| < |draws|
        invariant |names| <= |draws| && |usedUsernames| + |draws| - |names| <= TotalUsers(Demo)
        invariant Drawn(names, draws, lower, old(usedUsernames))
        invariant usedUsernames == old(usedUsernames) + Names(names)
      {
        var (raw, redraw) := draws[|names|];
        var name := NextName(raw, redraw, lower);
        DrawnGrows(names, name, draws, lower, old(usedUsernames));
        names := names + [name];
      }
    }

    method NextName(raw: string, redraw: string, lower: char -> char) returns (name: string)
      requires |usedUsernames| < TotalUsers(Demo)
      modifies this
      ensures name !in old(usedUsernames) && usedUsernames == old(usedUsernames) + {name}
      ensures NameText(name) && (LegalLength(Kept(raw, redraw, lower)) ==> LegalLength(name))
    {
      ghost var i := DatasetNamesAreFoundQuickly(Kept(raw, redraw, lower), usedUsernames);
      var found := CleanUsername(raw, redraw, lower);
      assert found.None? ==> SuffixTaken(Kept(raw, redraw, lower), usedUsernames, i);
      name := found.value;
    }

    // The base itself if it is free, else its first free candidate.
    method FindFree(base: string) returns (name: Option<string>)
      ensures base !in usedUsernames ==> name == Some(base)
      ensures base in usedUsernames && name.Some? ==>
                exists i: nat :: FirstFree(base, usedUsernames, i) && name.value == Candidate(base, i)
      ensures name.None? ==>
                base in usedUsernames && forall i: nat :: 1 <= i && Fits(i) ==> SuffixTaken(base, usedUsernames, i)
    {
      if base !in usedUsernames {
        return Some(base);
      }
      ghost var bound := SuffixBound(base);
      var i := 1;
      name := AppendNumber(base, 1);
      while name.Some? && name.value in usedUsernames
        invariant i >= 1 && name == Numbered(base, i)
        invariant Searched(base, usedUsernames, i - 1)
        decreases bound - i
      {
        SearchedNext(base, usedUsernames, i);
        i := i + 1;
        name := AppendNumber(base, i);
      }
      if name.None? {
        NoneFits(base, usedUsernames, i);
      } else {
        FoundFree(base, usedUsernames, i);
      }
    }

    // One candidate, or none when the number alone is too long.  It ends in the number; what stands
    // before that starts the base, and is all of it or fills the name up to sixteen characters.
    method AppendNumber(base: string, i: nat) returns (name: Option<string>)
      ensures name == Numbered(base, i)
      ensures name.None? <==> |ItoaNat(i)| > 16
      ensures name.Some? ==>
                var s, suffix := name.value, ItoaNat(i);
                && |s| == (if |base| + |suffix| <= 16 then |base| + |suffix| else 16)
                && s[|s| - |suffix|..] == suffix && s[..|s| - |suffix|] <= base
    {
      var suffix := ItoaNat(i);
      var maxLen := MaxLength - |suffix|;
      if maxLen < 0 {
        return None;
      }
      var runes := base;
      if |runes| > maxLen {
        runes := runes[..maxLen];
      }
      return Some(runes + suffix);
    }
  }

  // ---------------------------------------------------------------------------------------------
  // Why the search ends
  // ---------------------------------------------------------------------------------------------

  // Different suffixes may lead to the same candidate.
  lemma CandidatesCollide(stem: string)
    requires |stem| == 14
    ensures |ItoaNat(1)| == 1 && |ItoaNat(11)| == 2
    ensures Candidate(stem + "1", 1) == Candidate(stem + "1", 11)
  {
    assert ItoaNat(1) == "1" && ItoaNat(11) == ItoaNat(1) + "1" == "11";
    assert (stem + "1")[..14] == stem;
    assert stem + "1" + "1" == stem + "11";
  }

  // Suffixes of one length never do.
  lemma SameLengthCandidatesDiffer(base: string, i: nat, j: nat)
    requires |ItoaNat(i)| == |ItoaNat(j)| && Fits(i)
    requires Candidate(base, i) == Candidate(base, j)
    ensures i == j
  {
    var room := MaxLength - |ItoaNat(i)|;
    var kept := if |base| > room then base[..room] else base;
    assert Candidate(base, i)[|kept|..] == ItoaNat(i);
    assert Candidate(base, j)[|kept|..] == ItoaNat(j);
    ItoaNatInjective(i, j);
  }

  // So a run of taken suffixes of one length needs as many taken names.
  lemma {:induction false} Pigeonhole(base: string, used: set<string>, d: nat, lo: nat, hi: nat) returns (names: set<string>)
    requires 1 <= d <= MaxLength && Pow10(d - 1) <= lo <= hi <= Pow10(d)
    requires forall i :: lo <= i < hi ==> SuffixTaken(base, used, i)
    ensures names <= used && |names| == hi - lo
    ensures forall n :: n in names ==> exists i :: lo <= i < hi && Fits(i) && n == Candidate(base, i)
    decreases hi
  {
    if lo == hi {
      names := {};
    } else {
      var rest := Pigeonhole(base, used, d, lo, hi - 1);
      assert SuffixTaken(base, used, hi - 1);
      var last := Candidate(base, hi - 1);
      DigitCount(hi - 1, d);
      forall i | lo <= i < hi - 1 && Fits(i)
        ensures Candidate(base, i) != last
      {
        DigitCount(i, d);
        if Candidate(base, i) == last {
          SameLengthCandidatesDiffer(base, i, hi - 1);
        }
      }
      names := rest + {last};
    }
  }

  // With fewer than 9 * 10^(d-1) names in use the search is over before any suffix is longer than
  // d digits, so it ends and the base is never cut below 16 - d characters.
  lemma SearchEndsEarly(base: string, used: set<string>, d: nat)
    requires 1 <= d <= MaxLength && |used| < 9 * Pow10(d - 1)
    ensures exists i: nat :: Pow10(d - 1) <= i < Pow10(d) && !SuffixTaken(base, used, i)
    ensures forall i: nat :: FirstFree(base, used, i) ==> i < Pow10(d)
  {
    if forall i: nat :: Pow10(d - 1) <= i < Pow10(d) ==> SuffixTaken(base, used, i) {
      var names := Pigeonhole(base, used, d, Pow10(d - 1), Pow10(d));
      SubsetIsSmaller(names, used);
    }
    var free: nat :| Pow10(d - 1) <= free < Pow10(d) && !SuffixTaken(base, used, free);
    forall i: nat | FirstFree(base, used, i)
      ensures i < Pow10(d)
    {
      assert 1 <= free && (free < i ==> SuffixTaken(base, used, free));
    }
  }

  lemma SubsetIsSmaller(a: set<string>, b: set<string>)
    requires a <= b
    ensures |a| <= |b|
  {
    assert b == a + (b - a);
  }

  // Among the users of the larger dataset every name is found with a suffix of at most three digits.
  lemma DatasetNamesAreFoundQuickly(base: string, used: set<string>) returns (free: nat)
    requires |used| < TotalUsers(Demo)
    ensures 1 <= free && Fits(free) && !SuffixTaken(base, used, free)
    ensures forall i: nat :: FirstFree(base, used, i) ==> i < 1000
  {
    assert Pow10(2) == 100 && Pow10(3) == 1000 by {
      assert Pow10(1) == 10;
    }
    SearchEndsEarly(base, used, 3);
    free :| Pow10(2) <= free < Pow10(3) && !SuffixTaken(base, used, free);
    FitsBelow(free, 3);
  }
}
