/** Follows, blocks and mutes: the generated list and what loading it leaves in the store. */
module Relationships {
  import opened Wrappers
  import opened Dataset
  import opened Relations

  // ---------------------------------------------------------------------------------------------
  // Loading
  // ---------------------------------------------------------------------------------------------

  // One entry that was not seen before: a block first clears its pair in both directions.
  function Added(rows: set<Relation>, r: Relation): set<Relation> {
    (set x | x in rows && !(r.kind.Block? && SamePair(r, x))) + {r}
  }

  function Loaded(list: seq<Relation>, rows: set<Relation>): set<Relation> {
    if list == [] then rows
    else
      var rest, last := list[..|list| - 1], list[|list| - 1];
      var before := Loaded(rest, rows);
      if last in rest then before else Added(before, last)
  }

  function Resolved(list: seq<Relation>, userIDs: seq<int>): (ids: seq<Relation>)
    requires forall r :: r in list ==> 0 <= r.follower < |userIDs| && 0 <= r.following < |userIDs|
    ensures |ids| == |list|
  {
    seq(|list|, i requires 0 <= i < |list| =>
      assert list[i] in list;
      Relation(userIDs[list[i].follower], userIDs[list[i].following], list[i].kind))
  }

  class RelationStore {
    var rows: set<Relation>

    // The table's check constraint.
    predicate Valid() reads this`rows {
      forall r :: r in rows ==> OneSided(r)
    }

    constructor ()
      ensures rows == {}
    {
      rows := {};
    }

    // Every relation of the ordered pair goes, whatever its kind.
    method Delete(follower: int, following: int) returns (found: bool)
      modifies this`rows
      ensures rows == set r | r in old(rows) && !(r.follower == follower && r.following == following)
      ensures found <==> rows != old(rows)
    {
      var left := set r | r in rows && !(r.follower == follower && r.following == following);
      found := left != rows;
      rows := left;
    }

    // A relation that exists already is refused like one with oneself: the driver's error for it is
    // not the one the store looks for.
    method Create(r: Relation) returns (ok: bool)
      requires Valid()
      modifies this`rows
      ensures Valid()
      ensures ok == (OneSided(r) && r !in old(rows)) && rows == if ok then old(rows) + {r} else old(rows)
    {
      ok := OneSided(r) && r !in rows;
      if ok {
        rows := rows + {r};
      }
    }

    method Add(r: Relation) returns (ok: bool)
      requires Valid()
      modifies this`rows
      ensures Valid()
      ensures ok == !Refused(old(rows), r) && rows == if ok then Added(old(rows), r) else old(rows)
    {
      if r.kind.Block? {
        ClearPair(r);
      }
      ok := Create(r);
    }

    // Everything between the two users goes, in both directions.
    method ClearPair(r: Relation)
      modifies this`rows
      ensures rows == set x | x in old(rows) && !SamePair(r, x)
    {
      var _ := Delete(r.follower, r.following);
      var _ := Delete(r.following, r.follower);
    }

    // Loads a list in order, each distinct entry once.  It stops at the first new entry that
    // relates a user to himself or is in the table still.
    method ApplyRelationships(list: seq<Relation>, userIDs: seq<int>) returns (failed: Option<nat>)
      requires Valid()
      requires forall r :: r in list ==> 0 <= r.follower < |userIDs| && 0 <= r.following < |userIDs|
      modifies this`rows
      ensures Valid()
      ensures var ids := Resolved(list, userIDs);
              var loaded := if failed.Some? && failed.value < |ids| then failed.value else |ids|;
              && (failed.Some? ==> failed.value < |ids| && StopsAt(ids, old(rows), failed.value))
              && Completes(ids, old(rows), loaded)
              && rows == Loaded(ids[..loaded], old(rows))
    {
      ghost var ids := Resolved(list, userIDs);
      var seen: set<Relation> := {};
      var i := 0;
      while i < |list|
        invariant 0 <= i <= |list| && Valid()
        invariant forall r :: r in seen <==> r in ids[..i]
        invariant Completes(ids, old(rows), i)
        invariant rows == Loaded(ids[..i], old(rows))
      {
        assert list[i] in list;
        var r := Relation(userIDs[list[i].follower], userIDs[list[i].following], list[i].kind);
        assert r == ids[i];
        LoadedNext(ids, old(rows), i);
        if r !in seen {
          seen := seen + {r};
          var ok := Add(r);
          if !ok {
            return Some(i);
          }
        }
        i := i + 1;
      }
      assert ids[..i] == ids;
      return None;
    }

    // What the application does on request.  A block clears the pair first; a follow is refused
    // when the other side blocks, whatever else there is; a mute or a follow that is there stays.
    method CreateRelationship(r: Relation) returns (ok: bool)
      requires Valid()
      modifies this`rows
      ensures Valid()
      ensures ok == (r.follower != r.following && !(r.kind.Follow? && Relation(r.following, r.follower, Block) in old(rows)))
      ensures rows == if ok then Added(old(rows), r) else old(rows)
      ensures ok ==> forall x :: x in rows <==>
                x == r || (x in old(rows) && !(r.kind.Block? && {x.follower, x.following} == {r.follower, r.following}))
    {
      forall x
        ensures SamePair(r, x) <==> {x.follower, x.following} == {r.follower, r.following}
      {
        SamePairIff(r, x);
      }
      if r.follower == r.following {
        return false;
      }
      if r.kind.Block? {
        ClearPair(r);
      } else if r.kind.Follow? && Relation(r.following, r.follower, Block) in rows {
        return false;
      } else if r in rows {
        return true;
      }
      ok := Create(r);
    }
  }

  // ---------------------------------------------------------------------------------------------
  // Where loading stops
  // ---------------------------------------------------------------------------------------------

  // Inserting fails on a relation with oneself, and on one that its own clearing leaves in place.
  predicate Refused(rows: set<Relation>, r: Relation) {
    !OneSided(r) || (!r.kind.Block? && r in rows)
  }

  predicate StopsAt(list: seq<Relation>, rows: set<Relation>, k: nat) {
    FirstAt(list, k) && Refused(Loaded(list[..k], rows), list[k])
  }

  predicate Completes(list: seq<Relation>, rows: set<Relation>, n: nat) {
    forall k :: 0 <= k < n ==> !StopsAt(list, rows, k)
  }

  lemma LoadedNext(list: seq<Relation>, rows: set<Relation>, i: nat)
    requires i < |list|
    ensures list[..i + 1] == list[..i] + [list[i]]
    ensures Loaded(list[..i + 1], rows) ==
            if list[i] in list[..i] then Loaded(list[..i], rows) else Added(Loaded(list[..i], rows), list[i])
    ensures StopsAt(list, rows, i) <==> list[i] !in list[..i] && Refused(Loaded(list[..i], rows), list[i])
    ensures Completes(list, rows, i + 1) <==> Completes(list, rows, i) && !StopsAt(list, rows, i)
  {
    assert list[..i + 1] == list[..i] + [list[i]];
    assert list[..i + 1][..i] == list[..i];
  }

  // A new entry between two users stops the loading exactly when it is a follow or a mute that the
  // store held from the start and no earlier entry blocks its pair.
  lemma StopsIffHeldAndUnblocked(list: seq<Relation>, rows: set<Relation>, k: nat)
    requires FirstAt(list, k) && OneSided(list[k])
    ensures StopsAt(list, rows, k) <==>
            !list[k].kind.Block? && list[k] in rows &&
            forall j :: 0 <= j < k && list[j].kind.Block? ==> !SamePair(list[j], list[k])
  {
    var r, before := list[k], list[..k];
    LoadedIsLeft(before, rows, r);
    assert forall j :: 0 <= j < k ==> !InsertedAt(before, j, r);
    forall j: nat | j < k && list[j].kind.Block? && SamePair(list[j], r)
      ensures !Untouched(before, 0, r)
    {
      FirstOccurrence(before, j);
      var i: nat :| i <= j && FirstAt(before, i) && before[i] == before[j];
      assert Sweeps(before, i, r);
    }
  }

  lemma {:induction false} FirstOccurrence(list: seq<Relation>, j: nat)
    requires j < |list|
    ensures exists i: nat :: i <= j && FirstAt(list, i) && list[i] == list[j]
  {
    if list[j] in list[..j] {
      var i: nat :| i < j && list[..j][i] == list[j];
      FirstOccurrence(list, i);
    }
  }

  // So a store that holds one of the listed follows stops the loading of that very follow.
  lemma SeededTwiceStops()
    ensures var list := [Relation(1, 2, Follow)];
            !StopsAt(list, {}, 0) && StopsAt(list, Loaded(list, {}), 0)
  {
    var list := [Relation(1, 2, Follow)];
    assert list[..0] == [] && FirstAt(list, 0);
    assert Loaded(list, {}) == {list[0]};
  }

  // ---------------------------------------------------------------------------------------------
  // What is left in the store
  // ---------------------------------------------------------------------------------------------

  predicate FirstAt(list: seq<Relation>, k: nat) {
    k < |list| && list[k] !in list[..k]
  }

  // Entry k is a block that clears the row.
  predicate Sweeps(list: seq<Relation>, k: nat, r: Relation) {
    FirstAt(list, k) && list[k].kind.Block? && SamePair(list[k], r)
  }

  predicate Untouched(list: seq<Relation>, from: nat, r: Relation) {
    forall k :: from <= k < |list| ==> !Sweeps(list, k, r)
  }

  predicate InsertedAt(list: seq<Relation>, k: nat, r: Relation) {
    FirstAt(list, k) && list[k] == r
  }

  // The row comes from the list, or was there, and no later block clears it.
  predicate Left(list: seq<Relation>, rows: set<Relation>, r: Relation) {
    || (exists k :: 0 <= k < |list| && InsertedAt(list, k, r) && Untouched(list, k + 1, r))
    || (r in rows && Untouched(list, 0, r))
  }

  lemma PrefixKeepsSteps(list: seq<Relation>, k: nat, r: Relation)
    requires list != [] && k < |list| - 1
    ensures FirstAt(list, k) == FirstAt(list[..|list| - 1], k)
    ensures Sweeps(list, k, r) == Sweeps(list[..|list| - 1], k, r)
    ensures InsertedAt(list, k, r) == InsertedAt(list[..|list| - 1], k, r)
  {
    assert list[..|list| - 1][..k] == list[..k];
  }

  // Exactly these rows are in the store after loading.
  lemma {:induction false} LoadedIsLeft(list: seq<Relation>, rows: set<Relation>, r: Relation)
    ensures r in Loaded(list, rows) <==> Left(list, rows, r)
  {
    if list != [] {
      var n := |list| - 1;
      var rest := list[..n];
      LoadedIsLeft(rest, rows, r);
      LeftOneMore(list, rows, r);
    }
  }

  lemma LeftOneMore(list: seq<Relation>, rows: set<Relation>, r: Relation)
    requires list != []
    ensures Left(list, rows, r) <==>
            InsertedAt(list, |list| - 1, r) || (Left(list[..|list| - 1], rows, r) && !Sweeps(list, |list| - 1, r))
  {
    var n := |list| - 1;
    var rest := list[..n];
    forall k: nat | k < n
      ensures Sweeps(list, k, r) == Sweeps(rest, k, r) && InsertedAt(list, k, r) == InsertedAt(rest, k, r)
    {
      PrefixKeepsSteps(list, k, r);
    }
    assert forall from: nat :: from <= n ==> (Untouched(list, from, r) <==> Untouched(rest, from, r) && !Sweeps(list, n, r));
    assert Untouched(list, n + 1, r);
  }

  // A block and a follow of the same pair, in either direction, in the store together.
  predicate Coexist(rows: set<Relation>) {
    exists b, f :: b in rows && f in rows && b.kind.Block? && f.kind.Follow? && SamePair(b, f)
  }

  // A follow that first comes after every block of its pair, when there is one in the list or in
  // the store.
  predicate LateFollow(list: seq<Relation>, rows: set<Relation>, k: nat) {
    && FirstAt(list, k) && list[k].kind.Follow? && Untouched(list, k, list[k])
    && ((exists b :: b in rows && b.kind.Block? && SamePair(b, list[k])) || !Untouched(list, 0, list[k]))
  }

  lemma LastSweep(list: seq<Relation>, r: Relation) returns (k: nat)
    requires !Untouched(list, 0, r)
    ensures Sweeps(list, k, r) && Untouched(list, k + 1, r)
  {
    k := |list| - 1;
    while !Sweeps(list, k, r)
      invariant k < |list| && Untouched(list, k + 1, r)
      decreases k
    {
      assert Untouched(list, k, r);
      k := k - 1;
    }
  }

  // Loading leaves a block beside a follow of its pair exactly when some follow is late.
  lemma BlockMeetsFollowIffLate(list: seq<Relation>, rows: set<Relation>)
    requires !Coexist(rows)
    ensures Coexist(Loaded(list, rows)) <==> exists k :: 0 <= k < |list| && LateFollow(list, rows, k)
  {
    var loaded := Loaded(list, rows);
    if Coexist(loaded) {
      var b, f :| b in loaded && f in loaded && b.kind.Block? && f.kind.Follow? && SamePair(b, f);
      LateFollowFound(list, rows, b, f);
    }
    forall k: nat | LateFollow(list, rows, k)
      ensures Coexist(loaded)
    {
      LateFollowMeetsABlock(list, rows, k);
    }
  }

  lemma LateFollowFound(list: seq<Relation>, rows: set<Relation>, b: Relation, f: Relation)
    requires !Coexist(rows) && b.kind.Block? && f.kind.Follow? && SamePair(b, f)
    requires b in Loaded(list, rows) && f in Loaded(list, rows)
    ensures exists k :: 0 <= k < |list| && LateFollow(list, rows, k)
  {
    LoadedIsLeft(list, rows, b);
    LoadedIsLeft(list, rows, f);
    assert forall j: nat :: InsertedAt(list, j, b) ==> Sweeps(list, j, f);
    assert b in rows || !Untouched(list, 0, f);
    assert !(f in rows && Untouched(list, 0, f));
    var k: nat :| k < |list| && InsertedAt(list, k, f) && Untouched(list, k + 1, f);
    assert LateFollow(list, rows, k);
  }

  // Blocks clear the rows of one pair alike.
  lemma SweptAlike(list: seq<Relation>, r: Relation, s: Relation)
    requires SamePair(r, s)
    ensures forall k :: Sweeps(list, k, r) == Sweeps(list, k, s)
  {
  }

  lemma LateFollowMeetsABlock(list: seq<Relation>, rows: set<Relation>, k: nat)
    requires LateFollow(list, rows, k)
    ensures Coexist(Loaded(list, rows))
  {
    var f := list[k];
    assert InsertedAt(list, k, f) && Untouched(list, k + 1, f);
    LoadedIsLeft(list, rows, f);
    if !Untouched(list, 0, f) {
      var j := LastSweep(list, f);
      var b := list[j];
      SweptAlike(list, f, b);
      assert InsertedAt(list, j, b);
      LoadedIsLeft(list, rows, b);
    } else {
      var b :| b in rows && b.kind.Block? && SamePair(b, f);
      SweptAlike(list, f, b);
      LoadedIsLeft(list, rows, b);
    }
  }

  // So follows before blocks, loaded into a store without blocks, never meet one.
  lemma FollowsFirstIsSafe(list: seq<Relation>, rows: set<Relation>)
    requires forall i, j :: 0 <= i < j < |list| && list[i].kind.Block? ==> !list[j].kind.Follow?
    requires forall r :: r in rows ==> !r.kind.Block?
    ensures !Coexist(Loaded(list, rows))
  {
    BlockMeetsFollowIffLate(list, rows);
  }

  // ---------------------------------------------------------------------------------------------
  // The generated list
  // ---------------------------------------------------------------------------------------------

  const Extras: seq<Relation> := [
    Relation(1, 7, Block), Relation(2, 5, Block), Relation(3, 9, Mute), Relation(4, 2, Mute)
  ]

  // Follows among the users, then the blocks and the mutes.
  predicate Generated(list: seq<Relation>, users: nat) {
    && |list| >= |Extras| && list[|list| - |Extras|..] == Extras
    && forall i :: 0 <= i < |list| - |Extras| ==>
         list[i].kind.Follow? && OneSided(list[i]) && 0 <= list[i].follower < users && 0 <= list[i].following < users
  }

  function By(list: seq<Relation>, u: int): nat {
    if list == [] then 0 else By(list[..|list| - 1], u) + if list[|list| - 1].follower == u then 1 else 0
  }

  function WithoutExtras(list: seq<Relation>): seq<Relation>
    requires |list| >= |Extras|
  {
    list[..|list| - |Extras|]
  }

  method GenRelationships(scale: Scale) returns (list: seq<Relation>)
    ensures Generated(list, TotalUsers(scale))
    ensures forall u :: By(WithoutExtras(list), u) <= FollowMax
  {
    list := [];
    var u := 0;
    while u < TotalUsers(scale)
      invariant 0 <= u <= TotalUsers(scale)
      invariant Generated(list + Extras, TotalUsers(scale))
      invariant forall v :: By(list, v) <= if v < u then FollowMax else 0
    {
      var count := Number(FollowMin, FollowMax);
      var c := 0;
      while c < count
        invariant 0 <= c <= count
        invariant Generated(list + Extras, TotalUsers(scale))
        invariant forall v :: By(list, v) <= if v < u then FollowMax else if v == u then c else 0
      {
        var target := Number(0, TotalUsers(scale) - 1);
        c := c + 1;
        if target == u {
          continue;
        }
        GeneratedGrows(list, Relation(u, target, Follow), TotalUsers(scale));
        list := list + [Relation(u, target, Follow)];
      }
      u := u + 1;
    }
    assert WithoutExtras(list + Extras) == list;
    list := list + Extras;
  }

  lemma GeneratedGrows(list: seq<Relation>, r: Relation, users: nat)
    requires Generated(list + Extras, users)
    requires r.kind.Follow? && OneSided(r) && 0 <= r.follower < users && 0 <= r.following < users
    ensures Generated(list + [r] + Extras, users)
    ensures forall v :: By(list + [r], v) == By(list, v) + if v == r.follower then 1 else 0
  {
    assert (list + [r])[..|list|] == list;
    var before, after := list + Extras, list + [r] + Extras;
    assert forall i :: 0 <= i < |list| ==> after[i] == before[i];
  }

  // Loading a generated list into an empty store cannot fail, leaves no block beside a follow of
  // its pair, and leaves every block and mute in place.
  lemma GeneratedListLoadsClean(list: seq<Relation>, userIDs: seq<int>)
    requires Generated(list, |userIDs|) && |userIDs| >= 10
    requires Distinct(userIDs)
    ensures forall r :: r in list ==> 0 <= r.follower < |userIDs| && 0 <= r.following < |userIDs|
    ensures Completes(Resolved(list, userIDs), {}, |list|)
    ensures !Coexist(Loaded(Resolved(list, userIDs), {}))
    ensures {
              Relation(userIDs[1], userIDs[7], Block), Relation(userIDs[2], userIDs[5], Block),
              Relation(userIDs[3], userIDs[9], Mute), Relation(userIDs[4], userIDs[2], Mute)
            } <= Loaded(Resolved(list, userIDs), {})
  {
    ExtrasAreLast(list, |userIDs|);
    var ids := Resolved(list, userIDs);
    FollowsFirstIsSafe(ids, {});
    ExtrasStay(ids, userIDs);
    forall k | 0 <= k < |list| && FirstAt(ids, k)
      ensures !StopsAt(ids, {}, k)
    {
      assert OneSided(ids[k]);
      StopsIffHeldAndUnblocked(ids, {}, k);
    }
  }

  lemma ExtrasAreLast(list: seq<Relation>, users: nat)
    requires Generated(list, users)
    ensures var n := |list| - 4;
            list[n] == Extras[0] && list[n + 1] == Extras[1] && list[n + 2] == Extras[2] && list[n + 3] == Extras[3]
  {
    var last := list[|list| - 4..];
    assert last[0] == list[|list| - 4] && last[1] == list[|list| - 3];
    assert last[2] == list[|list| - 2] && last[3] == list[|list| - 1];
  }

  lemma ExtrasStay(ids: seq<Relation>, userIDs: seq<int>)
    requires |ids| >= 4 && |userIDs| >= 10
    requires Distinct(userIDs)
    requires forall i :: 0 <= i < |ids| - 4 ==> ids[i].kind.Follow?
    requires ids[|ids| - 4] == Relation(userIDs[1], userIDs[7], Block)
    requires ids[|ids| - 3] == Relation(userIDs[2], userIDs[5], Block)
    requires ids[|ids| - 2] == Relation(userIDs[3], userIDs[9], Mute)
    requires ids[|ids| - 1] == Relation(userIDs[4], userIDs[2], Mute)
    ensures forall k :: |ids| - 4 <= k < |ids| ==> ids[k] in Loaded(ids, {})
  {
    assert userIDs[1] != userIDs[2] && userIDs[1] != userIDs[5] && userIDs[3] != userIDs[4];
    forall k | |ids| - 4 <= k < |ids|
      ensures ids[k] in Loaded(ids, {})
    {
      assert InsertedAt(ids, k, ids[k]) && Untouched(ids, k + 1, ids[k]);
      LoadedIsLeft(ids, {}, ids[k]);
    }
  }

  // A block before a follow of its pair does meet it.
  lemma FollowAfterBlockCoexists()
    ensures Coexist(Loaded([Relation(1, 2, Block), Relation(2, 1, Follow)], {}))
  {
    var list := [Relation(1, 2, Block), Relation(2, 1, Follow)];
    assert Sweeps(list, 0, list[1]);
    assert LateFollow(list, {}, 1);
    BlockMeetsFollowIffLate(list, {});
  }

  // ---------------------------------------------------------------------------------------------
  // How long a block is sure to be found
  // ---------------------------------------------------------------------------------------------

  predicate Accepted(rows: set<Relation>, r: Relation) {
    OneSided(r) && !(r.kind.Follow? && Blocks(rows, r.following, r.follower))
  }

  // Blocking makes it sure, whatever the pair held.
  lemma BlockingIsSure(rows: set<Relation>, r: Relation)
    requires r.kind.Block? && OneSided(r)
    ensures SurelyBlocked(Added(rows, r), r.follower, r.following)
  {
  }

  // A sure block stops being sure exactly when the only side that blocks and does nothing else
  // follows or mutes the other.
  lemma OnlyTheBlockerSpoilsIt(rows: set<Relation>, r: Relation, a: int, b: int)
    requires a != b && Accepted(rows, r) && OnlyBlocks(rows, a, b)
    ensures SurelyBlocked(Added(rows, r), a, b) <==>
            r.kind.Block? || !(r.follower == a && r.following == b) || OnlyBlocks(rows, b, a)
  {
  }

  // Both ways to spoil it are reachable, by loading or by requests: the block and the other row
  // stand side by side and the lookups may both miss the block.
  lemma BlockMayBeMissed(other: Kind)
    requires !other.Block?
    ensures var list := [Relation(1, 2, Block), Relation(1, 2, other)];
            && Loaded(list, {}) == {list[0], list[1]} && Accepted({list[0]}, list[1])
            && Blocks(Loaded(list, {}), 1, 2) && !SurelyBlocked(Loaded(list, {}), 1, 2)
            && Lookup(Loaded(list, {}), 1, 2, Some(list[1])) && Lookup(Loaded(list, {}), 2, 1, None)
  {
    var list := [Relation(1, 2, Block), Relation(1, 2, other)];
    assert list[..1] == [list[0]] && list[..1][..0] == [];
    assert Loaded([list[0]], {}) == {list[0]};
    assert Loaded(list, {}) == Added({list[0]}, list[1]) == {list[0], list[1]};
  }
}
