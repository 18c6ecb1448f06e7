/** Rows between users, and what looking a pair up may answer when it has several. */
module Relations {
  import opened Wrappers

  datatype Kind = Follow | Block | Mute

  // Who relates to whom, by dataset index in a generated list and by user id in the store.
  datatype Relation = Relation(follower: int, following: int, kind: Kind)

  predicate SamePair(r: Relation, s: Relation) {
    || (r.follower == s.follower && r.following == s.following)
    || (r.follower == s.following && r.following == s.follower)
  }

  lemma SamePairIff(r: Relation, s: Relation)
    ensures SamePair(r, s) <==> {r.follower, r.following} == {s.follower, s.following}
  {
    assert r.follower in {r.follower, r.following} && r.following in {r.follower, r.following};
    assert s.follower in {s.follower, s.following} && s.following in {s.follower, s.following};
  }

  predicate OneSided(r: Relation) {
    r.follower != r.following
  }

  // The rows of an ordered pair; there may be one of each kind.
  function RowsOf(rows: set<Relation>, a: int, b: int): set<Relation> {
    set r | r in rows && r.follower == a && r.following == b
  }

  // Looking a pair up reads one row, whatever its kind; any row of the pair may be the one.
  predicate Lookup(rows: set<Relation>, a: int, b: int, row: Option<Relation>) {
    if row.Some? then row.value in RowsOf(rows, a, b) else RowsOf(rows, a, b) == {}
  }

  predicate ShowsBlock(row: Option<Relation>) {
    row.Some? && row.value.kind.Block?
  }

  method GetByIDs(rows: set<Relation>, a: int, b: int) returns (row: Option<Relation>)
    ensures Lookup(rows, a, b, row)
  {
    var found := RowsOf(rows, a, b);
    if found == {} {
      return None;
    }
    var r := AnyOf(found);
    return Some(r);
  }

  predicate Blocks(rows: set<Relation>, a: int, b: int) {
    Relation(a, b, Block) in rows
  }

  // A block with no row of another kind beside it.
  predicate OnlyBlocks(rows: set<Relation>, a: int, b: int) {
    Blocks(rows, a, b) && Relation(a, b, Follow) !in rows && Relation(a, b, Mute) !in rows
  }

  predicate BlockedEitherWay(rows: set<Relation>, a: int, b: int) {
    Blocks(rows, a, b) || Blocks(rows, b, a)
  }

  // Two lookups, one each way, cannot miss the block.
  predicate SurelyBlocked(rows: set<Relation>, a: int, b: int) {
    OnlyBlocks(rows, a, b) || OnlyBlocks(rows, b, a)
  }

  // Every lookup shows the block exactly when no row of another kind stands beside it, and some
  // lookup does exactly when there is one.
  lemma LookupShowsBlockIff(rows: set<Relation>, a: int, b: int)
    ensures (forall row :: Lookup(rows, a, b, row) ==> ShowsBlock(row)) <==> OnlyBlocks(rows, a, b)
    ensures (exists row :: Lookup(rows, a, b, row) && ShowsBlock(row)) <==> Blocks(rows, a, b)
  {
    var block, follow, mute := Relation(a, b, Block), Relation(a, b, Follow), Relation(a, b, Mute);
    assert block in rows ==> Lookup(rows, a, b, Some(block));
    assert follow in rows ==> Lookup(rows, a, b, Some(follow));
    assert mute in rows ==> Lookup(rows, a, b, Some(mute));
    if !Blocks(rows, a, b) {
      var row := GetRow(rows, a, b);
      assert !ShowsBlock(row);
    }
  }

  lemma GetRow(rows: set<Relation>, a: int, b: int) returns (row: Option<Relation>)
    ensures Lookup(rows, a, b, row)
  {
    if RowsOf(rows, a, b) == {} {
      row := None;
    } else {
      var r := SomeOf(RowsOf(rows, a, b));
      row := Some(r);
    }
  }

  // Both lookups of a pair, whichever rows they read, find a block between them exactly when one
  // of the directions holds a block and nothing else.
  lemma BlockIsFoundIff(rows: set<Relation>, a: int, b: int)
    ensures (forall one, other :: Lookup(rows, a, b, one) && Lookup(rows, b, a, other) ==> ShowsBlock(one) || ShowsBlock(other)) <==>
            SurelyBlocked(rows, a, b)
    ensures (exists one, other :: Lookup(rows, a, b, one) && Lookup(rows, b, a, other) && (ShowsBlock(one) || ShowsBlock(other))) <==>
            BlockedEitherWay(rows, a, b)
  {
    LookupShowsBlockIff(rows, a, b);
    LookupShowsBlockIff(rows, b, a);
    var one := GetRow(rows, a, b);
    var other := GetRow(rows, b, a);
  }
}
