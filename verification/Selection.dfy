/** Picking elements of a sequence without changing their order. */
module Selection {
  // The picked elements stand at these places, in this order.
  ghost predicate At<T>(picked: seq<T>, all: seq<T>, places: seq<nat>) {
    && |places| == |picked|
    && (forall i :: 0 <= i < |places| ==> places[i] < |all| && picked[i] == all[places[i]])
    && (forall i, j :: 0 <= i < j < |places| ==> places[i] < places[j])
  }

  // The places of all elements worth keeping, and no others.
  ghost predicate Worth<T>(all: seq<T>, keep: T -> bool, places: seq<nat>) {
    forall k: nat :: k < |all| ==> (k in places <==> keep(all[k]))
  }

  // Exactly the elements worth keeping are picked, each as often as it occurs and in the same order.
  ghost predicate Picks<T>(picked: seq<T>, all: seq<T>, keep: T -> bool) {
    exists places :: At(picked, all, places) && Worth(all, keep, places)
  }

  lemma {:induction false} PicksOneMore<T>(picked: seq<T>, all: seq<T>, keep: T -> bool, x: T)
    requires Picks(picked, all, keep)
    ensures Picks(if keep(x) then picked + [x] else picked, all + [x], keep)
  {
    var places :| At(picked, all, places) && Worth(all, keep, places);
    if keep(x) {
      PickLast(picked, all, keep, x, places);
    } else {
      SkipLast(picked, all, keep, x, places);
    }
  }

  lemma {:induction false} PickLast<T>(picked: seq<T>, all: seq<T>, keep: T -> bool, x: T, places: seq<nat>)
    requires At(picked, all, places) && Worth(all, keep, places) && keep(x)
    ensures Picks(picked + [x], all + [x], keep)
  {
    var n: nat := |all|;
    var more := places + [n];
    assert At(picked + [x], all + [x], more);
    forall k: nat | k < |all + [x]|
      ensures k in more <==> keep((all + [x])[k])
    {
      assert k in more <==> k in places || k == n;
    }
    assert Worth(all + [x], keep, more);
  }

  lemma {:induction false} SkipLast<T>(picked: seq<T>, all: seq<T>, keep: T -> bool, x: T, places: seq<nat>)
    requires At(picked, all, places) && Worth(all, keep, places) && !keep(x)
    ensures Picks(picked, all + [x], keep)
  {
    assert At(picked, all + [x], places);
    forall k: nat | k < |all + [x]|
      ensures k in places <==> keep((all + [x])[k])
    {
      assert k in places ==> k < |all|;
    }
    assert Worth(all + [x], keep, places);
  }

  lemma PicksNothing<T>(keep: T -> bool)
    ensures Picks([], [], keep)
  {
    var none: seq<T> := [];
    assert At(none, none, []) && Worth(none, keep, []);
  }
}
