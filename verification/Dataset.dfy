/** The sizes of the generated dataset and the random draws behind it. */
module Dataset {
  datatype Scale = Demo | CI

  function TotalUsers(scale: Scale): nat {
    if scale.Demo? then 150 else 80
  }

  function TopLevelPosts(scale: Scale): nat {
    if scale.Demo? then 1600 else 800
  }

  function ReplyPosts(scale: Scale): nat {
    if scale.Demo? then 600 else 300
  }

  const FollowMin: int := 8
  const FollowMax: int := 15
  const LikeMax: int := 40
  const RepostMax: int := 10
  const BookmarkMax: int := 16
  const PollVoteMax: int := 12

  // Ids given to different entries differ.
  predicate Distinct(ids: seq<int>) {
    forall i, j :: 0 <= i < j < |ids| ==> ids[i] != ids[j]
  }

  // One random draw: callers may rely on its range and on nothing else.
  method Number(lo: int, hi: int) returns (n: int)
    requires lo <= hi
    ensures lo <= n <= hi
  {
    n :| lo <= n <= hi;
  }
}
