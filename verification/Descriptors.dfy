/** The allocation of watch descriptors, around the circle of 1 to INT_MAX. */
module Descriptors {
  import opened Wrappers
  import opened WatchGraph

  /** Until descriptors have wrapped around, all that are in use were handed out in ascending order. */
  ghost predicate AllocOk(live: set<Wd>, last: int, overflow: bool) {
    && 0 <= last <= INT_MAX
    && (forall v | v in live :: 1 <= v <= INT_MAX)
    && (!overflow ==> forall v | v in live :: v <= last)
  }

  /** The `i`-th descriptor after `last`, in the circle of 1 to INT_MAX. */
  function Ahead(last: int, i: nat): Wd {
    if last + i <= INT_MAX then last + i else last + i - INT_MAX
  }

  /** The next `i` descriptors after `last` are in use. */
  ghost predicate AllLive(live: set<Wd>, last: int, i: nat) {
    forall j: nat | 1 <= j <= i :: Ahead(last, j) in live
  }

  /** The first descriptor after `last` that is not in use. */
  ghost predicate NextFree(live: set<Wd>, last: int, wd: Wd) {
    wd !in live && exists i: nat :: i < INT_MAX && wd == Ahead(last, i + 1) && AllLive(live, last, i)
  }

  lemma AheadStep(live: set<Wd>, last: int, i: nat)
    requires 0 <= last <= INT_MAX && i < INT_MAX
    ensures Ahead(last, i + 1) == if Ahead(last, i) == INT_MAX then 1 else Ahead(last, i) + 1
    ensures AllLive(live, last, i) && Ahead(last, i + 1) in live ==> AllLive(live, last, i + 1)
  {
  }

  /** The descriptors 1 to `n`. */
  ghost function UpTo(n: nat): (s: set<Wd>)
    ensures |s| == n && forall v :: v in s <==> 1 <= v <= n
  {
    if n == 0 then {} else UpTo(n - 1) + {n}
  }

  lemma SubsetCount(a: set<Wd>, b: set<Wd>)
    requires a <= b
    ensures |a| <= |b|
  {
    assert b == a + (b - a);
  }

  lemma FreeUpTo(live: set<Wd>, n: nat) returns (f: Wd)
    requires |live| < n
    ensures 1 <= f <= n && f !in live
  {
    if UpTo(n) <= live {
      SubsetCount(UpTo(n), live);
    }
    f :| f in UpTo(n) && f !in live;
  }

  /** Fewer than INT_MAX descriptors in use leave one free, somewhere ahead. */
  lemma SomeFree(live: set<Wd>, last: int) returns (n: nat)
    requires |live| < INT_MAX && 0 <= last <= INT_MAX
    ensures n < INT_MAX && Ahead(last, n + 1) !in live
  {
    var f := FreeUpTo(live, INT_MAX);
    n := if f > last then f - last - 1 else f + INT_MAX - last - 1;
  }
}
