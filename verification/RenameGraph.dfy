/**
 * The graph behind the rename scheduler of the directory diff.
 *
 * Every changed entry `j` of the new listing is a `Link`: the old entry it was
 * renamed from, if it was, and the old entry whose name it takes over, if any.
 * Rename `j` is blocked by rename `k` when `k` still has to leave the name `j` wants.
 */
module RenameGraph {
  import opened Wrappers

  datatype Link = Link(from: Option<nat>, onto: Option<nat>)

  type Graph = seq<Link>

  /** Old entries are renamed at most once, names are taken at most once, and nothing is renamed to itself. */
  ghost predicate WellFormed(g: Graph) {
    && (forall j, k | 0 <= j < |g| && 0 <= k < |g| :: g[j].from.Some? && g[j].from == g[k].from ==> j == k)
    && (forall j, k | 0 <= j < |g| && 0 <= k < |g| :: g[j].onto.Some? && g[j].onto == g[k].onto ==> j == k)
    && (forall j | 0 <= j < |g| :: g[j].from.Some? ==> g[j].from != g[j].onto)
  }

  ghost function Moves(g: Graph): set<nat> {
    set j: nat | j < |g| && g[j].from.Some?
  }

  /** Rename `j` takes the name that rename `k` leaves. */
  ghost predicate Blocks(g: Graph, j: nat, k: nat) {
    j < |g| && k < |g| && g[j].from.Some? && g[k].from.Some? && g[j].onto == g[k].from
  }

  ghost function Elems(s: seq<nat>): set<nat> {
    set x | x in s
  }

  ghost predicate Distinct(s: seq<nat>) {
    forall a, b | 0 <= a < b < |s| :: s[a] != s[b]
  }

  ghost predicate IsWalk(g: Graph, w: seq<nat>) {
    && w != []
    && Distinct(w)
    && (forall a | 0 <= a < |w| - 1 :: Blocks(g, w[a], w[a + 1]))
  }

  /** A circular rename: each rename waits for the next one and the last one waits for the first. */
  ghost predicate IsCycle(g: Graph, c: seq<nat>) {
    IsWalk(g, c) && Blocks(g, c[|c| - 1], c[0])
  }

  ghost predicate Waits(g: Graph, pending: set<nat>, j: nat) {
    exists k :: k in pending && Blocks(g, j, k)
  }

  /** Every pending rename waits for a pending rename. */
  ghost predicate Stuck(g: Graph, pending: set<nat>) {
    && pending <= Moves(g)
    && (forall j {:trigger Waits(g, pending, j)} | j in pending :: Waits(g, pending, j))
  }

  /** No rename outside `done` still has to leave the name `j` wants. */
  ghost predicate Free(g: Graph, done: set<nat>, j: nat) {
    forall k | Blocks(g, j, k) :: k in done
  }

  /**
   * A report order: each rename is reported once, either when its target name is free, or
   * (those in `forced`) when every rename that is left is blocked.
   */
  ghost predicate Legal(g: Graph, order: seq<nat>, forced: set<nat>) {
    && Distinct(order)
    && Elems(order) <= Moves(g)
    && forced <= Elems(order)
    && (forall a | 0 <= a < |order| ::
          if order[a] in forced then Stuck(g, Moves(g) - Elems(order[..a]))
          else Free(g, Elems(order[..a]), order[a]))
  }

  /**
   * One round over the renames from the `j`-th on: those whose waiting is as wanted are reported, and
   * once one is reported, only those that do not wait are wanted.
   */
  ghost function Sweep(g: Graph, order: seq<nat>, want: bool, j: nat): (r: (seq<nat>, bool))
    requires j <= |g|
    ensures order <= r.0 && (forall x | x in r.0 && x !in order :: x in Moves(g))
    ensures r.0 != order ==> exists x :: x in r.0 && x in Moves(g) && x !in order
    decreases |g| - j
  {
    if j == |g| then (order, want)
    else if j in Moves(g) - Elems(order) && Waits(g, Moves(g) - Elems(order), j) == want then
      var r := Sweep(g, order + [j], false, j + 1);
      assert j in r.0 by {
        assert (order + [j])[|order|] == j;
      }
      r
    else Sweep(g, order, want, j + 1)
  }

  /** Round after round, until all renames are reported; a round without progress asks for a waiting one. */
  ghost function Rounds(g: Graph, order: seq<nat>, want: bool): seq<nat>
    decreases Moves(g) - Elems(order), if want then 0 else 1
  {
    if Moves(g) <= Elems(order) then order
    else
      var r := Sweep(g, order, want, 0);
      if r.0 == order then (if want then order else Rounds(g, order, true))
      else
        assert Moves(g) - Elems(r.0) < Moves(g) - Elems(order) by {
          var x :| x in r.0 && x in Moves(g) && x !in order;
          assert x in Elems(r.0) && x !in Elems(order);
          assert forall y | y in Elems(order) :: y in Elems(r.0);
        }
        Rounds(g, r.0, r.1)
  }

  /** One round after another. */
  lemma {:induction false} RoundsNext(g: Graph, order0: seq<nat>, want0: bool, order: seq<nat>, want: bool)
    requires !(Moves(g) <= Elems(order0)) && (order, want) == Sweep(g, order0, want0, 0)
    requires order == order0 ==> !want0
    ensures Rounds(g, order0, want0) == if order == order0 then Rounds(g, order0, true) else Rounds(g, order, want)
  {
  }

  /** The order in which the renames are reported. */
  ghost function Schedule(g: Graph): seq<nat> {
    Rounds(g, [], false)
  }

  /** A round that has come to the `j`-th rename with this order is on the way to the end of the whole round. */
  ghost predicate Sweeping(g: Graph, order0: seq<nat>, want0: bool, order: seq<nat>, want: bool, j: nat) {
    j <= |g| && Sweep(g, order, want, j) == Sweep(g, order0, want0, 0)
  }

  lemma {:induction false} SweepDone(g: Graph, order0: seq<nat>, want0: bool, order: seq<nat>, want: bool)
    requires Sweeping(g, order0, want0, order, want, |g|)
    ensures (order, want) == Sweep(g, order0, want0, 0)
  {
  }

  ghost predicate Acyclic(g: Graph) {
    forall c: seq<nat> :: !IsCycle(g, c)
  }

  /** Following blockers from the end of a walk inside a stuck set must come back to its start. */
  lemma {:induction false} CloseWalk(g: Graph, pending: set<nat>, w: seq<nat>) returns (c: seq<nat>)
    requires WellFormed(g) && Stuck(g, pending)
    requires IsWalk(g, w) && Elems(w) <= pending
    ensures IsCycle(g, c) && Elems(c) <= pending && c[0] == w[0]
    decreases pending - Elems(w)
  {
    var last := w[|w| - 1];
    assert last in Elems(w);
    assert Waits(g, pending, last);
    var k :| k in pending && Blocks(g, last, k);
    // otherwise two renames would want the same name
    forall i | 0 < i < |w| ensures w[i] != k {
      assert Blocks(g, w[i - 1], w[i - 1 + 1]);
    }
    if k in w {
      c := w;
    } else {
      var longer := w + [k];
      assert Elems(longer) == Elems(w) + {k};
      c := CloseWalk(g, pending, longer);
    }
  }

  /** When no pending rename is free, each one lies on a cycle of pending renames, of length two or more. */
  lemma StuckIsCycles(g: Graph, pending: set<nat>, j: nat) returns (c: seq<nat>)
    requires WellFormed(g) && Stuck(g, pending) && j in pending
    ensures IsCycle(g, c) && |c| >= 2 && j in c && Elems(c) <= pending
  {
    c := CloseWalk(g, pending, [j]);
  }

  /** A set that follows blockers and meets a cycle contains all of it. */
  lemma {:induction false} ClosedUnderBlocking(g: Graph, c: seq<nat>, s: set<nat>, a: nat, b: nat)
    requires IsCycle(g, c) && a < |c| && b < |c| && c[a] in s
    requires forall x, y | x in s && x in c && Blocks(g, x, y) :: y in s
    ensures c[b] in s
    decreases if a <= b then b - a else |c| + b - a
  {
    if a < b {
      assert Blocks(g, c[a], c[a + 1]);
      ClosedUnderBlocking(g, c, s, a + 1, b);
    } else if a > b {
      if a == |c| - 1 {
        assert Blocks(g, c[a], c[0]);
        ClosedUnderBlocking(g, c, s, 0, b);
      } else {
        assert Blocks(g, c[a], c[a + 1]);
        ClosedUnderBlocking(g, c, s, a + 1, b);
      }
    }
  }

  lemma BlockerOnCycle(g: Graph, c: seq<nat>, x: nat, y: nat)
    requires WellFormed(g) && IsCycle(g, c) && x in c && Blocks(g, x, y)
    ensures y in c
  {
    var a :| 0 <= a < |c| && c[a] == x;
    var next := if a == |c| - 1 then 0 else a + 1;
    assert Blocks(g, c[a], c[next]);
  }

  /** Cycles are disjoint: two that share a rename consist of the same renames. */
  lemma CyclesDisjoint(g: Graph, c: seq<nat>, d: seq<nat>, x: nat)
    requires WellFormed(g) && IsCycle(g, c) && IsCycle(g, d) && x in c && x in d
    ensures Elems(c) == Elems(d)
  {
    CycleIncluded(g, c, d, x);
    CycleIncluded(g, d, c, x);
  }

  lemma CycleIncluded(g: Graph, c: seq<nat>, d: seq<nat>, x: nat)
    requires WellFormed(g) && IsCycle(g, c) && IsCycle(g, d) && x in c && x in d
    ensures Elems(c) <= Elems(d)
  {
    var a :| 0 <= a < |c| && c[a] == x;
    forall u, v | u in Elems(d) && u in c && Blocks(g, u, v) ensures v in Elems(d) {
      BlockerOnCycle(g, d, u, v);
    }
    forall y | y in c ensures y in d {
      var b :| 0 <= b < |c| && c[b] == y;
      ClosedUnderBlocking(g, c, Elems(d), a, b);
    }
  }

  /** Only real cycles are broken: a forced rename lies on a cycle none of whose renames had been reported. */
  lemma ForcedOnCycle(g: Graph, order: seq<nat>, forced: set<nat>, a: nat) returns (c: seq<nat>)
    requires WellFormed(g) && Legal(g, order, forced) && a < |order| && order[a] in forced
    ensures IsCycle(g, c) && |c| >= 2 && order[a] in c
    ensures forall x | x in c :: x !in order[..a]
  {
    var pending := Moves(g) - Elems(order[..a]);
    assert order[a] in Elems(order);
    c := StuckIsCycles(g, pending, order[a]);
    forall x | x in c ensures x !in order[..a] {
      assert x in Elems(c);
    }
  }

  /** Each cycle is broken: the first of its renames to be reported is a forced one. */
  lemma CycleIsBroken(g: Graph, order: seq<nat>, forced: set<nat>, c: seq<nat>) returns (x: nat)
    requires WellFormed(g) && Legal(g, order, forced) && Elems(order) == Moves(g) && IsCycle(g, c)
    ensures x in c && x in forced
  {
    var a := FirstOf(g, order, c);
    x := order[a];
    var i :| 0 <= i < |c| && c[i] == x;
    var next := if i == |c| - 1 then 0 else i + 1;
    assert Blocks(g, x, c[next]);
    assert c[next] in c;
  }

  lemma FirstOf(g: Graph, order: seq<nat>, c: seq<nat>) returns (a: nat)
    requires Elems(order) == Moves(g) && IsCycle(g, c)
    ensures a < |order| && order[a] in c
    ensures forall b | 0 <= b < a :: order[b] !in c
  {
    assert Blocks(g, c[|c| - 1], c[0]);
    assert c[0] in Elems(order);
    a := 0;
    while order[a] !in c
      invariant a < |order|
      invariant forall b | 0 <= b < a :: order[b] !in c
      invariant c[0] in order[a..]
      decreases |order| - a
    {
      a := a + 1;
    }
  }

  /** ... and it is broken once: a cycle holds at most one forced rename. */
  lemma CycleBrokenOnce(g: Graph, order: seq<nat>, forced: set<nat>, c: seq<nat>, a: nat, b: nat)
    requires WellFormed(g) && Legal(g, order, forced) && IsCycle(g, c)
    requires a < |order| && order[a] in forced && order[a] in c
    requires b < |order| && order[b] in forced && order[b] in c
    ensures a == b
  {
    if a < b {
      EarlierNotForced(g, order, forced, c, a, b);
    } else if b < a {
      EarlierNotForced(g, order, forced, c, b, a);
    }
  }

  lemma EarlierNotForced(g: Graph, order: seq<nat>, forced: set<nat>, c: seq<nat>, a: nat, b: nat)
    requires WellFormed(g) && Legal(g, order, forced) && IsCycle(g, c)
    requires a < b < |order| && order[a] in c && order[b] in forced
    ensures order[b] !in c
  {
    var x := order[a];
    assert x in order[..b] && x in Elems(c);
    var d := ForcedOnCycle(g, order, forced, b);
    if order[b] in c {
      CyclesDisjoint(g, c, d, order[b]);
      assert false;
    }
  }

  /** Nothing is forced exactly when the renames contain no cycle. */
  lemma ForcedIffCyclic(g: Graph, order: seq<nat>, forced: set<nat>)
    requires WellFormed(g) && Legal(g, order, forced) && Elems(order) == Moves(g)
    ensures forced == {} <==> Acyclic(g)
  {
    if forced != {} {
      var x :| x in forced;
      assert x in Elems(order);
      var a :| 0 <= a < |order| && order[a] == x;
      var c := ForcedOnCycle(g, order, forced, a);
    }
    if !Acyclic(g) {
      var c :| IsCycle(g, c);
      var x := CycleIsBroken(g, order, forced, c);
    }
  }
}
