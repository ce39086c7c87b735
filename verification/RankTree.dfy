/**
 * The rank-balanced tree that holds directory lists and watches: a weak-AVL tree of Haeupler,
 * Sen and Tarjan with one colour bit per child edge.
 *
 * A position in the tree is a subtree together with the `Path` from it up to the root, which
 * stands for the parent links. Colour bits stay with their node when subtrees are rotated.
 */
module RankTree {
  import opened Wrappers

  /** `redL` and `redR` tell whether the rank difference to the child is 2 (red) or 1. */
  datatype Tree<T> = Nil | Node(l: Tree<T>, redL: bool, v: T, redR: bool, r: Tree<T>)

  datatype Path<T> =
    | Top
    | InLeft(up: Path<T>, redL: bool, v: T, redR: bool, r: Tree<T>)
    | InRight(up: Path<T>, l: Tree<T>, redL: bool, v: T, redR: bool)

  function Diff(red: bool): nat {
    if red then 2 else 1
  }

  /** The sum of the rank differences down to the leftmost null link; null has rank 0. */
  function Rank<T>(t: Tree<T>): nat {
    if t.Nil? then 0 else Rank(t.l) + Diff(t.redL)
  }

  /** The weak-AVL conditions: all paths down have the same sum, and a leaf has rank 1. */
  predicate Balanced<T>(t: Tree<T>) {
    t.Node? ==>
      && Balanced(t.l) && Balanced(t.r)
      && Rank(t.l) + Diff(t.redL) == Rank(t.r) + Diff(t.redR)
      && (t.l.Nil? && t.r.Nil? ==> !t.redL && !t.redR)
  }

  function Inorder<T>(t: Tree<T>): seq<T> {
    if t.Nil? then [] else Inorder(t.l) + [t.v] + Inorder(t.r)
  }

  /** The whole tree, given a subtree and its path. */
  function Plug<T>(t: Tree<T>, p: Path<T>): Tree<T>
    decreases p
  {
    match p
    case Top => t
    case InLeft(up, a, v, b, r) => Plug(Node(t, a, v, b, r), up)
    case InRight(up, l, a, v, b) => Plug(Node(l, a, v, b, t), up)
  }

  /** The elements before the subtree at the end of the path. */
  function Before<T>(p: Path<T>): seq<T> {
    match p
    case Top => []
    case InLeft(up, _, _, _, _) => Before(up)
    case InRight(up, l, _, v, _) => Before(up) + Inorder(l) + [v]
  }

  /** The elements after it. */
  function After<T>(p: Path<T>): seq<T> {
    match p
    case Top => []
    case InLeft(up, _, v, _, r) => [v] + Inorder(r) + After(up)
    case InRight(up, _, _, _, _) => After(up)
  }

  /** The path is balanced around a subtree of rank `k`. */
  predicate Fits<T>(p: Path<T>, k: nat) {
    match p
    case Top => true
    case InLeft(up, a, _, b, r) =>
      Balanced(r) && k + Diff(a) == Rank(r) + Diff(b) && (k == 0 && r.Nil? ==> !a && !b) && Fits(up, k + Diff(a))
    case InRight(up, l, a, _, b) =>
      Balanced(l) && k + Diff(b) == Rank(l) + Diff(a) && (k == 0 && l.Nil? ==> !a && !b) && Fits(up, k + Diff(b))
  }

  lemma Regroup<T>(a: seq<T>, b: seq<T>, c: seq<T>, d: seq<T>, e: seq<T>)
    ensures a + (b + c + d) + e == a + b + (c + d + e)
    ensures a + (b + c + d) + e == a + b + c + d + e
  {
  }

  lemma {:induction false} PlugInorder<T>(t: Tree<T>, p: Path<T>)
    ensures Inorder(Plug(t, p)) == Before(p) + Inorder(t) + After(p)
    decreases p
  {
    match p
    case Top =>
    case InLeft(up, a, v, b, r) =>
      PlugInorder(Node(t, a, v, b, r), up);
      Regroup(Before(up), Inorder(t), [v], Inorder(r), After(up));
    case InRight(up, l, a, v, b) =>
      PlugInorder(Node(l, a, v, b, t), up);
      Regroup(Before(up), Inorder(l), [v], Inorder(t), After(up));
  }

  lemma {:induction false} PlugBalanced<T>(t: Tree<T>, p: Path<T>)
    requires Balanced(t) && Fits(p, Rank(t))
    ensures Balanced(Plug(t, p))
    decreases p
  {
    match p
    case Top =>
    case InLeft(up, a, v, b, r) => PlugBalanced(Node(t, a, v, b, r), up);
    case InRight(up, l, a, v, b) => PlugBalanced(Node(l, a, v, b, t), up);
  }

  lemma {:induction false} StepDown<T>(t: Tree<T>, up: Path<T>)
    requires t.Node? && Balanced(t) && Fits(up, Rank(t))
    ensures Fits(InLeft(up, t.redL, t.v, t.redR, t.r), Rank(t.l))
    ensures Fits(InRight(up, t.l, t.redL, t.v, t.redR), Rank(t.r))
  {
  }

  /** Going down a balanced tree leaves a balanced path. */
  lemma {:induction false} UnplugBalanced<T>(t: Tree<T>, p: Path<T>)
    requires Balanced(Plug(t, p))
    ensures Balanced(t) && Fits(p, Rank(t))
    decreases p
  {
    if p.Top? {
    } else {
      var parent := if p.InLeft? then Node(t, p.redL, p.v, p.redR, p.r) else Node(p.l, p.redL, p.v, p.redR, t);
      assert Plug(t, p) == Plug(parent, p.up);
      UnplugBalanced(parent, p.up);
      StepDown(parent, p.up);
    }
  }

  // ------------------------------------------------------------------ bit flips and rotations

  function FlipLeft<T>(t: Tree<T>): Tree<T>
    requires t.Node?
  {
    t.(redL := !t.redL)
  }

  function FlipRight<T>(t: Tree<T>): Tree<T>
    requires t.Node?
  {
    t.(redR := !t.redR)
  }

  function ClearBits<T>(t: Tree<T>): Tree<T>
    requires t.Node?
  {
    t.(redL := false, redR := false)
  }

  function RotateLeft<T>(t: Tree<T>): Tree<T>
    requires t.Node? && t.r.Node?
  {
    t.r.(l := t.(r := t.r.l))
  }

  function RotateRight<T>(t: Tree<T>): Tree<T>
    requires t.Node? && t.l.Node?
  {
    t.l.(r := t.(l := t.l.r))
  }

  lemma {:induction false} RotateLeftInorder<T>(t: Tree<T>)
    requires t.Node? && t.r.Node?
    ensures Inorder(RotateLeft(t)) == Inorder(t)
  {
    var s := RotateLeft(t);
    assert Inorder(s) == Inorder(s.l) + [t.r.v] + Inorder(t.r.r);
    Regroup(Inorder(t.l) + [t.v], Inorder(t.r.l), [t.r.v], Inorder(t.r.r), []);
  }

  lemma {:induction false} RotateRightInorder<T>(t: Tree<T>)
    requires t.Node? && t.l.Node?
    ensures Inorder(RotateRight(t)) == Inorder(t)
  {
    Regroup(Inorder(t.l.l), [t.l.v], Inorder(t.l.r), [t.v], Inorder(t.r));
  }

  // ------------------------------------------------------------------ insertion

  predicate OneRed<T>(t: Tree<T>) {
    t.Node? && (t.redL != t.redR || (t.l.Nil? && t.r.Nil?))
  }

  /** A subtree whose rank has just grown by one: a new leaf, or a node with one red edge above such a subtree. */
  predicate Grown<T>(t: Tree<T>) {
    && OneRed(t)
    && (t.redR ==> OneRed(t.l))
    && (t.redL ==> OneRed(t.r))
  }

  /** The rotations that end an insertion below the left child, with the parent's bits already flipped. */
  function InsertRotateRight<T>(parent: Tree<T>): (t: Tree<T>)
    requires parent.Node? && parent.l.Node? && (!parent.l.redR ==> parent.l.r.Node?)
  {
    var elm := parent.l;
    if elm.redR then ClearBits(RotateRight(parent))
    else
      var child := RotateLeft(FlipLeft(elm));
      var child' := if child.redL then child.(l := FlipRight(child.l)) else child;
      var parent' := if !child.redL && child.redR then FlipLeft(parent) else parent;
      ClearBits(RotateRight(parent'.(l := child')))
  }

  function InsertRotateLeft<T>(parent: Tree<T>): (t: Tree<T>)
    requires parent.Node? && parent.r.Node? && (!parent.r.redL ==> parent.r.l.Node?)
  {
    var elm := parent.r;
    if elm.redL then ClearBits(RotateLeft(parent))
    else
      var child := RotateRight(FlipRight(elm));
      var child' := if child.redR then child.(r := FlipLeft(child.r)) else child;
      var parent' := if !child.redR && child.redL then FlipRight(parent) else parent;
      ClearBits(RotateLeft(parent'.(r := child')))
  }

  /** The rotations restore balance at the rank the parent had. */
  lemma {:induction false} InsertRotateRightOk<T>(elm: Tree<T>, v: T, r: Tree<T>)
    requires Balanced(elm) && Grown(elm) && Balanced(r) && Rank(elm) == Rank(r) + 2
    ensures !elm.redR ==> elm.r.Node?
    ensures var t := InsertRotateRight(Node(elm, false, v, false, r));
            Balanced(t) && Rank(t) == Rank(elm) && Inorder(t) == Inorder(elm) + [v] + Inorder(r)
  {
    var parent := Node(elm, false, v, false, r);
    assert elm.redL != elm.redR;
    if elm.redR {
      RotateRightInorder(parent);
    } else {
      RotateLeftInorder(elm);
      RotateRightInorder(parent.(l := RotateLeft(elm)));
    }
  }

  lemma {:induction false} InsertRotateLeftOk<T>(l: Tree<T>, v: T, elm: Tree<T>)
    requires Balanced(elm) && Grown(elm) && Balanced(l) && Rank(elm) == Rank(l) + 2
    ensures !elm.redL ==> elm.l.Node?
    ensures var t := InsertRotateLeft(Node(l, false, v, false, elm));
            Balanced(t) && Rank(t) == Rank(elm) && Inorder(t) == Inorder(l) + [v] + Inorder(elm)
  {
    var parent := Node(l, false, v, false, elm);
    assert elm.redL != elm.redR;
    if elm.redL {
      RotateLeftInorder(parent);
    } else {
      RotateRightInorder(elm);
      RotateLeftInorder(parent.(r := RotateRight(elm)));
    }
  }

  /** A red edge absorbs the growth of the child. */
  lemma {:induction false} AbsorbGrowth<T>(elm: Tree<T>, p: Path<T>)
    requires Balanced(elm) && elm.Node? && Fits(p, Rank(elm) - 1)
    ensures p.InLeft? && p.redL ==> var t := Node(elm, false, p.v, p.redR, p.r); Balanced(t) && Fits(p.up, Rank(t))
    ensures p.InRight? && p.redR ==> var t := Node(p.l, p.redL, p.v, false, elm); Balanced(t) && Fits(p.up, Rank(t))
  {
  }

  /** The parent grows as well when its other edge is not red. */
  lemma {:induction false} PassGrowth<T>(elm: Tree<T>, p: Path<T>)
    requires Balanced(elm) && Grown(elm) && Fits(p, Rank(elm) - 1)
    ensures p.InLeft? && !p.redL && !p.redR ==>
              var t := Node(elm, false, p.v, true, p.r); Balanced(t) && Grown(t) && Fits(p.up, Rank(t) - 1)
    ensures p.InRight? && !p.redR && !p.redL ==>
              var t := Node(p.l, true, p.v, false, elm); Balanced(t) && Grown(t) && Fits(p.up, Rank(t) - 1)
  {
  }

  /** Otherwise a rotation ends it. */
  lemma {:induction false} RotateGrowthRight<T>(elm: Tree<T>, p: Path<T>)
    requires Balanced(elm) && Grown(elm) && p.InLeft? && Fits(p, Rank(elm) - 1) && !p.redL && p.redR
    ensures !elm.redR ==> elm.r.Node?
    ensures var parent := Node(elm, false, p.v, false, p.r);
            var t := InsertRotateRight(parent);
            Balanced(t) && Fits(p.up, Rank(t)) && Inorder(t) == Inorder(parent)
  {
    InsertRotateRightOk(elm, p.v, p.r);
  }

  lemma {:induction false} RotateGrowthLeft<T>(elm: Tree<T>, p: Path<T>)
    requires Balanced(elm) && Grown(elm) && p.InRight? && Fits(p, Rank(elm) - 1) && !p.redR && p.redL
    ensures !elm.redL ==> elm.l.Node?
    ensures var parent := Node(p.l, false, p.v, false, elm);
            var t := InsertRotateLeft(parent);
            Balanced(t) && Fits(p.up, Rank(t)) && Inorder(t) == Inorder(parent)
  {
    InsertRotateLeftOk(p.l, p.v, elm);
  }

  /** Taking a step up does not change the order of the elements. */
  lemma StepUp<T>(t: Tree<T>, p: Path<T>)
    requires !p.Top?
    ensures var parent := if p.InLeft? then Node(t, p.redL, p.v, p.redR, p.r) else Node(p.l, p.redL, p.v, p.redR, t);
            Around(parent, p.up) == Around(t, p)
  {
    if p.InLeft? {
      Regroup(Before(p.up), Inorder(t), [p.v], Inorder(p.r), After(p.up));
    } else {
      Regroup(Before(p.up), Inorder(p.l), [p.v], Inorder(t), After(p.up));
    }
  }

  /** The elements of the whole tree, given a subtree and its path. */
  function Around<T>(t: Tree<T>, p: Path<T>): seq<T> {
    Before(p) + Inorder(t) + After(p)
  }

  /** What happens at one level on the way up: the subtree is final, or its own parent is next. */
  datatype Step<T> = Stop(t: Tree<T>) | Climb(t: Tree<T>)

  /** The parent of a left child whose rank has grown. */
  function GrowLeft<T>(parent: Tree<T>): (s: Step<T>)
    requires parent.Node? && (!parent.redL && parent.redR ==> parent.l.Node? && (!parent.l.redR ==> parent.l.r.Node?))
  {
    if parent.redL then Stop(FlipLeft(parent))
    else
      var flipped := FlipRight(parent);
      if flipped.redR then Climb(flipped) else Stop(InsertRotateRight(flipped))
  }

  function GrowRight<T>(parent: Tree<T>): (s: Step<T>)
    requires parent.Node? && (!parent.redR && parent.redL ==> parent.r.Node? && (!parent.r.redL ==> parent.r.l.Node?))
  {
    if parent.redR then Stop(FlipRight(parent))
    else
      var flipped := FlipLeft(parent);
      if flipped.redL then Climb(flipped) else Stop(InsertRotateLeft(flipped))
  }

  ghost predicate GrowthHandled<T>(s: Step<T>, elm: Tree<T>, p: Path<T>)
    requires !p.Top?
  {
    && Balanced(s.t) && Around(s.t, p.up) == Around(elm, p)
    && match s
       case Stop(t) => Fits(p.up, Rank(t))
       case Climb(t) => Grown(t) && Fits(p.up, Rank(t) - 1)
  }

  lemma {:induction false} GrowLeftOk<T>(elm: Tree<T>, p: Path<T>)
    requires Balanced(elm) && Grown(elm) && p.InLeft? && Fits(p, Rank(elm) - 1)
    ensures !p.redL && p.redR && !elm.redR ==> elm.r.Node?
    ensures GrowthHandled(GrowLeft(Node(elm, p.redL, p.v, p.redR, p.r)), elm, p)
  {
    StepUp(elm, p);
    if p.redL {
      AbsorbGrowth(elm, p);
    } else if !p.redR {
      PassGrowth(elm, p);
    } else {
      RotateGrowthRight(elm, p);
    }
  }

  lemma {:induction false} GrowRightOk<T>(elm: Tree<T>, p: Path<T>)
    requires Balanced(elm) && Grown(elm) && p.InRight? && Fits(p, Rank(elm) - 1)
    ensures !p.redR && p.redL && !elm.redL ==> elm.l.Node?
    ensures GrowthHandled(GrowRight(Node(p.l, p.redL, p.v, p.redR, elm)), elm, p)
  {
    StepUp(elm, p);
    if p.redR {
      AbsorbGrowth(elm, p);
    } else if !p.redL {
      PassGrowth(elm, p);
    } else {
      RotateGrowthLeft(elm, p);
    }
  }

  /** Repair the parent of a subtree that has grown. */
  method Grow<T>(elm: Tree<T>, p: Path<T>) returns (s: Step<T>)
    requires !p.Top? && Balanced(elm) && Grown(elm) && Fits(p, Rank(elm) - 1)
    ensures GrowthHandled(s, elm, p)
  {
    if p.InLeft? {
      GrowLeftOk(elm, p);
      s := GrowLeft(Node(elm, p.redL, p.v, p.redR, p.r));
    } else {
      GrowRightOk(elm, p);
      s := GrowRight(Node(p.l, p.redL, p.v, p.redR, elm));
    }
  }

  /** Restore balance above a subtree whose rank has grown by one. */
  method InsertColor<T>(elm0: Tree<T>, p0: Path<T>) returns (t: Tree<T>)
    requires Balanced(elm0) && Grown(elm0) && Fits(p0, Rank(elm0) - 1)
    ensures Balanced(t) && Inorder(t) == Around(elm0, p0)
  {
    var elm, p := elm0, p0;
    while !p.Top?
      invariant Balanced(elm) && Grown(elm) && Fits(p, Rank(elm) - 1)
      invariant Around(elm, p) == Around(elm0, p0)
      decreases p
    {
      var s := Grow(elm, p);
      if s.Stop? {
        t := Finish(s.t, p.up);
        return;
      }
      elm, p := s.t, p.up;
    }
    t := elm;
  }

  /** The whole tree once a subtree fits its path again. */
  method Finish<T>(sub: Tree<T>, p: Path<T>) returns (t: Tree<T>)
    requires Balanced(sub) && Fits(p, Rank(sub))
    ensures Balanced(t) && Inorder(t) == Around(sub, p)
  {
    PlugBalanced(sub, p);
    PlugInorder(sub, p);
    t := Plug(sub, p);
  }

  // ------------------------------------------------------------------ search order

  /** `cmp` is a comparison in the manner of `strcmp`. */
  ghost predicate Comparison<T(!new)>(cmp: (T, T) -> int) {
    && (forall x, y :: cmp(x, y) < 0 <==> cmp(y, x) > 0)
    && (forall x, y, z :: cmp(x, y) <= 0 && cmp(y, z) <= 0 ==> cmp(x, z) <= 0)
  }

  ghost predicate Ascending<T>(cmp: (T, T) -> int, s: seq<T>) {
    forall i, j | 0 <= i < j < |s| :: cmp(s[i], s[j]) < 0
  }

  /** Everything on the left of the position is smaller than `x`, everything on the right is larger. */
  ghost predicate Between<T>(cmp: (T, T) -> int, p: Path<T>, x: T) {
    && (forall y | y in Before(p) :: cmp(x, y) > 0)
    && (forall y | y in After(p) :: cmp(x, y) < 0)
  }

  /** The root of a subtree separates its two sides. */
  lemma RootSeparates<T>(cmp: (T, T) -> int, a: seq<T>, b: seq<T>, v: T, c: seq<T>, d: seq<T>)
    requires Ascending(cmp, a + (b + [v] + c) + d)
    ensures forall y | y in b :: cmp(y, v) < 0
    ensures forall y | y in c :: cmp(v, y) < 0
  {
    var s, m := a + (b + [v] + c) + d, |a| + |b|;
    assert s[m] == v;
    forall y | y in b ensures cmp(y, v) < 0 {
      var i :| 0 <= i < |b| && b[i] == y;
      assert s[|a| + i] == y;
    }
    forall y | y in c ensures cmp(v, y) < 0 {
      var i :| 0 <= i < |c| && c[i] == y;
      assert s[m + 1 + i] == y;
    }
  }

  lemma Chain<T(!new)>(cmp: (T, T) -> int, x: T, y: T, z: T)
    requires Comparison(cmp) && cmp(x, y) < 0 && cmp(y, z) < 0
    ensures cmp(x, z) < 0
  {
    assert cmp(z, x) <= 0 ==> cmp(z, y) <= 0;
  }

  lemma GoLeft<T(!new)>(cmp: (T, T) -> int, t: Tree<T>, p: Path<T>, x: T)
    requires Comparison(cmp) && t.Node? && Ascending(cmp, Around(t, p)) && Between(cmp, p, x) && cmp(x, t.v) < 0
    ensures Between(cmp, InLeft(p, t.redL, t.v, t.redR, t.r), x)
  {
    RootSeparates(cmp, Before(p), Inorder(t.l), t.v, Inorder(t.r), After(p));
    forall y | y in Inorder(t.r) ensures cmp(x, y) < 0 {
      Chain(cmp, x, t.v, y);
    }
  }

  lemma GoRight<T(!new)>(cmp: (T, T) -> int, t: Tree<T>, p: Path<T>, x: T)
    requires Comparison(cmp) && t.Node? && Ascending(cmp, Around(t, p)) && Between(cmp, p, x) && cmp(x, t.v) > 0
    ensures Between(cmp, InRight(p, t.l, t.redL, t.v, t.redR), x)
  {
    RootSeparates(cmp, Before(p), Inorder(t.l), t.v, Inorder(t.r), After(p));
    forall y | y in Inorder(t.l) ensures cmp(x, y) > 0 {
      Chain(cmp, y, t.v, x);
    }
  }

  /** Go down to where `x` is, or belongs. */
  method Descend<T(!new)>(cmp: (T, T) -> int, root: Tree<T>, x: T) returns (tmp: Tree<T>, p: Path<T>)
    requires Comparison(cmp) && Ascending(cmp, Inorder(root))
    ensures Plug(tmp, p) == root && Between(cmp, p, x)
    ensures tmp.Node? ==> cmp(x, tmp.v) == 0
  {
    tmp, p := root, Top;
    while tmp.Node? && cmp(x, tmp.v) != 0
      invariant Plug(tmp, p) == root && Between(cmp, p, x)
      decreases tmp
    {
      PlugInorder(tmp, p);
      if cmp(x, tmp.v) < 0 {
        GoLeft(cmp, tmp, p, x);
        tmp, p := tmp.l, InLeft(p, tmp.redL, tmp.v, tmp.redR, tmp.r);
      } else {
        GoRight(cmp, tmp, p, x);
        tmp, p := tmp.r, InRight(p, tmp.l, tmp.redL, tmp.v, tmp.redR);
      }
    }
  }

  /** Find the element that compares equal. */
  method Find<T(!new)>(cmp: (T, T) -> int, root: Tree<T>, x: T) returns (r: Option<T>)
    requires Comparison(cmp) && Ascending(cmp, Inorder(root))
    ensures r.Some? ==> r.value in Inorder(root) && cmp(x, r.value) == 0
    ensures r.None? ==> forall y | y in Inorder(root) :: cmp(x, y) != 0
  {
    var tmp, p := Descend(cmp, root, x);
    PlugInorder(tmp, p);
    if tmp.Node? {
      assert tmp.v in Inorder(tmp);
      r := Some(tmp.v);
    } else {
      r := None;
    }
  }

  /** Add an element, unless one compares equal to it. */
  method Insert<T(!new)>(cmp: (T, T) -> int, root: Tree<T>, x: T) returns (t: Tree<T>, found: Option<T>)
    requires Comparison(cmp) && Ascending(cmp, Inorder(root)) && Balanced(root)
    ensures Balanced(t) && Ascending(cmp, Inorder(t))
    ensures found.Some? ==> t == root && found.value in Inorder(root) && cmp(x, found.value) == 0
    ensures found.None? ==>
              && (forall y | y in Inorder(root) :: cmp(x, y) != 0)
              && exists k :: 0 <= k <= |Inorder(root)| && Inorder(t) == Inorder(root)[..k] + [x] + Inorder(root)[k..]
  {
    var tmp, p := Descend(cmp, root, x);
    PlugInorder(tmp, p);
    if tmp.Node? {
      assert tmp.v in Inorder(tmp);
      t, found := root, Some(tmp.v);
    } else {
      UnplugBalanced(tmp, p);
      InsertedBetween(cmp, p, x);
      InsertedAt(Inorder(root), Before(p), x, After(p));
      t := InsertColor(Node(Nil, false, x, false, Nil), p);
      assert Inorder(Node(Nil, false, x, false, Nil)) == [x];
      found := None;
    }
  }

  lemma InsertedAscending<T>(cmp: (T, T) -> int, a: seq<T>, x: T, b: seq<T>)
    requires Ascending(cmp, a + [] + b)
    requires (forall y | y in a :: cmp(y, x) < 0) && (forall y | y in b :: cmp(x, y) < 0)
    ensures Ascending(cmp, a + [x] + b)
  {
    var u, s := a + [x] + b, a + [] + b;
    forall i, j | 0 <= i < j < |u| ensures cmp(u[i], u[j]) < 0 {
      assert i < |a| ==> u[i] == a[i] == s[i];
      assert j < |a| ==> u[j] == a[j] == s[j];
      assert i > |a| ==> u[i] == b[i - |a| - 1] == s[i - 1];
      assert j > |a| ==> u[j] == b[j - |a| - 1] == s[j - 1];
    }
  }

  lemma {:induction false} InsertedBetween<T(!new)>(cmp: (T, T) -> int, p: Path<T>, x: T)
    requires Comparison(cmp) && Ascending(cmp, Before(p) + [] + After(p)) && Between(cmp, p, x)
    ensures Ascending(cmp, Before(p) + [x] + After(p))
    ensures forall y | y in Before(p) + [] + After(p) :: cmp(x, y) != 0
  {
    forall y | y in Before(p) ensures cmp(y, x) < 0 {
    }
    InsertedAscending(cmp, Before(p), x, After(p));
  }

  lemma InsertedAt<T>(s: seq<T>, a: seq<T>, x: T, b: seq<T>)
    requires s == a + [] + b
    ensures |a| <= |s| && a + [x] + b == s[..|a|] + [x] + s[|a|..]
  {
  }

  // ------------------------------------------------------------------ removal

  /** The rotations that end a removal below the left child of `parent`. */
  function RemoveRotateLeft<T>(parent: Tree<T>): (t: Tree<T>)
    requires parent.Node? && parent.r.Node? && (!parent.r.redL && parent.r.redR ==> parent.r.l.Node?)
  {
    var sib := FlipRight(parent.r);
    if sib.redL then RotateLeft(FlipLeft(parent).(r := sib))
    else if sib.redR then RotateLeft(parent.(r := sib))
    else
      var elm := RotateRight(sib);
      var elm' := if elm.redR then elm.(r := FlipLeft(elm.r)) else elm;
      var parent' := if elm.redL then FlipRight(FlipLeft(parent)) else FlipLeft(parent);
      RotateLeft(parent'.(r := elm'.(redL := true, redR := true)))
  }

  function RemoveRotateRight<T>(parent: Tree<T>): (t: Tree<T>)
    requires parent.Node? && parent.l.Node? && (!parent.l.redR && parent.l.redL ==> parent.l.r.Node?)
  {
    var sib := FlipLeft(parent.l);
    if sib.redR then RotateRight(FlipRight(parent).(l := sib))
    else if sib.redL then RotateRight(parent.(l := sib))
    else
      var elm := RotateLeft(sib);
      var elm' := if elm.redL then elm.(l := FlipRight(elm.l)) else elm;
      var parent' := if elm.redR then FlipLeft(FlipRight(parent)) else FlipRight(parent);
      RotateRight(parent'.(l := elm'.(redL := true, redR := true)))
  }

  lemma {:induction false} RemoveRotateLeftOk<T>(elm: Tree<T>, v: T, sib: Tree<T>)
    requires Balanced(elm) && Balanced(sib) && Rank(sib) == Rank(elm) + 2 && !(sib.redL && sib.redR)
    ensures !sib.redL && sib.redR ==> sib.l.Node?
    ensures var t := RemoveRotateLeft(Node(elm, true, v, false, sib)); Balanced(t) && Rank(t) == Rank(sib) + 1
  {
  }

  lemma {:induction false} RemoveRotateLeftOrder<T>(parent: Tree<T>)
    requires parent.Node? && parent.r.Node? && (!parent.r.redL && parent.r.redR ==> parent.r.l.Node?)
    ensures Inorder(RemoveRotateLeft(parent)) == Inorder(parent)
  {
    if !parent.r.redL && parent.r.redR {
      RotateRightInorder(parent.r);
      RotateLeftInorder(parent.(r := RotateRight(parent.r)));
    } else {
      RotateLeftInorder(parent);
    }
  }

  lemma {:induction false} RemoveRotateRightOk<T>(sib: Tree<T>, v: T, elm: Tree<T>)
    requires Balanced(elm) && Balanced(sib) && Rank(sib) == Rank(elm) + 2 && !(sib.redL && sib.redR)
    ensures !sib.redR && sib.redL ==> sib.r.Node?
    ensures var t := RemoveRotateRight(Node(sib, false, v, true, elm)); Balanced(t) && Rank(t) == Rank(sib) + 1
  {
  }

  lemma {:induction false} RemoveRotateRightOrder<T>(parent: Tree<T>)
    requires parent.Node? && parent.l.Node? && (!parent.l.redR && parent.l.redL ==> parent.l.r.Node?)
    ensures Inorder(RemoveRotateRight(parent)) == Inorder(parent)
  {
    if !parent.l.redR && parent.l.redL {
      RotateLeftInorder(parent.l);
      RotateRightInorder(parent.(l := RotateLeft(parent.l)));
    } else {
      RotateRightInorder(parent);
    }
  }

  /** The parent of a left child whose rank has shrunk by one. */
  function ShrinkLeft<T>(parent: Tree<T>): (s: Step<T>)
    requires parent.Node?
    requires parent.redL && !parent.redR ==>
               parent.r.Node? && (!parent.r.redL && parent.r.redR ==> parent.r.l.Node?)
  {
    if !parent.redL then Stop(FlipLeft(parent))
    else if parent.redR then Climb(FlipRight(parent))
    else if parent.r.redL && parent.r.redR then Climb(parent.(r := ClearBits(parent.r)))
    else Stop(RemoveRotateLeft(parent))
  }

  function ShrinkRight<T>(parent: Tree<T>): (s: Step<T>)
    requires parent.Node?
    requires parent.redR && !parent.redL ==>
               parent.l.Node? && (!parent.l.redR && parent.l.redL ==> parent.l.r.Node?)
  {
    if !parent.redR then Stop(FlipRight(parent))
    else if parent.redL then Climb(FlipLeft(parent))
    else if parent.l.redL && parent.l.redR then Climb(parent.(l := ClearBits(parent.l)))
    else Stop(RemoveRotateRight(parent))
  }

  function Sibling<T>(p: Path<T>): Tree<T>
    requires !p.Top?
  {
    if p.InLeft? then p.r else p.l
  }

  ghost predicate ShrinkHandled<T>(s: Step<T>, elm: Tree<T>, p: Path<T>)
    requires !p.Top?
  {
    && Balanced(s.t) && s.t.Node? && Around(s.t, p.up) == Around(elm, p)
    && match s
       case Stop(t) => Fits(p.up, Rank(t))
       case Climb(t) => Fits(p.up, Rank(t) + 1)
  }

  /** A black edge turns red and absorbs the loss. */
  lemma {:induction false} AbsorbLoss<T>(elm: Tree<T>, p: Path<T>)
    requires !p.Top? && Balanced(elm) && Fits(p, Rank(elm) + 1) && (elm.Node? || Sibling(p).Node?)
    ensures p.InLeft? && !p.redL ==> var t := Node(elm, true, p.v, p.redR, p.r); Balanced(t) && Fits(p.up, Rank(t))
    ensures p.InRight? && !p.redR ==> var t := Node(p.l, p.redL, p.v, true, elm); Balanced(t) && Fits(p.up, Rank(t))
  {
  }

  /** With the edge red already, the parent loses a rank if both its edges are red. */
  lemma {:induction false} PassLoss<T>(elm: Tree<T>, p: Path<T>)
    requires !p.Top? && Balanced(elm) && Fits(p, Rank(elm) + 1) && p.redL && p.redR
    ensures p.InLeft? ==> var t := Node(elm, true, p.v, false, p.r); Balanced(t) && Fits(p.up, Rank(t) + 1)
    ensures p.InRight? ==> var t := Node(p.l, false, p.v, true, elm); Balanced(t) && Fits(p.up, Rank(t) + 1)
  {
  }

  /** ... or if both edges of the sibling are, which then loses a rank, too. */
  lemma {:induction false} PassLossToSibling<T>(elm: Tree<T>, p: Path<T>)
    requires !p.Top? && Balanced(elm) && Fits(p, Rank(elm) + 1) && p.redL != p.redR && p.redL == p.InLeft?
    ensures Sibling(p).Node? && Rank(Sibling(p)) == Rank(elm) + 2
    ensures Sibling(p).redL && Sibling(p).redR && p.InLeft? ==>
              var t := Node(elm, true, p.v, false, ClearBits(p.r)); Balanced(t) && Fits(p.up, Rank(t) + 1)
    ensures Sibling(p).redL && Sibling(p).redR && p.InRight? ==>
              var t := Node(ClearBits(p.l), false, p.v, true, elm); Balanced(t) && Fits(p.up, Rank(t) + 1)
  {
  }

  lemma {:induction false} ShrinkLeftOrder<T>(parent: Tree<T>)
    requires parent.Node?
    requires parent.redL && !parent.redR ==>
               parent.r.Node? && (!parent.r.redL && parent.r.redR ==> parent.r.l.Node?)
    ensures Inorder(ShrinkLeft(parent).t) == Inorder(parent)
  {
    if parent.redL && !parent.redR && !(parent.r.redL && parent.r.redR) {
      RemoveRotateLeftOrder(parent);
    }
  }

  lemma {:induction false} ShrinkLeftSibling<T>(elm: Tree<T>, p: Path<T>)
    requires Balanced(elm) && p.InLeft? && Fits(p, Rank(elm) + 1) && p.redL && !p.redR
    ensures p.r.Node? && (!p.r.redL && p.r.redR ==> p.r.l.Node?)
    ensures ShrinkHandled(ShrinkLeft(Node(elm, p.redL, p.v, p.redR, p.r)), elm, p)
  {
    StepUp(elm, p);
    PassLossToSibling(elm, p);
    if !(p.r.redL && p.r.redR) {
      RemoveRotateLeftOk(elm, p.v, p.r);
    }
    ShrinkLeftOrder(Node(elm, p.redL, p.v, p.redR, p.r));
  }

  lemma {:induction false} ShrinkLeftOk<T>(elm: Tree<T>, p: Path<T>)
    requires Balanced(elm) && p.InLeft? && Fits(p, Rank(elm) + 1) && (elm.Node? || p.r.Node?)
    ensures p.redL && !p.redR ==> p.r.Node? && (!p.r.redL && p.r.redR ==> p.r.l.Node?)
    ensures ShrinkHandled(ShrinkLeft(Node(elm, p.redL, p.v, p.redR, p.r)), elm, p)
  {
    if p.redL && !p.redR {
      ShrinkLeftSibling(elm, p);
    } else {
      StepUp(elm, p);
      if p.redL {
        PassLoss(elm, p);
      } else {
        AbsorbLoss(elm, p);
      }
    }
  }

  lemma {:induction false} ShrinkRightOrder<T>(parent: Tree<T>)
    requires parent.Node?
    requires parent.redR && !parent.redL ==>
               parent.l.Node? && (!parent.l.redR && parent.l.redL ==> parent.l.r.Node?)
    ensures Inorder(ShrinkRight(parent).t) == Inorder(parent)
  {
    if parent.redR && !parent.redL && !(parent.l.redL && parent.l.redR) {
      RemoveRotateRightOrder(parent);
    }
  }

  lemma {:induction false} ShrinkRightSibling<T>(elm: Tree<T>, p: Path<T>)
    requires Balanced(elm) && p.InRight? && Fits(p, Rank(elm) + 1) && p.redR && !p.redL
    ensures p.l.Node? && (!p.l.redR && p.l.redL ==> p.l.r.Node?)
    ensures ShrinkHandled(ShrinkRight(Node(p.l, p.redL, p.v, p.redR, elm)), elm, p)
  {
    StepUp(elm, p);
    PassLossToSibling(elm, p);
    if !(p.l.redL && p.l.redR) {
      RemoveRotateRightOk(p.l, p.v, elm);
    }
    ShrinkRightOrder(Node(p.l, p.redL, p.v, p.redR, elm));
  }

  lemma {:induction false} ShrinkRightOk<T>(elm: Tree<T>, p: Path<T>)
    requires Balanced(elm) && p.InRight? && Fits(p, Rank(elm) + 1) && (elm.Node? || p.l.Node?)
    ensures p.redR && !p.redL ==> p.l.Node? && (!p.l.redR && p.l.redL ==> p.l.r.Node?)
    ensures ShrinkHandled(ShrinkRight(Node(p.l, p.redL, p.v, p.redR, elm)), elm, p)
  {
    if p.redR && !p.redL {
      ShrinkRightSibling(elm, p);
    } else {
      StepUp(elm, p);
      if p.redR {
        PassLoss(elm, p);
      } else {
        AbsorbLoss(elm, p);
      }
    }
  }

  /** A parent left without children becomes a leaf, one rank lower. */
  lemma {:induction false} LeafShrinks<T>(p: Path<T>)
    requires !p.Top? && Sibling(p).Nil? && Fits(p, 1)
    ensures Fits(p.up, 2) && Around(Node(Nil, false, p.v, false, Nil), p.up) == Around(Nil, p)
  {
    StepUp(Nil, p);
  }

  /** Repair the parent of a subtree that has become too low. */
  method Shrink<T>(elm: Tree<T>, p: Path<T>) returns (s: Step<T>)
    requires !p.Top? && Balanced(elm) && Fits(p, Rank(elm) + 1) && (elm.Node? || Sibling(p).Node?)
    ensures ShrinkHandled(s, elm, p)
  {
    if p.InLeft? {
      ShrinkLeftOk(elm, p);
      s := ShrinkLeft(Node(elm, p.redL, p.v, p.redR, p.r));
    } else {
      ShrinkRightOk(elm, p);
      s := ShrinkRight(Node(p.l, p.redL, p.v, p.redR, elm));
    }
  }

  /** Restore balance above a subtree, possibly empty, whose rank has shrunk by one. */
  method RemoveColor<T>(elm: Tree<T>, p: Path<T>) returns (t: Tree<T>)
    requires Balanced(elm) && Fits(p, Rank(elm) + 1)
    ensures Balanced(t) && Inorder(t) == Around(elm, p)
  {
    if !p.Top? && elm.Nil? && Sibling(p).Nil? {
      LeafShrinks(p);
      t := RemoveClimb(Node(Nil, false, p.v, false, Nil), p.up);
    } else {
      t := RemoveClimb(elm, p);
    }
  }

  method RemoveClimb<T>(elm0: Tree<T>, p0: Path<T>) returns (t: Tree<T>)
    requires Balanced(elm0) && Fits(p0, Rank(elm0) + 1) && (elm0.Node? || p0.Top? || Sibling(p0).Node?)
    ensures Balanced(t) && Inorder(t) == Around(elm0, p0)
  {
    var elm, p := elm0, p0;
    while !p.Top?
      invariant Balanced(elm) && Fits(p, Rank(elm) + 1)
      invariant elm.Node? || p.Top? || Sibling(p).Node?
      invariant Around(elm, p) == Around(elm0, p0)
      decreases p
    {
      var s := Shrink(elm, p);
      if s.Stop? {
        t := Finish(s.t, p.up);
        return;
      }
      elm, p := s.t, p.up;
    }
    t := elm;
  }

  /** A path inside a subtree, continued by the path of that subtree. */
  function Extend<T>(inner: Path<T>, outer: Path<T>): Path<T> {
    match inner
    case Top => outer
    case InLeft(up, a, v, b, r) => InLeft(Extend(up, outer), a, v, b, r)
    case InRight(up, l, a, v, b) => InRight(Extend(up, outer), l, a, v, b)
  }

  /** The path consists of left turns only, as it does on the way to the smallest element. */
  predicate Leftmost<T>(p: Path<T>) {
    p.Top? || (p.InLeft? && Leftmost(p.up))
  }

  lemma {:induction false} ExtendSides<T>(inner: Path<T>, outer: Path<T>)
    ensures Before(Extend(inner, outer)) == Before(outer) + Before(inner)
    ensures After(Extend(inner, outer)) == After(inner) + After(outer)
  {
    match inner
    case Top =>
    case InLeft(up, a, v, b, r) => ExtendSides(up, outer);
    case InRight(up, l, a, v, b) => ExtendSides(up, outer);
  }

  lemma {:induction false} ExtendFits<T>(t: Tree<T>, inner: Path<T>, outer: Path<T>)
    requires Balanced(Plug(t, inner)) && Fits(outer, Rank(Plug(t, inner)))
    ensures Balanced(t) && Fits(Extend(inner, outer), Rank(t))
    decreases inner
  {
    if !inner.Top? {
      var parent := if inner.InLeft? then Node(t, inner.redL, inner.v, inner.redR, inner.r)
                    else Node(inner.l, inner.redL, inner.v, inner.redR, t);
      ExtendFits(parent, inner.up, outer);
      StepDown(parent, Extend(inner.up, outer));
    }
  }

  lemma {:induction false} LeftmostBefore<T>(p: Path<T>)
    requires Leftmost(p)
    ensures Before(p) == []
  {
    if p.InLeft? {
      LeftmostBefore(p.up);
    }
  }

  /** Find the smallest element of a subtree. */
  method Smallest<T>(t: Tree<T>) returns (elm: Tree<T>, p: Path<T>)
    requires t.Node?
    ensures elm.Node? && elm.l.Nil? && Leftmost(p) && Plug(elm, p) == t
  {
    elm, p := t, Top;
    while elm.l.Node?
      invariant elm.Node? && Leftmost(p) && Plug(elm, p) == t
      decreases elm
    {
      elm, p := elm.l, InLeft(p, elm.redL, elm.v, elm.redR, elm.r);
    }
  }

  lemma OneChildRank<T>(t: Tree<T>)
    requires t.Node? && Balanced(t) && (t.l.Nil? || t.r.Nil?)
    ensures Rank(if t.l.Nil? then t.r else t.l) + 1 == Rank(t)
  {
  }

  lemma SplitLast<T>(a: seq<T>, b: seq<T>, x: T, c: seq<T>, d: seq<T>, e: seq<T>)
    ensures (a + b + [x] + []) + c + (d + e) == a + b + ([] + ([] + [x] + c) + d) + e
  {
  }

  /** Taking the successor out and putting it in the place of the removed root removes exactly that root. */
  lemma {:induction false} SuccessorMoves<T>(n: Tree<T>, p: Path<T>, elm: Tree<T>, inner: Path<T>)
    requires n.Node? && elm.Node? && elm.l.Nil? && Leftmost(inner) && Plug(elm, inner) == n.r
    ensures Around(elm.r, Extend(inner, InRight(p, n.l, n.redL, elm.v, n.redR)))
            == Before(p) + Inorder(n.l) + Inorder(n.r) + After(p)
  {
    var outer := InRight(p, n.l, n.redL, elm.v, n.redR);
    PlugInorder(elm, inner);
    LeftmostBefore(inner);
    ExtendSides(inner, outer);
    SplitLast(Before(p), Inorder(n.l), elm.v, Inorder(elm.r), After(inner), After(p));
  }

  /** Remove a root that has two children: its successor takes its place and its bits. */
  method RemoveInner<T>(n: Tree<T>, p: Path<T>) returns (t: Tree<T>)
    requires n.Node? && n.r.Node? && Balanced(n) && Fits(p, Rank(n))
    ensures Balanced(t)
    ensures Inorder(t) == Before(p) + Inorder(n.l) + Inorder(n.r) + After(p)
  {
    var elm, inner := Smallest(n.r);
    var outer := InRight(p, n.l, n.redL, elm.v, n.redR);
    assert Fits(outer, Rank(n.r));
    ExtendFits(elm, inner, outer);
    OneChildRank(elm);
    SuccessorMoves(n, p, elm, inner);
    t := RemoveColor(elm.r, Extend(inner, outer));
  }

  lemma {:induction false} OneChildOrder<T>(n: Tree<T>, p: Path<T>)
    requires n.Node? && (n.l.Nil? || n.r.Nil?)
    ensures Around(if n.l.Nil? then n.r else n.l, p) == Before(p) + Inorder(n.l) + Inorder(n.r) + After(p)
  {
    assert Before(p) + [] == Before(p);
    assert Before(p) + Inorder(n.l) + [] == Before(p) + Inorder(n.l);
  }

  /** Remove the root of the subtree at the end of path `p`. */
  method Remove<T>(n: Tree<T>, p: Path<T>) returns (t: Tree<T>)
    requires n.Node? && Balanced(Plug(n, p))
    ensures Balanced(t)
    ensures Inorder(t) == Before(p) + Inorder(n.l) + Inorder(n.r) + After(p)
  {
    UnplugBalanced(n, p);
    if n.l.Nil? || n.r.Nil? {
      OneChildRank(n);
      OneChildOrder(n, p);
      t := RemoveColor(if n.l.Nil? then n.r else n.l, p);
    } else {
      t := RemoveInner(n, p);
    }
  }

  lemma RemovedAscending<T>(cmp: (T, T) -> int, a: seq<T>, v: T, b: seq<T>)
    requires Ascending(cmp, a + [v] + b)
    ensures Ascending(cmp, a + b)
  {
    var u, s := a + [v] + b, a + b;
    forall i, j | 0 <= i < j < |s| ensures cmp(s[i], s[j]) < 0 {
      var i', j' := if i < |a| then i else i + 1, if j < |a| then j else j + 1;
      assert s[i] == u[i'] && s[j] == u[j'];
    }
  }

  lemma {:induction false} SplitAtRoot<T>(n: Tree<T>, p: Path<T>)
    requires n.Node?
    ensures Around(n, p) == (Before(p) + Inorder(n.l)) + [n.v] + (Inorder(n.r) + After(p))
    ensures Before(p) + Inorder(n.l) + Inorder(n.r) + After(p) == (Before(p) + Inorder(n.l)) + (Inorder(n.r) + After(p))
  {
  }

  /** `t` is `s` without one occurrence of `x`. */
  ghost predicate IsCut<T(!new)>(s: seq<T>, x: T, t: seq<T>) {
    exists a, b :: s == a + [x] + b && t == a + b
  }

  /** Remove the element that compares equal to `x`: exactly that one goes, and order and balance stay. */
  method Delete<T(!new)>(cmp: (T, T) -> int, root: Tree<T>, x: T) returns (t: Tree<T>, found: Option<T>)
    requires Comparison(cmp) && Ascending(cmp, Inorder(root)) && Balanced(root)
    ensures Balanced(t) && Ascending(cmp, Inorder(t))
    ensures found.None? ==> t == root && forall y | y in Inorder(root) :: cmp(x, y) != 0
    ensures found.Some? ==> cmp(x, found.value) == 0
                            && IsCut(Inorder(root), found.value, Inorder(t))
  {
    var n, p := Descend(cmp, root, x);
    PlugInorder(n, p);
    if n.Nil? {
      t, found := root, None;
    } else {
      SplitAtRoot(n, p);
      RemovedAscending(cmp, Before(p) + Inorder(n.l), n.v, Inorder(n.r) + After(p));
      t := Remove(n, p);
      found := Some(n.v);
    }
  }

  // ------------------------------------------------------------------ traversal

  /** All elements up to and including the root of the subtree at `p`. */
  ghost function UpTo<T>(n: Tree<T>, p: Path<T>): seq<T>
    requires n.Node?
  {
    Before(p) + Inorder(n.l) + [n.v]
  }

  /** The node that follows in search order; `Nil` after the last one. */
  method Next<T>(n: Tree<T>, p: Path<T>) returns (m: Tree<T>, q: Path<T>)
    requires n.Node?
    ensures m.Node? ==> Plug(m, q) == Plug(n, p) && Before(q) + Inorder(m.l) == UpTo(n, p)
    ensures m.Nil? ==> UpTo(n, p) == Inorder(Plug(n, p))
  {
    if n.r.Node? {
      var inner;
      m, inner := Smallest(n.r);
      q := Extend(inner, InRight(p, n.l, n.redL, n.v, n.redR));
      ExtendPlug(m, inner, InRight(p, n.l, n.redL, n.v, n.redR));
      LeftmostBefore(inner);
      ExtendSides(inner, InRight(p, n.l, n.redL, n.v, n.redR));
    } else {
      m, q := n, p;
      while q.InRight?
        invariant Plug(m, q) == Plug(n, p) && Before(q) + Inorder(m) == UpTo(n, p)
        decreases q
      {
        assert Before(q) + Inorder(m) == Before(q.up) + (Inorder(q.l) + [q.v] + Inorder(m));
        m, q := Node(q.l, q.redL, q.v, q.redR, m), q.up;
      }
      if q.InLeft? {
        m, q := Node(m, q.redL, q.v, q.redR, q.r), q.up;
      } else {
        m := Nil;
      }
    }
  }

  lemma {:induction false} ExtendPlug<T>(t: Tree<T>, inner: Path<T>, outer: Path<T>)
    ensures Plug(t, Extend(inner, outer)) == Plug(Plug(t, inner), outer)
    decreases inner
  {
    match inner
    case Top =>
    case InLeft(up, a, v, b, r) => ExtendPlug(Node(t, a, v, b, r), up, outer);
    case InRight(up, l, a, v, b) => ExtendPlug(Node(l, a, v, b, t), up, outer);
  }

  /** Visiting the smallest element and then the next one, again and again, visits every element once, in order. */
  method Foreach<T>(root: Tree<T>) returns (s: seq<T>)
    ensures s == Inorder(root)
  {
    s := [];
    if root.Nil? {
      return;
    }
    var x, p := Smallest(root);
    LeftmostBefore(p);
    while x.Node?
      invariant x.Node? ==> Plug(x, p) == root && s == Before(p) + Inorder(x.l)
      invariant x.Nil? ==> s == Inorder(root)
      decreases if x.Node? then 1 else 0, |Inorder(root)| - |s|
    {
      PlugInorder(x, p);
      s := s + [x.v];
      x, p := Next(x, p);
      if x.Node? {
        PlugInorder(x, p);
      }
    }
  }

  // ------------------------------------------------------------------ height

  function Height<T>(t: Tree<T>): nat {
    if t.Nil? then 0 else 1 + if Height(t.l) > Height(t.r) then Height(t.l) else Height(t.r)
  }

  function Pow2(n: nat): nat {
    if n == 0 then 1 else 2 * Pow2(n - 1)
  }

  lemma {:induction false} Pow2Monotone(m: nat, n: nat)
    requires m <= n
    ensures Pow2(m) <= Pow2(n)
  {
    if m < n {
      Pow2Monotone(m, n - 1);
    }
  }

  lemma {:induction false} RankBounds<T>(t: Tree<T>)
    requires Balanced(t)
    ensures Height(t) <= Rank(t)
    ensures Pow2(Rank(t)) <= (|Inorder(t)| + 1) * (|Inorder(t)| + 1)
  {
    if t.Node? {
      RankBounds(t.l);
      RankBounds(t.r);
      var k := if Rank(t) >= 2 then Rank(t) - 2 else 0;
      Pow2Monotone(k, Rank(t.l));
      Pow2Monotone(k, Rank(t.r));
      assert Pow2(Rank(t)) <= 4 * Pow2(k);
      DoubleSquare(Pow2(k), |Inorder(t.l)| + 1, |Inorder(t.r)| + 1);
    }
  }

  lemma DoubleSquare(k: nat, a: nat, b: nat)
    requires k <= a * a && k <= b * b
    ensures 4 * k <= (a + b) * (a + b)
  {
    if a <= b {
      assert a * a <= a * b && a * b <= b * b;
    } else {
      assert b * b <= a * b && a * b <= a * a;
    }
    assert (a + b) * (a + b) == a * a + 2 * (a * b) + b * b;
  }

  /** The height of a balanced tree with n elements is at most 2 lg (n + 1). */
  lemma {:induction false} HeightBound<T>(t: Tree<T>)
    requires Balanced(t)
    ensures Pow2(Height(t)) <= (|Inorder(t)| + 1) * (|Inorder(t)| + 1)
  {
    RankBounds(t);
    Pow2Monotone(Height(t), Rank(t));
  }
}
