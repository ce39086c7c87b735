/**
 * What a directory diff reports, and what the report means to a reader.
 *
 * `before` and `after` are the two lists as reading a listing leaves them (`ReadState`).
 */
module DiffSpec {
  import opened Wrappers
  import opened DirEvents
  import opened RenameGraph
  import opened DepList

  /** One callback: an old entry is dropped, a rename is reported, a new entry is reported. */
  datatype Act = Drop(i: nat) | Move(j: nat) | Create(j: nat)

  /** The old entry is neither unchanged nor the source of a rename. */
  predicate IsGone(before: seq<Item>, from: seq<Option<nat>>, i: nat)
    requires i < |before|
  {
    !before[i].intact && Some(i) !in from
  }

  /** A rename takes the name of the old entry. */
  predicate IsReplaced(after: seq<Change>, from: seq<Option<nat>>, i: nat)
    requires |from| == |after|
  {
    exists j :: 0 <= j < |after| && from[j].Some? && after[j].replacee == Some(i)
  }

  function Drops(before: seq<Item>, from: seq<Option<nat>>, n: nat): (acts: seq<Act>)
    requires n <= |before|
    ensures forall x :: x in acts <==> x.Drop? && x.i < n && IsGone(before, from, x.i)
    ensures forall p, q | 0 <= p < q < |acts| :: acts[p] != acts[q]
  {
    if n == 0 then [] else Drops(before, from, n - 1) + if IsGone(before, from, n - 1) then [Drop(n - 1)] else []
  }

  function Creates(from: seq<Option<nat>>, n: nat): (acts: seq<Act>)
    requires n <= |from|
    ensures forall x :: x in acts <==> x.Create? && x.j < n && from[x.j].None?
    ensures forall p, q | 0 <= p < q < |acts| :: acts[p] != acts[q]
  {
    if n == 0 then [] else Creates(from, n - 1) + if from[n - 1].None? then [Create(n - 1)] else []
  }

  function MovesIn(order: seq<nat>): seq<Act> {
    seq(|order|, x requires 0 <= x < |order| => Move(order[x]))
  }

  /** All callbacks of a diff that reports its renames in this order. */
  function Acts(before: seq<Item>, after: seq<Change>, order: seq<nat>): seq<Act> {
    var from := Renames(before, after);
    Drops(before, from, |before|) + MovesIn(order) + Creates(from, |from|)
  }

  ghost predicate ActOk(before: seq<Item>, after: seq<Change>, from: seq<Option<nat>>, x: Act)
    requires |from| == |after|
  {
    match x
    case Drop(i) => i < |before| && IsGone(before, from, i)
    case Move(j) => j < |from| && from[j].Some? && from[j].value < |before|
    case Create(j) => j < |from| && from[j].None?
  }

  ghost function EventOf(before: seq<Item>, after: seq<Change>, from: seq<Option<nat>>, x: Act): Event
    requires |from| == |after| && ActOk(before, after, from, x)
  {
    match x
    case Drop(i) =>
      if IsReplaced(after, from, i) then Replaced(before[i].name, before[i].inode)
      else Removed(before[i].name, before[i].inode)
    case Move(j) => Moved(before[from[j].value].name, after[j].item.name, after[j].item.inode)
    case Create(j) => Added(after[j].item.name, after[j].item.inode)
  }

  ghost predicate ActsOk(before: seq<Item>, after: seq<Change>, acts: seq<Act>) {
    forall p | 0 <= p < |acts| :: ActOk(before, after, Renames(before, after), acts[p])
  }

  ghost function Events(before: seq<Item>, after: seq<Change>, acts: seq<Act>): (es: seq<Event>)
    requires ActsOk(before, after, acts)
    ensures |es| == |acts|
  {
    seq(|acts|, p requires 0 <= p < |acts| => EventOf(before, after, Renames(before, after), acts[p]))
  }

  /** Every changed entry has its callback. */
  ghost predicate Complete(before: seq<Item>, after: seq<Change>, acts: seq<Act>) {
    forall x | ActOk(before, after, Renames(before, after), x) :: x in acts
  }

  /** No callback happens twice. */
  ghost predicate Once(acts: seq<Act>) {
    forall p, q | 0 <= p < |acts| && 0 <= q < |acts| :: acts[p] == acts[q] ==> p == q
  }

  /** Drops come first and creations last. */
  ghost predicate Staged(acts: seq<Act>) {
    forall p, q | 0 <= p < q < |acts| ::
      (acts[q].Drop? ==> acts[p].Drop?) && (acts[p].Create? ==> acts[q].Create?)
  }

  /** A rename follows the one that vacates its name, unless it is forced. */
  ghost predicate Vacated(g: Graph, acts: seq<Act>, forced: set<nat>) {
    forall p, q | 0 <= p < |acts| && 0 <= q < |acts| && acts[p].Move? && acts[q].Move?
                  && Blocks(g, acts[p].j, acts[q].j) ::
      if acts[p].j in forced then p < q else q < p
  }

  ghost predicate Plan(before: seq<Item>, after: seq<Change>, acts: seq<Act>, forced: set<nat>) {
    && ActsOk(before, after, acts)
    && Complete(before, after, acts)
    && Once(acts)
    && Staged(acts)
    && Vacated(Links(before, after), acts, forced)
    && (forall j | j in forced :: exists k :: Blocks(Links(before, after), j, k))
  }

  lemma InMovesOf(before: seq<Item>, after: seq<Change>, x: Act)
    requires ReadState(before, after)
    ensures x.Move? ==> (ActOk(before, after, Renames(before, after), x) <==> x.j in Moves(Links(before, after)))
  {
    MatchCorrect(before, after, |before|);
  }

  lemma PositionOfMove(order: seq<nat>, a: nat, b: nat)
    requires a < |order| && b < |order| && order[b] in order[..a] && Distinct(order)
    ensures b < a
  {
    var c :| 0 <= c < a && order[c] == order[b];
  }

  lemma ActsAreComplete(before: seq<Item>, after: seq<Change>, order: seq<nat>)
    requires ReadState(before, after) && Elems(order) == Moves(Links(before, after))
    ensures ActsOk(before, after, Acts(before, after, order))
    ensures Complete(before, after, Acts(before, after, order))
  {
    var from, acts := Renames(before, after), Acts(before, after, order);
    var drops, moves, creates := Drops(before, from, |before|), MovesIn(order), Creates(from, |from|);
    assert acts == drops + moves + creates;
    forall p | 0 <= p < |acts| ensures ActOk(before, after, from, acts[p]) {
      if |drops| <= p < |drops| + |moves| {
        assert acts[p] == Move(order[p - |drops|]) && order[p - |drops|] in Elems(order);
        InMovesOf(before, after, acts[p]);
      } else {
        assert acts[p] in drops || acts[p] in creates;
      }
    }
    forall x | ActOk(before, after, from, x) ensures x in acts {
      if x.Move? {
        InMovesOf(before, after, x);
        assert x.j in Elems(order);
        var a :| 0 <= a < |order| && order[a] == x.j;
        assert moves[a] == x;
      } else {
        assert x in drops || x in creates;
      }
    }
  }

  lemma ActsAreOrdered(drops: seq<Act>, g: Graph, order: seq<nat>, forced: set<nat>, creates: seq<Act>)
    requires forall x | x in drops :: x.Drop?
    requires forall x | x in creates :: x.Create?
    requires Once(drops) && Once(creates)
    requires WellFormed(g) && Legal(g, order, forced)
    ensures var acts := drops + MovesIn(order) + creates; Once(acts) && Staged(acts) && Vacated(g, acts, forced)
  {
    var acts := drops + MovesIn(order) + creates;
    forall p | 0 <= p < |acts|
      ensures acts[p].Drop? <==> p < |drops|
      ensures acts[p].Move? <==> |drops| <= p < |drops| + |order|
      ensures acts[p].Drop? ==> acts[p] == drops[p]
      ensures acts[p].Move? ==> acts[p].j == order[p - |drops|]
      ensures acts[p].Create? ==> acts[p] == creates[p - |drops| - |order|]
    {
      Segments(drops, order, creates, p);
    }
    forall p, q | 0 <= p < |acts| && 0 <= q < |acts| && acts[p].Move? && acts[q].Move?
                  && Blocks(g, acts[p].j, acts[q].j)
      ensures if acts[p].j in forced then p < q else q < p
    {
      BlockerPosition(g, order, forced, p - |drops|, q - |drops|);
    }
  }

  /** A legal report order gives such a plan. */
  lemma LegalGivesPlan(before: seq<Item>, after: seq<Change>, order: seq<nat>, forced: set<nat>)
    requires ReadState(before, after)
    requires Legal(Links(before, after), order, forced) && Elems(order) == Moves(Links(before, after))
    ensures Plan(before, after, Acts(before, after, order), forced)
  {
    var from := Renames(before, after);
    LinksWellFormed(before, after);
    ActsAreComplete(before, after, order);
    ActsAreOrdered(Drops(before, from, |before|), Links(before, after), order, forced, Creates(from, |from|));
    forall j | j in forced ensures exists k :: Blocks(Links(before, after), j, k) {
      ForcedIsBlocked(Links(before, after), order, forced, j);
    }
  }

  lemma ForcedIsBlocked(g: Graph, order: seq<nat>, forced: set<nat>, j: nat)
    requires Legal(g, order, forced) && j in forced
    ensures exists k :: Blocks(g, j, k)
  {
    assert j in Elems(order);
    var a :| 0 <= a < |order| && order[a] == j;
    assert Waits(g, Moves(g) - Elems(order[..a]), j);
  }

  lemma Segments(drops: seq<Act>, order: seq<nat>, creates: seq<Act>, p: nat)
    requires forall x | x in drops :: x.Drop?
    requires forall x | x in creates :: x.Create?
    requires p < |drops| + |order| + |creates|
    ensures var acts := drops + MovesIn(order) + creates;
            && (acts[p].Drop? <==> p < |drops|) && (acts[p].Drop? ==> acts[p] == drops[p])
            && (acts[p].Move? <==> |drops| <= p < |drops| + |order|)
            && (acts[p].Move? ==> acts[p].j == order[p - |drops|])
            && (acts[p].Create? ==> acts[p] == creates[p - |drops| - |order|])
  {
    var acts := drops + MovesIn(order) + creates;
    if p < |drops| {
      assert acts[p] == drops[p] && drops[p] in drops;
    } else if p < |drops| + |order| {
      assert acts[p] == MovesIn(order)[p - |drops|];
    } else {
      assert acts[p] == creates[p - |drops| - |order|] && creates[p - |drops| - |order|] in creates;
    }
  }

  lemma BlockerPosition(g: Graph, order: seq<nat>, forced: set<nat>, a: nat, b: nat)
    requires WellFormed(g) && Legal(g, order, forced)
    requires a < |order| && b < |order| && Blocks(g, order[a], order[b])
    ensures if order[a] in forced then a < b else b < a
  {
    if order[a] in forced {
      var pending := Moves(g) - Elems(order[..a]);
      assert order[a] in Elems(order);
      assert Waits(g, pending, order[a]);
      var k :| k in pending && Blocks(g, order[a], k);
      assert k == order[b];
    } else {
      assert order[b] in order[..a];
      PositionOfMove(order, a, b);
    }
  }
}
