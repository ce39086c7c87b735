/**
 * The directory diff itself: a stored list is brought up to date with a new listing, and the
 * callbacks it makes are logged.
 */
module DirDiff {
  import opened Wrappers
  import opened Names
  import opened DirEvents
  import opened RenameGraph
  import opened DepList
  import opened DiffSpec
  import opened DiffMeaning

  /** The marks of the old entries once renames are matched; `left` holds the renames not reported yet. */
  ghost function FlagItems(b: seq<Item>, a: seq<Change>, from: seq<Option<nat>>, left: seq<Option<nat>>): seq<Item>
    requires |from| == |a|
  {
    seq(|b|, i requires 0 <= i < |b| => b[i].(moved := Some(i) in left, replaced := IsReplaced(a, from, i)))
  }

  /** The marks of the new entries. */
  ghost function FlagChanges(a: seq<Change>, from: seq<Option<nat>>, left: seq<Option<nat>>): seq<Change>
    requires |from| == |a| == |left|
  {
    seq(|a|, j requires 0 <= j < |a| => Change(a[j].item.(moved := from[j].Some?), a[j].replacee, left[j]))
  }

  ghost function Claimed(from: seq<Option<nat>>): set<nat> {
    set j: nat | j < |from| && from[j].Some?
  }

  /** The renames still to be reported after those in `order`. */
  ghost function Left(from: seq<Option<nat>>, order: seq<nat>): (left: seq<Option<nat>>)
    ensures |left| == |from|
  {
    seq(|from|, j requires 0 <= j < |from| => if j in order then None else from[j])
  }

  lemma ClaimedOnce(from: seq<Option<nat>>, i: nat, j: nat, x: nat)
    requires j < |from| && from[j].None?
    ensures Some(x) in from[j := Some(i)] <==> Some(x) in from || x == i
  {
    var next := from[j := Some(i)];
    if Some(x) in from {
      var k :| 0 <= k < |from| && from[k] == Some(x);
      assert next[k] == Some(x);
    }
    assert next[j] == Some(i);
  }

  lemma ReplacedOnce(a: seq<Change>, from: seq<Option<nat>>, i: nat, j: nat, x: nat)
    requires |from| == |a| && j < |from| && from[j].None?
    ensures IsReplaced(a, from[j := Some(i)], x) <==> IsReplaced(a, from, x) || a[j].replacee == Some(x)
  {
    var next := from[j := Some(i)];
    if IsReplaced(a, from, x) {
      var k :| 0 <= k < |a| && from[k].Some? && a[k].replacee == Some(x);
      assert next[k].Some?;
    }
    assert next[j].Some?;
  }

  /** Marking one more rename. */
  lemma ClaimStep(b: seq<Item>, a: seq<Change>, from: seq<Option<nat>>, i: nat, j: nat)
    requires |from| == |a| && i < |b| && j < |a| && from[j].None? && ChangeOk(b, a[j])
    ensures var next := from[j := Some(i)];
            var s := FlagItems(b, a, from, from);
            var k := a[j].replacee;
            var s1 := if k.Some? then s[k.value := s[k.value].(replaced := true)] else s;
            FlagItems(b, a, next, next) == s1[i := s1[i].(moved := true)]
    ensures FlagChanges(a, from[j := Some(i)], from[j := Some(i)])
            == FlagChanges(a, from, from)[j := Change(a[j].item.(moved := true), a[j].replacee, Some(i))]
    ensures |Claimed(from[j := Some(i)])| == |Claimed(from)| + 1
  {
    var next := from[j := Some(i)];
    forall x | 0 <= x < |b|
      ensures Some(x) in next <==> Some(x) in from || x == i
      ensures IsReplaced(a, next, x) <==> IsReplaced(a, from, x) || a[j].replacee == Some(x)
    {
      ClaimedOnce(from, i, j, x);
      ReplacedOnce(a, from, i, j, x);
    }
    assert Claimed(next) == Claimed(from) + {j};
  }

  /** An unmarked rename leaves the others as they are. */
  lemma ReportStep(b: seq<Item>, a: seq<Change>, order: seq<nat>, j: nat)
    requires ReadState(b, a)
    requires j < |a| && Renames(b, a)[j].Some? && j !in order
    requires Renames(b, a)[j].value < |b|
    ensures var from := Renames(b, a);
            var left, next, i := Left(from, order), Left(from, order + [j]), from[j].value;
            && left[j] == from[j]
            && FlagItems(b, a, from, next)
               == FlagItems(b, a, from, left)[i := FlagItems(b, a, from, left)[i].(moved := false)]
            && FlagChanges(a, from, next)
               == FlagChanges(a, from, left)[j := FlagChanges(a, from, left)[j].(movedFrom := None)]
  {
    MatchCorrect(b, a, |b|);
    var from := Renames(b, a);
    var left, next, i := Left(from, order), Left(from, order + [j]), from[j].value;
    assert next == left[j := None];
    forall x: nat ensures Some(x) in next <==> Some(x) in left && x != i {
      OneOut(left, j, x) by {
        assert left[j] == from[j];
        assert forall k | 0 <= k < |left| && left[k].Some? :: left[k] == from[k];
      }
    }
  }

  lemma OneOut(left: seq<Option<nat>>, j: nat, x: nat)
    requires j < |left| && left[j].Some? && (forall k | 0 <= k < |left| && left[k] == left[j] :: k == j)
    ensures Some(x) in left[j := None] <==> Some(x) in left && Some(x) != left[j]
  {
    if Some(x) in left && Some(x) != left[j] {
      var k :| 0 <= k < |left| && left[k] == Some(x);
      assert left[j := None][k] == Some(x);
    }
  }

  /** The overlap test of the scheduler: the old entry to be overwritten is still to be renamed. */
  lemma OverlapMeans(b: seq<Item>, a: seq<Change>, order: seq<nat>, j: nat)
    requires ReadState(b, a) && j in Moves(Links(b, a))
    ensures var from, g := Renames(b, a), Links(b, a);
            (a[j].replacee.Some? && Some(a[j].replacee.value) in Left(from, order))
            <==> Waits(g, Moves(g) - Elems(order), j)
  {
    var from, g := Renames(b, a), Links(b, a);
    var left := Left(from, order);
    if a[j].replacee.Some? && Some(a[j].replacee.value) in left {
      var k :| 0 <= k < |left| && left[k] == Some(a[j].replacee.value);
      assert k in Moves(g) - Elems(order) && Blocks(g, j, k);
    }
    if Waits(g, Moves(g) - Elems(order), j) {
      var k :| k in Moves(g) - Elems(order) && Blocks(g, j, k);
      assert left[k] == from[k];
    }
  }

  lemma ReportLegal(g: Graph, order: seq<nat>, forced: set<nat>, j: nat, force: bool)
    requires Legal(g, order, forced) && j in Moves(g) && j !in order
    requires if force then Stuck(g, Moves(g) - Elems(order)) else !Waits(g, Moves(g) - Elems(order), j)
    ensures Legal(g, order + [j], if force then forced + {j} else forced)
    ensures |Moves(g) - Elems(order + [j])| == |Moves(g) - Elems(order)| - 1
  {
    var order', forced' := order + [j], if force then forced + {j} else forced;
    assert Elems(order') == Elems(order) + {j};
    assert Moves(g) - Elems(order') == (Moves(g) - Elems(order)) - {j};
    forall x | 0 <= x < |order'|
      ensures if order'[x] in forced' then Stuck(g, Moves(g) - Elems(order'[..x]))
              else Free(g, Elems(order'[..x]), order'[x])
    {
      if x < |order| {
        assert order'[..x] == order[..x] && order'[x] in order;
      } else {
        assert order'[..x] == order && j !in Elems(order);
        if !force {
          forall k | Blocks(g, j, k) ensures k in Elems(order) {
            assert k in Moves(g);
          }
        }
      }
    }
  }

  /** The state of the scheduler after it reported the renames in `order`. */
  ghost predicate Reported(b: seq<Item>, a: seq<Change>, order: seq<nat>, forced: set<nat>,
                           items: seq<Item>, changes: seq<Change>)
    requires ReadState(b, a)
  {
    var from, g := Renames(b, a), Links(b, a);
    && Legal(g, order, forced)
    && items == FlagItems(b, a, from, Left(from, order))
    && changes == FlagChanges(a, from, Left(from, order))
  }

  lemma EventsAppend(b: seq<Item>, a: seq<Change>, acts: seq<Act>, x: Act)
    requires ActsOk(b, a, acts) && ActOk(b, a, Renames(b, a), x)
    ensures ActsOk(b, a, acts + [x])
    ensures Events(b, a, acts + [x]) == Events(b, a, acts) + [EventOf(b, a, Renames(b, a), x)]
  {
  }

  lemma ReportedStep(b: seq<Item>, a: seq<Change>, order: seq<nat>, forced: set<nat>, j: nat, force: bool,
                     items: seq<Item>, changes: seq<Change>)
    requires ReadState(b, a) && Reported(b, a, order, forced, items, changes)
    requires j in Moves(Links(b, a)) && j !in order
    requires var g := Links(b, a);
             if force then Stuck(g, Moves(g) - Elems(order)) else !Waits(g, Moves(g) - Elems(order), j)
    ensures |items| == |b| && |changes| == |a| && ActOk(b, a, Renames(b, a), Move(j))
    ensures changes[j].movedFrom.Some? && changes[j].movedFrom.value < |items|
    ensures var i := changes[j].movedFrom.value;
            && Moved(items[i].name, changes[j].item.name, changes[j].item.inode)
               == EventOf(b, a, Renames(b, a), Move(j))
            && Reported(b, a, order + [j], if force then forced + {j} else forced,
                        items[i := items[i].(moved := false)], changes[j := changes[j].(movedFrom := None)])
    ensures |Moves(Links(b, a)) - Elems(order + [j])| == |Moves(Links(b, a)) - Elems(order)| - 1
  {
    InMovesOf(b, a, Move(j));
    ReportStep(b, a, order, j);
    ReportLegal(Links(b, a), order, forced, j, force);
  }

  /** The start of a pass of the scheduler: the two lists, the log, and what was reported before. */
  datatype Pass = Pass(b: seq<Item>, a: seq<Change>, start: seq<Event>, order0: seq<nat>, forced0: set<nat>, want: bool)

  /** The state of the scheduler after some renames have been reported. */
  ghost predicate Running(b: seq<Item>, a: seq<Change>, start: seq<Event>, order: seq<nat>, forced: set<nat>,
                          nMoves: nat, items: seq<Item>, changes: seq<Change>, events: seq<Event>)
  {
    && ReadState(b, a)
    && Reported(b, a, order, forced, items, changes)
    && Logged(b, a, order, start, events)
    && nMoves == |Moves(Links(b, a)) - Elems(order)|
  }

  /** A pass has looked at the first `j` entries of the new listing. */
  ghost predicate InRound(p: Pass, j: nat, order: seq<nat>, forced: set<nat>, wantOverlap: bool) {
    var g := Links(p.b, p.a);
    && p.order0 <= order
    && (order == p.order0 ==> forced == p.forced0 && wantOverlap == p.want)
    && (order != p.order0 ==> !wantOverlap)
    && (wantOverlap ==> Stuck(g, Moves(g) - Elems(order)))
    && (order == p.order0 ==>
          forall k | k in Moves(g) - Elems(order) && k < j :: !p.want && Waits(g, Moves(g) - Elems(order), k))
  }

  /** The events reported after those of `order0`. */
  ghost predicate Logged(b: seq<Item>, a: seq<Change>, order: seq<nat>, start: seq<Event>, events: seq<Event>) {
    ActsOk(b, a, MovesIn(order)) && events == start + Events(b, a, MovesIn(order))
  }

  lemma LoggedStep(b: seq<Item>, a: seq<Change>, order: seq<nat>, start: seq<Event>, events: seq<Event>, j: nat)
    requires Logged(b, a, order, start, events) && ActOk(b, a, Renames(b, a), Move(j))
    ensures Logged(b, a, order + [j], start, events + [EventOf(b, a, Renames(b, a), Move(j))])
  {
    EventsAppend(b, a, MovesIn(order), Move(j));
    assert MovesIn(order + [j]) == MovesIn(order) + [Move(j)];
  }

  /** What the scheduler reads of entry `j`. */
  lemma SchedulerReads(b: seq<Item>, a: seq<Change>, order: seq<nat>, forced: set<nat>, j: nat,
                       items: seq<Item>, changes: seq<Change>)
    requires ReadState(b, a) && Reported(b, a, order, forced, items, changes) && j < |a|
    ensures |items| == |b| && |changes| == |a|
    ensures changes[j].item.moved && changes[j].movedFrom.Some? <==> j in Moves(Links(b, a)) - Elems(order)
    ensures changes[j].item.replaced ==> changes[j].replacee.Some? && changes[j].replacee.value < |items|
    ensures j in Moves(Links(b, a)) ==>
              (changes[j].item.replaced && items[changes[j].replacee.value].moved
               <==> Waits(Links(b, a), Moves(Links(b, a)) - Elems(order), j))
  {
    assert ChangeOk(b, a[j]);
    if j in Moves(Links(b, a)) {
      OverlapMeans(b, a, order, j);
    }
  }

  /** A pass that reported nothing means that no rename can be reported. */
  lemma NoProgress(p: Pass, forced: set<nat>, wantOverlap: bool)
    requires InRound(p, |p.a|, p.order0, forced, wantOverlap)
    requires Moves(Links(p.b, p.a)) - Elems(p.order0) != {}
    ensures !p.want && Stuck(Links(p.b, p.a), Moves(Links(p.b, p.a)) - Elems(p.order0))
  {
    var g := Links(p.b, p.a);
    var k :| k in Moves(g) - Elems(p.order0);
    assert k < |p.a|;
  }

  /** After a round the rest is up to the next rounds; if it made no progress, the next one is forced. */
  lemma {:induction false} RoundDone(p: Pass, n: nat, nMoves: nat, order: seq<nat>, forced: set<nat>, wantOverlap: bool)
    requires InRound(p, |p.a|, order, forced, wantOverlap) && nMoves == n - (|order| - |p.order0|)
    requires n > 0 && n == |Moves(Links(p.b, p.a)) - Elems(p.order0)|
    requires (order, wantOverlap) == Sweep(Links(p.b, p.a), p.order0, p.want, 0)
    ensures var g := Links(p.b, p.a);
            if n == nMoves then
              && order == p.order0 && !p.want && Stuck(g, Moves(g) - Elems(order))
              && Rounds(g, p.order0, p.want) == Rounds(g, order, true)
            else Rounds(g, p.order0, p.want) == Rounds(g, order, wantOverlap)
  {
    var g := Links(p.b, p.a);
    assert Moves(g) - Elems(p.order0) != {};
    if n == nMoves {
      assert order == p.order0;
      NoProgress(p, forced, wantOverlap);
    }
    RoundsNext(g, p.order0, p.want, order, wantOverlap);
  }

  lemma ReportNow(p: Pass, j: nat, order: seq<nat>, forced: set<nat>, wantOverlap: bool,
                  nMoves: nat, items: seq<Item>, changes: seq<Change>, events: seq<Event>)
    requires Running(p.b, p.a, p.start, order, forced, nMoves, items, changes, events)
    requires InRound(p, j, order, forced, wantOverlap)
    requires j in Moves(Links(p.b, p.a)) - Elems(order)
    requires Waits(Links(p.b, p.a), Moves(Links(p.b, p.a)) - Elems(order), j) == wantOverlap
    ensures nMoves > 0 && |items| == |p.b| && j < |changes| == |p.a|
    ensures changes[j].movedFrom.Some? && changes[j].movedFrom.value < |items|
    ensures var i := changes[j].movedFrom.value;
            Running(p.b, p.a, p.start, order + [j], if wantOverlap then forced + {j} else forced, nMoves - 1,
                    items[i := items[i].(moved := false)], changes[j := changes[j].(movedFrom := None)],
                    events + [Moved(items[i].name, changes[j].item.name, changes[j].item.inode)])
    ensures InRound(p, j + 1, order + [j], if wantOverlap then forced + {j} else forced, false)
  {
    ReportedStep(p.b, p.a, order, forced, j, wantOverlap, items, changes);
    LoggedStep(p.b, p.a, order, p.start, events, j);
  }

  lemma SkipNow(p: Pass, j: nat, order: seq<nat>, forced: set<nat>, wantOverlap: bool)
    requires InRound(p, j, order, forced, wantOverlap)
    requires j in Moves(Links(p.b, p.a)) - Elems(order) ==>
               Waits(Links(p.b, p.a), Moves(Links(p.b, p.a)) - Elems(order), j) != wantOverlap
    ensures InRound(p, j + 1, order, forced, wantOverlap)
  {
  }

  // ------------------------------------------------------------------ reading a listing

  lemma {:induction false} FindIgnoresMarks(stored: seq<Item>, items: seq<Item>, n: Name)
    requires UniqueNames(stored) && |items| == |stored|
    requires forall i | 0 <= i < |items| :: items[i].name == stored[i].name
    ensures Find(items, n) == Find(stored, n)
  {
    var x, y := Find(items, n), Find(stored, n);
    if x.Some? {
      assert items[x.value].name == stored[x.value].name;
    }
    if y.Some? {
      assert items[y.value].name == stored[y.value].name;
    }
  }

  lemma {:induction false} MarkStep(stored: seq<Item>, stream: seq<Dirent>, k: nat)
    requires UniqueNames(stored) && k < |stream| && (forall i | 0 <= i < |stored| :: !IsDot(stored[i].name))
    ensures var prev, next := Marked(stored, stream[..k]), Marked(stored, stream[..k + 1]);
            var found := Find(stored, stream[k].name);
            if !IsDot(stream[k].name) && found.Some? && stored[found.value].inode == stream[k].inode
            then next == prev[found.value := prev[found.value].(intact := true)]
            else next == prev
    ensures Changes(stored, stream[..k + 1]) == ChangeOf(stored, stream[k]) + Changes(stored, stream[..k])
  {
    assert stream[..k + 1] == stream[..k] + [stream[k]];
    forall i | 0 <= i < |stored|
      ensures Survives(stream[..k + 1], stored[i])
              <==> Survives(stream[..k], stored[i])
                   || (stream[k].name == stored[i].name && stream[k].inode == stored[i].inode)
    {
      if Survives(stream[..k], stored[i]) {
        var d :| d in stream[..k] && d.name == stored[i].name && d.inode == stored[i].inode;
        assert d in stream[..k + 1];
      }
      assert stream[k] in stream[..k + 1];
    }
  }

  ghost predicate ChangedEntry(stored: seq<Item>, stream: seq<Dirent>, c: Change) {
    exists d :: d in stream && ChangeOf(stored, d) == [c]
  }

  lemma ChangedEntryLast(stored: seq<Item>, rest: seq<Dirent>, last: Dirent, c: Change)
    ensures ChangedEntry(stored, rest + [last], c) <==> ChangedEntry(stored, rest, c) || ChangeOf(stored, last) == [c]
  {
    var stream := rest + [last];
    assert forall d :: d in stream <==> d in rest || d == last;
  }

  /** The change records are those of the entries of the listing. */
  lemma {:induction false} ChangesFrom(stored: seq<Item>, stream: seq<Dirent>)
    ensures forall c :: c in Changes(stored, stream) <==> ChangedEntry(stored, stream, c)
  {
    if stream != [] {
      var last, rest := stream[|stream| - 1], stream[..|stream| - 1];
      ChangesFrom(stored, rest);
      assert stream == rest + [last];
      forall c ensures c in Changes(stored, stream) <==> ChangedEntry(stored, stream, c) {
        ChangedEntryLast(stored, rest, last, c);
        assert c in ChangeOf(stored, last) <==> ChangeOf(stored, last) == [c];
      }
    }
  }

  /** No name has two of them. */
  lemma {:induction false} ChangesUnique(stored: seq<Item>, stream: seq<Dirent>)
    requires UniqueListing(stream)
    ensures UniqueChanges(Changes(stored, stream))
  {
    if stream != [] {
      var last, rest := stream[|stream| - 1], stream[..|stream| - 1];
      ChangesUnique(stored, rest);
      ChangesFrom(stored, rest);
      var tail := Changes(stored, rest);
      forall j | 0 <= j < |tail| ensures tail[j].item.name != last.name {
        assert tail[j] in tail;
        var d :| d in rest && ChangeOf(stored, d) == [tail[j]];
        var x :| 0 <= x < |rest| && rest[x] == d;
        assert stream[x].name != stream[|stream| - 1].name;
      }
      UniqueWithHead(ChangeOf(stored, last), last.name, tail);
    }
  }

  lemma UniqueWithHead(head: seq<Change>, n: Name, tail: seq<Change>)
    requires |head| <= 1 && (forall c | c in head :: c.item.name == n)
    requires (forall j | 0 <= j < |tail| :: tail[j].item.name != n)
    requires UniqueChanges(tail)
    ensures UniqueChanges(head + tail)
  {
    var a := head + tail;
    forall j | 0 <= j < |a| ensures a[j].item.name == n <==> j < |head| {
      if j < |head| {
        assert a[j] in head;
      } else {
        assert a[j] == tail[j - |head|];
      }
    }
    forall j, k | |head| <= j < |a| && |head| <= k < |a| && a[j].item.name == a[k].item.name ensures j == k {
      assert a[j] == tail[j - |head|] && a[k] == tail[k - |head|];
    }
  }

  lemma SameName(stream: seq<Dirent>, d: Dirent, e: Dirent)
    requires UniqueListing(stream) && d in stream && e in stream && d.name == e.name
    ensures d == e
  {
    var x, y :| 0 <= x < |stream| && 0 <= y < |stream| && stream[x] == d && stream[y] == e;
  }

  /** Reading a listing gives the diff the input it needs. */
  lemma {:induction false} ReadingIsReadState(stored: seq<Item>, stream: seq<Dirent>)
    requires Stored(stored) && UniqueListing(stream)
    ensures ReadState(Marked(stored, stream), Changes(stored, stream))
  {
    var b, a := Marked(stored, stream), Changes(stored, stream);
    ChangesUnique(stored, stream);
    ChangesFrom(stored, stream);
    forall j | 0 <= j < |a| ensures ChangeOk(b, a[j]) {
      assert a[j] in a;
      ChangeIsOk(stored, stream, a[j]);
    }
    SortedIsUnique(b);
  }

  lemma ChangeIsOk(stored: seq<Item>, stream: seq<Dirent>, c: Change)
    requires Stored(stored) && UniqueListing(stream) && ChangedEntry(stored, stream, c)
    ensures ChangeOk(Marked(stored, stream), c)
  {
    var d :| d in stream && ChangeOf(stored, d) == [c];
    forall x | x in stream && x.name == d.name ensures x == d {
      SameName(stream, x, d);
    }
  }

  /** What the diff leads to is what the listing shows. */
  lemma {:induction false} GoalIsListing(stored: seq<Item>, stream: seq<Dirent>, n: Name)
    requires Stored(stored) && UniqueListing(stream)
    requires ReadState(Marked(stored, stream), Changes(stored, stream))
    ensures Goal(Marked(stored, stream), Changes(stored, stream), n) == Lookup(ListingDir(stream), n)
  {
    ChangesFrom(stored, stream);
    if d :| d in stream && d.name == n && !IsDot(n) {
      forall e | e in stream && e.name == n ensures e == d {
        SameName(stream, e, d);
      }
      ListedGoal(stored, stream, d);
    } else {
      UnlistedGoal(stored, stream, n);
    }
  }

  lemma {:induction false} ListedGoal(stored: seq<Item>, stream: seq<Dirent>, d: Dirent)
    requires Stored(stored) && UniqueListing(stream) && d in stream && !IsDot(d.name)
    requires ReadState(Marked(stored, stream), Changes(stored, stream))
    ensures Goal(Marked(stored, stream), Changes(stored, stream), d.name) == Some(d.inode)
  {
    var b, a, n := Marked(stored, stream), Changes(stored, stream), d.name;
    ChangesFrom(stored, stream);
    if ChangeOf(stored, d) == [] {
      forall j | 0 <= j < |a| ensures a[j].item.name != n {
        assert a[j] in a && ChangedEntry(stored, stream, a[j]);
        var x :| x in stream && ChangeOf(stored, x) == [a[j]];
        if x.name == n {
          SameName(stream, x, d);
        }
      }
      var i := Find(stored, n).value;
      assert b[i].intact && b[i].name == n;
    } else {
      var c := ChangeOf(stored, d)[0];
      assert ChangedEntry(stored, stream, c);
      var j :| 0 <= j < |a| && a[j] == c;
      assert a[j].item.name == n;
    }
  }

  lemma {:induction false} UnlistedGoal(stored: seq<Item>, stream: seq<Dirent>, n: Name)
    requires Stored(stored) && UniqueListing(stream)
    requires forall d | d in stream && d.name == n :: IsDot(n)
    requires ReadState(Marked(stored, stream), Changes(stored, stream))
    ensures Goal(Marked(stored, stream), Changes(stored, stream), n) == None
  {
    var b, a := Marked(stored, stream), Changes(stored, stream);
    ChangesFrom(stored, stream);
    forall j | 0 <= j < |a| ensures a[j].item.name != n {
      assert a[j] in a && ChangedEntry(stored, stream, a[j]);
      var x :| x in stream && ChangeOf(stored, x) == [a[j]];
    }
    if i :| 0 <= i < |b| && b[i].name == n {
      assert !b[i].intact;
    }
  }

  // ------------------------------------------------------------------ rebuilding the stored list

  function Cleared(it: Item): Item {
    it.(intact := false, replaced := false, moved := false)
  }

  /** The entries among the first `n` that stay, without the others. */
  function Kept(items: seq<Item>, n: nat): seq<Item>
    requires n <= |items|
  {
    if n == 0 then [] else Kept(items, n - 1) + if items[n - 1].intact then [items[n - 1]] else []
  }

  lemma {:induction false} KeptMembers(items: seq<Item>, n: nat)
    requires n <= |items|
    ensures forall it :: it in Kept(items, n) <==> exists i :: 0 <= i < n && items[i] == it && it.intact
  {
    if n > 0 {
      KeptMembers(items, n - 1);
    }
  }

  lemma CutAt(kept: seq<Item>, all: seq<Item>, p: nat)
    requires p < |all|
    ensures var s := kept + all[p..];
            && s[|kept|] == all[p]
            && s[..|kept|] + s[|kept| + 1..] == kept + all[p + 1..]
            && s == kept + [all[p]] + all[p + 1..]
  {
  }

  /** The first `p` entries have been looked at, and `k` of them are left. */
  ghost predicate Purging(all: seq<Item>, p: nat, items: seq<Item>, k: nat) {
    p <= |all| && items == Kept(all, p) + all[p..] && k == |Kept(all, p)|
  }

  lemma {:induction false} PurgeNext(all: seq<Item>, p: nat, items: seq<Item>, k: nat)
    requires Purging(all, p, items, k) && k < |items|
    ensures p < |all|
    ensures if items[k].intact then Purging(all, p + 1, items, k + 1)
            else Purging(all, p + 1, items[..k] + items[k + 1..], k)
  {
    CutAt(Kept(all, p), all, p);
  }

  lemma {:induction false} KeptSorted(items: seq<Item>, n: nat)
    requires Sorted(items) && n <= |items|
    ensures Sorted(Kept(items, n))
  {
    if n > 0 {
      KeptSorted(items, n - 1);
      KeptMembers(items, n - 1);
      var kept := Kept(items, n - 1);
      forall x | 0 <= x < |kept| ensures NameLess(kept[x].name, items[n - 1].name) {
        assert kept[x] in kept;
      }
    }
  }

  /** Insert an entry at its place in name order. */
  function Insert(items: seq<Item>, it: Item): (r: seq<Item>)
    ensures forall x :: x in r <==> x in items || x == it
    ensures |r| == |items| + 1
  {
    if items == [] || NameLess(it.name, items[0].name) then [it] + items
    else
      var r := [items[0]] + Insert(items[1..], it);
      assert items == [items[0]] + items[1..];
      r
  }

  lemma {:induction false} InsertSorted(items: seq<Item>, it: Item)
    requires Sorted(items) && forall x | x in items :: x.name != it.name
    ensures Sorted(Insert(items, it))
  {
    if items == [] {
    } else if NameLess(it.name, items[0].name) {
      forall x | 0 < x < |items| ensures NameLess(it.name, items[x].name) {
        NameOrderTransitive(it.name, items[0].name, items[x].name);
      }
    } else {
      NameOrderTotal(it.name, items[0].name);
      InsertSorted(items[1..], it);
      var r := Insert(items[1..], it);
      forall x | 0 <= x < |r| ensures NameLess(items[0].name, r[x].name) {
        assert r[x] in r;
        if r[x] in items[1..] {
          var y :| 0 <= y < |items[1..]| && items[1..][y] == r[x];
          assert items[y + 1] == r[x];
        }
      }
    }
  }

  /** The changes can still be inserted: their names are new. */
  ghost predicate Joinable(items: seq<Item>, changes: seq<Change>) {
    && Sorted(items)
    && (forall it, j | it in items && 0 <= j < |changes| :: it.name != changes[j].item.name)
    && (forall j, k | 0 <= j < |changes| && 0 <= k < |changes| ::
          changes[j].item.name == changes[k].item.name ==> j == k)
  }

  lemma {:induction false} JoinStep(items: seq<Item>, changes: seq<Change>)
    requires Joinable(items, changes) && changes != []
    ensures Joinable(Insert(items, changes[0].item), changes[1..])
  {
    InsertSorted(items, changes[0].item);
  }

  ghost predicate Joined(items: seq<Item>, changes: seq<Change>, it: Item) {
    it in items || exists j :: 0 <= j < |changes| && it == changes[j].item
  }

  lemma {:induction false} JoinedStep(items: seq<Item>, changes: seq<Change>, it: Item)
    requires changes != []
    ensures Joined(Insert(items, changes[0].item), changes[1..], it) <==> Joined(items, changes, it)
  {
    if it !in items && Joined(items, changes, it) {
      var j :| 0 <= j < |changes| && it == changes[j].item;
      assert j == 0 || it == changes[1..][j - 1].item;
    }
  }

  /** The stored list after a diff: the unchanged entries and the new ones, without marks. */
  ghost predicate Rebuilt(b: seq<Item>, a: seq<Change>, items: seq<Item>) {
    Stored(items) && forall it :: it in items <==> IsNew(b, a, it)
  }

  ghost predicate IsNew(b: seq<Item>, a: seq<Change>, it: Item) {
    || (exists i :: 0 <= i < |b| && b[i].intact && it == Cleared(b[i]))
    || (exists j :: 0 <= j < |a| && it == Cleared(a[j].item))
  }

  lemma RebuiltShowsGoal(b: seq<Item>, a: seq<Change>, items: seq<Item>, n: Name)
    requires ReadState(b, a) && Rebuilt(b, a, items)
    ensures Lookup(DirOf(items), n) == Goal(b, a, n)
  {
    SortedIsUnique(items);
    DirOfLookup(items, n);
    if j :| 0 <= j < |a| && a[j].item.name == n {
      assert IsNew(b, a, Cleared(a[j].item)) && Cleared(a[j].item) in items;
      var x :| 0 <= x < |items| && items[x] == Cleared(a[j].item);
    } else if i :| 0 <= i < |b| && b[i].intact && b[i].name == n {
      assert IsNew(b, a, Cleared(b[i])) && Cleared(b[i]) in items;
      var x :| 0 <= x < |items| && items[x] == Cleared(b[i]);
    } else {
      forall x | 0 <= x < |items| ensures items[x].name != n {
        assert items[x] in items && IsNew(b, a, items[x]);
      }
    }
  }

  /**
   * No entry of either list ever carries the type word of a search key: not while the first `i` old entries have
   * been matched, nor, with `i == |b|`, while the renames in `order` have been reported.
   */
  lemma {:induction false} NoSentinel(b: seq<Item>, a: seq<Change>, i: nat, order: seq<nat>, items: seq<Item>,
                                      changes: seq<Change>)
    requires ReadState(b, a) && i <= |b|
    requires var from := Match(b, a, i);
             items == FlagItems(b, a, from, Left(from, order)) && changes == FlagChanges(a, from, Left(from, order))
    ensures forall it | it in items :: !IsSentinel(it)
    ensures forall c | c in changes :: !IsSentinel(c.item)
  {
    MatchCorrect(b, a, i);
    forall it | it in items ensures !IsSentinel(it) {
      var x :| 0 <= x < |items| && items[x] == it;
      if items[x].moved {
        var left := Left(Match(b, a, i), order);
        var j :| 0 <= j < |left| && left[j] == Some(x);
      }
    }
    forall c | c in changes ensures !IsSentinel(c.item) {
      var j :| 0 <= j < |changes| && changes[j] == c;
      assert ChangeOk(b, a[j]);
    }
  }

  lemma AllReported(b: seq<Item>, a: seq<Change>, order: seq<nat>)
    requires Elems(order) <= Moves(Links(b, a)) && |Moves(Links(b, a)) - Elems(order)| == 0
    ensures Elems(order) == Moves(Links(b, a))
  {
    assert Moves(Links(b, a)) - Elems(order) == {};
  }

  /** The renames between a stored list and a listing. */
  function RenamesBetween(stored: seq<Item>, stream: seq<Dirent>): Graph {
    Links(Marked(stored, stream), Changes(stored, stream))
  }

  lemma MarksKeepDir(stored: seq<Item>, stream: seq<Dirent>)
    requires Stored(stored)
    ensures DirOf(Marked(stored, stream)) == DirOf(stored)
  {
    SortedIsUnique(stored);
    var b := Marked(stored, stream);
    SortedIsUnique(b);
    forall n ensures Lookup(DirOf(b), n) == Lookup(DirOf(stored), n) {
      DirOfLookup(b, n);
      DirOfLookup(stored, n);
      if i :| 0 <= i < |stored| && stored[i].name == n {
        assert b[i].name == n;
      }
    }
    SameLookup(DirOf(b), DirOf(stored));
  }

  lemma SameActs(b: seq<Item>, a: seq<Change>, order: seq<nat>, drops: seq<Act>, moves: seq<Act>, creates: seq<Act>,
                 start: seq<Event>)
    requires ActsOk(b, a, drops) && ActsOk(b, a, moves) && ActsOk(b, a, creates)
    requires Acts(b, a, order) == drops + moves + creates
    ensures ActsOk(b, a, Acts(b, a, order))
    ensures start + Events(b, a, Acts(b, a, order))
            == start + Events(b, a, drops) + Events(b, a, moves) + Events(b, a, creates)
  {
    assert Events(b, a, drops + moves + creates) == Events(b, a, drops) + Events(b, a, moves) + Events(b, a, creates);
  }

  lemma {:induction false} PurgedIsJoinable(b: seq<Item>, a: seq<Change>, left: seq<Option<nat>>, items: seq<Item>,
                                            changes: seq<Change>)
    requires ReadState(b, a) && |left| == |a|
    requires items == FlagItems(b, a, Renames(b, a), left) && changes == FlagChanges(a, Renames(b, a), left)
    ensures Joinable(Kept(items, |items|), changes)
  {
    KeptSorted(items, |items|);
    KeptMembers(items, |items|);
    forall it, j | it in Kept(items, |items|) && 0 <= j < |changes| ensures it.name != changes[j].item.name {
      var i :| 0 <= i < |items| && items[i] == it && it.intact;
      assert ChangeOk(b, a[j]);
    }
  }

  lemma ClearedMembers(joined: seq<Item>, items: seq<Item>, it: Item)
    requires |items| == |joined| && forall i | 0 <= i < |items| :: items[i] == Cleared(joined[i])
    ensures it in items <==> exists o :: o in joined && it == Cleared(o)
  {
    if i :| 0 <= i < |items| && items[i] == it {
      assert joined[i] in joined;
    }
    if o :| o in joined && it == Cleared(o) {
      var i :| 0 <= i < |joined| && joined[i] == o;
      assert items[i] == it;
    }
  }

  lemma {:induction false} JoinedIsNew(b: seq<Item>, a: seq<Change>, left: seq<Option<nat>>, flagged: seq<Item>,
                                       changes: seq<Change>, o: Item)
    requires ReadState(b, a) && |left| == |a| && Joined(Kept(flagged, |flagged|), changes, o)
    requires flagged == FlagItems(b, a, Renames(b, a), left) && changes == FlagChanges(a, Renames(b, a), left)
    ensures !IsDot(o.name) && IsNew(b, a, Cleared(o))
  {
    KeptMembers(flagged, |flagged|);
    if o in Kept(flagged, |flagged|) {
      var i :| 0 <= i < |flagged| && flagged[i] == o && o.intact;
      assert Cleared(o) == Cleared(b[i]);
    } else {
      var j :| 0 <= j < |changes| && o == changes[j].item;
      assert ChangeOk(b, a[j]) && Cleared(o) == Cleared(a[j].item);
    }
  }

  lemma {:induction false} NewIsJoined(b: seq<Item>, a: seq<Change>, left: seq<Option<nat>>, flagged: seq<Item>,
                                       changes: seq<Change>, it: Item)
    requires ReadState(b, a) && |left| == |a| && IsNew(b, a, it)
    requires flagged == FlagItems(b, a, Renames(b, a), left) && changes == FlagChanges(a, Renames(b, a), left)
    ensures exists o :: Joined(Kept(flagged, |flagged|), changes, o) && it == Cleared(o)
  {
    KeptMembers(flagged, |flagged|);
    if i :| 0 <= i < |b| && b[i].intact && it == Cleared(b[i]) {
      assert Joined(Kept(flagged, |flagged|), changes, flagged[i]);
    } else {
      var j :| 0 <= j < |a| && it == Cleared(a[j].item);
      assert Joined(Kept(flagged, |flagged|), changes, changes[j].item);
    }
  }

  lemma {:induction false} JoinedIsRebuilt(b: seq<Item>, a: seq<Change>, left: seq<Option<nat>>, flagged: seq<Item>,
                                           changes: seq<Change>, joined: seq<Item>, items: seq<Item>)
    requires ReadState(b, a) && |left| == |a|
    requires flagged == FlagItems(b, a, Renames(b, a), left) && changes == FlagChanges(a, Renames(b, a), left)
    requires Sorted(joined) && forall it :: it in joined <==> Joined(Kept(flagged, |flagged|), changes, it)
    requires |items| == |joined| && forall i | 0 <= i < |items| :: items[i] == Cleared(joined[i])
    ensures Rebuilt(b, a, items)
  {
    forall x | 0 <= x < |items| ensures !IsDot(items[x].name) && IsNew(b, a, items[x]) {
      assert joined[x] in joined;
      JoinedIsNew(b, a, left, flagged, changes, joined[x]);
    }
    forall it | IsNew(b, a, it) ensures it in items {
      NewIsJoined(b, a, left, flagged, changes, it);
      ClearedMembers(joined, items, it);
    }
  }

  /** All that a finished diff guarantees. */
  lemma {:induction false} DiffTheorem(stored: seq<Item>, stream: seq<Dirent>, b: seq<Item>, a: seq<Change>,
                                       order: seq<nat>, forced: set<nat>, items: seq<Item>)
    requires Stored(stored) && UniqueListing(stream)
    requires b == Marked(stored, stream) && a == Changes(stored, stream) && ReadState(b, a)
    requires Legal(Links(b, a), order, forced) && Elems(order) == Moves(Links(b, a))
    requires ActsOk(b, a, Acts(b, a, order))
    requires Rebuilt(b, a, items)
    ensures DirOf(items) == ListingDir(stream)
    ensures forced == {} <==> Acyclic(Links(b, a))
    ensures var report := Events(b, a, Acts(b, a, order));
            && Replay(DirOf(stored), report) == DirOf(items) - ForcedNames(a, forced)
            && (Replay(DirOf(stored), report) == DirOf(items) <==> forced == {})
            && (Ordered(report) <==> forced == {})
            && (forced == {} ==> Faithful(DirOf(stored), report))
  {
    MarksKeepDir(stored, stream);
    LinksWellFormed(b, a);
    ForcedIffCyclic(Links(b, a), order, forced);
    LegalGivesPlan(b, a, order, forced);
    forall n ensures Lookup(DirOf(items), n) == Goal(b, a, n) && Goal(b, a, n) == Lookup(ListingDir(stream), n) {
      RebuiltShowsGoal(b, a, items, n);
      GoalIsListing(stored, stream, n);
    }
    SameLookup(DirOf(items), ListingDir(stream));
    ReplayMeaning(b, a, Acts(b, a, order), forced, DirOf(items));
    ReportOrder(b, a, Acts(b, a, order), forced);
  }

  // ------------------------------------------------------------------ a circular rename

  const TWO_ENTRIES := [Item("a", 1, Regular, false, false, false), Item("b", 2, Regular, false, false, false)]
  const SWAPPED := [Dirent("a", 2, Regular), Dirent("b", 1, Regular)]

  lemma SwapRead()
    ensures Marked(TWO_ENTRIES, SWAPPED) == TWO_ENTRIES
    ensures Changes(TWO_ENTRIES, SWAPPED) ==
            [Change(Item("b", 1, Regular, false, true, false), Some(1), None),
             Change(Item("a", 2, Regular, false, true, false), Some(0), None)]
  {
    var stored, stream := TWO_ENTRIES, SWAPPED;
    assert "a"[0] != "b"[0] && "."[0] != "a"[0] && "."[0] != "b"[0];
    SortedIsUnique(stored) by {
      assert NameLess("a", "b");
    }
    assert Find(stored, "a") == Some(0) && Find(stored, "b") == Some(1);
    assert stream[..1] == [stream[0]] && stream[..1][..0] == [];
    assert Changes(stored, stream[..1]) == ChangeOf(stored, stream[0]) + [];
    assert Changes(stored, stream) == ChangeOf(stored, stream[1]) + Changes(stored, stream[..1]);
  }

  lemma SwapMatched()
    ensures Links(TWO_ENTRIES, Changes(TWO_ENTRIES, SWAPPED)) == [Link(Some(0), Some(1)), Link(Some(1), Some(0))]
  {
    SwapRead();
    var b, a := TWO_ENTRIES, Changes(TWO_ENTRIES, SWAPPED);
    assert Match(b, a, 0) == [None, None];
    assert Match(b, a, 1) == [Some(0), None];
    assert FirstFree(a, Match(b, a, 1), 2, 0) == FirstFree(a, Match(b, a, 1), 2, 1) == Some(1);
    assert Match(b, a, 2) == [Some(0), Some(1)];
  }

  /**
   * The law that replaying the events gives the new directory does fail: when two entries swap
   * their names the renames are circular, and replay misses a name.
   */
  lemma SwapIsCircular()
    ensures Stored(TWO_ENTRIES) && UniqueListing(SWAPPED)
    ensures IsCycle(RenamesBetween(TWO_ENTRIES, SWAPPED), [0, 1])
  {
    assert "a"[0] != "b"[0] && "."[0] != "a"[0] && "."[0] != "b"[0];
    assert NameLess("a", "b");
    SwapRead();
    SwapMatched();
  }

  /** The callbacks made since `start` have been logged. */
  ghost predicate Noted(b: seq<Item>, a: seq<Change>, acts: seq<Act>, start: seq<Event>, events: seq<Event>) {
    ActsOk(b, a, acts) && events == start + Events(b, a, acts)
  }

  lemma NoteNext(b: seq<Item>, a: seq<Change>, acts: seq<Act>, x: Act, start: seq<Event>, events: seq<Event>)
    requires Noted(b, a, acts, start, events) && ActOk(b, a, Renames(b, a), x)
    ensures Noted(b, a, acts + [x], start, events + [EventOf(b, a, Renames(b, a), x)])
  {
    EventsAppend(b, a, acts, x);
  }

  /** What the next entry adds to the report of new entries. */
  lemma {:induction false} NoteAdded(b: seq<Item>, a: seq<Change>, left: seq<Option<nat>>, changes: seq<Change>, j: nat,
                                     start: seq<Event>, events: seq<Event>)
    requires |left| == |a| && changes == FlagChanges(a, Renames(b, a), left) && j < |a|
    requires Noted(b, a, Creates(Renames(b, a), j), start, events)
    ensures var it := changes[j].item;
            Noted(b, a, Creates(Renames(b, a), j + 1), start,
                  if it.moved then events else events + [Added(it.name, it.inode)])
  {
    if !changes[j].item.moved {
      NoteNext(b, a, Creates(Renames(b, a), j), Create(j), start, events);
    } else {
      assert Creates(Renames(b, a), j + 1) == Creates(Renames(b, a), j);
    }
  }

  class DirList {
    var items: seq<Item>      // the stored entries, in name order
    var changes: seq<Change>  // the entries of the new listing that are not in the stored list
    var events: seq<Event>    // the callbacks made so far

    constructor (stored: seq<Item>)
      ensures items == stored && changes == [] && events == []
    {
      items, changes, events := stored, [], [];
    }

    /** The first entry of the new listing with this inode that is not a rename yet. */
    method FindMove(inode: nat, ghost b: seq<Item>, ghost a: seq<Change>, ghost from: seq<Option<nat>>) returns (j: nat)
      requires |from| == |a| && changes == FlagChanges(a, from, from)
      ensures j <= |changes| && FirstFree(a, from, inode, 0) == if j < |changes| then Some(j) else None
    {
      j := 0;
      while j < |changes| && !(inode == changes[j].item.inode && !changes[j].item.moved)
        invariant j <= |changes|
        invariant forall k | 0 <= k < j :: !(a[k].item.inode == inode && from[k].None?)
      {
        j := j + 1;
      }
    }

    /** Make old entry `i` and new entry `j` a rename. */
    method Claim(i: nat, j: nat, ghost b: seq<Item>, ghost a: seq<Change>, ghost from: seq<Option<nat>>)
      requires |from| == |a| && i < |b| && j < |a| && from[j].None? && ChangeOk(b, a[j])
      requires items == FlagItems(b, a, from, from) && changes == FlagChanges(a, from, from)
      modifies this`items, this`changes
      ensures items == FlagItems(b, a, from[j := Some(i)], from[j := Some(i)])
      ensures changes == FlagChanges(a, from[j := Some(i)], from[j := Some(i)])
      ensures |Claimed(from[j := Some(i)])| == |Claimed(from)| + 1
    {
      ClaimStep(b, a, from, i, j);
      if changes[j].item.replaced {
        var k := changes[j].replacee.value;
        items := items[k := items[k].(replaced := true)];
      }
      changes := changes[j := Change(changes[j].item.(moved := true), changes[j].replacee, Some(i))];
      items := items[i := items[i].(moved := true)];
    }

    /** Pair renamed entries by inode and mark both lists. */
    method MatchMoves() returns (nMoves: nat)
      requires ReadState(items, changes)
      modifies this`items, this`changes
      ensures Reported(old(items), old(changes), [], {}, items, changes)
      ensures nMoves == |Moves(Links(old(items), old(changes)))|
    {
      ghost var b, a := items, changes;
      ghost var from := Match(b, a, 0);
      nMoves := 0;
      assert items == FlagItems(b, a, from, from) && changes == FlagChanges(a, from, from);
      var i := 0;
      while i < |items|
        invariant i <= |items| == |b| && |changes| == |a|
        invariant from == Match(b, a, i)
        invariant items == FlagItems(b, a, from, from) && changes == FlagChanges(a, from, from)
        invariant nMoves == |Claimed(from)|
      {
        if !items[i].intact {
          var j := FindMove(items[i].inode, b, a, from);
          if j < |changes| {
            Claim(i, j, b, a, from);
            nMoves := nMoves + 1;
            from := from[j := Some(i)];
          }
        }
        i := i + 1;
      }
      assert Left(from, []) == from;
      assert Claimed(from) == Moves(Links(b, a));
    }

    /** Report the entries that were removed or replaced. */
    method ReportGone(ghost b: seq<Item>, ghost a: seq<Change>)
      requires items == FlagItems(b, a, Renames(b, a), Renames(b, a))
      modifies this`events
      ensures ActsOk(b, a, Drops(b, Renames(b, a), |b|))
      ensures events == old(events) + Events(b, a, Drops(b, Renames(b, a), |b|))
    {
      ghost var acts: seq<Act> := [];
      var i := 0;
      while i < |items|
        invariant i <= |items|
        invariant acts == Drops(b, Renames(b, a), i) && Noted(b, a, acts, old(events), events)
      {
        if !items[i].intact && !items[i].moved {
          NoteNext(b, a, acts, Drop(i), old(events), events);
          acts := acts + [Drop(i)];
          if items[i].replaced {
            events := events + [Replaced(items[i].name, items[i].inode)];
          } else {
            events := events + [Removed(items[i].name, items[i].inode)];
          }
        }
        i := i + 1;
      }
    }

    /** Look at entry `j` of the new listing and report its rename if its overlap is as wanted. */
    method Consider(j: nat, n: nat, want: bool, order0: seq<nat>, ghost p: Pass, ghost forced0: set<nat>)
      returns (nMoves: nat, wantOverlap: bool, order: seq<nat>, ghost forced: set<nat>)
      requires Running(p.b, p.a, p.start, order0, forced0, n, items, changes, events)
      requires InRound(p, j, order0, forced0, want) && j < |p.a|
      requires Sweeping(Links(p.b, p.a), p.order0, p.want, order0, want, j)
      modifies this
      ensures Running(p.b, p.a, p.start, order, forced, nMoves, items, changes, events)
      ensures InRound(p, j + 1, order, forced, wantOverlap) && |changes| == |p.a|
      ensures nMoves == n - (|order| - |order0|)
      ensures Sweeping(Links(p.b, p.a), p.order0, p.want, order, wantOverlap, j + 1)
    {
      nMoves, wantOverlap, order, forced := n, want, order0, forced0;
      SchedulerReads(p.b, p.a, order, forced, j, items, changes);
      var isOverlap := changes[j].item.replaced && items[changes[j].replacee.value].moved;
      if changes[j].item.moved && changes[j].movedFrom.Some? && isOverlap == wantOverlap {
        ReportNow(p, j, order, forced, wantOverlap, nMoves, items, changes, events);
        var i := changes[j].movedFrom.value;
        events := events + [Moved(items[i].name, changes[j].item.name, changes[j].item.inode)];
        items := items[i := items[i].(moved := false)];
        changes := changes[j := changes[j].(movedFrom := None)];
        order, forced := order0 + [j], if want then forced0 + {j} else forced0;
        wantOverlap := false;
        nMoves := nMoves - 1;
      } else {
        SkipNow(p, j, order, forced, wantOverlap);
      }
    }

    /** One pass over the new listing. */
    method Round(n: nat, want: bool, order0: seq<nat>, ghost p: Pass)
      returns (nMoves: nat, wantOverlap: bool, order: seq<nat>, ghost forced: set<nat>)
      requires order0 == p.order0 && want == p.want
      requires Running(p.b, p.a, p.start, p.order0, p.forced0, n, items, changes, events)
      requires InRound(p, 0, p.order0, p.forced0, want) && |changes| == |p.a|
      modifies this
      ensures Running(p.b, p.a, p.start, order, forced, nMoves, items, changes, events)
      ensures InRound(p, |p.a|, order, forced, wantOverlap) && |changes| == |p.a|
      ensures nMoves == n - (|order| - |order0|)
      ensures (order, wantOverlap) == Sweep(Links(p.b, p.a), order0, want, 0)
    {
      nMoves, wantOverlap, order, forced := n, want, order0, p.forced0;
      var j := 0;
      while j < |changes|
        invariant j <= |changes| == |p.a|
        invariant Running(p.b, p.a, p.start, order, forced, nMoves, items, changes, events)
        invariant InRound(p, j, order, forced, wantOverlap)
        invariant nMoves == n - (|order| - |order0|)
        invariant Sweeping(Links(p.b, p.a), p.order0, p.want, order, wantOverlap, j)
      {
        nMoves, wantOverlap, order, forced := Consider(j, nMoves, wantOverlap, order, p, forced);
        j := j + 1;
      }
      SweepDone(Links(p.b, p.a), order0, want, order, wantOverlap);
    }

    /** Report all renames, round after round; a round without progress is followed by a forced report. */
    method ReportMoves(n: nat, ghost b: seq<Item>, ghost a: seq<Change>)
      returns (order: seq<nat>, ghost forced: set<nat>)
      requires Running(b, a, events, [], {}, n, items, changes, events) && |changes| == |a|
      modifies this
      ensures Running(b, a, old(events), order, forced, 0, items, changes, events)
      ensures order == Schedule(Links(b, a))
    {
      var nMoves, wantOverlap := n, false;
      order, forced := [], {};
      while nMoves > 0
        invariant Running(b, a, old(events), order, forced, nMoves, items, changes, events) && |changes| == |a|
        invariant wantOverlap ==> Stuck(Links(b, a), Moves(Links(b, a)) - Elems(order))
        invariant Rounds(Links(b, a), order, wantOverlap) == Schedule(Links(b, a))
        decreases nMoves, if wantOverlap then 0 else 1
      {
        var prev := nMoves;
        ghost var p := Pass(b, a, old(events), order, forced, wantOverlap);
        nMoves, wantOverlap, order, forced := Round(nMoves, wantOverlap, order, p);
        RoundDone(p, prev, nMoves, order, forced, wantOverlap);
        if prev == nMoves {
          wantOverlap := true;
        }
      }
      AllReported(b, a, order);
    }

    /** Report the new entries that are not renames. */
    method ReportAdded(ghost b: seq<Item>, ghost a: seq<Change>, ghost left: seq<Option<nat>>)
      requires |left| == |a| && changes == FlagChanges(a, Renames(b, a), left)
      modifies this`events
      ensures ActsOk(b, a, Creates(Renames(b, a), |a|))
      ensures events == old(events) + Events(b, a, Creates(Renames(b, a), |a|))
    {
      var j := 0;
      while j < |changes|
        invariant j <= |changes| == |a| && Noted(b, a, Creates(Renames(b, a), j), old(events), events)
      {
        NoteAdded(b, a, left, changes, j, old(events), events);
        if !changes[j].item.moved {
          events := events + [Added(changes[j].item.name, changes[j].item.inode)];
        }
        j := j + 1;
      }
    }

    /** Remove the entries that are not unchanged. */
    method Purge()
      modifies this`items
      ensures items == Kept(old(items), |old(items)|)
    {
      ghost var all, p := items, 0;
      var k := 0;
      while k < |items|
        invariant Purging(all, p, items, k)
        decreases |all| - p
      {
        PurgeNext(all, p, items, k);
        if !items[k].intact {
          items := items[..k] + items[k + 1..];
        } else {
          k := k + 1;
        }
        p := p + 1;
      }
    }

    /** Move the new entries into the stored list. */
    method Join()
      requires Joinable(items, changes)
      modifies this`items, this`changes
      ensures Sorted(items) && changes == []
      ensures forall it :: it in items <==> Joined(old(items), old(changes), it)
    {
      while changes != []
        invariant Joinable(items, changes)
        invariant forall it :: Joined(items, changes, it) <==> Joined(old(items), old(changes), it)
        decreases |changes|
      {
        JoinStep(items, changes);
        forall it ensures Joined(Insert(items, changes[0].item), changes[1..], it) <==> Joined(items, changes, it) {
          JoinedStep(items, changes, it);
        }
        items, changes := Insert(items, changes[0].item), changes[1..];
      }
      forall it ensures it in items <==> Joined(items, changes, it) {
      }
    }

    /** Clear the marks of all entries. */
    method ClearFlags()
      modifies this`items
      ensures |items| == |old(items)|
      ensures forall i | 0 <= i < |items| :: items[i] == Cleared(old(items)[i])
    {
      var i := 0;
      while i < |items|
        invariant i <= |items| == |old(items)|
        invariant forall k | 0 <= k < i :: items[k] == Cleared(old(items)[k])
        invariant forall k | i <= k < |items| :: items[k] == old(items)[k]
      {
        items := items[i := Cleared(items[i])];
        i := i + 1;
      }
    }

    /** Split a listing against the stored entries: mark those that are still there, collect the others. */
    method ReadDir(stream: seq<Dirent>)
      requires Stored(items) && UniqueListing(stream)
      modifies this`items, this`changes
      ensures items == Marked(old(items), stream) && changes == Changes(old(items), stream)
    {
      ghost var stored := items;
      SortedIsUnique(stored);
      changes := [];
      var k := 0;
      assert items == Marked(stored, stream[..0]);
      while k < |stream|
        invariant k <= |stream|
        invariant items == Marked(stored, stream[..k]) && changes == Changes(stored, stream[..k])
      {
        MarkStep(stored, stream, k);
        var ent := stream[k];
        if !IsDot(ent.name) {
          FindIgnoresMarks(stored, items, ent.name);
          var found := Find(items, ent.name);
          if found.Some? && items[found.value].inode == ent.inode {
            items := items[found.value := items[found.value].(intact := true)];
          } else {
            var it := Item(ent.name, ent.inode, ent.fileType, false, found.Some?, false);
            changes := [Change(it, found, None)] + changes;
          }
        }
        k := k + 1;
      }
      assert stream[..k] == stream;
    }

    /** Make all callbacks. */
    method Report() returns (order: seq<nat>, ghost forced: set<nat>)
      requires ReadState(items, changes)
      modifies this
      ensures order == Schedule(Links(old(items), old(changes)))
      ensures Legal(Links(old(items), old(changes)), order, forced)
      ensures Elems(order) == Moves(Links(old(items), old(changes)))
      ensures ActsOk(old(items), old(changes), Acts(old(items), old(changes), order))
      ensures events == old(events) + Events(old(items), old(changes), Acts(old(items), old(changes), order))
      ensures Reported(old(items), old(changes), order, forced, items, changes)
    {
      ghost var b, a := items, changes;
      ghost var from := Renames(b, a);
      var nMoves := MatchMoves();
      assert Left(from, []) == from;
      ReportGone(b, a);
      assert Logged(b, a, [], events, events);
      order, forced := ReportMoves(nMoves, b, a);
      AllReported(b, a, order);
      ReportAdded(b, a, Left(from, order));
      SameActs(b, a, order, Drops(b, from, |b|), MovesIn(order), Creates(from, |a|), old(events));
    }

    /** Replace all changed entries by the new ones. */
    method Rebuild(ghost b: seq<Item>, ghost a: seq<Change>, ghost left: seq<Option<nat>>)
      requires ReadState(b, a) && |left| == |a|
      requires items == FlagItems(b, a, Renames(b, a), left) && changes == FlagChanges(a, Renames(b, a), left)
      modifies this`items, this`changes
      ensures Rebuilt(b, a, items) && changes == []
    {
      ghost var flagged, moved := items, changes;
      PurgedIsJoinable(b, a, left, items, changes);
      Purge();
      Join();
      ghost var joined := items;
      ClearFlags();
      JoinedIsRebuilt(b, a, left, flagged, moved, joined, items);
    }

    /** Recognize all changes, make the callbacks, and bring the stored list up to date. */
    method Calculate() returns (order: seq<nat>, ghost forced: set<nat>)
      requires ReadState(items, changes)
      modifies this
      ensures order == Schedule(Links(old(items), old(changes)))
      ensures Legal(Links(old(items), old(changes)), order, forced)
      ensures Elems(order) == Moves(Links(old(items), old(changes)))
      ensures ActsOk(old(items), old(changes), Acts(old(items), old(changes), order))
      ensures events == old(events) + Events(old(items), old(changes), Acts(old(items), old(changes), order))
      ensures Rebuilt(old(items), old(changes), items) && changes == []
    {
      ghost var b, a := items, changes;
      order, forced := Report();
      Rebuild(b, a, Left(Renames(b, a), order));
    }

    /**
     * The whole diff of a stored list against a listing. The stored list ends up showing the
     * listing. Replaying the events on the old directory gives the new one, in order and step by
     * step, exactly when the renames are not circular; with circular renames it misses exactly
     * one name per cycle, the target of the rename that broke it.
     */
    method Refresh(stream: seq<Dirent>) returns (order: seq<nat>, ghost forced: set<nat>)
      requires Stored(items) && UniqueListing(stream)
      modifies this
      ensures Stored(items) && DirOf(items) == ListingDir(stream) && changes == []
      ensures old(events) <= events
      ensures var g := RenamesBetween(old(items), stream);
              && order == Schedule(g) && Legal(g, order, forced) && Elems(order) == Moves(g)
              && (forced == {} <==> Acyclic(g))
      ensures var report := events[|old(events)|..];
              && Replay(DirOf(old(items)), report) == DirOf(items) - ForcedNames(Changes(old(items), stream), forced)
              && (Replay(DirOf(old(items)), report) == DirOf(items) <==> forced == {})
              && (Ordered(report) <==> forced == {})
              && (forced == {} ==> Faithful(DirOf(old(items)), report))
    {
      ghost var stored := items;
      ReadDir(stream);
      ghost var b, a := items, changes;
      ReadingIsReadState(stored, stream);
      order, forced := Calculate();
      DiffTheorem(stored, stream, b, a, order, forced, items);
      assert events[|old(events)|..] == Events(b, a, Acts(b, a, order));
    }
  }
}
