/**
 * A whole directory diff on the graph of watches: the callbacks of the diff, made one after the
 * other, never leave a record that refers to an entry that is gone.
 */
module DiffCallbacks {
  import opened Wrappers
  import opened DepList
  import opened DiffSpec
  import opened DiffMeaning
  import opened WatchGraph
  import opened Subwatches
  import opened Hub

  /**
   * A diff of the directory of inotify watch `wd`: the two lists, the callbacks, where the entries
   * of the lists are in memory, and what the system says about the entries that are created.
   */
  datatype Diff = Diff(
    b: seq<Item>, a: seq<Change>, acts: seq<Act>, before: seq<ItemId>, after: seq<ItemId>,
    probe: string -> Probe, extend: bool)

  function EntryOf(it: Item): Entry {
    Entry(it.name, it.inode, it.fileType)
  }

  ghost predicate Injective(ids: seq<ItemId>) {
    forall i, j | 0 <= i < |ids| && 0 <= j < |ids| && ids[i] == ids[j] :: i == j
  }

  ghost predicate Fitting(c: Diff) {
    && ReadState(c.b, c.a)
    && (exists forced :: Plan(c.b, c.a, c.acts, forced))
    && |c.before| == |c.b| && |c.after| == |c.a|
    && Injective(c.before) && Injective(c.after)
    && (forall i, j | 0 <= i < |c.before| && 0 <= j < |c.after| :: c.before[i] != c.after[j])
  }

  function Sources(c: Diff): (from: seq<Option<nat>>)
    ensures |from| == |c.a|
  {
    Renames(c.b, c.a)
  }

  /** The callback takes old entry `i` out of the directory. */
  ghost predicate TakesOut(c: Diff, x: Act, i: nat) {
    x == Drop(i) || (x.Move? && x.j < |c.a| && Sources(c)[x.j] == Some(i))
  }

  /** The callback brings new entry `j` in. */
  ghost predicate BringsIn(x: Act, j: nat) {
    x == Move(j) || x == Create(j)
  }

  ghost predicate OutBy(c: Diff, i: nat, p: nat)
    requires p <= |c.acts|
  {
    exists q :: 0 <= q < p && TakesOut(c, c.acts[q], i)
  }

  ghost predicate InBy(c: Diff, j: nat, p: nat)
    requires p <= |c.acts|
  {
    exists q :: 0 <= q < p && BringsIn(c.acts[q], j)
  }

  /** The entries of the directory after the first `p` callbacks. */
  ghost function Present(c: Diff, p: nat): set<ItemId>
    requires Fitting(c) && p <= |c.acts|
  {
    (set i | 0 <= i < |c.before| && !OutBy(c, i, p) :: c.before[i])
    + (set j | 0 <= j < |c.after| && InBy(c, j, p) :: c.after[j])
  }

  lemma OutStep(c: Diff, i: nat, p: nat)
    requires Fitting(c) && p < |c.acts|
    ensures OutBy(c, i, p + 1) <==> OutBy(c, i, p) || TakesOut(c, c.acts[p], i)
    ensures TakesOut(c, c.acts[p], i) ==> !OutBy(c, i, p) && i < |c.b|
  {
    MatchCorrect(c.b, c.a, |c.b|);
    var forced :| Plan(c.b, c.a, c.acts, forced);
    assert ActOk(c.b, c.a, Sources(c), c.acts[p]);
    if TakesOut(c, c.acts[p], i) {
      forall q | 0 <= q < p ensures !TakesOut(c, c.acts[q], i) {
        assert ActOk(c.b, c.a, Sources(c), c.acts[q]);
        assert c.acts[q] != c.acts[p];
      }
    }
  }

  lemma InStep(c: Diff, j: nat, p: nat)
    requires Fitting(c) && p < |c.acts|
    ensures InBy(c, j, p + 1) <==> InBy(c, j, p) || BringsIn(c.acts[p], j)
    ensures BringsIn(c.acts[p], j) ==> !InBy(c, j, p) && j < |c.a|
  {
    var forced :| Plan(c.b, c.a, c.acts, forced);
    assert ActOk(c.b, c.a, Sources(c), c.acts[p]);
    if BringsIn(c.acts[p], j) {
      forall q | 0 <= q < p ensures !BringsIn(c.acts[q], j) {
        assert ActOk(c.b, c.a, Sources(c), c.acts[q]);
        assert c.acts[q] != c.acts[p];
      }
    }
  }

  lemma PresentIs(c: Diff, p: nat, x: ItemId)
    requires Fitting(c) && p <= |c.acts|
    ensures forall i | 0 <= i < |c.before| && c.before[i] == x :: x in Present(c, p) <==> !OutBy(c, i, p)
    ensures forall j | 0 <= j < |c.after| && c.after[j] == x :: x in Present(c, p) <==> InBy(c, j, p)
    ensures x !in c.before && x !in c.after ==> x !in Present(c, p)
  {
  }

  /** How a callback changes the set of entries. */
  lemma PresentStep(c: Diff, p: nat)
    requires Fitting(c) && p < |c.acts|
    ensures match c.acts[p]
            case Drop(i) =>
              i < |c.before| && c.before[i] in Present(c, p) && Present(c, p + 1) == Present(c, p) - {c.before[i]}
            case Move(j) =>
              && j < |c.after| && Sources(c)[j].Some? && Sources(c)[j].value < |c.before|
              && c.before[Sources(c)[j].value] in Present(c, p) && c.after[j] !in Present(c, p)
              && Present(c, p + 1) == Present(c, p) + {c.after[j]} - {c.before[Sources(c)[j].value]}
            case Create(j) =>
              j < |c.after| && c.after[j] !in Present(c, p) && Present(c, p + 1) == Present(c, p) + {c.after[j]}
  {
    var forced :| Plan(c.b, c.a, c.acts, forced);
    assert ActOk(c.b, c.a, Sources(c), c.acts[p]);
    forall i | 0 <= i < |c.before| ensures OutBy(c, i, p + 1) <==> OutBy(c, i, p) || TakesOut(c, c.acts[p], i) {
      OutStep(c, i, p);
    }
    forall j | 0 <= j < |c.after| ensures InBy(c, j, p + 1) <==> InBy(c, j, p) || BringsIn(c.acts[p], j) {
      InStep(c, j, p);
    }
    match c.acts[p]
    case Drop(i) =>
      OutStep(c, i, p);
    case Move(j) =>
      OutStep(c, Sources(c)[j].value, p);
      InStep(c, j, p);
    case Create(j) =>
      InStep(c, j, p);
  }

  /** The inotify watch and the entries the callbacks speak of exist. */
  predicate InMemory(h: Hub, wd: Wd, c: Diff) {
    && wd in h.g.iws
    && (forall i | 0 <= i < |c.before| :: c.before[i] in h.g.items)
    && (forall j | 0 <= j < |c.after| :: c.after[j] in h.g.items)
  }

  /** One callback. */
  function Perform(h: Hub, wd: Wd, c: Diff, p: nat): Hub
    requires Fitting(c) && p < |c.acts| && InMemory(h, wd, c)
  {
    PresentStep(c, p);
    match c.acts[p]
    case Drop(i) =>
      if IsReplaced(c.a, Sources(c), i) then HandleReplaced(h, wd, c.before[i])
      else HandleRemoved(h, wd, c.before[i], c.extend)
    case Move(j) => HandleMoved(h, wd, c.before[Sources(c)[j].value], c.after[j])
    case Create(j) => HandleAdded(h, wd, c.after[j], c.probe(c.a[j].item.name), c.extend)
  }

  /** Before the first callback: the old entries are listed, the new ones are in memory only. */
  ghost predicate Prepared(h: Hub, wd: Wd, c: Diff, fs: Key -> FileType) {
    && HubOk(h, fs) && Fitting(c) && InMemory(h, wd, c)
    && h.g.iws[wd].list == (set x | x in c.before)
    && (forall i | 0 <= i < |c.before| :: h.g.items[c.before[i]] == EntryOf(c.b[i]))
    && (forall j | 0 <= j < |c.after| ::
          && h.g.items[c.after[j]] == EntryOf(c.a[j].item)
          && FreshEntry(h.g, wd, c.after[j]) && ListedType(h.g, wd, c.after[j], fs))
    && (forall n :: ProbeTrue(h.g, wd, c.probe(n), fs))
  }

  /** After `p` callbacks, starting from `h0`. */
  ghost predicate Midway(h0: Hub, h: Hub, wd: Wd, c: Diff, p: nat, fs: Key -> FileType)
    requires Fitting(c) && p <= |c.acts|
  {
    && HubOk(h, fs) && OnlyEntries(h0.g, h.g, wd) && h0.log <= h.log
    && h.g.iws[wd].list == Present(c, p)
    && (forall y | y in h0.g.items && y !in c.after :: h.g.items[y] == h0.g.items[y])
    && (forall j | 0 <= j < |c.after| && !InBy(c, j, p) ::
          c.after[j] in h0.g.items && h.g.items[c.after[j]] == h0.g.items[c.after[j]])
  }

  lemma StartMidway(h: Hub, wd: Wd, c: Diff, fs: Key -> FileType)
    requires Prepared(h, wd, c, fs)
    ensures Midway(h, h, wd, c, 0, fs)
  {
    assert IWatchOk(h.g, wd);
    forall x ensures x in Present(c, 0) <==> x in c.before {
    }
  }

  /** A new entry that has not come in yet is still fresh. */
  lemma StillFresh(h0: Hub, h: Hub, wd: Wd, c: Diff, p: nat, fs: Key -> FileType, j: nat)
    requires Prepared(h0, wd, c, fs) && p <= |c.acts| && Midway(h0, h, wd, c, p, fs) && j < |c.after| && !InBy(c, j, p)
    ensures FreshEntry(h.g, wd, c.after[j]) && ListedType(h.g, wd, c.after[j], fs)
    ensures h.g.items[c.after[j]] == EntryOf(c.a[j].item)
  {
    PresentIs(c, p, c.after[j]);
    assert FreshEntry(h0.g, wd, c.after[j]) && ListedType(h0.g, wd, c.after[j], fs);
  }

  lemma MemoryStays(h0: Hub, h: Hub, wd: Wd, c: Diff, p: nat, fs: Key -> FileType)
    requires Prepared(h0, wd, c, fs) && p <= |c.acts| && Midway(h0, h, wd, c, p, fs)
    ensures InMemory(h, wd, c)
  {
  }

  /** A callback that changes no entry but the one it brings in leads to the next stage. */
  lemma MidwayNext(h0: Hub, h: Hub, h': Hub, wd: Wd, c: Diff, p: nat, fs: Key -> FileType)
    requires Fitting(c) && p < |c.acts| && Midway(h0, h, wd, c, p, fs)
    requires HubOk(h', fs) && OnlyEntries(h.g, h'.g, wd) && h.log <= h'.log && h'.g.iws[wd].list == Present(c, p + 1)
    requires forall y | y in h.g.items && h'.g.items[y] != h.g.items[y] ::
               exists j :: 0 <= j < |c.after| && c.after[j] == y && BringsIn(c.acts[p], j)
    ensures Midway(h0, h', wd, c, p + 1, fs)
  {
    forall j | 0 <= j < |c.after| && !InBy(c, j, p + 1)
      ensures c.after[j] in h0.g.items && h'.g.items[c.after[j]] == h0.g.items[c.after[j]]
    {
      InStep(c, j, p);
    }
  }

  lemma DropKept(h0: Hub, h: Hub, wd: Wd, c: Diff, p: nat, fs: Key -> FileType)
    requires Prepared(h0, wd, c, fs) && p < |c.acts| && Midway(h0, h, wd, c, p, fs) && InMemory(h, wd, c)
    requires c.acts[p].Drop?
    ensures Midway(h0, Perform(h, wd, c, p), wd, c, p + 1, fs)
  {
    PresentStep(c, p);
    var i := c.acts[p].i;
    if IsReplaced(c.a, Sources(c), i) {
      ReplacedKeeps(h, wd, c.before[i], fs);
    } else {
      RemovedKeeps(h, wd, c.before[i], c.extend, fs);
    }
    MidwayNext(h0, h, Perform(h, wd, c, p), wd, c, p, fs);
  }

  lemma MoveKept(h0: Hub, h: Hub, wd: Wd, c: Diff, p: nat, fs: Key -> FileType)
    requires Prepared(h0, wd, c, fs) && p < |c.acts| && Midway(h0, h, wd, c, p, fs) && InMemory(h, wd, c)
    requires c.acts[p].Move?
    ensures Midway(h0, Perform(h, wd, c, p), wd, c, p + 1, fs)
  {
    PresentStep(c, p);
    MatchCorrect(c.b, c.a, |c.b|);
    var j := c.acts[p].j;
    InStep(c, j, p);
    StillFresh(h0, h, wd, c, p, fs, j);
    assert h.g.items[c.before[Sources(c)[j].value]] == EntryOf(c.b[Sources(c)[j].value]);
    MovedKeeps(h, wd, c.before[Sources(c)[j].value], c.after[j], fs);
    MidwayNext(h0, h, Perform(h, wd, c, p), wd, c, p, fs);
  }

  lemma CreateKept(h0: Hub, h: Hub, wd: Wd, c: Diff, p: nat, fs: Key -> FileType)
    requires Prepared(h0, wd, c, fs) && p < |c.acts| && Midway(h0, h, wd, c, p, fs) && InMemory(h, wd, c)
    requires c.acts[p].Create?
    ensures Midway(h0, Perform(h, wd, c, p), wd, c, p + 1, fs)
  {
    PresentStep(c, p);
    var j := c.acts[p].j;
    InStep(c, j, p);
    StillFresh(h0, h, wd, c, p, fs, j);
    assert ProbeTrue(h0.g, wd, c.probe(c.a[j].item.name), fs);
    AddedKeeps(h, wd, c.after[j], c.probe(c.a[j].item.name), c.extend, fs);
    MidwayNext(h0, h, Perform(h, wd, c, p), wd, c, p, fs);
  }

  /** Each callback finds the records of its entry through the key of the entry, and keeps all invariants. */
  lemma PerformKeeps(h0: Hub, h: Hub, wd: Wd, c: Diff, p: nat, fs: Key -> FileType)
    requires Prepared(h0, wd, c, fs) && p < |c.acts| && Midway(h0, h, wd, c, p, fs) && InMemory(h, wd, c)
    ensures Midway(h0, Perform(h, wd, c, p), wd, c, p + 1, fs)
  {
    match c.acts[p]
    case Drop(_) => DropKept(h0, h, wd, c, p, fs);
    case Move(_) => MoveKept(h0, h, wd, c, p, fs);
    case Create(_) => CreateKept(h0, h, wd, c, p, fs);
  }

  /** The states a diff goes through: each callback is made once, in order. */
  ghost predicate IsTrace(hs: seq<Hub>, wd: Wd, c: Diff)
    requires Fitting(c) && |hs| <= |c.acts| + 1
  {
    forall p {:trigger FollowsAt(hs, wd, c, p)} | 0 <= p < |hs| - 1 :: FollowsAt(hs, wd, c, p)
  }

  ghost predicate FollowsAt(hs: seq<Hub>, wd: Wd, c: Diff, p: nat)
    requires Fitting(c) && p < |hs| - 1 && p < |c.acts|
  {
    Follows(hs[p], hs[p + 1], wd, c, p)
  }

  ghost predicate Follows(h: Hub, h': Hub, wd: Wd, c: Diff, p: nat)
    requires Fitting(c) && p < |c.acts|
  {
    InMemory(h, wd, c) && h' == Perform(h, wd, c, p)
  }

  lemma TraceExtends(hs: seq<Hub>, h: Hub, wd: Wd, c: Diff)
    requires Fitting(c) && 0 < |hs| <= |c.acts| && IsTrace(hs, wd, c) && Follows(hs[|hs| - 1], h, wd, c, |hs| - 1)
    ensures IsTrace(hs + [h], wd, c)
  {
    forall p: nat | p < |hs| ensures FollowsAt(hs + [h], wd, c, p) {
      assert p < |hs| - 1 ==> FollowsAt(hs, wd, c, p);
    }
  }

  lemma FollowsKeeps(h0: Hub, h: Hub, h': Hub, wd: Wd, c: Diff, p: nat, fs: Key -> FileType)
    requires Prepared(h0, wd, c, fs) && p < |c.acts| && Midway(h0, h, wd, c, p, fs) && Follows(h, h', wd, c, p)
    ensures Midway(h0, h', wd, c, p + 1, fs)
  {
    PerformKeeps(h0, h, wd, c, p, fs);
  }

  lemma NextMidway(h0: Hub, h: Hub, h': Hub, wd: Wd, c: Diff, p: nat, fs: Key -> FileType)
    requires Prepared(h0, wd, c, fs) && p < |c.acts| && Midway(h0, h, wd, c, p, fs) && Follows(h, h', wd, c, p)
    ensures Midway(h0, h', wd, c, p + 1, fs) && InMemory(h', wd, c)
  {
    FollowsKeeps(h0, h, h', wd, c, p, fs);
    MemoryStays(h0, h', wd, c, p + 1, fs);
  }

  lemma TraceNext(hs: seq<Hub>, wd: Wd, c: Diff, p: nat, fs: Key -> FileType)
    requires 0 < p < |hs| <= |c.acts| + 1 && Prepared(hs[0], wd, c, fs) && IsTrace(hs, wd, c)
    requires Midway(hs[0], hs[p - 1], wd, c, p - 1, fs)
    ensures Midway(hs[0], hs[p], wd, c, p, fs)
  {
    assert FollowsAt(hs, wd, c, p - 1);
    FollowsKeeps(hs[0], hs[p - 1], hs[p], wd, c, p - 1, fs);
  }

  lemma {:induction false} TraceKeeps(hs: seq<Hub>, wd: Wd, c: Diff, p: nat, fs: Key -> FileType)
    requires p < |hs| <= |c.acts| + 1 && Prepared(hs[0], wd, c, fs) && IsTrace(hs, wd, c)
    ensures Midway(hs[0], hs[p], wd, c, p, fs)
  {
    if p == 0 {
      StartMidway(hs[0], wd, c, fs);
    } else {
      TraceKeeps(hs, wd, c, p - 1, fs);
      TraceNext(hs, wd, c, p, fs);
    }
  }

  /** When all callbacks are made, the directory holds the unchanged entries and the new ones. */
  lemma AllPresent(c: Diff, x: ItemId)
    requires Fitting(c)
    ensures x in Present(c, |c.acts|) <==>
            (exists i :: 0 <= i < |c.b| && c.b[i].intact && c.before[i] == x) || x in c.after
  {
    PresentIs(c, |c.acts|, x);
    var forced :| Plan(c.b, c.a, c.acts, forced);
    if j :| 0 <= j < |c.after| && c.after[j] == x {
      var p := NewAppears(c.b, c.a, c.acts, forced, j);
      assert BringsIn(c.acts[p], j);
    } else if i :| 0 <= i < |c.before| && c.before[i] == x {
      if c.b[i].intact {
        forall q | 0 <= q < |c.acts| ensures !TakesOut(c, c.acts[q], i) {
          MatchCorrect(c.b, c.a, |c.b|);
          assert ActOk(c.b, c.a, Sources(c), c.acts[q]);
        }
      } else {
        Out(c, i, forced);
      }
    }
  }

  lemma Out(c: Diff, i: nat, forced: set<nat>)
    requires Fitting(c) && Plan(c.b, c.a, c.acts, forced) && i < |c.b| && !c.b[i].intact
    ensures OutBy(c, i, |c.acts|)
  {
    var from := Sources(c);
    MatchCorrect(c.b, c.a, |c.b|);
    var x := if IsGone(c.b, from, i) then Drop(i) else var j :| 0 <= j < |from| && from[j] == Some(i); Move(j);
    assert ActOk(c.b, c.a, from, x);
    var q :| 0 <= q < |c.acts| && c.acts[q] == x;
    assert TakesOut(c, c.acts[q], i);
  }

  /**
   * No stale references: at the end of a diff all invariants hold, the inotify watch lists the
   * unchanged and the new entries, and no record refers to an entry that the diff is about to
   * free. The watch the kernel event came in on, and all other inotify watches, are as before.
   */
  lemma DiffKeepsGraph(hs: seq<Hub>, wd: Wd, c: Diff, fs: Key -> FileType)
    requires |hs| == |c.acts| + 1 && Prepared(hs[0], wd, c, fs) && IsTrace(hs, wd, c)
    ensures var h, h' := hs[0], hs[|c.acts|];
            && HubOk(h', fs) && OnlyEntries(h.g, h'.g, wd) && h.log <= h'.log
            && (forall x :: x in h'.g.iws[wd].list <==>
                  (exists i :: 0 <= i < |c.b| && c.b[i].intact && c.before[i] == x) || x in c.after)
            && (forall i | 0 <= i < |c.b| && !c.b[i].intact :: Unreferenced(h'.g, c.before[i]))
  {
    TraceKeeps(hs, wd, c, |c.acts|, fs);
    EndOfDiff(hs[0], hs[|c.acts|], wd, c, fs);
  }

  lemma EndOfDiff(h: Hub, h': Hub, wd: Wd, c: Diff, fs: Key -> FileType)
    requires Prepared(h, wd, c, fs) && Midway(h, h', wd, c, |c.acts|, fs)
    ensures forall x :: x in h'.g.iws[wd].list <==>
                  (exists i :: 0 <= i < |c.b| && c.b[i].intact && c.before[i] == x) || x in c.after
    ensures forall i | 0 <= i < |c.b| && !c.b[i].intact :: Unreferenced(h'.g, c.before[i])
  {
    forall x ensures x in h'.g.iws[wd].list <==>
      (exists i :: 0 <= i < |c.b| && c.b[i].intact && c.before[i] == x) || x in c.after
    {
      AllPresent(c, x);
    }
    forall i | 0 <= i < |c.b| && !c.b[i].intact ensures Unreferenced(h'.g, c.before[i]) {
      var x := c.before[i];
      AllPresent(c, x);
      assert x in h.g.iws[wd].list;
      forall v | v in h'.g.iws ensures x !in h'.g.iws[v].list {
        if v != wd {
          assert h'.g.iws[v] == h.g.iws[v];
        }
      }
      UnlistedUnreferenced(h'.g, x);
    }
  }
}
