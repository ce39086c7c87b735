/** Changing the mask of an inotify watch, and with it what is watched of the entries of its directory. */
module MaskUpdate {
  import opened Wrappers
  import opened DepList
  import opened Flags
  import opened WatchGraph
  import opened Subwatches
  import opened Hub

  function Merged(before: set<Bit>, flags: set<Bit>): set<Bit> {
    if InMaskAdd in flags then flags + before else flags
  }

  function Remasked(g: Graph, wd: Wd, flags: set<Bit>): Graph
    requires wd in g.iws
  {
    var iw := g.iws[wd];
    var mask := Merged(iw.flags, flags);
    SetIw(g, wd, iw.(flags := mask, always := iw.always && InOneshot in mask))
  }

  /** Bring one entry in line with the mask. */
  function RefreshEntry(g: Graph, wd: Wd, x: ItemId, p: Probe): (g': Graph)
    requires wd in g.iws && x in g.items
    ensures g'.pf == g.pf && g'.iws == g.iws && g'.items.Keys == g.items.Keys
  {
    var k, d := EntryKey(g, wd, x), ChildDep(wd, x);
    if !HasDep(g, k, d) then AddSubwatch(g, wd, x, p)
    else if FilterOf(g, d) == {} then DelDep(g, k, d)
    else UpdateEvent(g, k)
  }

  // ------------------------------------------------------------------ filters while entries are pending

  /** The record of an entry that is still to be brought in line. */
  predicate Pending(wd: Wd, rest: set<ItemId>, d: Dep) {
    d.wd == wd && d.target.Child? && d.target.x in rest
  }

  /** The filter of a watch is right, as far as pending entries do not stand in the way. */
  ghost predicate PartFilterOk(g: Graph, wd: Wd, rest: set<ItemId>, k: Key) {
    k in g.watches ==>
      var w := g.watches[k];
      && (forall d | d in w.deps && !Pending(wd, rest, d) :: FilterOf(g, d) != {})
      && ((forall d | d in w.deps :: !Pending(wd, rest, d)) ==> w.fflags == AllFilters(g, w.deps))
  }

  ghost predicate PartFiltersOk(g: Graph, wd: Wd, rest: set<ItemId>) {
    forall k {:trigger PartFilterOk(g, wd, rest, k)} :: PartFilterOk(g, wd, rest, k)
  }

  lemma PartIsWhole(g: Graph, wd: Wd)
    ensures PartFiltersOk(g, wd, {}) <==> FiltersOk(g)
  {
    forall k ensures PartFilterOk(g, wd, {}, k) <==> FilterOk(g, k) {
    }
  }

  /** All that has to hold while the entries are brought in line. */
  ghost predicate Partial(g: Graph, wd: Wd, rest: set<ItemId>, fs: Key -> FileType) {
    && GraphOk(g) && TypesOk(g, fs) && PartFiltersOk(g, wd, rest)
    && wd in g.iws && rest <= g.iws[wd].list
  }

  lemma RemaskedKeeps(g: Graph, wd: Wd, flags: set<Bit>, fs: Key -> FileType)
    requires Sound(g, fs) && wd in g.iws
    ensures Partial(UpdateEvent(Remasked(g, wd, flags), g.iws[wd].key), wd, g.iws[wd].list, fs)
  {
    var g1 := Remasked(g, wd, flags);
    var k0 := g.iws[wd].key;
    var g2 := UpdateEvent(g1, k0);
    assert IWatchOk(g, wd);
    forall k ensures WatchOk(g2, k) {
      assert WatchOk(g, k);
      forall d | HasDep(g, k, d) ensures DepOk(g2, k, d) && ModeOf(g2, d) == ModeOf(g, d) {
        assert DepOk(g, k, d);
      }
    }
    forall v ensures IWatchOk(g2, v) {
      assert IWatchOk(g, v);
    }
    forall k, d | HasDep(g2, k, d) ensures ModeOf(g2, d) == fs(k) {
      assert HasDep(g, k, d);
    }
    forall k ensures PartFilterOk(g2, wd, g.iws[wd].list, k) {
      RemaskedFilter(g, wd, flags, k);
    }
  }

  lemma RemaskedFilter(g: Graph, wd: Wd, flags: set<Bit>, k: Key)
    requires GraphOk(g) && FilterOk(g, k) && wd in g.iws
    ensures PartFilterOk(UpdateEvent(Remasked(g, wd, flags), g.iws[wd].key), wd, g.iws[wd].list, k)
  {
    var g1, rest := Remasked(g, wd, flags), g.iws[wd].list;
    var g2 := UpdateEvent(g1, g.iws[wd].key);
    assert WatchOk(g, k) && IWatchOk(g, wd);
    if k in g2.watches {
      var deps := g.watches[k].deps;
      forall d | d in deps && !Pending(wd, rest, d)
        ensures FilterOf(g2, d) != {} && (d.wd != wd ==> FilterOf(g2, d) == FilterOf(g, d))
      {
        assert DepOk(g, k, d);
        if d.wd == wd {
          ParentFilter(g.pf, g1.iws[wd].flags, g.iws[wd].mode);
        }
      }
      AllFiltersSame(g1, g2, deps);
      if (forall d | d in deps :: !Pending(wd, rest, d)) && k != g.iws[wd].key {
        forall d | d in deps ensures FilterOf(g2, d) == FilterOf(g, d) {
          assert DepOk(g, k, d);
        }
        AllFiltersSame(g, g2, deps);
      }
    }
  }

  // ------------------------------------------------------------------ one entry

  lemma RefreshKeeps(g: Graph, wd: Wd, rest: set<ItemId>, x: ItemId, p: Probe, fs: Key -> FileType)
    requires Partial(g, wd, rest, fs) && x in rest && x in g.items && ProbeTrue(g, wd, p, fs)
    ensures Partial(RefreshEntry(g, wd, x, p), wd, rest - {x}, fs)
    ensures Touches(g, RefreshEntry(g, wd, x, p), wd, x)
    ensures RefreshEntry(g, wd, x, p).items[x].name == g.items[x].name
  {
    var k, d := EntryKey(g, wd, x), ChildDep(wd, x);
    assert IWatchOk(g, wd);
    if !HasDep(g, k, d) {
      RefreshByAdding(g, wd, rest, x, p, fs);
    } else if FilterOf(g, d) == {} {
      RefreshByRemoving(g, wd, rest, x, fs);
    } else {
      RefreshByUpdating(g, wd, rest, x, fs);
    }
  }

  lemma RefreshByAdding(g: Graph, wd: Wd, rest: set<ItemId>, x: ItemId, p: Probe, fs: Key -> FileType)
    requires Partial(g, wd, rest, fs) && x in rest && x in g.items && ProbeTrue(g, wd, p, fs)
    requires !HasDep(g, EntryKey(g, wd, x), ChildDep(wd, x))
    ensures var g' := AddSubwatch(g, wd, x, p);
            Partial(g', wd, rest - {x}, fs) && Touches(g, g', wd, x) && g'.items[x].name == g.items[x].name
  {
    var g' := AddSubwatch(g, wd, x, p);
    forall k, d | HasDep(g, k, d) ensures d.target != Child(x) {
      if d.target == Child(x) {
        OnlyRecord(g, wd, x, k, d);
      }
    }
    ProbeAgrees(g, wd, p, fs);
    AddSubwatchKeeps(g, wd, x, p);
    AddSubwatchFrame(g, wd, x, p);
    AddedType(g, wd, x, p, fs);
    AddSubwatchShape(g, wd, x, p);
    forall v ensures PartFilterOk(g', wd, rest - {x}, v) {
      AddedPartFilter(g, wd, rest, x, p, v);
    }
  }

  lemma AddedPartFilter(g: Graph, wd: Wd, rest: set<ItemId>, x: ItemId, p: Probe, v: Key)
    requires GraphOk(g) && wd in g.iws && x in g.items && Unreferenced(g, x) && PartFilterOk(g, wd, rest, v)
    requires AddsRecord(g, AddSubwatch(g, wd, x, p), wd, x)
    ensures PartFilterOk(AddSubwatch(g, wd, x, p), wd, rest - {x}, v)
  {
    var g' := AddSubwatch(g, wd, x, p);
    var g1 := SetEntry(g, x, g'.items[x]);
    assert PartFilterOk(g1, wd, rest - {x}, v) by {
      if v in g.watches {
        var deps := g.watches[v].deps;
        forall d | d in deps
          ensures FilterOf(g1, d) == FilterOf(g, d) && (Pending(wd, rest, d) <==> Pending(wd, rest - {x}, d))
        {
          assert HasDep(g, v, d);
        }
        AllFiltersSame(g, g1, deps);
      }
    }
    if g' != g1 {
      var k, d := Key(g.iws[wd].key.dev, g'.items[x].inode), ChildDep(wd, x);
      var fd :| g' == AddDep(g1, k, d, fd);
      if v in g'.watches {
        AllFiltersSame(g1, g', g'.watches[v].deps);
        if v == k {
          AllFiltersAdd(g1, if k in g.watches then g.watches[k].deps else [], d);
        }
      }
    }
  }

  lemma RefreshByRemoving(g: Graph, wd: Wd, rest: set<ItemId>, x: ItemId, fs: Key -> FileType)
    requires Partial(g, wd, rest, fs) && x in rest && x in g.items
    ensures Partial(DelSubwatch(g, wd, x), wd, rest - {x}, fs) && Touches(g, DelSubwatch(g, wd, x), wd, x)
  {
    var g', k, d := DelSubwatch(g, wd, x), EntryKey(g, wd, x), ChildDep(wd, x);
    DelSubwatchKeeps(g, wd, x);
    forall v, e | HasDep(g', v, e) ensures ModeOf(g', e) == fs(v) {
      assert e != d && HasDep(g, v, e);
    }
    forall v ensures PartFilterOk(g', wd, rest - {x}, v) {
      assert PartFilterOk(g, wd, rest, v);
      if v in g'.watches {
        AllFiltersSame(g, g', g'.watches[v].deps);
        forall e | e in g'.watches[v].deps ensures Pending(wd, rest, e) <==> Pending(wd, rest - {x}, e) {
          assert HasDep(g', v, e) && e.target != Child(x);
        }
      }
    }
  }

  lemma RefreshByUpdating(g: Graph, wd: Wd, rest: set<ItemId>, x: ItemId, fs: Key -> FileType)
    requires Partial(g, wd, rest, fs) && x in rest && x in g.items
    requires HasDep(g, EntryKey(g, wd, x), ChildDep(wd, x)) && FilterOf(g, ChildDep(wd, x)) != {}
    ensures var g' := UpdateEvent(g, EntryKey(g, wd, x));
            Partial(g', wd, rest - {x}, fs) && Touches(g, g', wd, x)
  {
    var k, d := EntryKey(g, wd, x), ChildDep(wd, x);
    var g' := UpdateEvent(g, k);
    assert IWatchOk(g, wd);
    UpdateEventKeeps(g, k, fs);
    forall v ensures PartFilterOk(g', wd, rest - {x}, v) {
      assert PartFilterOk(g, wd, rest, v);
      if v in g'.watches {
        AllFiltersSame(g, g', g'.watches[v].deps);
        if v != k && d in g.watches[v].deps {
          assert HasDep(g, v, d);
          OnlyRecord(g, wd, x, v, d);
        }
      }
    }
  }

  lemma UpdateEventKeeps(g: Graph, k: Key, fs: Key -> FileType)
    requires GraphOk(g) && TypesOk(g, fs)
    ensures GraphOk(UpdateEvent(g, k)) && TypesOk(UpdateEvent(g, k), fs)
  {
    var g' := UpdateEvent(g, k);
    forall v ensures WatchOk(g', v) {
      assert WatchOk(g, v);
    }
    forall wd ensures IWatchOk(g', wd) {
      assert IWatchOk(g, wd);
    }
    forall v, d | HasDep(g', v, d) ensures ModeOf(g', d) == fs(v) {
      assert HasDep(g, v, d);
    }
  }

  // ------------------------------------------------------------------ all entries

  /** An entry is watched, unless the mask asks for nothing of it or it could not be opened. */
  ghost predicate Settled(g: Graph, wd: Wd, x: ItemId, p: Probe) {
    wd in g.iws && x in g.items &&
    (HasDep(g, EntryKey(g, wd, x), ChildDep(wd, x)) || FilterOf(g, ChildDep(wd, x)) == {} || p.file.None?)
  }

  lemma RefreshSettles(g: Graph, wd: Wd, x: ItemId, p: Probe)
    requires GraphOk(g) && wd in g.iws && x in g.iws[wd].list && x in g.items && !g.iws[wd].closed
    ensures Settled(RefreshEntry(g, wd, x, p), wd, x, p)
  {
    var k, d := EntryKey(g, wd, x), ChildDep(wd, x);
    var g' := RefreshEntry(g, wd, x, p);
    if HasDep(g, k, d) && FilterOf(g, d) == {} {
      assert FilterOf(g', d) == {};
    }
  }

  lemma StaysSettled(g: Graph, g': Graph, wd: Wd, x: ItemId, y: ItemId, p: Probe)
    requires Touches(g, g', wd, x) && Settled(g, wd, y, p) && y != x
    ensures Settled(g', wd, y, p)
  {
    assert ChildDep(wd, y) != ChildDep(wd, x);
    assert HasDep(g', EntryKey(g, wd, y), ChildDep(wd, y)) <==> HasDep(g, EntryKey(g, wd, y), ChildDep(wd, y));
  }

  /** What the operation leaves alone. */
  ghost predicate OnlyEntriesOf(g: Graph, g': Graph, wd: Wd) {
    && g'.pf == g.pf && g'.iws == g.iws && g'.items.Keys == g.items.Keys
    && (forall x | x in g.items :: g'.items[x].name == g.items[x].name)
    && (forall k: Key, d: Dep | !(d.wd == wd && d.target.Child?) :: HasDep(g', k, d) <==> HasDep(g, k, d))
  }

  /** The inotify watch is open, and the system tells the truth about whatever name it is asked for. */
  ghost predicate Refreshable(g: Graph, wd: Wd, probe: string -> Probe, fs: Key -> FileType) {
    wd in g.iws && !g.iws[wd].closed && (forall n :: ProbeTrue(g, wd, probe(n), fs))
  }

  /** With the entries in `rest` still to be done, starting from `g`. */
  ghost predicate Stage(g: Graph, g': Graph, wd: Wd, rest: set<ItemId>, fs: Key -> FileType) {
    Partial(g', wd, rest, fs) && OnlyEntriesOf(g, g', wd)
  }

  lemma StageNext(g: Graph, g1: Graph, wd: Wd, rest: set<ItemId>, x: ItemId, probe: string -> Probe,
                  fs: Key -> FileType)
    requires Refreshable(g, wd, probe, fs) && x in rest && Stage(g, g1, wd, rest, fs) && x in g1.items
    ensures var p := probe(g1.items[x].name);
            var g2 := RefreshEntry(g1, wd, x, p);
            && Stage(g, g2, wd, rest - {x}, fs)
            && Touches(g1, g2, wd, x)
            && Settled(g2, wd, x, p) && g2.items[x].name == g1.items[x].name
  {
    var p := probe(g1.items[x].name);
    assert ProbeTrue(g1, wd, p, fs) by {
      assert ProbeTrue(g, wd, p, fs);
    }
    RefreshKeeps(g1, wd, rest, x, p, fs);
    RefreshSettles(g1, wd, x, p);
    OnlyEntriesStep(g, g1, RefreshEntry(g1, wd, x, p), wd, x);
  }

  lemma StageDone(g: Graph, g': Graph, wd: Wd, fs: Key -> FileType)
    requires Stage(g, g', wd, {}, fs)
    ensures Sound(g', fs)
  {
    PartIsWhole(g', wd);
  }

  lemma OnlyEntriesStep(g: Graph, g1: Graph, g2: Graph, wd: Wd, x: ItemId)
    requires OnlyEntriesOf(g, g1, wd) && Touches(g1, g2, wd, x) && x in g1.items && g2.items[x].name == g1.items[x].name
    ensures OnlyEntriesOf(g, g2, wd)
  {
    forall k: Key, d: Dep | !(d.wd == wd && d.target.Child?) ensures HasDep(g2, k, d) <==> HasDep(g, k, d) {
      assert d != ChildDep(wd, x);
    }
  }

  lemma RemaskedLives(h: Hub, g': Graph, wd: Wd, flags: set<Bit>)
    requires LivesOk(h) && wd in h.g.iws && g'.iws == Remasked(h.g, wd, flags).iws
    ensures LivesOk(h.(g := g'))
  {
    forall v ensures LifeOk(h.(g := g'), v) {
      assert LifeOk(h, v);
    }
  }

  // ------------------------------------------------------------------ the filter on the way

  /**
   * When the record of an entry is removed because the new mask asks nothing of it, the filter of
   * the remaining records is empty exactly when all of them belong to entries of the same
   * directory that are still to be removed in turn: other names of the same file.
   */
  lemma EmptyOnTheWay(g: Graph, wd: Wd, rest: set<ItemId>, x: ItemId, fs: Key -> FileType)
    requires Partial(g, wd, rest, fs) && x in rest && x in g.items
    requires FilterOf(g, ChildDep(wd, x)) == {} && HasDep(g, EntryKey(g, wd, x), ChildDep(wd, x))
    ensures var k, d := EntryKey(g, wd, x), ChildDep(wd, x);
            var left := Without(g.watches[k].deps, d);
            && (AllFilters(g, left) == {} <==> forall e | e in left :: Pending(wd, rest - {x}, e))
            && (forall e | e in left && Pending(wd, rest - {x}, e) :: FilterOf(g, e) == {})
  {
    var k, d := EntryKey(g, wd, x), ChildDep(wd, x);
    var left := Without(g.watches[k].deps, d);
    assert WatchOk(g, k) && PartFilterOk(g, wd, rest, k);
    forall e | e in left && Pending(wd, rest - {x}, e) ensures FilterOf(g, e) == {} {
      assert ModeOf(g, e) == WatchMode(g, k) == ModeOf(g, d);
    }
    if AllFilters(g, left) == {} {
      forall e | e in left ensures Pending(wd, rest - {x}, e) {
        forall n | n in FilterOf(g, e) ensures n in AllFilters(g, left) {
          assert Needed(g, left, n);
        }
        assert FilterOf(g, e) <= AllFilters(g, left);
      }
    }
  }

  /** The filter computed anew when the record of this entry is removed is empty, though records remain. */
  predicate ComputesEmpty(g: Graph, wd: Wd, x: ItemId) {
    && wd in g.iws && x in g.items
    && var k, d := EntryKey(g, wd, x), ChildDep(wd, x);
       && HasDep(g, k, d) && FilterOf(g, d) == {}
       && Without(g.watches[k].deps, d) != [] && AllFilters(g, Without(g.watches[k].deps, d)) == {}
  }

  /** All records of the watch are for names of the file in this directory, two or more, all unwanted. */
  ghost predicate OnlyUnwantedNames(g: Graph, wd: Wd, k: Key) {
    && k in g.watches && |g.watches[k].deps| >= 2
    && (forall d | d in g.watches[k].deps :: d.wd == wd && d.target.Child? && FilterOf(g, d) == {})
  }

  /**
   * With the entries in `rest` still to be done, starting from `g`; `empty` tells whether an empty filter was
   * computed so far.
   */
  ghost predicate Traced(g: Graph, g': Graph, wd: Wd, rest: set<ItemId>, empty: bool) {
    && (forall k, d | HasDep(g, k, d) && !HasDep(g', k, d) :: d.wd == wd && d.target.Child? && FilterOf(g, d) == {})
    && (forall k, d | Pending(wd, rest, d) :: HasDep(g', k, d) ==> HasDep(g, k, d))
    && (empty ==> exists k :: OnlyUnwantedNames(g, wd, k))
    && (!empty ==> forall k | OnlyUnwantedNames(g, wd, k) :: k in g'.watches && g'.watches[k].deps == g.watches[k].deps)
  }

  /** A record has the same filter as long as it is there. */
  lemma SameFilter(g: Graph, g': Graph, k: Key, d: Dep, e: Dep, fs: Key -> FileType)
    requires GraphOk(g) && GraphOk(g') && TypesOk(g, fs) && TypesOk(g', fs) && g'.pf == g.pf && g'.iws == g.iws
    requires HasDep(g, k, d) && HasDep(g', k, e) && d.wd == e.wd && d.target.Parent? == e.target.Parent?
    ensures FilterOf(g, d) == FilterOf(g', e)
  {
    assert WatchOk(g, k) && WatchOk(g', k) && DepOk(g, k, d) && DepOk(g', k, e);
  }

  lemma EmptyMeansUnwanted(g: Graph, g1: Graph, wd: Wd, rest: set<ItemId>, x: ItemId, empty: bool, fs: Key -> FileType)
    requires GraphOk(g) && TypesOk(g, fs) && g1.pf == g.pf && g1.iws == g.iws
    requires Partial(g1, wd, rest, fs) && x in rest && Traced(g, g1, wd, rest, empty) && ComputesEmpty(g1, wd, x)
    ensures OnlyUnwantedNames(g, wd, EntryKey(g1, wd, x))
  {
    var k, d := EntryKey(g1, wd, x), ChildDep(wd, x);
    var left := Without(g1.watches[k].deps, d);
    EmptyOnTheWay(g1, wd, rest, x, fs);
    var e := left[0];
    assert e in left && HasDep(g1, k, e) && HasDep(g1, k, d);
    assert Pending(wd, rest, d) && Pending(wd, rest, e);
    assert HasDep(g, k, d) && HasDep(g, k, e) && d != e;
    forall f | f in g.watches[k].deps ensures f.wd == wd && f.target.Child? && FilterOf(g, f) == {} {
      assert HasDep(g, k, f);
      if HasDep(g1, k, f) {
        assert f == d || f in left;
        SameFilter(g, g1, k, f, f, fs);
      }
    }
    TwoElements(g.watches[k].deps, d, e);
  }

  lemma TwoElements(deps: seq<Dep>, d: Dep, e: Dep)
    requires d in deps && e in deps && d != e
    ensures |deps| >= 2
  {
  }

  lemma RefreshLeavesNames(g: Graph, g1: Graph, wd: Wd, rest: set<ItemId>, x: ItemId, p: Probe, k: Key,
                           fs: Key -> FileType)
    requires GraphOk(g) && TypesOk(g, fs) && g1.pf == g.pf && g1.iws == g.iws
    requires Partial(g1, wd, rest, fs) && x in rest && x in g1.items && ProbeTrue(g1, wd, p, fs)
    requires Partial(RefreshEntry(g1, wd, x, p), wd, rest - {x}, fs)
    requires OnlyUnwantedNames(g, wd, k) && k in g1.watches && g1.watches[k].deps == g.watches[k].deps
    requires !ComputesEmpty(g1, wd, x)
    ensures var g2 := RefreshEntry(g1, wd, x, p); k in g2.watches && g2.watches[k].deps == g.watches[k].deps
  {
    var g2, d, k1 := RefreshEntry(g1, wd, x, p), ChildDep(wd, x), EntryKey(g1, wd, x);
    var first := g.watches[k].deps[0];
    assert HasDep(g, k, first) && HasDep(g1, k, first);
    SameFilter(g, g1, k, first, first, fs);
    assert PartFilterOk(g2, wd, rest - {x}, k);
    if !HasDep(g1, k1, d) {
      if HasDep(g2, k, d) {
        SameFilter(g, g2, k, first, d, fs);
      }
      AddSubwatchShape(g1, wd, x, p);
    } else if FilterOf(g1, d) == {} && k1 == k {
      AllUnwanted(g, g1, wd, x, k, fs);
    }
  }

  /** Removing one of several names computes an empty filter. */
  lemma AllUnwanted(g: Graph, g1: Graph, wd: Wd, x: ItemId, k: Key, fs: Key -> FileType)
    requires GraphOk(g) && GraphOk(g1) && TypesOk(g, fs) && TypesOk(g1, fs) && g1.pf == g.pf && g1.iws == g.iws
    requires wd in g1.iws && x in g1.items && k == EntryKey(g1, wd, x) && HasDep(g1, k, ChildDep(wd, x))
    requires OnlyUnwantedNames(g, wd, k) && g1.watches[k].deps == g.watches[k].deps
    ensures ComputesEmpty(g1, wd, x)
  {
    var d := ChildDep(wd, x);
    var deps := g1.watches[k].deps;
    var left := Without(deps, d);
    forall e | e in deps ensures FilterOf(g1, e) == {} {
      assert HasDep(g, k, e) && HasDep(g1, k, e);
      SameFilter(g, g1, k, e, e, fs);
    }
    assert WatchOk(g1, k);
    assert deps[0] != deps[1] && deps[0] in deps && deps[1] in deps;
    var e := if deps[0] == d then deps[1] else deps[0];
    assert e in left;
  }

  lemma TracedNext(g: Graph, g1: Graph, wd: Wd, rest: set<ItemId>, x: ItemId, p: Probe, empty: bool,
                   fs: Key -> FileType)
    requires GraphOk(g) && TypesOk(g, fs) && g1.pf == g.pf && g1.iws == g.iws
    requires Partial(g1, wd, rest, fs) && x in rest && x in g1.items && ProbeTrue(g1, wd, p, fs)
    requires Traced(g, g1, wd, rest, empty)
    ensures Traced(g, RefreshEntry(g1, wd, x, p), wd, rest - {x}, empty || ComputesEmpty(g1, wd, x))
  {
    var g2, d, k1 := RefreshEntry(g1, wd, x, p), ChildDep(wd, x), EntryKey(g1, wd, x);
    RefreshKeeps(g1, wd, rest, x, p, fs);
    forall k, e | HasDep(g, k, e) && !HasDep(g2, k, e) ensures e.wd == wd && e.target.Child? && FilterOf(g, e) == {} {
      if HasDep(g1, k, e) {
        assert e == d;
        OnlyRecord(g1, wd, x, k, e);
        SameFilter(g, g1, k, e, e, fs);
        RefreshRemoves(g1, wd, x, p);
      }
    }
    forall k, e | Pending(wd, rest - {x}, e) && HasDep(g2, k, e) ensures HasDep(g, k, e) {
      assert e != d && Pending(wd, rest, e) && HasDep(g1, k, e);
    }
    if ComputesEmpty(g1, wd, x) {
      EmptyMeansUnwanted(g, g1, wd, rest, x, empty, fs);
    } else if !empty {
      forall k | OnlyUnwantedNames(g, wd, k) ensures k in g2.watches && g2.watches[k].deps == g.watches[k].deps {
        RefreshLeavesNames(g, g1, wd, rest, x, p, k, fs);
      }
    }
  }

  /** A record goes only if the mask asks nothing of the entry. */
  lemma RefreshRemoves(g: Graph, wd: Wd, x: ItemId, p: Probe)
    requires wd in g.iws && x in g.items && HasDep(g, EntryKey(g, wd, x), ChildDep(wd, x))
    requires !HasDep(RefreshEntry(g, wd, x, p), EntryKey(g, wd, x), ChildDep(wd, x))
    ensures FilterOf(g, ChildDep(wd, x)) == {}
  {
  }

  lemma TracedStart(g: Graph, wd: Wd, rest: set<ItemId>)
    ensures Traced(g, g, wd, rest, false)
  {
  }

  /** At the end: an empty filter was computed exactly if some watch had only unwanted names of this directory. */
  lemma TracedDone(g: Graph, g': Graph, wd: Wd, empty: bool, fs: Key -> FileType)
    requires GraphOk(g) && TypesOk(g, fs) && g'.pf == g.pf && g'.iws == g.iws
    requires Partial(g', wd, {}, fs) && Traced(g, g', wd, {}, empty)
    ensures empty <==> exists k :: OnlyUnwantedNames(g, wd, k)
  {
    forall k | OnlyUnwantedNames(g, wd, k) ensures empty {
      var first := g.watches[k].deps[0];
      assert PartFilterOk(g', wd, {}, k) && HasDep(g, k, first);
      if HasDep(g', k, first) {
        SameFilter(g, g', k, first, first, fs);
      }
    }
  }

  /** A directory with two names for one file, watched for IN_ATTRIB. */
  function TwoNames(pf: Platform): Graph {
    var mask := {InAttrib};
    Graph(pf,
          map[Key(0, 1) := Watch(3, InotifyToKqueue(pf, mask, Directory, true), [Dep(1, Parent)]),
              Key(0, 2) := Watch(4, InotifyToKqueue(pf, mask, Regular, false), [ChildDep(1, 7), ChildDep(1, 8)])],
          map[1 := IWatch(3, mask, Directory, Key(0, 1), false, false, {7, 8})],
          map[7 := Entry("a", 2, Regular), 8 := Entry("b", 2, Regular)])
  }

  lemma TwoNamesOk(pf: Platform)
    ensures GraphOk(TwoNames(pf)) && FiltersOk(TwoNames(pf))
  {
    var g := TwoNames(pf);
    TwoNamesFilters(pf);
    forall k ensures WatchOk(g, k) && FilterOk(g, k) {
      if k != Key(0, 1) && k != Key(0, 2) {
        assert k !in g.watches;
      }
    }
  }

  lemma TwoNamesFilters(pf: Platform)
    ensures var g := TwoNames(pf);
            FilterOk(g, Key(0, 1)) && FilterOk(g, Key(0, 2))
  {
    var g := TwoNames(pf);
    var parent, first, second := Dep(1, Parent), ChildDep(1, 7), ChildDep(1, 8);
    assert NoteAttrib in FilterOf(g, parent) && NoteAttrib in FilterOf(g, first) && NoteAttrib in FilterOf(g, second);
    AllFiltersOne(g, [parent], parent);
    AllFiltersOne(g, [first, second], first);
  }

  /** An empty filter on the way does happen: the mask changes from IN_ATTRIB to IN_CREATE, and one name is done. */
  lemma EmptyOnTheWayExample(pf: Platform)
    ensures GraphOk(TwoNames(pf)) && FiltersOk(TwoNames(pf))
    ensures OnlyUnwantedNames(Remasked(TwoNames(pf), 1, {InCreate}), 1, Key(0, 2))
    ensures var g := UpdateEvent(Remasked(TwoNames(pf), 1, {InCreate}), Key(0, 1));
            RefreshEntry(g, 1, 7, Probe(None, None)).watches[Key(0, 2)] == Watch(4, {}, [ChildDep(1, 8)])
  {
    TwoNamesOk(pf);
    TwoNamesEmptied(pf);
    var g := Remasked(TwoNames(pf), 1, {InCreate});
    forall d | d in g.watches[Key(0, 2)].deps ensures d.wd == 1 && d.target.Child? && FilterOf(g, d) == {} {
    }
  }

  lemma TwoNamesEmptied(pf: Platform)
    ensures var g := UpdateEvent(Remasked(TwoNames(pf), 1, {InCreate}), Key(0, 1));
            RefreshEntry(g, 1, 7, Probe(None, None)).watches[Key(0, 2)] == Watch(4, {}, [ChildDep(1, 8)])
  {
    var g := UpdateEvent(Remasked(TwoNames(pf), 1, {InCreate}), Key(0, 1));
    var first, second := ChildDep(1, 7), ChildDep(1, 8);
    assert FilterOf(g, first) == {} && FilterOf(g, second) == {};
    assert Without([first, second], first) == [second] by {
      assert [first, second][..1] == [first];
      assert [first][..0] == [];
    }
    AllFiltersOne(g, [second], second);
  }

  lemma AllFiltersOne(g: Graph, deps: seq<Dep>, d: Dep)
    requires d in deps && (forall e | e in deps :: FilterOf(g, e) == FilterOf(g, d))
    ensures AllFilters(g, deps) == FilterOf(g, d)
  {
    forall n ensures Needed(g, deps, n) <==> n in FilterOf(g, d) {
    }
  }
}
