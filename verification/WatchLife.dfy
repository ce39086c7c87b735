/** The beginning and the end of an inotify watch. */
module WatchLife {
  import opened DepList
  import opened Flags
  import opened WatchGraph
  import opened Subwatches
  import opened Hub
  import opened MaskUpdate

  // ------------------------------------------------------------------ end

  function DropParent(g: Graph, wd: Wd): Graph
    requires wd in g.iws
  {
    var g1 := DelDep(g, g.iws[wd].key, Dep(wd, Parent));
    g1.(iws := g1.iws - {wd})
  }

  /** Without the inotify watch, its record on the file itself, and its list of entries. */
  function Ended(g: Graph, wd: Wd): Graph
    requires wd in g.iws
  {
    Freed(DropParent(g, wd), g.iws[wd].list)
  }

  /** The records of the entries that are not in `rest` are gone, and nothing else has changed. */
  ghost predicate Unwatching(g: Graph, g': Graph, wd: Wd, rest: set<ItemId>, fs: Key -> FileType) {
    && Sound(g', fs) && g'.pf == g.pf && g'.iws == g.iws && g'.items == g.items && wd in g.iws
    && (forall k, d :: HasDep(g', k, d) <==> HasDep(g, k, d) && !(d.wd == wd && d.target.Child? && d.target.x !in rest))
  }

  lemma UnwatchStart(g: Graph, wd: Wd, fs: Key -> FileType)
    requires Sound(g, fs) && wd in g.iws
    ensures Unwatching(g, g, wd, g.iws[wd].list, fs)
  {
    forall k, d | HasDep(g, k, d) && d.wd == wd && d.target.Child? ensures d.target.x in g.iws[wd].list {
      assert WatchOk(g, k) && DepOk(g, k, d);
    }
  }

  lemma UnwatchNext(g: Graph, g1: Graph, wd: Wd, rest: set<ItemId>, x: ItemId, fs: Key -> FileType)
    requires Unwatching(g, g1, wd, rest, fs) && x in rest && x in g.iws[wd].list && x in g.items
    ensures Unwatching(g, DelSubwatch(g1, wd, x), wd, rest - {x}, fs)
  {
    var g' := DelSubwatch(g1, wd, x);
    DelSubwatchKeeps(g1, wd, x);
    forall k, d | HasDep(g', k, d) ensures ModeOf(g', d) == fs(k) {
      assert d != ChildDep(wd, x) && HasDep(g1, k, d);
    }
    forall k, d
      ensures HasDep(g', k, d) <==>
              HasDep(g, k, d) && !(d.wd == wd && d.target.Child? && d.target.x !in rest - {x})
    {
      if d == ChildDep(wd, x) {
        assert !HasDep(g', k, d);
      } else {
        assert HasDep(g', k, d) <==> HasDep(g1, k, d);
      }
    }
  }

  /** The inotify watch has no records but that on the file itself. */
  ghost predicate Bare(g: Graph, wd: Wd) {
    forall k, d | HasDep(g, k, d) && d.wd == wd :: d.target.Parent?
  }

  lemma DropParentRecords(g: Graph, wd: Wd)
    requires GraphOk(g) && wd in g.iws && Bare(g, wd)
    ensures forall k, d :: HasDep(DropParent(g, wd), k, d) <==> HasDep(g, k, d) && d.wd != wd
  {
    var k0 := g.iws[wd].key;
    assert IWatchOk(g, wd);
    forall k, d ensures HasDep(DropParent(g, wd), k, d) <==> HasDep(g, k, d) && d.wd != wd {
      if HasDep(g, k, d) && d.wd == wd {
        assert WatchOk(g, k);
        assert DepOk(g, k, d);
        assert k == k0 && d == Dep(wd, Parent);
      }
    }
  }

  lemma DropParentKeeps(g: Graph, wd: Wd, fs: Key -> FileType)
    requires Sound(g, fs) && wd in g.iws && Bare(g, wd)
    ensures Sound(DropParent(g, wd), fs)
  {
    var g', k0, p := DropParent(g, wd), g.iws[wd].key, Dep(wd, Parent);
    DropParentRecords(g, wd);
    assert IWatchOk(g, wd) && WatchOk(g, k0);
    WithoutDistinct(g.watches[k0].deps, p);
    forall k ensures WatchOk(g', k) {
      DropParentWatch(g, wd, k);
    }
    forall v ensures IWatchOk(g', v) {
      assert IWatchOk(g, v);
    }
    forall k ensures FilterOk(g', k) {
      assert FilterOk(g, k);
      if k in g'.watches {
        var deps := g'.watches[k].deps;
        forall d | d in deps ensures FilterOf(g', d) == FilterOf(g, d) {
          assert HasDep(g', k, d);
        }
        AllFiltersSame(g, g', deps);
      }
    }
    forall k, d | HasDep(g', k, d) ensures ModeOf(g', d) == fs(k) {
      assert HasDep(g, k, d);
    }
  }

  lemma DropParentWatch(g: Graph, wd: Wd, k: Key)
    requires GraphOk(g) && wd in g.iws && Bare(g, wd)
    requires forall k, d :: HasDep(DropParent(g, wd), k, d) <==> HasDep(g, k, d) && d.wd != wd
    requires var deps := if g.iws[wd].key in g.watches then g.watches[g.iws[wd].key].deps else [];
             Distinct(Without(deps, Dep(wd, Parent)))
    ensures WatchOk(DropParent(g, wd), k)
  {
    var g' := DropParent(g, wd);
    assert WatchOk(g, k);
    if k in g'.watches {
      forall d | d in g'.watches[k].deps ensures DepOk(g', k, d) && ModeOf(g', d) == WatchMode(g, k) {
        assert HasDep(g', k, d);
        assert HasDep(g, k, d) && DepOk(g, k, d);
      }
      assert g'.watches[k].deps[0] in g'.watches[k].deps;
    }
  }

  /** The graph without an inotify watch: exactly its records are gone, and nothing refers to its entries. */
  ghost predicate Rid(g: Graph, g': Graph, wd: Wd) {
    && g'.pf == g.pf && wd in g.iws && g'.iws == g.iws - {wd} && g'.items == g.items - g.iws[wd].list
    && (forall k, d :: HasDep(g', k, d) <==> HasDep(g, k, d) && d.wd != wd)
    && (forall x | x in g.iws[wd].list :: Unreferenced(g', x))
  }

  lemma UnwatchDone(g: Graph, g1: Graph, wd: Wd, fs: Key -> FileType)
    requires GraphOk(g) && Unwatching(g, g1, wd, {}, fs)
    ensures Sound(Ended(g1, wd), fs) && Rid(g, Ended(g1, wd), wd)
  {
    var g2, g' := DropParent(g1, wd), Ended(g1, wd);
    assert Bare(g1, wd);
    DropParentRecords(g1, wd);
    DropParentKeeps(g1, wd, fs);
    FreedKeeps(g2, g.iws[wd].list);
    SameRecordsTypes(g2, g', fs);
    assert forall k, d :: HasDep(g', k, d) <==> HasDep(g2, k, d);
    forall x | x in g.iws[wd].list ensures Unreferenced(g', x) {
      forall k, d | HasDep(g', k, d) ensures d.target != Child(x) {
        assert HasDep(g, k, d) && d.wd != wd;
        assert WatchOk(g, k) && DepOk(g, k, d);
        assert g.iws[d.wd].list !! g.iws[wd].list;
      }
    }
  }

  lemma EndedLives(h: Hub, g': Graph, wd: Wd)
    requires LivesOk(h) && wd in h.g.iws && g'.iws == h.g.iws - {wd}
    ensures LivesOk(Hub(g', h.log + [Ignored(wd)]))
  {
    forall v ensures LifeOk(Hub(g', h.log + [Ignored(wd)]), v) {
      assert LifeOk(h, v);
      PhaseStep(h.log, Ignored(wd), v);
    }
  }

  // ------------------------------------------------------------------ beginning

  /** What is known of a file that an inotify watch is added for, and of the entries if it is a directory. */
  datatype Opening = Opening(fd: nat, mode: FileType, key: Key, entries: map<ItemId, Entry>, probe: string -> Probe)

  /** The inotify watch with its list of entries, and its record on the watch for the file. */
  function Attached(g: Graph, wd: Wd, flags: set<Bit>, o: Opening): Graph {
    var fd := if o.key in g.watches then g.watches[o.key].fd else o.fd;
    var iw := IWatch(fd, flags, o.mode, o.key, false, InOneshot in flags, o.entries.Keys);
    AddDep(g.(items := g.items + o.entries, iws := g.iws[wd := iw]), o.key, Dep(wd, Parent), fd)
  }

  ghost predicate OpeningOk(g: Graph, o: Opening, fs: Key -> FileType) {
    && Supported(o.mode) && o.mode == fs(o.key)
    && (!o.mode.Directory? ==> o.entries == map[])
    && (forall x | x in o.entries ::
          x !in g.items && o.entries[x].inode != o.key.inode && !IsDot(o.entries[x].name))
    && (forall x, y | x in o.entries && y in o.entries && o.entries[x].name == o.entries[y].name :: x == y)
    && ProbesTrue(o.key, o.probe, fs)
  }

  ghost predicate HasParent(g: Graph, k: Key) {
    exists d :: HasDep(g, k, d) && d.target.Parent?
  }

  /** Nothing that existed before changes its key, type or filter. */
  lemma AttachedFrame(g: Graph, wd: Wd, flags: set<Bit>, o: Opening, fs: Key -> FileType, k: Key, d: Dep)
    requires Sound(g, fs) && wd !in g.iws && OpeningOk(g, o, fs) && HasDep(g, k, d)
    ensures var g' := Attached(g, wd, flags, o);
            && HasDep(g', k, d) && DepOk(g', k, d) && ModeOf(g', d) == ModeOf(g, d) == fs(k)
            && FilterOf(g', d) == FilterOf(g, d)
  {
    assert WatchOk(g, k) && DepOk(g, k, d) && IWatchOk(g, d.wd);
  }

  lemma AttachedRecords(g: Graph, wd: Wd, flags: set<Bit>, o: Opening)
    ensures var g' := Attached(g, wd, flags, o);
            forall k, d :: HasDep(g', k, d) <==> HasDep(g, k, d) || (k == o.key && d == Dep(wd, Parent))
  {
  }

  lemma AttachedWatch(g: Graph, wd: Wd, flags: set<Bit>, o: Opening, fs: Key -> FileType, k: Key)
    requires Sound(g, fs) && wd !in g.iws && OpeningOk(g, o, fs) && !HasParent(g, o.key)
    ensures WatchOk(Attached(g, wd, flags, o), k)
  {
    var g', p := Attached(g, wd, flags, o), Dep(wd, Parent);
    assert WatchOk(g, k);
    AttachedRecords(g, wd, flags, o);
    if k in g'.watches {
      var deps := g'.watches[k].deps;
      forall d | d in deps ensures DepOk(g', k, d) && ModeOf(g', d) == fs(k) {
        assert HasDep(g', k, d);
        if HasDep(g, k, d) {
          AttachedFrame(g, wd, flags, o, fs, k, d);
        }
      }
      assert deps[0] in deps;
      if k == o.key {
        assert !HasDep(g, k, p) by {
          assert HasDep(g, k, p) ==> DepOk(g, k, p);
        }
        AttachedOnce(g, wd, flags, o);
      }
    }
  }

  lemma AttachedOnce(g: Graph, wd: Wd, flags: set<Bit>, o: Opening)
    requires GraphOk(g) && !HasParent(g, o.key)
    ensures var deps := Attached(g, wd, flags, o).watches[o.key].deps;
            Distinct(deps) && (forall d, e | d in deps && e in deps && d.target.Parent? && e.target.Parent? :: d == e)
  {
    assert WatchOk(g, o.key);
    if o.key in g.watches {
      forall d | d in g.watches[o.key].deps ensures !d.target.Parent? {
        assert HasDep(g, o.key, d);
      }
    }
  }

  lemma AttachedFilter(g: Graph, wd: Wd, flags: set<Bit>, o: Opening, fs: Key -> FileType, k: Key)
    requires Sound(g, fs) && wd !in g.iws && OpeningOk(g, o, fs)
    ensures FilterOk(Attached(g, wd, flags, o), k)
  {
    var g', p := Attached(g, wd, flags, o), Dep(wd, Parent);
    assert FilterOk(g, k);
    ParentFilter(g.pf, flags, o.mode);
    if k in g'.watches {
      var before := if k in g.watches then g.watches[k].deps else [];
      forall d | d in before ensures FilterOf(g', d) == FilterOf(g, d) {
        assert HasDep(g, k, d);
        AttachedFrame(g, wd, flags, o, fs, k, d);
      }
      AllFiltersSame(g, g', before);
      AllFiltersAdd(g', before, p);
    }
  }

  lemma AttachedKeeps(g: Graph, wd: Wd, flags: set<Bit>, o: Opening, fs: Key -> FileType)
    requires Sound(g, fs) && wd !in g.iws && OpeningOk(g, o, fs) && !HasParent(g, o.key)
    ensures Sound(Attached(g, wd, flags, o), fs)
  {
    var g' := Attached(g, wd, flags, o);
    AttachedRecords(g, wd, flags, o);
    forall k ensures WatchOk(g', k) {
      AttachedWatch(g, wd, flags, o, fs, k);
    }
    forall k ensures FilterOk(g', k) {
      AttachedFilter(g, wd, flags, o, fs, k);
    }
    forall v ensures IWatchOk(g', v) {
      assert IWatchOk(g, v);
    }
    forall k, d | HasDep(g', k, d) ensures ModeOf(g', d) == fs(k) {
      if HasDep(g, k, d) {
        AttachedFrame(g, wd, flags, o, fs, k, d);
      }
    }
    forall v, w | v in g'.iws && w in g'.iws && v != w ensures g'.iws[v].list !! g'.iws[w].list {
      assert IWatchOk(g, v) && IWatchOk(g, w);
    }
  }

  lemma WholeIsPart(g: Graph, wd: Wd, fs: Key -> FileType)
    requires Sound(g, fs) && wd in g.iws
    ensures Partial(g, wd, g.iws[wd].list, fs)
  {
    forall k ensures PartFilterOk(g, wd, g.iws[wd].list, k) {
      assert FilterOk(g, k);
    }
  }

  /** The entries in `rest` have no records. */
  ghost predicate Untouched(g: Graph, wd: Wd, rest: set<ItemId>) {
    forall k, x | x in rest :: !HasDep(g, k, ChildDep(wd, x))
  }

  lemma StayUntouched(g: Graph, g': Graph, wd: Wd, rest: set<ItemId>, x: ItemId)
    requires Untouched(g, wd, rest) && Touches(g, g', wd, x)
    ensures Untouched(g', wd, rest - {x})
  {
    forall k, y | y in rest - {x} ensures !HasDep(g', k, ChildDep(wd, y)) {
      assert ChildDep(wd, y) != ChildDep(wd, x);
      assert !HasDep(g, k, ChildDep(wd, y));
    }
  }

  /** Adding an entry that has no record is bringing it in line with the mask. */
  lemma AddNext(g: Graph, g1: Graph, wd: Wd, rest: set<ItemId>, x: ItemId, probe: string -> Probe, fs: Key -> FileType)
    requires Refreshable(g, wd, probe, fs) && x in rest && x in g1.items && Stage(g, g1, wd, rest, fs)
    requires Untouched(g1, wd, rest)
    ensures var p := probe(g1.items[x].name);
            var g2 := AddSubwatch(g1, wd, x, p);
            && Stage(g, g2, wd, rest - {x}, fs) && Untouched(g2, wd, rest - {x})
            && Touches(g1, g2, wd, x) && Settled(g2, wd, x, p) && g2.items[x].name == g1.items[x].name
  {
    var p := probe(g1.items[x].name);
    assert RefreshEntry(g1, wd, x, p) == AddSubwatch(g1, wd, x, p);
    StageNext(g, g1, wd, rest, x, probe, fs);
    StayUntouched(g1, AddSubwatch(g1, wd, x, p), wd, rest, x);
  }

  /** The entries of a new inotify watch are all still to be done. */
  lemma AttachedReady(g: Graph, wd: Wd, flags: set<Bit>, o: Opening, fs: Key -> FileType)
    requires Sound(g, fs) && wd !in g.iws && OpeningOk(g, o, fs) && !HasParent(g, o.key)
    ensures var g1 := Attached(g, wd, flags, o);
            && Refreshable(g1, wd, o.probe, fs) && Stage(g1, g1, wd, o.entries.Keys, fs)
            && Untouched(g1, wd, o.entries.Keys)
  {
    var g1 := Attached(g, wd, flags, o);
    AttachedKeeps(g, wd, flags, o, fs);
    AttachedRecords(g, wd, flags, o);
    assert Untouched(g1, wd, o.entries.Keys) by {
      forall k, d | HasDep(g, k, d) ensures d.wd in g.iws {
        assert WatchOk(g, k) && DepOk(g, k, d);
      }
    }
    WholeIsPart(g1, wd, fs);
  }

  lemma IssuedLives(h: Hub, g': Graph, wd: Wd)
    requires LivesOk(h) && wd !in h.g.iws && g'.iws.Keys == h.g.iws.Keys + {wd}
    requires forall v | v in h.g.iws :: g'.iws[v] == h.g.iws[v]
    requires g'.iws[wd].always <==> InOneshot in g'.iws[wd].flags
    ensures LivesOk(Hub(g', h.log + [Issued(wd)]))
  {
    forall v ensures LifeOk(Hub(g', h.log + [Issued(wd)]), v) {
      assert LifeOk(h, v);
      PhaseStep(h.log, Issued(wd), v);
    }
  }
}
