/**
 * The graph of watches of a worker: one kqueue watch per file, shared by the inotify watches
 * that need it through dependency records.
 *
 * The set of watches is indexed by the device and inode a watch was inserted with. The tree in
 * the source compares keys it derives from the first dependency record of a watch; `WatchOk`
 * says that every record of a watch yields the key it is stored under.
 */
module WatchGraph {
  import opened DepList
  import opened Flags

  type Wd = int
  type ItemId = nat

  datatype Key = Key(dev: nat, inode: nat)

  /** A directory entry in memory. */
  datatype Entry = Entry(name: string, inode: nat, fileType: FileType)

  /** What a dependency record refers to: the watched file itself, or an entry of a watched directory. */
  datatype Target = Parent | Child(x: ItemId)

  datatype Dep = Dep(wd: Wd, target: Target)

  /** A kqueue watch: its descriptor, the filter registered with the kernel, and its dependency records. */
  datatype Watch = Watch(fd: nat, fflags: set<Note>, deps: seq<Dep>)

  /**
   * An inotify watch; `list` holds the entries of a watched directory. `always` is auxiliary: the
   * mask has had IN_ONESHOT since the watch was added.
   */
  datatype IWatch = IWatch(
    fd: nat, flags: set<Bit>, mode: FileType, key: Key, closed: bool, always: bool, list: set<ItemId>)

  datatype Graph = Graph(pf: Platform, watches: map<Key, Watch>, iws: map<Wd, IWatch>, items: map<ItemId, Entry>)

  // ------------------------------------------------------------------ values derived from records

  predicate DepDefined(g: Graph, d: Dep) {
    d.wd in g.iws && (d.target.Child? ==> d.target.x in g.items)
  }

  function KeyOf(g: Graph, d: Dep): Key {
    if !DepDefined(g, d) then Key(0, 0)
    else if d.target.Parent? then g.iws[d.wd].key
    else Key(g.iws[d.wd].key.dev, g.items[d.target.x].inode)
  }

  function ModeOf(g: Graph, d: Dep): FileType {
    if !DepDefined(g, d) then Unknown
    else if d.target.Parent? then g.iws[d.wd].mode
    else g.items[d.target.x].fileType
  }

  /** The type of the watched file, as the first record has it. */
  function WatchMode(g: Graph, k: Key): FileType {
    if k in g.watches && g.watches[k].deps != [] then ModeOf(g, g.watches[k].deps[0]) else Unknown
  }

  function FilterOf(g: Graph, d: Dep): set<Note> {
    if DepDefined(g, d) then InotifyToKqueue(g.pf, g.iws[d.wd].flags, ModeOf(g, d), d.target.Parent?) else {}
  }

  predicate Needed(g: Graph, deps: seq<Dep>, n: Note) {
    exists d :: d in deps && n in FilterOf(g, d)
  }

  /** All that the records of a watch need from the kernel. */
  function AllFilters(g: Graph, deps: seq<Dep>): set<Note> {
    set n: Note | Needed(g, deps, n)
  }

  // ------------------------------------------------------------------ invariant

  ghost predicate Distinct(deps: seq<Dep>) {
    forall i, j | 0 <= i < j < |deps| :: deps[i] != deps[j]
  }

  /** The record belongs on the watch with key `k`. */
  predicate DepOk(g: Graph, k: Key, d: Dep) {
    && DepDefined(g, d)
    && (d.target.Child? ==> d.target.x in g.iws[d.wd].list)
    && KeyOf(g, d) == k
  }

  /** A stored watch has records, and all of them agree on the file and its type. */
  ghost predicate WatchOk(g: Graph, k: Key) {
    k in g.watches ==>
      var deps := g.watches[k].deps;
      && deps != [] && Distinct(deps)
      && (forall d | d in deps :: DepOk(g, k, d) && ModeOf(g, d) == WatchMode(g, k))
      && (forall d, e | d in deps && e in deps && d.target.Parent? && e.target.Parent? :: d == e)
  }

  /** An inotify watch has its record on a watch with its own descriptor. */
  ghost predicate IWatchOk(g: Graph, wd: Wd) {
    wd in g.iws ==>
      var iw := g.iws[wd];
      && iw.key in g.watches && g.watches[iw.key].fd == iw.fd && Dep(wd, Parent) in g.watches[iw.key].deps
      && Supported(iw.mode)
      && (forall x | x in iw.list :: x in g.items && g.items[x].inode != iw.key.inode)
  }

  ghost predicate ListsDisjoint(g: Graph) {
    forall v, w | v in g.iws && w in g.iws && v != w :: g.iws[v].list !! g.iws[w].list
  }

  /** The shape of the graph. */
  ghost predicate GraphOk(g: Graph) {
    && (forall k {:trigger WatchOk(g, k)} :: WatchOk(g, k))
    && (forall wd {:trigger IWatchOk(g, wd)} :: IWatchOk(g, wd))
    && ListsDisjoint(g)
  }

  /** The filter registered for a watch is what its records need, and each of them needs something. */
  ghost predicate FilterOk(g: Graph, k: Key) {
    k in g.watches ==>
      && g.watches[k].fflags == AllFilters(g, g.watches[k].deps)
      && (forall d | d in g.watches[k].deps :: FilterOf(g, d) != {})
  }

  ghost predicate FiltersOk(g: Graph) {
    forall k {:trigger FilterOk(g, k)} :: FilterOk(g, k)
  }

  // ------------------------------------------------------------------ operations on records

  /** The records without `d`. */
  function Without(deps: seq<Dep>, d: Dep): (r: seq<Dep>)
    ensures forall e :: e in r <==> e in deps && e != d
  {
    if deps == [] then []
    else
      var init, last := Without(deps[..|deps| - 1], d), deps[|deps| - 1];
      assert deps == deps[..|deps| - 1] + [last];
      if last == d then init else init + [last]
  }

  lemma {:induction false} WithoutDistinct(deps: seq<Dep>, d: Dep)
    requires Distinct(deps)
    ensures Distinct(Without(deps, d))
  {
    if deps != [] {
      var init, last := deps[..|deps| - 1], deps[|deps| - 1];
      WithoutDistinct(init, d);
      forall i | 0 <= i < |Without(init, d)| ensures Without(init, d)[i] != last {
        assert Without(init, d)[i] in init;
      }
    }
  }

  /** The records with `e` in the place of `d`. */
  function Replaced(deps: seq<Dep>, d: Dep, e: Dep): (r: seq<Dep>)
    ensures |r| == |deps|
    ensures forall i | 0 <= i < |deps| :: r[i] == if deps[i] == d then e else deps[i]
  {
    seq(|deps|, i requires 0 <= i < |deps| => if deps[i] == d then e else deps[i])
  }

  predicate HasDep(g: Graph, k: Key, d: Dep) {
    k in g.watches && d in g.watches[k].deps
  }

  /** Add a record to the watch for its file; a watch that is not there yet is opened as `fd`. */
  function AddDep(g: Graph, k: Key, d: Dep, fd: nat): Graph {
    var w := if k in g.watches then g.watches[k] else Watch(fd, {}, []);
    g.(watches := g.watches[k := w.(deps := [d] + w.deps, fflags := w.fflags + FilterOf(g, d))])
  }

  /** Remove a record; a watch without records goes, the filter of one with records is computed anew. */
  function DelDep(g: Graph, k: Key, d: Dep): Graph {
    if !HasDep(g, k, d) then g
    else
      var deps := Without(g.watches[k].deps, d);
      if deps == [] then g.(watches := g.watches - {k})
      else g.(watches := g.watches[k := g.watches[k].(deps := deps, fflags := AllFilters(g, deps))])
  }

  /** Let a record refer to another entry. */
  function ChgDep(g: Graph, k: Key, d: Dep, e: Dep): Graph {
    if !HasDep(g, k, d) then g
    else g.(watches := g.watches[k := g.watches[k].(deps := Replaced(g.watches[k].deps, d, e))])
  }

  /** Compute the filter of a watch anew. */
  function UpdateEvent(g: Graph, k: Key): Graph {
    if k !in g.watches then g
    else g.(watches := g.watches[k := g.watches[k].(fflags := AllFilters(g, g.watches[k].deps))])
  }

  function SetIw(g: Graph, wd: Wd, iw: IWatch): Graph {
    g.(iws := g.iws[wd := iw])
  }

  function SetEntry(g: Graph, x: ItemId, e: Entry): Graph {
    g.(items := g.items[x := e])
  }

  /** No record refers to the entry. */
  ghost predicate Unreferenced(g: Graph, x: ItemId) {
    forall k, d | HasDep(g, k, d) :: d.target != Child(x)
  }

  // ------------------------------------------------------------------ that they keep the invariant

  /** The two graphs give the records of a watch the same filters. */
  ghost predicate SameFilters(g: Graph, g': Graph, deps: seq<Dep>) {
    forall d | d in deps :: FilterOf(g', d) == FilterOf(g, d)
  }

  lemma AllFiltersSame(g: Graph, g': Graph, deps: seq<Dep>)
    requires SameFilters(g, g', deps)
    ensures AllFilters(g', deps) == AllFilters(g, deps)
  {
    forall n ensures Needed(g', deps, n) <==> Needed(g, deps, n) {
      if Needed(g, deps, n) {
        var d :| d in deps && n in FilterOf(g, d);
        assert n in FilterOf(g', d);
      }
      if Needed(g', deps, n) {
        var d :| d in deps && n in FilterOf(g', d);
        assert n in FilterOf(g, d);
      }
    }
  }

  lemma AllFiltersAdd(g: Graph, deps: seq<Dep>, d: Dep)
    ensures AllFilters(g, [d] + deps) == AllFilters(g, deps) + FilterOf(g, d)
  {
    forall n ensures Needed(g, [d] + deps, n) <==> Needed(g, deps, n) || n in FilterOf(g, d) {
      if Needed(g, deps, n) {
        var e :| e in deps && n in FilterOf(g, e);
        assert e in [d] + deps;
      }
      assert d in [d] + deps;
    }
  }

  /** The record can be put on the watch with key `k`, or on a new one. */
  ghost predicate MayAdd(g: Graph, k: Key, d: Dep) {
    && DepOk(g, k, d) && d.target.Child? && !HasDep(g, k, d) && FilterOf(g, d) != {}
    && (k in g.watches ==> ModeOf(g, d) == WatchMode(g, k))
  }

  lemma AddDepKeeps(g: Graph, k: Key, d: Dep, fd: nat)
    requires GraphOk(g) && MayAdd(g, k, d)
    ensures GraphOk(AddDep(g, k, d, fd))
    ensures FiltersOk(g) ==> FiltersOk(AddDep(g, k, d, fd))
  {
    var g' := AddDep(g, k, d, fd);
    forall v ensures WatchOk(g', v) {
      assert WatchOk(g, v);
    }
    forall wd ensures IWatchOk(g', wd) {
      assert IWatchOk(g, wd);
    }
    if FiltersOk(g) {
      forall v ensures FilterOk(g', v) {
        AddDepFilter(g, k, d, fd, v);
      }
    }
  }

  lemma AddDepFilter(g: Graph, k: Key, d: Dep, fd: nat, v: Key)
    requires FilterOk(g, v) && FilterOf(g, d) != {}
    ensures FilterOk(AddDep(g, k, d, fd), v)
  {
    var g' := AddDep(g, k, d, fd);
    if v in g'.watches {
      AllFiltersSame(g, g', g'.watches[v].deps);
      if v == k {
        AllFiltersAdd(g, if k in g.watches then g.watches[k].deps else [], d);
      }
    }
  }

  /** A record can be removed; that of an inotify watch on its own file goes with the inotify watch. */
  lemma DelDepKeeps(g: Graph, k: Key, d: Dep)
    requires GraphOk(g) && d.target.Child?
    ensures GraphOk(DelDep(g, k, d)) && !HasDep(DelDep(g, k, d), k, d)
    ensures FiltersOk(g) ==> FiltersOk(DelDep(g, k, d))
    ensures forall v, e :: HasDep(DelDep(g, k, d), v, e) <==> HasDep(g, v, e) && !(v == k && e == d)
  {
    var g' := DelDep(g, k, d);
    if HasDep(g, k, d) {
      assert WatchOk(g, k);
      WithoutDistinct(g.watches[k].deps, d);
      forall v ensures WatchOk(g', v) {
        assert WatchOk(g, v);
        assert v == k && k in g'.watches ==> g'.watches[k].deps[0] in g.watches[k].deps;
      }
      forall wd ensures IWatchOk(g', wd) {
        assert IWatchOk(g, wd);
      }
      if FiltersOk(g) {
        forall v ensures FilterOk(g', v) {
          assert FilterOk(g, v);
          if v in g'.watches {
            AllFiltersSame(g, g', g'.watches[v].deps);
          }
        }
      }
    }
  }

  /** Re-pointing a record from one entry to another one for the same file. */
  lemma ChgDepKeeps(g: Graph, k: Key, d: Dep, e: Dep)
    requires GraphOk(g) && d.target.Child? && HasDep(g, k, d)
    requires DepOk(g, k, e) && e.target.Child? && e.wd == d.wd && !HasDep(g, k, e) && ModeOf(g, e) == ModeOf(g, d)
    ensures GraphOk(ChgDep(g, k, d, e))
    ensures FiltersOk(g) ==> FiltersOk(ChgDep(g, k, d, e))
    ensures forall v, f :: HasDep(ChgDep(g, k, d, e), v, f) <==>
              (HasDep(g, v, f) && !(v == k && f == d)) || (v == k && f == e)
  {
    var g' := ChgDep(g, k, d, e);
    ReplacedMembers(g.watches[k].deps, d, e);
    assert WatchOk(g, k);
    forall v ensures WatchOk(g', v) {
      assert WatchOk(g, v);
    }
    forall wd ensures IWatchOk(g', wd) {
      assert IWatchOk(g, wd);
    }
    if FiltersOk(g) {
      forall v ensures FilterOk(g', v) {
        ChgDepFilter(g, k, d, e, v);
      }
    }
  }

  lemma ReplacedMembers(deps: seq<Dep>, d: Dep, e: Dep)
    requires d in deps
    ensures forall f :: f in Replaced(deps, d, e) <==> (f in deps && f != d) || f == e
  {
    var r := Replaced(deps, d, e);
    forall f ensures f in r <==> (f in deps && f != d) || f == e {
      if f in deps && f != d {
        var i :| 0 <= i < |deps| && deps[i] == f;
        assert r[i] == f;
      }
      var i :| 0 <= i < |deps| && deps[i] == d;
      assert r[i] == e;
    }
  }

  lemma ChgDepFilter(g: Graph, k: Key, d: Dep, e: Dep, v: Key)
    requires FilterOk(g, v) && HasDep(g, k, d) && FilterOf(g, d) == FilterOf(g, e)
    ensures FilterOk(ChgDep(g, k, d, e), v)
  {
    var g' := ChgDep(g, k, d, e);
    if v in g'.watches {
      AllFiltersSame(g, g', g'.watches[v].deps);
      if v == k {
        var deps := g.watches[k].deps;
        ReplacedMembers(deps, d, e);
        forall n ensures Needed(g, Replaced(deps, d, e), n) <==> Needed(g, deps, n) {
          if f :| f in deps && n in FilterOf(g, f) {
            assert n in FilterOf(g, if f == d then e else f);
          }
          if f :| f in Replaced(deps, d, e) && n in FilterOf(g, f) {
            assert n in FilterOf(g, if f == e then d else f);
          }
        }
      }
    }
  }

  /** Changing an entry that no record refers to. */
  lemma SetEntryKeeps(g: Graph, x: ItemId, e: Entry)
    requires GraphOk(g) && Unreferenced(g, x)
    requires forall wd | wd in g.iws && x in g.iws[wd].list :: e.inode != g.iws[wd].key.inode
    ensures GraphOk(SetEntry(g, x, e))
    ensures FiltersOk(g) ==> FiltersOk(SetEntry(g, x, e))
  {
    var g' := SetEntry(g, x, e);
    forall k ensures WatchOk(g', k) {
      assert WatchOk(g, k);
      forall d | HasDep(g, k, d) ensures KeyOf(g', d) == KeyOf(g, d) && ModeOf(g', d) == ModeOf(g, d) {
        assert d.target != Child(x);
      }
    }
    forall wd ensures IWatchOk(g', wd) {
      assert IWatchOk(g, wd);
    }
    if FiltersOk(g) {
      forall k ensures FilterOk(g', k) {
        assert FilterOk(g, k) && WatchOk(g, k);
        if k in g'.watches {
          forall d | d in g.watches[k].deps ensures FilterOf(g', d) == FilterOf(g, d) {
            assert HasDep(g, k, d);
          }
          AllFiltersSame(g, g', g'.watches[k].deps);
        }
      }
    }
  }

  /** Adding entries to a list, or taking out some that no record refers to. */
  lemma SetListKeeps(g: Graph, wd: Wd, list: set<ItemId>)
    requires GraphOk(g) && wd in g.iws
    requires forall x | x in g.iws[wd].list && x !in list :: Unreferenced(g, x)
    requires forall x | x in list :: x in g.items && g.items[x].inode != g.iws[wd].key.inode
    requires forall v | v in g.iws && v != wd :: g.iws[v].list !! list
    ensures GraphOk(SetIw(g, wd, g.iws[wd].(list := list)))
    ensures FiltersOk(g) ==> FiltersOk(SetIw(g, wd, g.iws[wd].(list := list)))
  {
    var g' := SetIw(g, wd, g.iws[wd].(list := list));
    forall k ensures WatchOk(g', k) {
      assert WatchOk(g, k);
      forall d | HasDep(g, k, d) ensures DepOk(g', k, d) && ModeOf(g', d) == ModeOf(g, d) {
        assert DepOk(g, k, d);
      }
    }
    forall v ensures IWatchOk(g', v) {
      assert IWatchOk(g, v);
    }
    if FiltersOk(g) {
      forall k ensures FilterOk(g', k) {
        assert FilterOk(g, k);
        if k in g'.watches {
          AllFiltersSame(g, g', g'.watches[k].deps);
        }
      }
    }
  }

  /** Closing an inotify watch does not change what its records say. */
  lemma SetClosedKeeps(g: Graph, wd: Wd, closed: bool)
    requires GraphOk(g) && wd in g.iws
    ensures GraphOk(SetIw(g, wd, g.iws[wd].(closed := closed)))
    ensures FiltersOk(g) ==> FiltersOk(SetIw(g, wd, g.iws[wd].(closed := closed)))
  {
    var g' := SetIw(g, wd, g.iws[wd].(closed := closed));
    forall k ensures WatchOk(g', k) {
      assert WatchOk(g, k);
      forall d | HasDep(g, k, d) ensures DepOk(g', k, d) && ModeOf(g', d) == ModeOf(g, d) {
        assert DepOk(g, k, d);
      }
    }
    forall v ensures IWatchOk(g', v) {
      assert IWatchOk(g, v);
    }
    if FiltersOk(g) {
      forall k ensures FilterOk(g', k) {
        assert FilterOk(g, k);
        if k in g'.watches {
          AllFiltersSame(g, g', g'.watches[k].deps);
        }
      }
    }
  }

  /** The type of each watched file, as its records have it. */
  ghost predicate TypesOk(g: Graph, fs: Key -> FileType) {
    forall k, d | HasDep(g, k, d) :: ModeOf(g, d) == fs(k)
  }

  // ------------------------------------------------------------------ directory lists and memory

  /** The entries of a directory have different names, and the two dot entries are not among them. */
  ghost predicate NamesOk(g: Graph) {
    && (forall wd, x, y | wd in g.iws && x in g.iws[wd].list && y in g.iws[wd].list && x in g.items && y in g.items
          && g.items[x].name == g.items[y].name :: x == y)
    && (forall wd, x | wd in g.iws && x in g.iws[wd].list && x in g.items :: !IsDot(g.items[x].name))
  }

  /** Every entry in memory is in the list of an inotify watch. */
  ghost predicate NoLeaks(g: Graph) {
    forall x | x in g.items :: exists wd :: wd in g.iws && x in g.iws[wd].list
  }

  /** The graph with more entries in memory. */
  function Grown(g: Graph, more: map<ItemId, Entry>): Graph {
    g.(items := g.items + more)
  }

  /** The graph with some entries freed. */
  function Freed(g: Graph, gone: set<ItemId>): Graph {
    g.(items := g.items - gone)
  }

  /** The two graphs have the same records and inotify watches, and give all records the same meaning. */
  ghost predicate SameRecords(g: Graph, g': Graph) {
    && g'.pf == g.pf && g'.watches == g.watches && g'.iws == g.iws
    && (forall k, d | HasDep(g, k, d) ::
          DepDefined(g', d) && KeyOf(g', d) == KeyOf(g, d) && ModeOf(g', d) == ModeOf(g, d))
  }

  lemma SameRecordsKeep(g: Graph, g': Graph)
    requires GraphOk(g) && SameRecords(g, g')
    requires forall wd, x | wd in g.iws && x in g.iws[wd].list ::
               x in g.items && x in g'.items && g'.items[x] == g.items[x]
    ensures GraphOk(g')
    ensures FiltersOk(g) ==> FiltersOk(g')
  {
    forall k ensures WatchOk(g', k) {
      assert WatchOk(g, k);
      forall d | HasDep(g, k, d) ensures DepOk(g', k, d) && ModeOf(g', d) == ModeOf(g, d) {
        assert DepOk(g, k, d);
      }
    }
    forall wd ensures IWatchOk(g', wd) {
      assert IWatchOk(g, wd);
    }
    if FiltersOk(g) {
      forall k ensures FilterOk(g', k) {
        assert FilterOk(g, k);
        if k in g.watches {
          forall d | d in g.watches[k].deps ensures FilterOf(g', d) == FilterOf(g, d) {
            assert WatchOk(g, k) && DepOk(g, k, d) && HasDep(g, k, d);
          }
          AllFiltersSame(g, g', g.watches[k].deps);
        }
      }
    }
  }

  lemma GrownKeeps(g: Graph, more: map<ItemId, Entry>)
    requires GraphOk(g) && g.items.Keys !! more.Keys
    ensures GraphOk(Grown(g, more)) && SameRecords(g, Grown(g, more))
    ensures FiltersOk(g) ==> FiltersOk(Grown(g, more))
  {
    var g' := Grown(g, more);
    forall k, d | HasDep(g, k, d)
      ensures DepDefined(g', d) && KeyOf(g', d) == KeyOf(g, d) && ModeOf(g', d) == ModeOf(g, d)
    {
      assert WatchOk(g, k) && DepOk(g, k, d);
    }
    forall wd, x | wd in g.iws && x in g.iws[wd].list
      ensures x in g.items && x in g'.items && g'.items[x] == g.items[x]
    {
      assert IWatchOk(g, wd);
    }
    SameRecordsKeep(g, g');
  }

  /** Entries that are in no list can be freed: no record refers to them. */
  lemma FreedKeeps(g: Graph, gone: set<ItemId>)
    requires GraphOk(g) && forall wd | wd in g.iws :: g.iws[wd].list !! gone
    ensures GraphOk(Freed(g, gone)) && SameRecords(g, Freed(g, gone))
    ensures FiltersOk(g) ==> FiltersOk(Freed(g, gone))
  {
    var g' := Freed(g, gone);
    forall k, d | HasDep(g, k, d)
      ensures DepDefined(g', d) && KeyOf(g', d) == KeyOf(g, d) && ModeOf(g', d) == ModeOf(g, d)
    {
      assert WatchOk(g, k) && DepOk(g, k, d);
    }
    forall wd, x | wd in g.iws && x in g.iws[wd].list
      ensures x in g.items && x in g'.items && g'.items[x] == g.items[x]
    {
      assert IWatchOk(g, wd);
    }
    SameRecordsKeep(g, g');
  }

  lemma SameRecordsTypes(g: Graph, g': Graph, fs: Key -> FileType)
    requires SameRecords(g, g') && TypesOk(g, fs)
    ensures TypesOk(g', fs)
  {
    forall k, d | HasDep(g', k, d) ensures ModeOf(g', d) == fs(k) {
      assert HasDep(g, k, d);
    }
  }

  lemma NamesStay(g: Graph, g': Graph)
    requires NamesOk(g) && (forall v | v in g'.iws :: v in g.iws && g'.iws[v].list == g.iws[v].list)
    requires forall x | x in g'.items :: x in g.items && g'.items[x].name == g.items[x].name
    ensures NamesOk(g')
  {
  }
}
