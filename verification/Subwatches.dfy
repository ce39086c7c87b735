/** Watching the entries of a directory: the operations of an inotify watch on its entries. */
module Subwatches {
  import opened Wrappers
  import opened DepList
  import opened Flags
  import opened WatchGraph

  /** What the system says about an entry: the file it opens, and its type without opening it. */
  datatype Opened = Opened(fd: nat, inode: nat, mode: FileType)
  datatype Probe = Probe(file: Option<Opened>, lstat: Option<FileType>)

  function EntryKey(g: Graph, wd: Wd, x: ItemId): Key
    requires wd in g.iws && x in g.items
  {
    Key(g.iws[wd].key.dev, g.items[x].inode)
  }

  function ChildDep(wd: Wd, x: ItemId): Dep {
    Dep(wd, Child(x))
  }

  function Retyped(g: Graph, x: ItemId, t: FileType): Graph
    requires x in g.items
  {
    SetEntry(g, x, g.items[x].(fileType := t))
  }

  /** Start watching an entry, if its type and the mask give the kernel something to watch for. */
  function AddSubwatch(g: Graph, wd: Wd, x: ItemId, p: Probe): Graph
    requires wd in g.iws && x in g.items
  {
    var iw, e, k, d := g.iws[wd], g.items[x], EntryKey(g, wd, x), ChildDep(wd, x);
    if iw.closed then g
    else if k in g.watches then
      var g1 := Retyped(g, x, WatchMode(g, k));
      if FilterOf(g1, d) == {} then g1 else AddDep(g1, k, d, 0)
    else if !e.fileType.Unknown? && InotifyToKqueue(g.pf, iw.flags, e.fileType, false) == {} then g
    else if p.file.None? then
      if e.fileType.Unknown? && p.lstat.Some? then Retyped(g, x, p.lstat.value) else g
    else
      var o := p.file.value;
      var g1 := Retyped(g, x, o.mode);
      if FilterOf(g1, d) == {} then g1
      else
        // the entry may have been replaced since it was listed
        var g2 := SetEntry(g1, x, g1.items[x].(inode := o.inode));
        AddDep(g2, Key(iw.key.dev, o.inode), d, o.fd)
  }

  /** Stop watching an entry. */
  function DelSubwatch(g: Graph, wd: Wd, x: ItemId): Graph
    requires wd in g.iws && x in g.items
  {
    DelDep(g, EntryKey(g, wd, x), ChildDep(wd, x))
  }

  /** Let the record of a renamed entry refer to its new name. */
  function MoveSubwatch(g: Graph, wd: Wd, from: ItemId, to: ItemId): Graph
    requires wd in g.iws && from in g.items && to in g.items
  {
    ChgDep(g, EntryKey(g, wd, to), ChildDep(wd, from), ChildDep(wd, to))
  }

  /** A new name whose type the listing did not tell has the type of the old one. */
  function InheritType(g: Graph, from: ItemId, to: ItemId): Graph
    requires from in g.items && to in g.items
  {
    if g.items[to].fileType.Unknown? then Retyped(g, to, g.items[from].fileType) else g
  }

  /** A directory does not contain itself, and a file that is watched keeps its type. */
  ghost predicate ProbeOk(g: Graph, wd: Wd, p: Probe)
    requires wd in g.iws
  {
    p.file.Some? ==>
      var o := p.file.value;
      && o.inode != g.iws[wd].key.inode
      && (Key(g.iws[wd].key.dev, o.inode) in g.watches ==> o.mode == WatchMode(g, Key(g.iws[wd].key.dev, o.inode)))
  }

  /** `g'` differs from `g` in the records of one entry of one inotify watch only. */
  ghost predicate Touches(g: Graph, g': Graph, wd: Wd, x: ItemId) {
    && g'.pf == g.pf && g'.iws == g.iws
    && g'.items.Keys == g.items.Keys
    && (forall y | y in g.items && y != x :: g'.items[y] == g.items[y])
    && (forall k, d | d != ChildDep(wd, x) :: HasDep(g', k, d) <==> HasDep(g, k, d))
    && (wd in g.iws ==> (g.iws[wd].key in g'.watches && g.iws[wd].key in g.watches
                         ==> g'.watches[g.iws[wd].key] == g.watches[g.iws[wd].key]))
  }

  /** Only the inotify watch that lists an entry has a record for it, on the watch with the key of the entry. */
  lemma OnlyRecord(g: Graph, wd: Wd, x: ItemId, k: Key, d: Dep)
    requires GraphOk(g) && wd in g.iws && x in g.iws[wd].list && HasDep(g, k, d) && d.target == Child(x)
    ensures d == ChildDep(wd, x) && x in g.items && k == EntryKey(g, wd, x)
  {
    assert WatchOk(g, k);
    assert DepOk(g, k, d);
  }

  lemma AddSubwatchKeeps(g: Graph, wd: Wd, x: ItemId, p: Probe)
    requires GraphOk(g) && wd in g.iws && x in g.iws[wd].list && x in g.items && Unreferenced(g, x) && ProbeOk(g, wd, p)
    ensures GraphOk(AddSubwatch(g, wd, x, p))
    ensures FiltersOk(g) ==> FiltersOk(AddSubwatch(g, wd, x, p))
  {
    var iw, e, k, d := g.iws[wd], g.items[x], EntryKey(g, wd, x), ChildDep(wd, x);
    assert IWatchOk(g, wd);
    if iw.closed {
    } else if k in g.watches {
      TypedAddKeeps(g, wd, x, WatchMode(g, k), e.inode, 0);
    } else if !e.fileType.Unknown? && InotifyToKqueue(g.pf, iw.flags, e.fileType, false) == {} {
    } else if p.file.None? {
      if e.fileType.Unknown? && p.lstat.Some? {
        SetEntryKeeps(g, x, e.(fileType := p.lstat.value));
      }
    } else {
      var o := p.file.value;
      assert Retyped(g, x, o.mode) == SetEntry(g, x, e.(fileType := o.mode));
      if FilterOf(Retyped(g, x, o.mode), d) == {} {
        SetEntryKeeps(g, x, e.(fileType := o.mode));
      } else {
        var final := e.(fileType := o.mode, inode := o.inode);
        assert g.items[x := e.(fileType := o.mode)][x := final] == g.items[x := final];
        assert FilterOf(SetEntry(g, x, final), d) == FilterOf(Retyped(g, x, o.mode), d);
        TypedAddKeeps(g, wd, x, o.mode, o.inode, o.fd);
      }
    }
  }

  /** Setting the type and inode of an entry without a record, and giving it one if its filter is not empty. */
  lemma TypedAddKeeps(g: Graph, wd: Wd, x: ItemId, t: FileType, inode: nat, fd: nat)
    requires GraphOk(g) && wd in g.iws && x in g.iws[wd].list && x in g.items && Unreferenced(g, x)
    requires inode != g.iws[wd].key.inode
    requires var k := Key(g.iws[wd].key.dev, inode); k in g.watches ==> t == WatchMode(g, k)
    ensures var g1 := SetEntry(g, x, g.items[x].(fileType := t, inode := inode));
            && GraphOk(g1) && (FiltersOk(g) ==> FiltersOk(g1))
            && (FilterOf(g1, ChildDep(wd, x)) != {} ==>
                  var g2 := AddDep(g1, Key(g.iws[wd].key.dev, inode), ChildDep(wd, x), fd);
                  GraphOk(g2) && (FiltersOk(g) ==> FiltersOk(g2)))
  {
    var g1 := SetEntry(g, x, g.items[x].(fileType := t, inode := inode));
    var k, d := Key(g.iws[wd].key.dev, inode), ChildDep(wd, x);
    SetEntryKeeps(g, x, g.items[x].(fileType := t, inode := inode));
    if FilterOf(g1, d) != {} {
      assert !HasDep(g1, k, d) by {
        assert HasDep(g1, k, d) ==> HasDep(g, k, d);
      }
      if k in g.watches {
        assert WatchOk(g, k);
        var first := g.watches[k].deps[0];
        assert HasDep(g, k, first);
        assert ModeOf(g1, first) == ModeOf(g, first);
      }
      assert MayAdd(g1, k, d);
      AddDepKeeps(g1, k, d, fd);
    }
  }

  lemma AddSubwatchFrame(g: Graph, wd: Wd, x: ItemId, p: Probe)
    requires GraphOk(g) && wd in g.iws && x in g.iws[wd].list && x in g.items && Unreferenced(g, x) && ProbeOk(g, wd, p)
    ensures Touches(g, AddSubwatch(g, wd, x, p), wd, x)
    ensures AddSubwatch(g, wd, x, p).items[x].name == g.items[x].name
  {
    assert IWatchOk(g, wd);
  }

  /** Entries keep their names, and their inodes unless another file was found on opening the name. */
  ghost predicate EntriesFrom(g: Graph, g': Graph, probe: string -> Probe) {
    forall x | x in g.items :: x in g'.items && g'.items[x].name == g.items[x].name
      && (g'.items[x].inode == g.items[x].inode || InodeFound(probe, g.items[x].name, g'.items[x].inode))
  }

  predicate InodeFound(probe: string -> Probe, n: string, inode: nat) {
    probe(n).file.Some? && probe(n).file.value.inode == inode
  }

  lemma AddSubwatchEntries(g: Graph, wd: Wd, x: ItemId, probe: string -> Probe)
    requires wd in g.iws && x in g.items
    ensures EntriesFrom(g, AddSubwatch(g, wd, x, probe(g.items[x].name)), probe)
  {
  }

  /** The entry may have got another type and inode, and then a record on the watch for its file. */
  ghost predicate AddsRecord(g: Graph, g': Graph, wd: Wd, x: ItemId)
    requires wd in g.iws
  {
    && x in g'.items
    && var g1, d := SetEntry(g, x, g'.items[x]), ChildDep(wd, x);
       || g' == g1
       || (FilterOf(g1, d) != {} && exists fd :: g' == AddDep(g1, Key(g.iws[wd].key.dev, g'.items[x].inode), d, fd))
  }

  lemma AddSubwatchShape(g: Graph, wd: Wd, x: ItemId, p: Probe)
    requires wd in g.iws && x in g.items
    ensures AddsRecord(g, AddSubwatch(g, wd, x, p), wd, x)
  {
    var g', e, d := AddSubwatch(g, wd, x, p), g.items[x], ChildDep(wd, x);
    assert g.items[x := e] == g.items;
    if p.file.Some? {
      var o := p.file.value;
      var final := e.(fileType := o.mode, inode := o.inode);
      assert g.items[x := e.(fileType := o.mode)][x := final] == g.items[x := final];
      assert FilterOf(SetEntry(g, x, final), d) == FilterOf(Retyped(g, x, o.mode), d);
    }
  }

  lemma DelSubwatchKeeps(g: Graph, wd: Wd, x: ItemId)
    requires GraphOk(g) && wd in g.iws && x in g.iws[wd].list && x in g.items
    ensures GraphOk(DelSubwatch(g, wd, x)) && Unreferenced(DelSubwatch(g, wd, x), x)
    ensures FiltersOk(g) ==> FiltersOk(DelSubwatch(g, wd, x))
    ensures Touches(g, DelSubwatch(g, wd, x), wd, x) && DelSubwatch(g, wd, x).items == g.items
  {
    var g', k, d := DelSubwatch(g, wd, x), EntryKey(g, wd, x), ChildDep(wd, x);
    DelDepKeeps(g, k, d);
    assert IWatchOk(g, wd);
    forall v, e | HasDep(g', v, e) ensures e.target != Child(x) {
      if e.target == Child(x) {
        OnlyRecord(g, wd, x, v, e);
      }
    }
  }

  /** The new name of an entry stands for the same file, with the type that is known of it, and has no record. */
  ghost predicate MayMove(g: Graph, wd: Wd, from: ItemId, to: ItemId) {
    && wd in g.iws && from in g.iws[wd].list && to in g.iws[wd].list && from != to && from in g.items && to in g.items
    && g.items[from].inode == g.items[to].inode
    && Unreferenced(g, to)
    && (HasDep(g, EntryKey(g, wd, to), ChildDep(wd, from)) ==> g.items[to].fileType == g.items[from].fileType)
  }

  lemma MoveSubwatchKeeps(g: Graph, wd: Wd, from: ItemId, to: ItemId)
    requires GraphOk(g) && MayMove(g, wd, from, to)
    ensures GraphOk(MoveSubwatch(g, wd, from, to)) && Unreferenced(MoveSubwatch(g, wd, from, to), from)
    ensures FiltersOk(g) ==> FiltersOk(MoveSubwatch(g, wd, from, to))
    ensures forall k, d :: HasDep(MoveSubwatch(g, wd, from, to), k, d) ==> HasDep(g, k, d) || d == ChildDep(wd, to)
  {
    var k, d, e := EntryKey(g, wd, to), ChildDep(wd, from), ChildDep(wd, to);
    assert IWatchOk(g, wd);
    var g' := ChgDep(g, k, d, e);
    if HasDep(g, k, d) {
      assert !HasDep(g, k, e);
      ChgDepKeeps(g, k, d, e);
    }
    forall v, f | HasDep(g', v, f) ensures f.target != Child(from) {
      if f.target == Child(from) {
        assert HasDep(g, v, f);
        OnlyRecord(g, wd, from, v, f);
      }
    }
  }
}
