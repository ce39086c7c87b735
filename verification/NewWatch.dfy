/** What the system says of a file to be watched, and the list that a new inotify watch starts with. */
module NewWatch {
  import opened DepList
  import opened Flags
  import opened WatchGraph
  import opened Subwatches
  import opened Hub
  import opened MaskUpdate
  import opened WatchLife
  import opened DiffCallbacks
  import opened ClientView
  import opened DirRefresh
  import DirDiff

  /** An open file, with its listing if it is a directory. */
  datatype File = File(fd: nat, mode: FileType, key: Key, listing: seq<Dirent>)

  /** The type of the file is supported, and the system tells the truth about it and about its entries. */
  ghost predicate FileTrue(file: File, probe: string -> Probe, fs: Key -> FileType) {
    && Supported(file.mode) && file.mode == fs(file.key)
    && (file.mode.Directory? ==> ListingTrue(file.key, file.listing, fs)) && ProbesTrue(file.key, probe, fs)
  }

  /** All entries of the listing but the dot entries are new. */
  function ListedNow(file: File): seq<Change> {
    if file.mode.Directory? then Changes([], file.listing) else []
  }

  function OpeningOf(file: File, probe: string -> Probe, next: nat): Opening {
    Opening(file.fd, file.mode, file.key, NewEntries(ListedNow(file), next), probe)
  }

  lemma OpeningIsOk(g: Graph, file: File, probe: string -> Probe, next: nat, fs: Key -> FileType)
    requires Below(g, next) && FileTrue(file, probe, fs)
    ensures OpeningOk(g, OpeningOf(file, probe, next), fs)
  {
    var a := ListedNow(file);
    if file.mode.Directory? {
      ChangesTrue(file.key, [], file.listing, fs);
      DirDiff.ChangesUnique([], file.listing);
    }
    EntriesOk(file.key, a, next, NewEntries(a, next), fs);
  }

  lemma EntriesOk(dir: Key, a: seq<Change>, next: nat, entries: map<ItemId, Entry>, fs: Key -> FileType)
    requires UniqueChanges(a) && (forall c | c in a :: ItemTrue(dir, c.item, fs))
    requires forall x :: x in entries <==> next <= x < next + |a|
    requires forall j | 0 <= j < |a| :: entries[next + j] == EntryOf(a[j].item)
    ensures forall x | x in entries :: entries[x].inode != dir.inode && !IsDot(entries[x].name)
    ensures forall x, y | x in entries && y in entries && entries[x].name == entries[y].name :: x == y
  {
    forall x | x in entries ensures entries[x] == EntryOf(a[x - next].item) && ItemTrue(dir, a[x - next].item, fs) {
      assert entries[next + (x - next)] == EntryOf(a[x - next].item);
      assert a[x - next] in a;
    }
  }

  // ------------------------------------------------------------------ memory

  lemma AttachedMemory(g: Graph, wd: Wd, flags: set<Bit>, o: Opening, fs: Key -> FileType)
    requires GraphOk(g) && NamesOk(g) && NoLeaks(g) && wd !in g.iws && OpeningOk(g, o, fs)
    ensures NamesOk(Attached(g, wd, flags, o)) && NoLeaks(Attached(g, wd, flags, o))
  {
    forall v, x | v in g.iws && x in g.iws[v].list ensures x in g.items && x !in o.entries {
      assert IWatchOk(g, v);
    }
    AttachedNames(g, wd, flags, o, fs);
    var g1 := Attached(g, wd, flags, o);
    assert g1.iws[wd].list == o.entries.Keys && (forall v | v in g.iws :: g1.iws[v] == g.iws[v]);
    forall x | x in g1.items ensures exists v :: v in g1.iws && x in g1.iws[v].list {
      if x in o.entries {
        assert x in g1.iws[wd].list;
      } else {
        var v :| v in g.iws && x in g.iws[v].list;
        assert x in g1.iws[v].list;
      }
    }
  }

  lemma NoLeaksStay(g: Graph, g': Graph)
    requires NoLeaks(g) && g'.iws.Keys == g.iws.Keys && (forall v | v in g.iws :: g'.iws[v].list == g.iws[v].list)
    requires g'.items.Keys <= g.items.Keys
    ensures NoLeaks(g')
  {
    forall x | x in g'.items ensures exists v :: v in g'.iws && x in g'.iws[v].list {
      assert x in g.items;
      var v :| v in g.iws && x in g.iws[v].list;
      assert x in g'.iws[v].list;
    }
  }

  lemma AttachedNames(g: Graph, wd: Wd, flags: set<Bit>, o: Opening, fs: Key -> FileType)
    requires NamesOk(g) && wd !in g.iws && OpeningOk(g, o, fs)
    requires forall v, x | v in g.iws && x in g.iws[v].list :: x in g.items && x !in o.entries
    ensures NamesOk(Attached(g, wd, flags, o))
  {
  }

  // ------------------------------------------------------------------ what the list shows

  lemma {:induction false} ListingInode(stream: seq<Dirent>, d: Dirent)
    requires UniqueListing(stream) && d in stream && !IsDot(d.name)
    ensures d.name in ListingDir(stream) && ListingDir(stream)[d.name] == d.inode
  {
    forall e | e in stream && e.name == d.name ensures e == d {
      DirDiff.SameName(stream, e, d);
    }
  }

  lemma {:induction false} ListedFirst(stream: seq<Dirent>)
    requires UniqueListing(stream)
    ensures var a := Changes([], stream);
            && (forall c | c in a ::
                  c.item.name in ListingDir(stream) && ListingDir(stream)[c.item.name] == c.item.inode)
            && (forall n | n in ListingDir(stream) :: exists c :: c in a && c.item.name == n)
  {
    var a := Changes([], stream);
    DirDiff.ChangesFrom([], stream);
    forall c | c in a ensures c.item.name in ListingDir(stream) && ListingDir(stream)[c.item.name] == c.item.inode {
      var d :| d in stream && ChangeOf([], d) == [c];
      ListingInode(stream, d);
    }
    forall n | n in ListingDir(stream) ensures exists c :: c in a && c.item.name == n {
      var d :| d in stream && !IsDot(d.name) && d.name == n;
      var c := ChangeOf([], d)[0];
      assert ChangeOf([], d) == [c];
      assert DirDiff.ChangedEntry([], stream, c);
    }
  }

  /** A new inotify watch on a directory starts with a list that shows the listing. */
  lemma OpenedShows(g1: Graph, g': Graph, wd: Wd, a: seq<Change>, next: nat, view: View)
    requires wd in g1.iws && OnlyEntriesOf(g1, g', wd) && EntriesFrom(g1, g', view.probe)
    requires forall x :: x in g1.iws[wd].list <==> next <= x < next + |a|
    requires forall j | 0 <= j < |a| :: next + j in g1.items && g1.items[next + j] == EntryOf(a[j].item)
    requires forall c | c in a ::
               c.item.name in ListingDir(view.stream) && ListingDir(view.stream)[c.item.name] == c.item.inode
    requires forall n | n in ListingDir(view.stream) :: exists c :: c in a && c.item.name == n
    ensures Shows(g', wd, view)
  {
    forall x | x in g'.iws[wd].list
      ensures x in g'.items && ShownAs(g'.items[x], view)
    {
      var j := x - next;
      assert x in g1.iws[wd].list && a[j] in a;
      assert next + j in g1.items && g1.items[next + j] == EntryOf(a[j].item);
    }
    forall n ensures n in ListNames(g', wd) <==> n in ListingDir(view.stream) {
      if n in ListingDir(view.stream) {
        var c :| c in a && c.item.name == n;
        var j :| 0 <= j < |a| && a[j] == c;
        assert next + j in g'.iws[wd].list && g'.items[next + j].name == n;
      }
    }
  }
}
