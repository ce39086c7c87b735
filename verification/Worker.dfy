/** A worker: its watches, its log of offered events, its descriptors, and the operations on them. */
module Worker {
  import opened Wrappers
  import opened Names
  import opened DepList
  import opened Flags
  import opened WatchGraph
  import opened Subwatches
  import opened Hub
  import opened MaskUpdate
  import opened WatchLife
  import opened DiffCallbacks
  import opened ClientView
  import opened DirRefresh
  import opened NewWatch
  import opened Notify
  import opened Descriptors
  import DirDiff
  import RenameGraph

  // ------------------------------------------------------------------ state

  /** What holds between any two operations. */
  ghost predicate Steady(h: Hub) {
    && GraphOk(h.g) && FiltersOk(h.g) && LivesOk(h) && NamesOk(h.g) && NoLeaks(h.g)
    && (forall v | v in h.g.iws :: !h.g.iws[v].closed)
  }

  /** The state of a worker: the descriptors in use are as the allocator expects, and entries have small ids. */
  ghost predicate StateOk(h: Hub, last: int, overflow: bool, next: nat) {
    Steady(h) && AllocOk(h.g.iws.Keys, last, overflow) && Below(h.g, next)
  }

  /** The types that the watched files are known to have; to agree with them is all that is asked of the file system. */
  lemma TypesKnown(g: Graph)
    requires GraphOk(g)
    ensures TypesOk(g, k => WatchMode(g, k))
    ensures forall fs: Key -> FileType :: TypesOk(g, fs) <==> forall k | k in g.watches :: fs(k) == WatchMode(g, k)
  {
    forall k, d | HasDep(g, k, d) ensures ModeOf(g, d) == WatchMode(g, k) {
      assert WatchOk(g, k);
    }
    forall fs: Key -> FileType ensures TypesOk(g, fs) <==> forall k | k in g.watches :: fs(k) == WatchMode(g, k) {
      if TypesOk(g, fs) {
        forall k | k in g.watches ensures fs(k) == WatchMode(g, k) {
          WatchedType(g, k, fs);
        }
      }
    }
  }

  /** A watch that has been one-shot since it was added has told nothing as long as it is there. */
  lemma {:induction false} OneshotQuiet(h: Hub, wd: Wd)
    requires Steady(h) && wd in h.g.iws && h.g.iws[wd].always
    ensures InOneshot in h.g.iws[wd].flags && PhaseOf(h.log, wd) == Live(0)
  {
    assert LifeOk(h, wd);
  }

  lemma RemaskedReady(h: Hub, wd: Wd, flags: set<Bit>, probe: string -> Probe, fs: Key -> FileType)
    requires HubOk(h, fs) && Refreshable(h.g, wd, probe, fs)
    ensures var g := UpdateEvent(Remasked(h.g, wd, flags), h.g.iws[wd].key);
            Refreshable(g, wd, probe, fs) && Stage(g, g, wd, g.iws[wd].list, fs)
  {
    RemaskedKeeps(h.g, wd, flags, fs);
    var g := UpdateEvent(Remasked(h.g, wd, flags), h.g.iws[wd].key);
    forall n ensures ProbeTrue(g, wd, probe(n), fs) {
      assert ProbeTrue(h.g, wd, probe(n), fs);
    }
  }

  /** The new filter of the directory itself makes no difference to what its mask asks of the entries. */
  lemma UnwantedAnyway(g: Graph, wd: Wd, k0: Key)
    ensures (exists k :: OnlyUnwantedNames(UpdateEvent(g, k0), wd, k)) <==> (exists k :: OnlyUnwantedNames(g, wd, k))
  {
    var g' := UpdateEvent(g, k0);
    forall k ensures OnlyUnwantedNames(g', wd, k) <==> OnlyUnwantedNames(g, wd, k) {
      assert forall d :: FilterOf(g', d) == FilterOf(g, d);
    }
  }

  /** Every entry the mask asks something of is watched if it can be opened. */
  ghost predicate AllSettled(g: Graph, wd: Wd, rest: set<ItemId>, probe: string -> Probe) {
    wd in g.iws && forall x | x in g.iws[wd].list && x !in rest ::
      x in g.items && Settled(g, wd, x, probe(g.items[x].name))
  }

  lemma SettledNext(g: Graph, g': Graph, wd: Wd, rest: set<ItemId>, x: ItemId, probe: string -> Probe)
    requires AllSettled(g, wd, rest, probe) && Touches(g, g', wd, x) && x in g.items && x in g'.items
    requires g'.items[x].name == g.items[x].name && Settled(g', wd, x, probe(g.items[x].name))
    ensures AllSettled(g', wd, rest - {x}, probe)
  {
    forall y | y in g'.iws[wd].list && y !in rest - {x}
      ensures y in g'.items && Settled(g', wd, y, probe(g'.items[y].name))
    {
      if y != x {
        StaysSettled(g, g', wd, x, y, probe(g.items[y].name));
      }
    }
  }

  lemma ParentReady(h: Hub, file: File, wd: Wd, probe: string -> Probe, fs: Key -> FileType)
    requires Steady(h) && FileTrue(file, probe, fs) && HasDep(h.g, file.key, Dep(wd, Parent))
    ensures Refreshable(h.g, wd, probe, fs)
  {
    assert WatchOk(h.g, file.key) && DepOk(h.g, file.key, Dep(wd, Parent));
  }

  lemma UpdateDone(h: Hub, h': Hub, wd: Wd, flags: set<Bit>, last: int, overflow: bool, next: nat, fs: Key -> FileType)
    requires StateOk(h, last, overflow, next) && wd in h.g.iws && h'.log == h.log
    requires Stage(UpdateEvent(Remasked(h.g, wd, flags), h.g.iws[wd].key), h'.g, wd, {}, fs)
    ensures StateOk(h', last, overflow, next) && TypesOk(h'.g, fs)
    ensures OnlyEntriesOf(Remasked(h.g, wd, flags), h'.g, wd)
  {
    StageDone(UpdateEvent(Remasked(h.g, wd, flags), h.g.iws[wd].key), h'.g, wd, fs);
    RemaskedLives(h, h'.g, wd, flags);
    NamesStay(h.g, h'.g);
    NoLeaksStay(h.g, h'.g);
  }

  lemma InitDone(h: Hub, h': Hub, wd: Wd, flags: set<Bit>, o: Opening, fs: Key -> FileType)
    requires Steady(h) && wd !in h.g.iws && OpeningOk(h.g, o, fs) && h'.log == h.log + [Issued(wd)]
    requires Stage(Attached(h.g, wd, flags, o), h'.g, wd, {}, fs)
    ensures Steady(h') && TypesOk(h'.g, fs) && h'.g.iws.Keys == h.g.iws.Keys + {wd}
    ensures OnlyEntriesOf(Attached(h.g, wd, flags, o), h'.g, wd)
  {
    StageDone(Attached(h.g, wd, flags, o), h'.g, wd, fs);
    IssuedLives(h, h'.g, wd);
    AttachedMemory(h.g, wd, flags, o, fs);
    NamesStay(Attached(h.g, wd, flags, o), h'.g);
    NoLeaksStay(Attached(h.g, wd, flags, o), h'.g);
  }

  lemma InitBelow(g: Graph, g': Graph, wd: Wd, flags: set<Bit>, file: File, probe: string -> Probe, next: nat)
    requires Below(g, next) && OnlyEntriesOf(Attached(g, wd, flags, OpeningOf(file, probe, next)), g', wd)
    ensures Below(g', next + |ListedNow(file)|)
  {
    assert g'.items.Keys == g.items.Keys + OpeningOf(file, probe, next).entries.Keys;
  }

  lemma InitEnds(h: Hub, h': Hub, wd: Wd, flags: set<Bit>, file: File, probe: string -> Probe, next: nat, last: int,
                 overflow: bool, fs: Key -> FileType)
    requires Steady(h) && wd !in h.g.iws && Below(h.g, next) && FileTrue(file, probe, fs)
    requires h'.log == h.log + [Issued(wd)]
    requires AllocOk(h.g.iws.Keys + {wd}, last, overflow)
    requires var g1 := Attached(h.g, wd, flags, OpeningOf(file, probe, next));
             Stage(g1, h'.g, wd, {}, fs) && EntriesFrom(g1, h'.g, probe)
    ensures StateOk(h', last, overflow, next + |ListedNow(file)|) && TypesOk(h'.g, fs)
    ensures OnlyEntriesOf(Attached(h.g, wd, flags, OpeningOf(file, probe, next)), h'.g, wd)
    ensures file.mode.Directory? ==> Shows(h'.g, wd, View(file.listing, probe, false))
  {
    OpeningIsOk(h.g, file, probe, next, fs);
    InitDone(h, h', wd, flags, OpeningOf(file, probe, next), fs);
    InitBelow(h.g, h'.g, wd, flags, file, probe, next);
    if file.mode.Directory? {
      InitShows(h.g, h'.g, wd, flags, file, probe, next);
    }
  }

  lemma InitShows(g: Graph, g': Graph, wd: Wd, flags: set<Bit>, file: File, probe: string -> Probe, next: nat)
    requires file.mode.Directory? && UniqueListing(file.listing) && Below(g, next)
    requires var g1 := Attached(g, wd, flags, OpeningOf(file, probe, next));
             OnlyEntriesOf(g1, g', wd) && EntriesFrom(g1, g', probe)
    ensures Shows(g', wd, View(file.listing, probe, false))
  {
    ListedFirst(file.listing);
    OpenedShows(Attached(g, wd, flags, OpeningOf(file, probe, next)), g', wd, Changes([], file.listing), next,
                View(file.listing, probe, false));
  }

  lemma DiffDone(h: Hub, h': Hub, wd: Wd, view: View, r: Run, c: Diff, fs: Key -> FileType)
    requires HubOk(h, fs) && NamesOk(h.g) && NoLeaks(h.g) && IsRunOf(h, h', wd, view, r)
    requires ViewTrue(h.g.iws[wd].key, view, fs)
    requires c == DiffOf(h.g, view, r)
    ensures Refreshed(h, h', wd, view, fs) && Below(h'.g, r.next + |c.after|)
    ensures Listens(h.g, wd) ==>
              (Informed(h, h', wd) <==>
               RenameGraph.Acyclic(DirDiff.RenamesBetween(ItemsOf(h.g, r.before), view.stream)))
  {
    RunKeeps(h, h', wd, view, r, fs);
    RunBelow(h, h', wd, view, r, fs);
    if Listens(h.g, wd) {
      ReaderFollows(h, h', wd, view, r, fs);
    }
  }

  lemma NotifyingStart(h: Hub, k: Key, fs: Key -> FileType)
    requires Steady(h) && TypesOk(h.g, fs) && k in h.g.watches
    ensures Notifying(h, h, k, fs)
  {
  }

  lemma PrunedSteady(h0: Hub, h1: Hub, h: Hub, k: Key, gone: bool, last: int, overflow: bool, next: nat,
                     fs: Key -> FileType)
    requires Notifying(h0, h1, k, fs) && Pruned(h1, h, k, gone, fs)
    requires AllocOk(h0.g.iws.Keys, last, overflow) && Below(h1.g, next)
    ensures StateOk(h, last, overflow, next) && TypesOk(h.g, fs)
  {
    NamesStay(h1.g, h.g);
    assert forall v | v in h.g.iws :: v in h1.g.iws;
  }

  /** After a kernel event. */
  lemma EventDone(rows: seq<Hub>, h: Hub, k: Key, mode: FileType, ev: KEvent, deps: seq<Dep>, gone: bool,
                  last: int, overflow: bool, next: nat, fs: Key -> FileType)
    requires |rows| == |IE_ORDER| + 1 && RowsDone(rows, mode, ev, deps) && EventTrue(k, ev, fs)
    requires Notifying(rows[0], rows[0], k, fs) && deps == rows[0].g.watches[k].deps
    requires Pruned(rows[|IE_ORDER|], h, k, gone, fs)
    requires AllocOk(rows[0].g.iws.Keys, last, overflow) && Below(rows[|IE_ORDER|].g, next)
    ensures StateOk(h, last, overflow, next) && TypesOk(h.g, fs) && UpToDate(h.g, k, ev)
  {
    RowsKeep(rows, k, mode, ev, deps, |IE_ORDER|, fs);
    PrunedUpToDate(rows[|IE_ORDER|], h, k, gone, ev, fs);
    PrunedSteady(rows[0], rows[|IE_ORDER|], h, k, gone, last, overflow, next, fs);
  }

  class Worker {
    var hub: Hub
    var wdLast: int
    var wdOverflow: bool
    var nextId: nat  // entries in memory have smaller ids

    ghost predicate Valid()
      reads this
    {
      StateOk(hub, wdLast, wdOverflow, nextId)
    }

    constructor (pf: Platform)
      ensures Valid() && hub == Hub(Graph(pf, map[], map[], map[]), [])
    {
      hub, wdLast, wdOverflow, nextId := Hub(Graph(pf, map[], map[], map[]), []), 0, false, 0;
      new;
      assert forall k :: WatchOk(hub.g, k) && FilterOk(hub.g, k);
      assert forall v :: IWatchOk(hub.g, v) && LifeOk(hub, v);
    }

    /** Step to the next descriptor, and see if it is in use. */
    method TryNext(ghost last: int, ghost i: nat) returns (found: bool)
      requires AllocOk(hub.g.iws.Keys, wdLast, wdOverflow)
      requires 0 <= last <= INT_MAX && i < INT_MAX && wdLast == Ahead(last, i) && AllLive(hub.g.iws.Keys, last, i)
      modifies this`wdLast, this`wdOverflow
      ensures wdLast == Ahead(last, i + 1) && found == (wdLast !in hub.g.iws)
      ensures AllocOk(hub.g.iws.Keys + {wdLast}, wdLast, wdOverflow)
      ensures !found ==> AllLive(hub.g.iws.Keys, last, i + 1)
    {
      AheadStep(hub.g.iws.Keys, last, i);
      if wdLast == INT_MAX {
        wdLast := 0;
        wdOverflow := true;
      }
      found := true;
      wdLast := wdLast + 1;
      if wdOverflow && wdLast in hub.g.iws {
        found := false;
      }
    }

    /** Find a descriptor that is not in use; ends whenever there is one. */
    method AllocateWd() returns (wd: Wd)
      requires AllocOk(hub.g.iws.Keys, wdLast, wdOverflow) && |hub.g.iws.Keys| < INT_MAX
      modifies this`wdLast, this`wdOverflow
      ensures wd == wdLast && NextFree(hub.g.iws.Keys, old(wdLast), wd)
      ensures AllocOk(hub.g.iws.Keys + {wd}, wdLast, wdOverflow)
    {
      ghost var live, last := hub.g.iws.Keys, wdLast;
      ghost var n := SomeFree(live, last);
      ghost var i: nat := 0;
      var found := false;
      while !found
        invariant i <= n && AllocOk(live, wdLast, wdOverflow) && AllLive(live, last, i)
        invariant if found
                  then wdLast == Ahead(last, i + 1) && wdLast !in live && AllocOk(live + {wdLast}, wdLast, wdOverflow)
                  else wdLast == Ahead(last, i)
        decreases n - i, !found
      {
        found := TryNext(last, i);
        if !found {
          assert i != n;
          i := i + 1;
        }
      }
      wd := wdLast;
    }

    // ---------------------------------------------------------------- changing the mask

    /** Bring one entry in line with the mask. */
    method RefreshOne(wd: Wd, x: ItemId, probe: string -> Probe, ghost rest: set<ItemId>, ghost g: Graph,
                      ghost empty: bool, ghost fs: Key -> FileType) returns (ghost empty': bool)
      requires Refreshable(g, wd, probe, fs) && x in rest && Stage(g, hub.g, wd, rest, fs) && x in hub.g.items
      requires GraphOk(g) && TypesOk(g, fs) && Traced(g, hub.g, wd, rest, empty) && AllSettled(hub.g, wd, rest, probe)
      modifies this`hub
      ensures Stage(g, hub.g, wd, rest - {x}, fs) && hub.log == old(hub.log)
      ensures hub.g == RefreshEntry(old(hub.g), wd, x, probe(old(hub.g.items[x].name)))
      ensures AllSettled(hub.g, wd, rest - {x}, probe)
      ensures empty' == (empty || ComputesEmpty(old(hub.g), wd, x)) && Traced(g, hub.g, wd, rest - {x}, empty')
    {
      ghost var g1, p := hub.g, probe(hub.g.items[x].name);
      StageNext(g, g1, wd, rest, x, probe, fs);
      assert ProbeTrue(g, wd, p, fs);
      TracedNext(g, g1, wd, rest, x, p, empty, fs);
      empty' := empty || ComputesEmpty(hub.g, wd, x);
      hub := hub.(g := RefreshEntry(hub.g, wd, x, probe(hub.g.items[x].name)));
      SettledNext(g1, hub.g, wd, rest, x, probe);
    }

    /** Bring all entries in line with the mask, in any order. */
    method RefreshAll(wd: Wd, probe: string -> Probe, ghost fs: Key -> FileType) returns (ghost empty: bool)
      requires Refreshable(hub.g, wd, probe, fs) && Stage(hub.g, hub.g, wd, hub.g.iws[wd].list, fs)
      modifies this`hub
      ensures Stage(old(hub.g), hub.g, wd, {}, fs) && hub.log == old(hub.log) && AllSettled(hub.g, wd, {}, probe)
      ensures empty <==> exists k :: OnlyUnwantedNames(old(hub.g), wd, k)
    {
      ghost var g := hub.g;
      assert IWatchOk(g, wd);
      empty := false;
      var rest := hub.g.iws[wd].list;
      TracedStart(g, wd, rest);
      while rest != {}
        invariant rest <= g.iws[wd].list && Stage(g, hub.g, wd, rest, fs) && hub.log == old(hub.log)
        invariant AllSettled(hub.g, wd, rest, probe) && Traced(g, hub.g, wd, rest, empty)
        decreases |rest|
      {
        var x :| x in rest;
        empty := RefreshOne(wd, x, probe, rest, g, empty, fs);
        rest := rest - {x};
      }
      TracedDone(g, hub.g, wd, empty, fs);
    }

    /**
     * Filter agreement across a change of mask: at its end every registered filter is again exactly
     * what the records need, no record needs nothing, every entry the new mask asks something of
     * is watched if it can be opened, and only the entries of this inotify watch are affected. On the
     * way an empty filter is computed if and only if all records of some watch are names of one file in
     * this directory, two or more, of which the new mask asks nothing.
     */
    method UpdateFlags(wd: Wd, flags: set<Bit>, probe: string -> Probe, ghost fs: Key -> FileType)
      returns (ghost empty: bool)
      requires Valid() && TypesOk(hub.g, fs) && Refreshable(hub.g, wd, probe, fs)
      modifies this`hub
      ensures Valid() && TypesOk(hub.g, fs) && hub.log == old(hub.log)
      ensures OnlyEntriesOf(Remasked(old(hub.g), wd, flags), hub.g, wd) && AllSettled(hub.g, wd, {}, probe)
      ensures empty <==> exists k :: OnlyUnwantedNames(Remasked(old(hub.g), wd, flags), wd, k)
    {
      ghost var h := hub;
      RemaskedReady(h, wd, flags, probe, fs);
      UnwantedAnyway(Remasked(h.g, wd, flags), wd, h.g.iws[wd].key);
      hub := hub.(g := Remasked(hub.g, wd, flags));
      hub := hub.(g := UpdateEvent(hub.g, hub.g.iws[wd].key));
      empty := RefreshAll(wd, probe, fs);
      UpdateDone(h, hub, wd, flags, wdLast, wdOverflow, nextId, fs);
    }

    // ---------------------------------------------------------------- the end of an inotify watch

    /** Stop watching the entries of a directory, in any order. */
    method UnwatchAll(wd: Wd, ghost fs: Key -> FileType)
      requires Sound(hub.g, fs) && wd in hub.g.iws
      modifies this`hub
      ensures Unwatching(old(hub.g), hub.g, wd, {}, fs) && hub.log == old(hub.log)
    {
      ghost var g := hub.g;
      UnwatchStart(g, wd, fs);
      assert IWatchOk(g, wd);
      var rest := hub.g.iws[wd].list;
      while rest != {}
        invariant rest <= g.iws[wd].list && Unwatching(g, hub.g, wd, rest, fs) && hub.log == old(hub.log)
        decreases |rest|
      {
        var x :| x in rest;
        UnwatchNext(g, hub.g, wd, rest, x, fs);
        hub := hub.(g := DelSubwatch(hub.g, wd, x));
        rest := rest - {x};
      }
    }

    /** Report the end of an inotify watch, and free it. */
    method RemoveIwatch(wd: Wd, ghost fs: Key -> FileType)
      requires HubOk(hub, fs) && wd in hub.g.iws
      modifies this`hub
      ensures HubOk(hub, fs) && Rid(old(hub.g), hub.g, wd) && hub.log == old(hub.log) + [Ignored(wd)]
    {
      ghost var h := hub;
      hub := hub.(log := hub.log + [Ignored(wd)]);
      UnwatchAll(wd, fs);
      UnwatchDone(h.g, hub.g, wd, fs);
      hub := hub.(g := Ended(hub.g, wd));
      EndedLives(h, hub.g, wd);
    }

    /** Remove the inotify watch with a descriptor, if there is one. */
    method Remove(id: Wd, ghost fs: Key -> FileType) returns (r: int)
      requires Valid() && TypesOk(hub.g, fs)
      modifies this`hub
      ensures Valid() && TypesOk(hub.g, fs)
      ensures r == (if id in old(hub.g.iws) then 0 else -1)
      ensures r == 0 ==> Rid(old(hub.g), hub.g, id) && hub.log == old(hub.log) + [Ignored(id)]
      ensures r != 0 ==> hub == old(hub)
    {
      if id in hub.g.iws {
        ghost var h := hub;
        RemoveIwatch(id, fs);
        NamesStay(h.g, hub.g);
        RidNoLeaks(h.g, hub.g, id);
        r := 0;
      } else {
        r := -1;
      }
    }

    // ---------------------------------------------------------------- the beginning of an inotify watch

    method AddOne(wd: Wd, x: ItemId, probe: string -> Probe, ghost rest: set<ItemId>, ghost g: Graph,
                  ghost fs: Key -> FileType)
      requires Refreshable(g, wd, probe, fs) && x in rest && Stage(g, hub.g, wd, rest, fs) && Untouched(hub.g, wd, rest)
      requires x in hub.g.items && AllSettled(hub.g, wd, rest, probe) && EntriesFrom(g, hub.g, probe)
      modifies this`hub
      ensures Stage(g, hub.g, wd, rest - {x}, fs) && Untouched(hub.g, wd, rest - {x}) && hub.log == old(hub.log)
      ensures hub.g == AddSubwatch(old(hub.g), wd, x, probe(old(hub.g.items[x].name)))
      ensures AllSettled(hub.g, wd, rest - {x}, probe) && EntriesFrom(g, hub.g, probe)
    {
      ghost var g1 := hub.g;
      AddNext(g, g1, wd, rest, x, probe, fs);
      AddSubwatchEntries(g1, wd, x, probe);
      hub := hub.(g := AddSubwatch(hub.g, wd, x, probe(hub.g.items[x].name)));
      EntriesChain(g, g1, hub.g, probe);
      SettledNext(g1, hub.g, wd, rest, x, probe);
    }

    /** Start watching the entries of a new inotify watch, in any order. */
    method AddAll(wd: Wd, probe: string -> Probe, ghost fs: Key -> FileType)
      requires Refreshable(hub.g, wd, probe, fs)
      requires Stage(hub.g, hub.g, wd, hub.g.iws[wd].list, fs) && Untouched(hub.g, wd, hub.g.iws[wd].list)
      modifies this`hub
      ensures Stage(old(hub.g), hub.g, wd, {}, fs) && hub.log == old(hub.log)
      ensures AllSettled(hub.g, wd, {}, probe) && EntriesFrom(old(hub.g), hub.g, probe)
    {
      ghost var g := hub.g;
      assert IWatchOk(g, wd);
      var rest := hub.g.iws[wd].list;
      while rest != {}
        invariant rest <= g.iws[wd].list && Stage(g, hub.g, wd, rest, fs) && Untouched(hub.g, wd, rest)
        invariant AllSettled(hub.g, wd, rest, probe) && EntriesFrom(g, hub.g, probe) && hub.log == old(hub.log)
        decreases |rest|
      {
        var x :| x in rest;
        AddOne(wd, x, probe, rest, g, fs);
        rest := rest - {x};
      }
    }

    /** A new inotify watch with this descriptor, its list of entries, and the records of those. */
    method Attach(wd: Wd, flags: set<Bit>, file: File, probe: string -> Probe, ghost fs: Key -> FileType)
      requires HubOk(hub, fs) && Below(hub.g, nextId) && wd !in hub.g.iws
      requires FileTrue(file, probe, fs) && !HasParent(hub.g, file.key)
      modifies this`hub, this`nextId
      ensures hub.log == old(hub.log) + [Issued(wd)] && nextId == old(nextId) + |ListedNow(file)|
      ensures var g1 := Attached(old(hub.g), wd, flags, OpeningOf(file, probe, old(nextId)));
              Stage(g1, hub.g, wd, {}, fs) && EntriesFrom(g1, hub.g, probe)
      ensures AllSettled(hub.g, wd, {}, probe)
    {
      var o := OpeningOf(file, probe, nextId);
      OpeningIsOk(hub.g, file, probe, nextId, fs);
      AttachedReady(hub.g, wd, flags, o, fs);
      hub := Hub(Attached(hub.g, wd, flags, o), hub.log + [Issued(wd)]);
      nextId := nextId + |ListedNow(file)|;
      AddAll(wd, probe, fs);
    }

    /** A new inotify watch with a fresh descriptor, on a file that none watches itself yet. */
    method InitIwatch(flags: set<Bit>, file: File, probe: string -> Probe, ghost fs: Key -> FileType) returns (wd: Wd)
      requires Valid() && TypesOk(hub.g, fs) && |hub.g.iws.Keys| < INT_MAX
      requires FileTrue(file, probe, fs) && !HasParent(hub.g, file.key)
      modifies this
      ensures Valid() && TypesOk(hub.g, fs)
      ensures NextFree(old(hub.g.iws.Keys), old(wdLast), wd) && hub.log == old(hub.log) + [Issued(wd)]
      ensures OnlyEntriesOf(Attached(old(hub.g), wd, flags, OpeningOf(file, probe, old(nextId))), hub.g, wd)
      ensures AllSettled(hub.g, wd, {}, probe)
      ensures file.mode.Directory? ==> Shows(hub.g, wd, View(file.listing, probe, false))
    {
      ghost var h, next := hub, nextId;
      wd := AllocateWd();
      Attach(wd, flags, file, probe, fs);
      InitEnds(h, hub, wd, flags, file, probe, next, wdLast, wdOverflow, fs);
    }

    /** The first record of a watch that is that of an inotify watch on the file itself. */
    method FindParent(k: Key) returns (r: Option<Wd>)
      ensures r.None? <==> !HasParent(hub.g, k)
      ensures r.Some? ==> HasDep(hub.g, k, Dep(r.value, Parent))
    {
      if k !in hub.g.watches {
        return None;
      }
      var deps := hub.g.watches[k].deps;
      for i := 0 to |deps|
        invariant forall j | 0 <= j < i :: !deps[j].target.Parent?
      {
        if deps[i].target.Parent? {
          assert HasDep(hub.g, k, deps[i]) && deps[i] == Dep(deps[i].wd, Parent);
          return Some(deps[i].wd);
        }
      }
      return None;
    }

    /**
     * Add an inotify watch for a file, or change the mask of the one there is. There is never more
     * than one for a file, and the call fails exactly if the file cannot be opened.
     */
    method AddOrModify(flags: set<Bit>, file: Option<File>, probe: string -> Probe, ghost fs: Key -> FileType)
      returns (r: int)
      requires Valid() && TypesOk(hub.g, fs)
      requires file.Some? ==> FileTrue(file.value, probe, fs)
      requires file.Some? && !HasParent(hub.g, file.value.key) ==> |hub.g.iws.Keys| < INT_MAX
      modifies this
      ensures Valid() && TypesOk(hub.g, fs)
      ensures r == -1 <==> file.None?
      ensures file.None? ==> hub == old(hub)
      ensures file.Some? ==> HasDep(hub.g, file.value.key, Dep(r, Parent)) && AllSettled(hub.g, r, {}, probe)
      ensures file.Some? && HasParent(old(hub.g), file.value.key) ==>
                && r in old(hub.g.iws) && HasDep(old(hub.g), file.value.key, Dep(r, Parent)) && hub.log == old(hub.log)
                && OnlyEntriesOf(Remasked(old(hub.g), r, flags), hub.g, r)
      ensures file.Some? && !HasParent(old(hub.g), file.value.key) ==>
                && NextFree(old(hub.g.iws.Keys), old(wdLast), r) && hub.log == old(hub.log) + [Issued(r)]
                && OnlyEntriesOf(Attached(old(hub.g), r, flags, OpeningOf(file.value, probe, old(nextId))), hub.g, r)
                && (file.value.mode.Directory? ==> Shows(hub.g, r, View(file.value.listing, probe, false)))
    {
      if file.None? {
        return -1;
      }
      ghost var g := hub.g;
      var found := FindParent(file.value.key);
      if found.Some? {
        r := found.value;
        ParentReady(hub, file.value, r, probe, fs);
        ghost var _ := UpdateFlags(r, flags, probe, fs);
        assert HasDep(Remasked(g, r, flags), file.value.key, Dep(r, Parent));
      } else {
        r := InitIwatch(flags, file.value, probe, fs);
        AttachedRecords(g, r, flags, OpeningOf(file.value, probe, old(nextId)));
      }
      assert r in hub.g.iws;
    }

    // ---------------------------------------------------------------- kernel events

    /** The first of these entries in name order. */
    method SmallestName(wd: Wd, rest: set<ItemId>) returns (x: ItemId)
      requires wd in hub.g.iws && NamesOk(hub.g) && rest != {} && rest <= hub.g.iws[wd].list && rest <= hub.g.items.Keys
      ensures x in rest && forall y | y in rest && y != x :: NameLess(hub.g.items[x].name, hub.g.items[y].name)
    {
      ghost var first := FirstByName(hub.g.items, rest);
      x :| x in rest && forall y | y in rest && y != x :: NameLess(hub.g.items[x].name, hub.g.items[y].name);
    }

    /** The entries of a directory in name order. */
    method NameOrder(wd: Wd) returns (ids: seq<ItemId>)
      requires wd in hub.g.iws && GraphOk(hub.g) && NamesOk(hub.g)
      ensures InNameOrder(hub.g, wd, ids)
    {
      ids := [];
      var rest := hub.g.iws[wd].list;
      assert IWatchOk(hub.g, wd);
      while rest != {}
        invariant rest <= hub.g.iws[wd].list && (forall x :: x in ids <==> x in hub.g.iws[wd].list && x !in rest)
        invariant forall i, j | 0 <= i < j < |ids| :: NameLess(hub.g.items[ids[i]].name, hub.g.items[ids[j]].name)
        invariant forall x, y | x in ids && y in rest :: NameLess(hub.g.items[x].name, hub.g.items[y].name)
        decreases |rest|
      {
        var x := SmallestName(wd, rest);
        ids := ids + [x];
        rest := rest - {x};
      }
    }

    /** Make one callback. */
    method Callback(wd: Wd, c: Diff, p: nat, ghost h0: Hub, ghost hs: seq<Hub>, ghost fs: Key -> FileType)
      returns (ghost hs': seq<Hub>)
      requires Prepared(h0, wd, c, fs) && p < |c.acts| && Midway(h0, hub, wd, c, p, fs) && InMemory(hub, wd, c)
      requires |hs| == p + 1 && hs[p] == hub && IsTrace(hs, wd, c)
      modifies this`hub
      ensures Midway(h0, hub, wd, c, p + 1, fs) && InMemory(hub, wd, c)
      ensures hs' == hs + [hub] && IsTrace(hs', wd, c)
    {
      ghost var h := hub;
      hub := Perform(hub, wd, c, p);
      NextMidway(h0, h, hub, wd, c, p, fs);
      TraceExtends(hs, hub, wd, c);
      hs' := hs + [hub];
    }

    /** Make the callbacks of a diff, in order. */
    method Callbacks(wd: Wd, c: Diff, ghost fs: Key -> FileType) returns (ghost hs: seq<Hub>)
      requires Prepared(hub, wd, c, fs)
      modifies this`hub
      ensures |hs| == |c.acts| + 1 && hs[0] == old(hub) && hs[|c.acts|] == hub && IsTrace(hs, wd, c)
    {
      hs := [hub];
      StartMidway(hub, wd, c, fs);
      for p := 0 to |c.acts|
        invariant |hs| == p + 1 && hs[0] == old(hub) && hs[p] == hub && IsTrace(hs, wd, c)
        invariant Midway(old(hub), hub, wd, c, p, fs) && InMemory(hub, wd, c)
      {
        hs := Callback(wd, c, p, old(hub), hs, fs);
      }
    }

    /** Compare a listing with the stored list: the differences, and the order in which they are reported. */
    method Compare(wd: Wd, view: View) returns (c: Diff, ghost r: Run)
      requires wd in hub.g.iws && GraphOk(hub.g) && NamesOk(hub.g) && Below(hub.g, nextId) && UniqueListing(view.stream)
      ensures Planned(hub.g, wd, view, r) && r.next == nextId && c == DiffOf(hub.g, view, r)
    {
      var ids := NameOrder(wd);
      OrderIsStored(hub.g, wd, ids);
      var stored := ItemsOf(hub.g, ids);
      var dl := new DirDiff.DirList(stored);
      ghost var forced;
      var order;
      order, forced := dl.Refresh(view.stream);
      c := DiffFor(stored, view, ids, nextId, order);
      r := Run(ids, nextId, order, forced, []);
    }

    /**
     * Compare a directory with its listing and report what has changed. Afterwards the list shows the listing,
     * and a program that listens to all changes knows its names if and only if the renames are not circular.
     */
    method DirectoryDiff(wd: Wd, view: View, ghost fs: Key -> FileType) returns (ghost r: Run)
      requires wd in hub.g.iws && HubOk(hub, fs) && NamesOk(hub.g) && NoLeaks(hub.g) && Below(hub.g, nextId)
      requires ViewTrue(hub.g.iws[wd].key, view, fs)
      modifies this`hub, this`nextId
      ensures IsRunOf(old(hub), hub, wd, view, r) && Below(hub.g, nextId)
      ensures Refreshed(old(hub), hub, wd, view, fs)
      ensures Listens(old(hub.g), wd) ==>
                (Informed(old(hub), hub, wd) <==>
                 RenameGraph.Acyclic(DirDiff.RenamesBetween(ItemsOf(old(hub.g), r.before), view.stream)))
    {
      ghost var h := hub;
      var c;
      c, r := Compare(wd, view);
      PlannedIsPrepared(h, wd, view, r, fs);
      hub := hub.(g := Grown(hub.g, NewEntries(c.a, nextId)));
      ghost var hs := Callbacks(wd, c, fs);
      r := r.(hs := hs);
      hub := hub.(g := Freed(hub.g, Leaving(c)));
      nextId := nextId + |c.after|;
      DiffDone(h, hub, wd, view, r, c, fs);
    }

    /** Deal with one record for one bit of the event. */
    method Dispatch(k: Key, mode: FileType, ev: KEvent, d: Dep, ie: Bit, ghost h0: Hub, ghost fs: Key -> FileType)
      requires Notifying(h0, hub, k, fs) && HasDep(hub.g, k, d) && mode == fs(k) && EventTrue(k, ev, fs)
      requires Below(hub.g, nextId)
      modifies this`hub, this`nextId
      ensures Notifying(h0, hub, k, fs) && Dispatched(old(hub), hub, mode, ev, d, ie) && Below(hub.g, nextId)
    {
      AssertionsHold(hub.g, k, d);
      WatchedType(hub.g, k, fs);
      assert Asserted(hub.g, k, mode, d);
      if CallsForDiff(hub.g, ev, d, ie) {
        if ev.listing.Some? {
          ghost var h := hub;
          assert h.g.iws[d.wd].key == k;
          ghost var r := DirectoryDiff(d.wd, ViewOf(ev), fs);
          DiffKeeps(h0, h, hub, k, ev, d, r, fs);
        }
      } else {
        TellBitKeeps(h0, hub, k, mode, ev, d, ie, fs);
        hub := TellBit(hub, mode, ev, d, ie);
      }
    }

    /** Deal with all records for one bit of the event. */
    method Row(k: Key, mode: FileType, ev: KEvent, ie: Bit, ghost h0: Hub, ghost fs: Key -> FileType)
      requires Notifying(h0, hub, k, fs) && mode == fs(k) && EventTrue(k, ev, fs) && Below(hub.g, nextId)
      modifies this`hub, this`nextId
      ensures Notifying(h0, hub, k, fs) && RowLeadsTo(old(hub), hub, mode, ev, h0.g.watches[k].deps, ie)
      ensures Below(hub.g, nextId)
    {
      var deps := hub.g.watches[k].deps;
      ghost var hs := [hub];
      var j := 0;
      while j < |deps|
        invariant j <= |deps| && Notifying(h0, hub, k, fs) && hub.g.watches[k].deps == deps && Below(hub.g, nextId)
        invariant |hs| == j + 1 && hs[0] == old(hub) && hs[j] == hub && RowDone(hs, mode, ev, deps, ie)
      {
        assert HasDep(hub.g, k, deps[j]);
        Dispatch(k, mode, ev, deps[j], ie, h0, fs);
        RowExtends(hs, hub, mode, ev, deps, ie);
        hs := hs + [hub];
        j := j + 1;
      }
    }

    /** Report the bits of the event one by one, each to all records. */
    method Deaggregate(k: Key, mode: FileType, ev: KEvent, ghost fs: Key -> FileType) returns (ghost rows: seq<Hub>)
      requires Notifying(hub, hub, k, fs) && mode == fs(k) && EventTrue(k, ev, fs) && Below(hub.g, nextId)
      modifies this`hub, this`nextId
      ensures Notifying(old(hub), hub, k, fs) && Below(hub.g, nextId)
      ensures |rows| == |IE_ORDER| + 1 && rows[0] == old(hub) && rows[|IE_ORDER|] == hub
      ensures RowsDone(rows, mode, ev, old(hub.g.watches[k].deps))
    {
      ghost var h0 := hub;
      rows := [hub];
      for i := 0 to |IE_ORDER|
        invariant Notifying(h0, hub, k, fs) && Below(hub.g, nextId)
        invariant |rows| == i + 1 && rows[0] == h0 && rows[i] == hub && RowsDone(rows, mode, ev, h0.g.watches[k].deps)
      {
        Row(k, mode, ev, IE_ORDER[i], h0, fs);
        RowsExtend(rows, hub, mode, ev, h0.g.watches[k].deps);
        rows := rows + [hub];
      }
    }

    /** One pass over the records: end the first inotify watch that has to, and say if another pass is due. */
    method PruneOne(k: Key, gone: bool, ghost h0: Hub, ghost fs: Key -> FileType) returns (reiterate: bool)
      requires Pruning(h0, hub, k, gone, fs) && k in hub.g.watches
      modifies this`hub
      ensures Pruning(h0, hub, k, gone, fs) && |hub.g.iws| <= |old(hub.g.iws)|
      ensures reiterate ==> k in hub.g.watches && |hub.g.iws| < |old(hub.g.iws)|
      ensures !reiterate ==> Pruned(h0, hub, k, gone, fs)
    {
      reiterate := false;
      var deps := hub.g.watches[k].deps;
      for i := 0 to |deps|
        invariant hub == old(hub) && forall j | 0 <= j < i :: !Ends(hub.g, gone, deps[j])
      {
        if Ends(hub.g, gone, deps[i]) {
          var d := deps[i];
          ghost var h := hub;
          reiterate := exists j :: 0 <= j < |deps| && deps[j].wd != d.wd;
          RemoveIwatch(d.wd, fs);
          assert HasDep(h.g, k, d);
          assert reiterate ==> exists e :: HasDep(h.g, k, e) && e.wd != d.wd by {
            if j :| 0 <= j < |deps| && deps[j].wd != d.wd {
              assert HasDep(h.g, k, deps[j]);
            }
          }
          PruneNext(h0, h, hub, k, gone, d, fs);
          return;
        }
      }
      NoneLeft(h0, hub, k, gone, fs);
    }

    /**
     * End all inotify watches on a watch that are closed or whose file is gone. The watch is looked
     * at only while it exists, and the loop ends.
     */
    method Prune(k: Key, gone: bool, ghost fs: Key -> FileType)
      requires HubOk(hub, fs) && NoLeaks(hub.g) && ClosedOn(hub.g, k) && k in hub.g.watches
      modifies this`hub
      ensures Pruned(old(hub), hub, k, gone, fs)
    {
      ghost var h0 := hub;
      PruneStart(hub, k, gone, fs);
      var reiterate := true;
      while reiterate
        invariant Pruning(h0, hub, k, gone, fs)
        invariant if reiterate then k in hub.g.watches else Pruned(h0, hub, k, gone, fs)
        decreases |hub.g.iws|, reiterate
      {
        reiterate := PruneOne(k, gone, h0, fs);
      }
    }

    /** When all bits are dealt with, end the inotify watches that have to end. */
    method Conclude(k: Key, mode: FileType, ev: KEvent, ghost rows: seq<Hub>, ghost fs: Key -> FileType)
      requires |rows| == |IE_ORDER| + 1 && hub == rows[|IE_ORDER|] && EventTrue(k, ev, fs)
      requires Notifying(rows[0], rows[0], k, fs) && RowsDone(rows, mode, ev, rows[0].g.watches[k].deps)
      requires Notifying(rows[0], hub, k, fs) && AllocOk(rows[0].g.iws.Keys, wdLast, wdOverflow) && Below(hub.g, nextId)
      modifies this`hub
      ensures Valid() && TypesOk(hub.g, fs)
      ensures Pruned(old(hub), hub, k, Deleted(ev.notes, mode, ev.noLinks) || NoteRevoke in ev.notes, fs)
      ensures UpToDate(hub.g, k, ev)
    {
      var gone := Deleted(ev.notes, mode, ev.noLinks) || NoteRevoke in ev.notes;
      Prune(k, gone, fs);
      EventDone(rows, hub, k, mode, ev, rows[0].g.watches[k].deps, gone, wdLast, wdOverflow, nextId, fs);
    }

    /**
     * A kernel event on watch `k`. The bits of the event are dealt with one after the other, each
     * for all records; then exactly the inotify watches that are closed or whose file is gone end,
     * each with IN_IGNORED, and no closed one is left behind. If the watch is one of a directory and
     * the event calls for it, the list of the directory shows its listing afterwards.
     */
    method ProduceNotifications(k: Key, ev: KEvent, ghost fs: Key -> FileType) returns (ghost rows: seq<Hub>)
      requires Valid() && TypesOk(hub.g, fs) && k in hub.g.watches && EventTrue(k, ev, fs)
      modifies this`hub, this`nextId
      ensures Valid() && TypesOk(hub.g, fs)
      ensures |rows| == |IE_ORDER| + 1 && rows[0] == old(hub)
      ensures RowsDone(rows, WatchMode(old(hub.g), k), ev, old(hub.g.watches[k].deps))
      ensures var gone := Deleted(ev.notes, WatchMode(old(hub.g), k), ev.noLinks) || NoteRevoke in ev.notes;
              Pruned(rows[|IE_ORDER|], hub, k, gone, fs)
      ensures UpToDate(hub.g, k, ev)
    {
      WatchedType(hub.g, k, fs);
      var mode := WatchMode(hub.g, k);
      NotifyingStart(hub, k, fs);
      rows := Deaggregate(k, mode, ev, fs);
      Conclude(k, mode, ev, rows, fs);
    }
  }
}
