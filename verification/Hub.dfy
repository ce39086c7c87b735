/**
 * The graph of watches together with the events offered to the event queue, and the callbacks a
 * directory diff makes on the two.
 */
module Hub {
  import opened Wrappers
  import opened DepList
  import opened Flags
  import opened WatchGraph
  import opened Subwatches

  /** What is offered for a watch descriptor; `Issued` marks the moment it is handed out. */
  datatype Report = Issued(wd: Wd) | Told(wd: Wd, mask: set<Bit>, cookie: nat, name: Option<string>) | Ignored(wd: Wd)

  datatype Hub = Hub(g: Graph, log: seq<Report>)

  /** The part of an event that a mask lets through. */
  function Passing(mask: set<Bit>, flags: set<Bit>): set<Bit> {
    set b: Bit | b in mask && ((IsEvent(b) && b in flags) || b.InUnmount? || b.InIsDir?)
  }

  /** Nothing is left but possibly IN_ISDIR. */
  predicate IsBlank(mask: set<Bit>) {
    forall b | b in mask :: !IsEvent(b) && !b.InUnmount?
  }

  /** Offer an event for an inotify watch, unless its mask keeps it out or the watch is closed. */
  function Tell(h: Hub, wd: Wd, mask: set<Bit>, di: Option<Entry>): Hub
    requires wd in h.g.iws
  {
    var iw := h.g.iws[wd];
    var m := Passing(mask, iw.flags);
    if iw.closed || IsBlank(m) then h
    else Hub(SetIw(h.g, wd, iw.(closed := InOneshot in iw.flags)), h.log + [ReportOf(wd, m, di)])
  }

  /** An event about an entry has its name; the cookie of a rename is the lower half of the inode. */
  function ReportOf(wd: Wd, m: set<Bit>, di: Option<Entry>): Report {
    match di
    case None => Told(wd, m, 0, None)
    case Some(e) =>
      Told(wd, if e.fileType.Directory? then m + {InIsDir} else m,
           if InMovedFrom in m || InMovedTo in m then e.inode % 0x1_0000_0000 else 0, Some(e.name))
  }

  // ------------------------------------------------------------------ the life of a descriptor

  datatype Phase = Dead | Live(told: nat) | Broken

  /** Where a descriptor is in its life; events out of turn break it. */
  function PhaseOf(log: seq<Report>, wd: Wd): Phase {
    if log == [] then Dead
    else
      var p, r := PhaseOf(log[..|log| - 1], wd), log[|log| - 1];
      if r.wd != wd then p
      else match r
        case Issued(_) => if p.Dead? then Live(0) else Broken
        case Told(_, _, _, _) => if p.Live? then Live(p.told + 1) else Broken
        case Ignored(_) => if p.Live? then Dead else Broken
  }

  /** A descriptor is live exactly while its inotify watch exists; a one-shot watch that told something is closed. */
  ghost predicate LifeOk(h: Hub, wd: Wd) {
    var p := PhaseOf(h.log, wd);
    && !p.Broken?
    && (p.Live? <==> wd in h.g.iws)
    && (wd in h.g.iws && h.g.iws[wd].always ==>
          InOneshot in h.g.iws[wd].flags && p.told <= 1 && (p.told == 1 ==> h.g.iws[wd].closed))
  }

  ghost predicate LivesOk(h: Hub) {
    forall wd {:trigger LifeOk(h, wd)} :: LifeOk(h, wd)
  }

  lemma {:induction false} PhaseStep(log: seq<Report>, r: Report, wd: Wd)
    ensures PhaseOf(log + [r], wd) ==
            var p := PhaseOf(log, wd);
            if r.wd != wd then p
            else match r
              case Issued(_) => if p.Dead? then Live(0) else Broken
              case Told(_, _, _, _) => if p.Live? then Live(p.told + 1) else Broken
              case Ignored(_) => if p.Live? then Dead else Broken
  {
    assert (log + [r])[..|log + [r]| - 1] == log;
  }

  lemma {:induction false} PhasePrefix(log: seq<Report>, wd: Wd, i: nat)
    requires i <= |log| && !PhaseOf(log, wd).Broken?
    ensures !PhaseOf(log[..i], wd).Broken?
    decreases |log|
  {
    if i == |log| {
      assert log[..i] == log;
    } else {
      assert log[..|log| - 1][..i] == log[..i];
      PhasePrefix(log[..|log| - 1], wd, i);
    }
  }

  /** After IN_IGNORED nothing is offered for a descriptor, not even a second one, until it is handed out again. */
  lemma {:induction false} NothingAfterIgnored(log: seq<Report>, wd: Wd, i: nat, j: nat)
    requires i < j < |log| && !PhaseOf(log, wd).Broken?
    requires log[i] == Ignored(wd) && (forall k | i < k < j :: log[k] != Issued(wd))
    ensures log[j].wd == wd ==> log[j] == Issued(wd)
  {
    DeadUntil(log, wd, i, j);
    PhasePrefix(log, wd, j + 1);
    assert log[..j + 1] == log[..j] + [log[j]];
    PhaseStep(log[..j], log[j], wd);
  }

  lemma {:induction false} DeadUntil(log: seq<Report>, wd: Wd, i: nat, j: nat)
    requires i < j <= |log| && !PhaseOf(log, wd).Broken?
    requires log[i] == Ignored(wd) && (forall k | i < k < j :: log[k] != Issued(wd))
    ensures PhaseOf(log[..j], wd) == Dead
    decreases j
  {
    PhasePrefix(log, wd, j);
    assert log[..j] == log[..j - 1] + [log[j - 1]];
    PhaseStep(log[..j - 1], log[j - 1], wd);
    if j - 1 > i {
      DeadUntil(log, wd, i, j - 1);
    }
  }

  // ------------------------------------------------------------------ callbacks

  function WithList(g: Graph, wd: Wd, list: set<ItemId>): Graph
    requires wd in g.iws
  {
    SetIw(g, wd, g.iws[wd].(list := list))
  }

  /** The entry leaves the directory. */
  function DropEntry(g: Graph, wd: Wd, x: ItemId): Graph
    requires wd in g.iws && x in g.items
  {
    WithList(DelSubwatch(g, wd, x), wd, g.iws[wd].list - {x})
  }

  /** An entry takes the place of another one for the same file. */
  function MoveEntry(g: Graph, wd: Wd, from: ItemId, to: ItemId): Graph
    requires wd in g.iws && from in g.items && to in g.items
  {
    var g1 := MoveSubwatch(WithList(g, wd, g.iws[wd].list + {to}), wd, from, to);
    WithList(g1, wd, g1.iws[wd].list - {from})
  }

  /** A new entry. */
  function CreateEntry(g: Graph, wd: Wd, x: ItemId, p: Probe): Graph
    requires wd in g.iws && x in g.items
  {
    AddSubwatch(WithList(g, wd, g.iws[wd].list + {x}), wd, x, p)
  }

  function HandleRemoved(h: Hub, wd: Wd, x: ItemId, extend: bool): Hub
    requires wd in h.g.iws && x in h.g.items
  {
    var h1 := Tell(h, wd, {if extend && h.g.pf.extendFrom then InMovedFrom else InDelete}, Some(h.g.items[x]));
    h1.(g := DropEntry(h1.g, wd, x))
  }

  function HandleReplaced(h: Hub, wd: Wd, x: ItemId): Hub
    requires wd in h.g.iws && x in h.g.items
  {
    h.(g := DropEntry(h.g, wd, x))
  }

  function HandleMoved(h: Hub, wd: Wd, from: ItemId, to: ItemId): Hub
    requires wd in h.g.iws && from in h.g.items && to in h.g.items
  {
    var h0 := h.(g := InheritType(h.g, from, to));
    var h1 := Tell(h0, wd, {InMovedFrom}, Some(h0.g.items[from]));
    var h2 := Tell(h1, wd, {InMovedTo}, Some(h0.g.items[to]));
    h2.(g := MoveEntry(h2.g, wd, from, to))
  }

  function HandleAdded(h: Hub, wd: Wd, x: ItemId, p: Probe, extend: bool): Hub
    requires wd in h.g.iws && x in h.g.items
  {
    var g1 := CreateEntry(h.g, wd, x, p);
    Tell(h.(g := g1), wd, {if extend && h.g.pf.extendTo then InMovedTo else InCreate}, Some(g1.items[x]))
  }

  // ------------------------------------------------------------------ that they keep the invariants

  ghost predicate HubOk(h: Hub, fs: Key -> FileType) {
    GraphOk(h.g) && FiltersOk(h.g) && TypesOk(h.g, fs) && LivesOk(h)
  }

  /** The two agree on all inotify watches but one, and on what that one watches itself, with its mask. */
  ghost predicate OnlyList(g: Graph, g': Graph, wd: Wd) {
    && g'.pf == g.pf && wd in g.iws && g'.iws.Keys == g.iws.Keys
    && (forall v | v in g.iws && v != wd :: g'.iws[v] == g.iws[v])
    && g'.iws[wd] == g.iws[wd].(closed := g'.iws[wd].closed, list := g'.iws[wd].list)
    && g.iws[wd].key in g.watches && g.iws[wd].key in g'.watches
    && g'.watches[g.iws[wd].key] == g.watches[g.iws[wd].key]
  }

  /** The two agree on everything but the entries of one directory, and whether its inotify watch is closed. */
  ghost predicate OnlyEntries(g: Graph, g': Graph, wd: Wd) {
    && OnlyList(g, g', wd)
    && g'.items.Keys == g.items.Keys && (forall x | x in g.items :: g'.items[x].name == g.items[x].name)
  }

  lemma TellKeeps(h: Hub, wd: Wd, mask: set<Bit>, di: Option<Entry>, fs: Key -> FileType)
    requires HubOk(h, fs) && wd in h.g.iws
    ensures var h' := Tell(h, wd, mask, di);
            && HubOk(h', fs) && OnlyEntries(h.g, h'.g, wd) && h.log <= h'.log
            && h'.g.items == h.g.items && h'.g.watches == h.g.watches && h'.g.iws[wd].list == h.g.iws[wd].list
  {
    var h' := Tell(h, wd, mask, di);
    assert IWatchOk(h.g, wd);
    if h' != h {
      SetClosedKeeps(h.g, wd, InOneshot in h.g.iws[wd].flags);
      forall v ensures LifeOk(h', v) {
        assert LifeOk(h, v);
        PhaseStep(h.log, h'.log[|h.log|], v);
      }
      forall k, d | HasDep(h'.g, k, d) ensures ModeOf(h'.g, d) == fs(k) {
        assert HasDep(h.g, k, d);
      }
    }
  }

  ghost predicate Sound(g: Graph, fs: Key -> FileType) {
    GraphOk(g) && FiltersOk(g) && TypesOk(g, fs)
  }

  /** The entry is in memory, but in no directory list yet. */
  ghost predicate FreshEntry(g: Graph, wd: Wd, x: ItemId) {
    && x in g.items && wd in g.iws
    && g.items[x].inode != g.iws[wd].key.inode
    && (forall v | v in g.iws :: x !in g.iws[v].list)
  }

  /** An entry that is in no list has no records: nothing refers to it any more. */
  lemma UnlistedUnreferenced(g: Graph, x: ItemId)
    requires GraphOk(g) && (forall v | v in g.iws :: x !in g.iws[v].list)
    ensures Unreferenced(g, x)
  {
    forall k, d | HasDep(g, k, d) ensures d.target != Child(x) {
      assert WatchOk(g, k);
      assert DepOk(g, k, d);
    }
  }

  lemma ListedKeeps(g: Graph, wd: Wd, x: ItemId, fs: Key -> FileType)
    requires Sound(g, fs) && FreshEntry(g, wd, x)
    ensures Sound(WithList(g, wd, g.iws[wd].list + {x}), fs)
    ensures Unreferenced(WithList(g, wd, g.iws[wd].list + {x}), x)
  {
    var g' := WithList(g, wd, g.iws[wd].list + {x});
    assert IWatchOk(g, wd);
    UnlistedUnreferenced(g, x);
    SetListKeeps(g, wd, g.iws[wd].list + {x});
    forall k, d | HasDep(g', k, d) ensures ModeOf(g', d) == fs(k) && d.target != Child(x) {
      assert HasDep(g, k, d);
    }
  }

  lemma UnlistedKeeps(g: Graph, wd: Wd, x: ItemId, fs: Key -> FileType)
    requires Sound(g, fs) && wd in g.iws && Unreferenced(g, x)
    ensures Sound(WithList(g, wd, g.iws[wd].list - {x}), fs)
  {
    var g' := WithList(g, wd, g.iws[wd].list - {x});
    assert IWatchOk(g, wd);
    SetListKeeps(g, wd, g.iws[wd].list - {x});
    forall k, d | HasDep(g', k, d) ensures ModeOf(g', d) == fs(k) {
      assert HasDep(g, k, d);
    }
  }

  lemma DropKeeps(g: Graph, wd: Wd, x: ItemId, fs: Key -> FileType)
    requires Sound(g, fs) && wd in g.iws && x in g.iws[wd].list && x in g.items
    ensures var g' := DropEntry(g, wd, x);
            && Sound(g', fs) && OnlyEntries(g, g', wd)
            && g'.items == g.items && g'.iws[wd].list == g.iws[wd].list - {x} && g'.iws[wd].closed == g.iws[wd].closed
  {
    var g1 := DelSubwatch(g, wd, x);
    assert IWatchOk(g, wd);
    DelSubwatchKeeps(g, wd, x);
    assert IWatchOk(g1, wd);
    forall k, d | HasDep(g1, k, d) ensures ModeOf(g1, d) == fs(k) {
      assert d != ChildDep(wd, x) && HasDep(g, k, d);
    }
    UnlistedKeeps(g1, wd, x, fs);
  }

  lemma MoveKeeps(g: Graph, wd: Wd, from: ItemId, to: ItemId, fs: Key -> FileType)
    requires Sound(g, fs) && FreshEntry(g, wd, to) && from in g.iws[wd].list && from in g.items
    requires g.items[from].inode == g.items[to].inode
    requires HasDep(g, EntryKey(g, wd, from), ChildDep(wd, from)) ==> g.items[to].fileType == g.items[from].fileType
    ensures var g' := MoveEntry(g, wd, from, to);
            && Sound(g', fs) && OnlyEntries(g, g', wd)
            && g'.items == g.items && g'.iws[wd].list == g.iws[wd].list + {to} - {from}
            && g'.iws[wd].closed == g.iws[wd].closed
  {
    assert IWatchOk(g, wd);
    ListedKeeps(g, wd, to, fs);
    var g0 := WithList(g, wd, g.iws[wd].list + {to});
    assert IWatchOk(g0, wd);
    assert HasDep(g0, EntryKey(g0, wd, to), ChildDep(wd, from))
           ==> HasDep(g, EntryKey(g, wd, from), ChildDep(wd, from));
    MoveSubwatchKeeps(g0, wd, from, to);
    var g1 := MoveSubwatch(g0, wd, from, to);
    assert IWatchOk(g1, wd);
    var k0, d0 := EntryKey(g0, wd, to), ChildDep(wd, from);
    forall k, d | HasDep(g1, k, d) ensures ModeOf(g1, d) == fs(k) {
      if HasDep(g0, k, d) {
        assert ModeOf(g0, d) == fs(k);
      } else {
        assert k == k0 && HasDep(g0, k0, d0);
        assert ModeOf(g0, d0) == fs(k0);
      }
    }
    UnlistedKeeps(g1, wd, from, fs);
  }

  lemma CreateKeeps(g: Graph, wd: Wd, x: ItemId, p: Probe, fs: Key -> FileType)
    requires Sound(g, fs) && FreshEntry(g, wd, x) && ProbeTrue(g, wd, p, fs)
    ensures var g' := CreateEntry(g, wd, x, p);
            && Sound(g', fs) && OnlyEntries(g, g', wd)
            && g'.iws[wd].list == g.iws[wd].list + {x} && g'.iws[wd].closed == g.iws[wd].closed
            && (forall y | y in g.items && y != x :: g'.items[y] == g.items[y])
            && g'.items[x].name == g.items[x].name
  {
    assert IWatchOk(g, wd);
    ListedKeeps(g, wd, x, fs);
    var g0 := WithList(g, wd, g.iws[wd].list + {x});
    assert IWatchOk(g0, wd);
    ProbeAgrees(g0, wd, p, fs);
    AddSubwatchKeeps(g0, wd, x, p);
    AddSubwatchFrame(g0, wd, x, p);
    var g1 := AddSubwatch(g0, wd, x, p);
    assert IWatchOk(g1, wd);
    AddedType(g0, wd, x, p, fs);
  }

  /** The system tells the truth about files: their type, and that a directory does not contain itself. */
  ghost predicate ProbeTrue(g: Graph, wd: Wd, p: Probe, fs: Key -> FileType) {
    wd in g.iws && (p.file.Some? ==>
      && p.file.value.inode != g.iws[wd].key.inode
      && p.file.value.mode == fs(Key(g.iws[wd].key.dev, p.file.value.inode)))
  }

  /** The same about every name of the directory with this key. */
  ghost predicate ProbesTrue(dir: Key, probe: string -> Probe, fs: Key -> FileType) {
    forall n | probe(n).file.Some? ::
      && probe(n).file.value.inode != dir.inode
      && probe(n).file.value.mode == fs(Key(dir.dev, probe(n).file.value.inode))
  }

  lemma ProbeAgrees(g: Graph, wd: Wd, p: Probe, fs: Key -> FileType)
    requires GraphOk(g) && TypesOk(g, fs) && ProbeTrue(g, wd, p, fs)
    ensures ProbeOk(g, wd, p)
  {
    if p.file.Some? {
      WatchedType(g, Key(g.iws[wd].key.dev, p.file.value.inode), fs);
    }
  }

  lemma WatchedType(g: Graph, k: Key, fs: Key -> FileType)
    requires GraphOk(g) && TypesOk(g, fs)
    ensures k in g.watches ==> WatchMode(g, k) == fs(k)
  {
    if k in g.watches {
      assert WatchOk(g, k);
      assert HasDep(g, k, g.watches[k].deps[0]);
    }
  }

  lemma AddedType(g: Graph, wd: Wd, x: ItemId, p: Probe, fs: Key -> FileType)
    requires GraphOk(g) && TypesOk(g, fs) && ProbeTrue(g, wd, p, fs)
    requires x in g.iws[wd].list && x in g.items && Unreferenced(g, x)
    requires Touches(g, AddSubwatch(g, wd, x, p), wd, x)
    ensures TypesOk(AddSubwatch(g, wd, x, p), fs)
  {
    var g' := AddSubwatch(g, wd, x, p);
    WatchedType(g, EntryKey(g, wd, x), fs);
    forall k, d | HasDep(g', k, d) ensures ModeOf(g', d) == fs(k) {
      if d == ChildDep(wd, x) {
        assert !HasDep(g, k, d);
      } else {
        assert HasDep(g, k, d) && d.target != Child(x);
      }
    }
  }

  // ------------------------------------------------------------------ the callbacks

  /** A change of entries leaves the lives of descriptors alone. */
  lemma LivesUnaffected(h: Hub, g': Graph, wd: Wd)
    requires LivesOk(h) && OnlyEntries(h.g, g', wd) && g'.iws[wd].closed == h.g.iws[wd].closed
    ensures LivesOk(h.(g := g'))
  {
    forall v ensures LifeOk(h.(g := g'), v) {
      assert LifeOk(h, v);
    }
  }

  lemma RemovedKeeps(h: Hub, wd: Wd, x: ItemId, extend: bool, fs: Key -> FileType)
    requires HubOk(h, fs) && wd in h.g.iws && x in h.g.iws[wd].list && x in h.g.items
    ensures var h' := HandleRemoved(h, wd, x, extend);
            && HubOk(h', fs) && OnlyEntries(h.g, h'.g, wd) && h.log <= h'.log
            && h'.g.items == h.g.items && h'.g.iws[wd].list == h.g.iws[wd].list - {x}
  {
    var mask := {if extend && h.g.pf.extendFrom then InMovedFrom else InDelete};
    TellKeeps(h, wd, mask, Some(h.g.items[x]), fs);
    var h1 := Tell(h, wd, mask, Some(h.g.items[x]));
    DropKeeps(h1.g, wd, x, fs);
    LivesUnaffected(h1, DropEntry(h1.g, wd, x), wd);
  }

  lemma ReplacedKeeps(h: Hub, wd: Wd, x: ItemId, fs: Key -> FileType)
    requires HubOk(h, fs) && wd in h.g.iws && x in h.g.iws[wd].list && x in h.g.items
    ensures var h' := HandleReplaced(h, wd, x);
            && HubOk(h', fs) && OnlyEntries(h.g, h'.g, wd) && h.log <= h'.log
            && h'.g.items == h.g.items && h'.g.iws[wd].list == h.g.iws[wd].list - {x}
  {
    DropKeeps(h.g, wd, x, fs);
    LivesUnaffected(h, DropEntry(h.g, wd, x), wd);
  }

  /** The listing did not tell the type of the entry, or told the truth. */
  ghost predicate ListedType(g: Graph, wd: Wd, x: ItemId, fs: Key -> FileType) {
    wd in g.iws && x in g.items && (g.items[x].fileType.Unknown? || g.items[x].fileType == fs(EntryKey(g, wd, x)))
  }

  lemma InheritKeeps(h: Hub, wd: Wd, from: ItemId, to: ItemId, fs: Key -> FileType)
    requires HubOk(h, fs) && FreshEntry(h.g, wd, to) && ListedType(h.g, wd, to, fs)
    requires from in h.g.iws[wd].list && from in h.g.items && h.g.items[from].inode == h.g.items[to].inode
    ensures var g' := InheritType(h.g, from, to);
            && HubOk(h.(g := g'), fs) && OnlyEntries(h.g, g', wd) && FreshEntry(g', wd, to)
            && g'.iws == h.g.iws && g'.watches == h.g.watches
            && (forall y | y in h.g.items && y != to :: g'.items[y] == h.g.items[y])
            && g'.items[to].inode == h.g.items[to].inode && g'.items[to].name == h.g.items[to].name
            && (HasDep(g', EntryKey(g', wd, from), ChildDep(wd, from))
                ==> g'.items[to].fileType == g'.items[from].fileType)
  {
    var g, g' := h.g, InheritType(h.g, from, to);
    assert IWatchOk(g, wd);
    UnlistedUnreferenced(g, to);
    if g.items[to].fileType.Unknown? {
      SetEntryKeeps(g, to, g.items[to].(fileType := g.items[from].fileType));
    }
    forall k, d | HasDep(g', k, d) ensures ModeOf(g', d) == fs(k) {
      assert HasDep(g, k, d) && d.target != Child(to);
    }
    LivesUnaffected(h, g', wd);
    if HasDep(g', EntryKey(g', wd, from), ChildDep(wd, from)) {
      assert HasDep(g, EntryKey(g, wd, from), ChildDep(wd, from));
    }
  }

  lemma MovedKeeps(h: Hub, wd: Wd, from: ItemId, to: ItemId, fs: Key -> FileType)
    requires HubOk(h, fs) && FreshEntry(h.g, wd, to) && ListedType(h.g, wd, to, fs)
    requires from in h.g.iws[wd].list && from in h.g.items && h.g.items[from].inode == h.g.items[to].inode
    ensures var h' := HandleMoved(h, wd, from, to);
            && HubOk(h', fs) && OnlyEntries(h.g, h'.g, wd) && h.log <= h'.log
            && (forall y | y in h.g.items && y != to :: h'.g.items[y] == h.g.items[y])
            && h'.g.iws[wd].list == h.g.iws[wd].list + {to} - {from}
  {
    InheritKeeps(h, wd, from, to, fs);
    var h0 := h.(g := InheritType(h.g, from, to));
    TellKeeps(h0, wd, {InMovedFrom}, Some(h0.g.items[from]), fs);
    var h1 := Tell(h0, wd, {InMovedFrom}, Some(h0.g.items[from]));
    TellKeeps(h1, wd, {InMovedTo}, Some(h0.g.items[to]), fs);
    var h2 := Tell(h1, wd, {InMovedTo}, Some(h0.g.items[to]));
    assert HasDep(h2.g, EntryKey(h2.g, wd, from), ChildDep(wd, from))
           ==> HasDep(h0.g, EntryKey(h0.g, wd, from), ChildDep(wd, from));
    MoveKeeps(h2.g, wd, from, to, fs);
    LivesUnaffected(h2, MoveEntry(h2.g, wd, from, to), wd);
  }

  lemma AddedKeeps(h: Hub, wd: Wd, x: ItemId, p: Probe, extend: bool, fs: Key -> FileType)
    requires HubOk(h, fs) && FreshEntry(h.g, wd, x) && ProbeTrue(h.g, wd, p, fs)
    ensures var h' := HandleAdded(h, wd, x, p, extend);
            && HubOk(h', fs) && OnlyEntries(h.g, h'.g, wd) && h.log <= h'.log
            && (forall y | y in h.g.items && y != x :: h'.g.items[y] == h.g.items[y])
            && h'.g.iws[wd].list == h.g.iws[wd].list + {x}
  {
    CreateKeeps(h.g, wd, x, p, fs);
    var g1 := CreateEntry(h.g, wd, x, p);
    LivesUnaffected(h, g1, wd);
    var mask := {if extend && h.g.pf.extendTo then InMovedTo else InCreate};
    TellKeeps(h.(g := g1), wd, mask, Some(g1.items[x]), fs);
  }
}
