/**
 * A diff of a watched directory from beginning to end: the listing is compared with the stored list,
 * the new entries are brought into memory, the callbacks are made, and the entries that left are freed.
 */
module DirRefresh {
  import opened Names
  import opened DirEvents
  import opened DepList
  import opened DiffSpec
  import opened DiffMeaning
  import opened WatchGraph
  import opened Subwatches
  import opened Hub
  import opened DiffCallbacks
  import opened ClientView
  import DirDiff
  import RenameGraph

  // ------------------------------------------------------------------ the stored list

  function ItemOf(e: Entry): Item {
    Item(e.name, e.inode, e.fileType, false, false, false)
  }

  /** The entries in memory behind these ids. */
  function ItemsOf(g: Graph, ids: seq<ItemId>): (items: seq<Item>)
    requires forall x | x in ids :: x in g.items
    ensures |items| == |ids|
  {
    seq(|ids|, i requires 0 <= i < |ids| => ItemOf(g.items[ids[i]]))
  }

  /** These are the entries of the directory, in name order. */
  ghost predicate InNameOrder(g: Graph, wd: Wd, ids: seq<ItemId>) {
    && wd in g.iws && (forall x :: x in ids <==> x in g.iws[wd].list) && (forall x | x in ids :: x in g.items)
    && (forall i, j | 0 <= i < j < |ids| :: NameLess(g.items[ids[i]].name, g.items[ids[j]].name))
  }

  lemma OrderIsStored(g: Graph, wd: Wd, ids: seq<ItemId>)
    requires InNameOrder(g, wd, ids) && NamesOk(g)
    ensures Injective(ids) && Stored(ItemsOf(g, ids))
  {
    forall i, j | 0 <= i < |ids| && 0 <= j < |ids| && ids[i] == ids[j] ensures i == j {
      NameOrderTotal(g.items[ids[i]].name, g.items[ids[j]].name);
    }
    forall i | 0 <= i < |ids| ensures !IsDot(ItemsOf(g, ids)[i].name) {
      assert ids[i] in ids;
    }
  }

  /** Some entry comes first in name order. */
  lemma {:induction false} FirstByName(items: map<ItemId, Entry>, rest: set<ItemId>) returns (x: ItemId)
    requires rest != {} && rest <= items.Keys
    requires forall y, z | y in rest && z in rest && items[y].name == items[z].name :: y == z
    ensures x in rest && forall y | y in rest && y != x :: NameLess(items[x].name, items[y].name)
    decreases rest
  {
    x :| x in rest;
    if rest != {x} {
      assert rest - {x} != {} by {
        assert rest == (rest - {x}) + {x};
      }
      var first := FirstByName(items, rest - {x});
      NameOrderTotal(items[x].name, items[first].name);
      if NameLess(items[x].name, items[first].name) {
        forall y | y in rest && y != x ensures NameLess(items[x].name, items[y].name) {
          if y != first {
            NameOrderTransitive(items[x].name, items[first].name, items[y].name);
          }
        }
      } else {
        x := first;
      }
    }
  }

  // ------------------------------------------------------------------ what is asked of the file system

  /**
   * What the system says of a directory: its listing, what is found on opening an entry, and whether the event
   * came with NOTE_EXTEND.
   */
  datatype View = View(stream: seq<Dirent>, probe: string -> Probe, extend: bool)

  /** A listing has each name once, the directory itself under no other name, and types are true or unknown. */
  ghost predicate ListingTrue(dir: Key, stream: seq<Dirent>, fs: Key -> FileType) {
    && UniqueListing(stream)
    && (forall d | d in stream && !IsDot(d.name) ::
          d.inode != dir.inode && (d.fileType.Unknown? || d.fileType == fs(Key(dir.dev, d.inode))))
  }

  ghost predicate ViewTrue(dir: Key, view: View, fs: Key -> FileType) {
    ListingTrue(dir, view.stream, fs) && ProbesTrue(dir, view.probe, fs)
  }

  ghost predicate ItemTrue(dir: Key, it: Item, fs: Key -> FileType) {
    && !IsDot(it.name) && it.inode != dir.inode
    && (it.fileType.Unknown? || it.fileType == fs(Key(dir.dev, it.inode)))
  }

  lemma {:induction false} ChangesTrue(dir: Key, stored: seq<Item>, stream: seq<Dirent>, fs: Key -> FileType)
    requires ListingTrue(dir, stream, fs)
    ensures forall c | c in Changes(stored, stream) :: ItemTrue(dir, c.item, fs)
  {
    DirDiff.ChangesFrom(stored, stream);
    forall c | c in Changes(stored, stream) ensures ItemTrue(dir, c.item, fs) {
      var d :| d in stream && ChangeOf(stored, d) == [c];
      assert !IsDot(d.name);
    }
  }

  // ------------------------------------------------------------------ new entries

  /** The entries of new listing records, in memory from `next` on. */
  function NewEntries(a: seq<Change>, next: nat): (m: map<ItemId, Entry>)
    ensures forall x :: x in m <==> next <= x < next + |a|
    ensures forall j | 0 <= j < |a| :: m[next + j] == EntryOf(a[j].item)
  {
    if a == [] then map[]
    else
      var n := |a| - 1;
      NewEntries(a[..n], next)[next + n := EntryOf(a[n].item)]
  }

  function NewIds(n: nat, next: nat): (ids: seq<ItemId>)
    ensures |ids| == n && forall j | 0 <= j < n :: ids[j] == next + j
  {
    seq(n, j requires 0 <= j < n => next + j)
  }

  /** No entry in memory has this id or a later one. */
  ghost predicate Below(g: Graph, next: nat) {
    forall x | x in g.items :: x < next
  }

  // ------------------------------------------------------------------ a run of the diff

  /**
   * A run: the stored entries in order, where new entries go, the order of the renames with those that were
   * reported early, and the states from the first callback to the last.
   */
  datatype Run = Run(before: seq<ItemId>, next: nat, order: seq<nat>, forced: set<nat>, hs: seq<Hub>)

  function DiffFor(stored: seq<Item>, view: View, before: seq<ItemId>, next: nat, order: seq<nat>): Diff {
    var b, a := Marked(stored, view.stream), Changes(stored, view.stream);
    Diff(b, a, Acts(b, a, order), before, NewIds(|a|, next), view.probe, view.extend)
  }

  ghost function DiffOf(g: Graph, view: View, r: Run): Diff
    requires forall x | x in r.before :: x in g.items
  {
    DiffFor(ItemsOf(g, r.before), view, r.before, r.next, r.order)
  }

  /** The old entries that do not stay. */
  function Leaving(c: Diff): set<ItemId>
    requires |c.before| == |c.b|
  {
    set i | 0 <= i < |c.b| && !c.b[i].intact :: c.before[i]
  }

  /** The renames are reported in the order of the scheduler. */
  ghost predicate Scheduled(c: Diff, order: seq<nat>, forced: set<nat>) {
    var g := Links(c.b, c.a);
    && order == RenameGraph.Schedule(g) && RenameGraph.Legal(g, order, forced)
    && RenameGraph.Elems(order) == RenameGraph.Moves(g)
  }

  /** Before the callbacks: the stored list is at hand, and the new entries are not in memory yet. */
  ghost predicate Planned(g: Graph, wd: Wd, view: View, r: Run) {
    && InNameOrder(g, wd, r.before) && Below(g, r.next)
    && Scheduled(DiffOf(g, view, r), r.order, r.forced)
  }

  lemma PlannedFits(h: Hub, wd: Wd, view: View, r: Run)
    requires NamesOk(h.g) && Planned(h.g, wd, view, r) && UniqueListing(view.stream)
    ensures var c := DiffOf(h.g, view, r);
            Fitting(c) && Plan(c.b, c.a, c.acts, r.forced)
  {
    var c := DiffOf(h.g, view, r);
    OrderIsStored(h.g, wd, r.before);
    DirDiff.ReadingIsReadState(ItemsOf(h.g, r.before), view.stream);
    LegalGivesPlan(c.b, c.a, r.order, r.forced);
    forall i, j | 0 <= i < |c.before| && 0 <= j < |c.after| ensures c.before[i] != c.after[j] {
      assert c.before[i] in r.before;
    }
  }

  /** With the new entries in memory the callbacks can be made. */
  lemma PlannedIsPrepared(h: Hub, wd: Wd, view: View, r: Run, fs: Key -> FileType)
    requires HubOk(h, fs) && NamesOk(h.g) && Planned(h.g, wd, view, r)
    requires ViewTrue(h.g.iws[wd].key, view, fs)
    ensures var c := DiffOf(h.g, view, r);
            Prepared(h.(g := Grown(h.g, NewEntries(c.a, r.next))), wd, c, fs)
  {
    var c := DiffOf(h.g, view, r);
    PlannedFits(h, wd, view, r);
    GrownHub(h, NewEntries(c.a, r.next), fs);
    OldInPlace(h.g, wd, view, r);
    NewReady(h.g, wd, view, r, fs);
    NewProbes(h.g, Grown(h.g, NewEntries(c.a, r.next)), wd, view.probe, fs);
    AllPrepared(h.(g := Grown(h.g, NewEntries(c.a, r.next))), wd, c, fs);
  }

  lemma AllPrepared(h: Hub, wd: Wd, c: Diff, fs: Key -> FileType)
    requires HubOk(h, fs) && Fitting(c) && wd in h.g.iws && h.g.iws[wd].list == (set x | x in c.before)
    requires forall i | 0 <= i < |c.before| :: c.before[i] in h.g.items && h.g.items[c.before[i]] == EntryOf(c.b[i])
    requires forall j | 0 <= j < |c.after| :: ReadyAt(h.g, wd, c.after[j], c.a[j].item, fs)
    requires forall n :: ProbeTrue(h.g, wd, c.probe(n), fs)
    ensures Prepared(h, wd, c, fs)
  {
    forall j | 0 <= j < |c.after| ensures c.after[j] in h.g.items {
      assert ReadyAt(h.g, wd, c.after[j], c.a[j].item, fs);
    }
  }

  lemma NewReady(g: Graph, wd: Wd, view: View, r: Run, fs: Key -> FileType)
    requires GraphOk(g) && Planned(g, wd, view, r) && ViewTrue(g.iws[wd].key, view, fs)
    ensures var c := DiffOf(g, view, r);
            forall j | 0 <= j < |c.after| :: ReadyAt(Grown(g, NewEntries(c.a, r.next)), wd, c.after[j], c.a[j].item, fs)
  {
    var c := DiffOf(g, view, r);
    ChangesTrue(g.iws[wd].key, ItemsOf(g, r.before), view.stream, fs);
    NewInPlace(g, wd, c.a, r.next, NewEntries(c.a, r.next), fs);
  }

  lemma NewProbes(g: Graph, g': Graph, wd: Wd, probe: string -> Probe, fs: Key -> FileType)
    requires wd in g.iws && ProbesTrue(g.iws[wd].key, probe, fs) && g'.iws == g.iws
    ensures forall n :: ProbeTrue(g', wd, probe(n), fs)
  {
  }

  /** The entry is in memory as listed, in no list yet, and the listing told the truth about it. */
  ghost predicate ReadyAt(g: Graph, wd: Wd, x: ItemId, it: Item, fs: Key -> FileType) {
    x in g.items && g.items[x] == EntryOf(it) && FreshEntry(g, wd, x) && ListedType(g, wd, x, fs)
  }

  lemma NewInPlace(g: Graph, wd: Wd, a: seq<Change>, next: nat, more: map<ItemId, Entry>, fs: Key -> FileType)
    requires GraphOk(g) && wd in g.iws && Below(g, next)
    requires forall j | 0 <= j < |a| :: next + j in more && more[next + j] == EntryOf(a[j].item)
    requires forall c | c in a :: ItemTrue(g.iws[wd].key, c.item, fs)
    ensures forall j | 0 <= j < |a| :: ReadyAt(Grown(g, more), wd, NewIds(|a|, next)[j], a[j].item, fs)
  {
    forall j | 0 <= j < |a| ensures ReadyAt(Grown(g, more), wd, NewIds(|a|, next)[j], a[j].item, fs) {
      assert a[j] in a;
      NewIsFresh(g, wd, a[j].item, next + j, more, fs);
    }
  }

  lemma OldInPlace(g: Graph, wd: Wd, view: View, r: Run)
    requires Planned(g, wd, view, r)
    ensures var c := DiffOf(g, view, r);
            var g' := Grown(g, NewEntries(c.a, r.next));
            && g'.iws[wd].list == (set x | x in c.before)
            && (forall i | 0 <= i < |c.before| :: c.before[i] in g'.items && g'.items[c.before[i]] == EntryOf(c.b[i]))
  {
    var c := DiffOf(g, view, r);
    forall i | 0 <= i < |c.before| ensures c.before[i] in g.items && c.before[i] < r.next {
      assert c.before[i] in r.before;
    }
  }

  lemma GrownHub(h: Hub, more: map<ItemId, Entry>, fs: Key -> FileType)
    requires HubOk(h, fs) && h.g.items.Keys !! more.Keys
    ensures HubOk(h.(g := Grown(h.g, more)), fs)
  {
    GrownKeeps(h.g, more);
    SameRecordsTypes(h.g, Grown(h.g, more), fs);
    GrownLives(h, Grown(h.g, more));
  }

  lemma GrownLives(h: Hub, g': Graph)
    requires LivesOk(h) && g'.iws == h.g.iws
    ensures LivesOk(h.(g := g'))
  {
    forall v ensures LifeOk(h.(g := g'), v) {
      assert LifeOk(h, v);
    }
  }

  lemma NewIsFresh(g: Graph, wd: Wd, it: Item, x: ItemId, more: map<ItemId, Entry>, fs: Key -> FileType)
    requires GraphOk(g) && wd in g.iws && x !in g.items
    requires x in more && more[x] == EntryOf(it) && ItemTrue(g.iws[wd].key, it, fs)
    ensures ReadyAt(Grown(g, more), wd, x, it, fs)
  {
    forall v | v in g.iws ensures x !in g.iws[v].list {
      assert IWatchOk(g, v);
    }
  }

  /** `r` is a run from `h` to `h'`. */
  ghost predicate IsRunOf(h: Hub, h': Hub, wd: Wd, view: View, r: Run) {
    && Planned(h.g, wd, view, r)
    && var c := DiffOf(h.g, view, r);
       && Fitting(c) && |r.hs| == |c.acts| + 1 && IsTrace(r.hs, wd, c)
       && r.hs[0] == h.(g := Grown(h.g, NewEntries(c.a, r.next)))
       && h' == r.hs[|c.acts|].(g := Freed(r.hs[|c.acts|].g, Leaving(c)))
  }

  // ------------------------------------------------------------------ what a run does to the entries

  lemma RemovedEntries(h: Hub, wd: Wd, x: ItemId, extend: bool, probe: string -> Probe)
    requires wd in h.g.iws && x in h.g.items
    ensures EntriesFrom(h.g, HandleRemoved(h, wd, x, extend).g, probe)
    ensures EntriesFrom(h.g, HandleReplaced(h, wd, x).g, probe)
  {
  }

  lemma MovedEntries(h: Hub, wd: Wd, from: ItemId, to: ItemId, probe: string -> Probe)
    requires wd in h.g.iws && from in h.g.items && to in h.g.items
    ensures EntriesFrom(h.g, HandleMoved(h, wd, from, to).g, probe)
  {
  }

  lemma AddedEntries(h: Hub, wd: Wd, x: ItemId, extend: bool, probe: string -> Probe)
    requires wd in h.g.iws && x in h.g.items
    ensures EntriesFrom(h.g, HandleAdded(h, wd, x, probe(h.g.items[x].name), extend).g, probe)
  {
    AddSubwatchEntries(WithList(h.g, wd, h.g.iws[wd].list + {x}), wd, x, probe);
  }

  lemma PerformEntries(h0: Hub, h: Hub, h': Hub, wd: Wd, c: Diff, p: nat, fs: Key -> FileType)
    requires Prepared(h0, wd, c, fs) && p < |c.acts| && Midway(h0, h, wd, c, p, fs) && Follows(h, h', wd, c, p)
    ensures EntriesFrom(h.g, h'.g, c.probe)
  {
    match c.acts[p]
    case Drop(_) => DropEntries(h, h', wd, c, p);
    case Move(_) => RenameEntries(h, h', wd, c, p);
    case Create(_) => CreateEntries(h0, h, h', wd, c, p, fs);
  }

  lemma DropEntries(h: Hub, h': Hub, wd: Wd, c: Diff, p: nat)
    requires Fitting(c) && p < |c.acts| && Follows(h, h', wd, c, p) && c.acts[p].Drop?
    ensures EntriesFrom(h.g, h'.g, c.probe)
  {
    PresentStep(c, p);
    RemovedEntries(h, wd, c.before[c.acts[p].i], c.extend, c.probe);
  }

  lemma RenameEntries(h: Hub, h': Hub, wd: Wd, c: Diff, p: nat)
    requires Fitting(c) && p < |c.acts| && Follows(h, h', wd, c, p) && c.acts[p].Move?
    ensures EntriesFrom(h.g, h'.g, c.probe)
  {
    PresentStep(c, p);
    var j := c.acts[p].j;
    MovedEntries(h, wd, c.before[Sources(c)[j].value], c.after[j], c.probe);
  }

  lemma CreateEntries(h0: Hub, h: Hub, h': Hub, wd: Wd, c: Diff, p: nat, fs: Key -> FileType)
    requires Prepared(h0, wd, c, fs) && p < |c.acts| && Midway(h0, h, wd, c, p, fs) && Follows(h, h', wd, c, p)
    requires c.acts[p].Create?
    ensures EntriesFrom(h.g, h'.g, c.probe)
  {
    PresentStep(c, p);
    var j := c.acts[p].j;
    InStep(c, j, p);
    StillFresh(h0, h, wd, c, p, fs, j);
    AddedEntries(h, wd, c.after[j], c.extend, c.probe);
  }

  lemma EntriesChain(g: Graph, g1: Graph, g2: Graph, probe: string -> Probe)
    requires EntriesFrom(g, g1, probe) && EntriesFrom(g1, g2, probe)
    ensures EntriesFrom(g, g2, probe)
  {
  }

  lemma StepEntries(hs: seq<Hub>, wd: Wd, c: Diff, p: nat, fs: Key -> FileType)
    requires p + 1 < |hs| <= |c.acts| + 1 && Prepared(hs[0], wd, c, fs) && IsTrace(hs, wd, c)
    ensures EntriesFrom(hs[p].g, hs[p + 1].g, c.probe)
  {
    TraceKeeps(hs, wd, c, p, fs);
    assert FollowsAt(hs, wd, c, p);
    PerformEntries(hs[0], hs[p], hs[p + 1], wd, c, p, fs);
  }

  lemma {:induction false} TraceEntries(hs: seq<Hub>, wd: Wd, c: Diff, p: nat, fs: Key -> FileType)
    requires p < |hs| <= |c.acts| + 1 && Prepared(hs[0], wd, c, fs) && IsTrace(hs, wd, c)
    ensures EntriesFrom(hs[0].g, hs[p].g, c.probe)
  {
    if p > 0 {
      TraceEntries(hs, wd, c, p - 1, fs);
      StepEntries(hs, wd, c, p - 1, fs);
      EntriesChain(hs[0].g, hs[p - 1].g, hs[p].g, c.probe);
    }
  }

  // ------------------------------------------------------------------ the end of a run

  /** The entries of the directory are those that stay. */
  ghost predicate ListStays(g: Graph, wd: Wd, c: Diff) {
    wd in g.iws && |c.before| == |c.b| && forall x :: x in g.iws[wd].list <==> Stays(c, x)
  }

  lemma TraceStays(hs: seq<Hub>, wd: Wd, c: Diff, fs: Key -> FileType)
    requires |hs| == |c.acts| + 1 && Prepared(hs[0], wd, c, fs) && IsTrace(hs, wd, c)
    ensures var h, h' := hs[0], hs[|c.acts|];
            HubOk(h', fs) && OnlyEntries(h.g, h'.g, wd) && h.log <= h'.log && ListStays(h'.g, wd, c)
    ensures forall y | y in hs[0].g.items && y !in c.after ::
              y in hs[|c.acts|].g.items && hs[|c.acts|].g.items[y] == hs[0].g.items[y]
  {
    DiffKeepsGraph(hs, wd, c, fs);
    TraceKeeps(hs, wd, c, |c.acts|, fs);
  }

  /** The entries that leave are in no list any more. */
  lemma LeavingUnlisted(h: Hub, h': Hub, wd: Wd, c: Diff, fs: Key -> FileType)
    requires Prepared(h, wd, c, fs) && OnlyEntries(h.g, h'.g, wd) && ListStays(h'.g, wd, c)
    ensures forall v | v in h'.g.iws :: h'.g.iws[v].list !! Leaving(c)
  {
    forall i | 0 <= i < |c.b| && !c.b[i].intact ensures !Stays(c, c.before[i]) {
    }
    forall v, x | v in h'.g.iws && x in Leaving(c) ensures x !in h'.g.iws[v].list {
      var i :| 0 <= i < |c.b| && !c.b[i].intact && c.before[i] == x;
      if v != wd {
        assert h'.g.iws[v] == h.g.iws[v] && x in h.g.iws[wd].list;
      }
    }
  }

  lemma FreedHub(h: Hub, gone: set<ItemId>, fs: Key -> FileType)
    requires HubOk(h, fs) && forall v | v in h.g.iws :: h.g.iws[v].list !! gone
    ensures HubOk(h.(g := Freed(h.g, gone)), fs)
  {
    FreedKeeps(h.g, gone);
    SameRecordsTypes(h.g, Freed(h.g, gone), fs);
    GrownLives(h, Freed(h.g, gone));
  }

  /** The names of the directory after a diff are different again. */
  lemma DiffNames(h: Hub, h': Hub, wd: Wd, c: Diff, fs: Key -> FileType)
    requires Prepared(h, wd, c, fs) && NamesOk(h.g) && OnlyEntries(h.g, h'.g, wd) && ListStays(h'.g, wd, c)
    ensures NamesOk(h'.g)
  {
    forall x, y | Stays(c, x) && Stays(c, y) && x in h.g.items && y in h.g.items
                  && h.g.items[x].name == h.g.items[y].name
      ensures x == y
    {
      SameName(h, wd, c, fs, x, y);
    }
    forall x | Stays(c, x) && x in h.g.items ensures !IsDot(h.g.items[x].name) {
      NoDot(h, wd, c, fs, x);
    }
  }

  lemma SameName(h: Hub, wd: Wd, c: Diff, fs: Key -> FileType, x: ItemId, y: ItemId)
    requires Prepared(h, wd, c, fs) && NamesOk(h.g) && Stays(c, x) && Stays(c, y)
    requires x in h.g.items && y in h.g.items && h.g.items[x].name == h.g.items[y].name
    ensures x == y
  {
    if x in c.after && y in c.after {
      var i :| 0 <= i < |c.after| && c.after[i] == x;
      var j :| 0 <= j < |c.after| && c.after[j] == y;
      assert c.a[i].item.name == c.a[j].item.name;
    } else if x in c.after {
      NoClash(h, wd, c, fs, y, x);
    } else if y in c.after {
      NoClash(h, wd, c, fs, x, y);
    } else {
      assert x in h.g.iws[wd].list && y in h.g.iws[wd].list;
    }
  }

  /** An unchanged entry and a new one never have the same name. */
  lemma NoClash(h: Hub, wd: Wd, c: Diff, fs: Key -> FileType, x: ItemId, y: ItemId)
    requires Prepared(h, wd, c, fs) && y in c.after
    requires exists i :: 0 <= i < |c.b| && c.b[i].intact && c.before[i] == x
    ensures x in h.g.items && y in h.g.items && h.g.items[x].name != h.g.items[y].name
  {
    var i :| 0 <= i < |c.b| && c.b[i].intact && c.before[i] == x;
    var j :| 0 <= j < |c.after| && c.after[j] == y;
    assert ChangeOk(c.b, c.a[j]);
  }

  lemma NoDot(h: Hub, wd: Wd, c: Diff, fs: Key -> FileType, x: ItemId)
    requires Prepared(h, wd, c, fs) && NamesOk(h.g) && Stays(c, x) && x in h.g.items
    ensures !IsDot(h.g.items[x].name)
  {
    if j :| 0 <= j < |c.after| && c.after[j] == x {
      assert ChangeOk(c.b, c.a[j]);
    } else {
      assert x in h.g.iws[wd].list;
    }
  }

  /** All entries in memory are listed again when those that left are freed. */
  lemma FreedNoLeaks(h: Hub, h0: Hub, h': Hub, wd: Wd, c: Diff, more: map<ItemId, Entry>, fs: Key -> FileType)
    requires NoLeaks(h.g) && h0.g == Grown(h.g, more) && (forall x | x in more :: x in c.after)
    requires Prepared(h0, wd, c, fs) && OnlyEntries(h0.g, h'.g, wd) && ListStays(h'.g, wd, c)
    ensures NoLeaks(Freed(h'.g, Leaving(c)))
  {
    var g := Freed(h'.g, Leaving(c));
    forall x | x in g.items ensures exists v :: v in g.iws && x in g.iws[v].list {
      if x in more {
        assert x in g.iws[wd].list;
      } else {
        var v :| v in h.g.iws && x in h.g.iws[v].list;
        if v == wd {
          var i :| 0 <= i < |c.before| && c.before[i] == x;
          assert c.b[i].intact;
          assert x in g.iws[wd].list;
        } else {
          assert x in g.iws[v].list;
        }
      }
    }
  }

  // ------------------------------------------------------------------ what the directory list shows

  /**
   * The list shows the listing: the same names, each with the inode that was listed, or, for an entry that was
   * replaced after that, the inode that was found on opening it.
   */
  ghost predicate Shows(g: Graph, wd: Wd, view: View) {
    && wd in g.iws && ListNames(g, wd) == ListingDir(view.stream).Keys
    && (forall x | x in g.iws[wd].list :: x in g.items && ShownAs(g.items[x], view))
  }

  ghost predicate ShownAs(e: Entry, view: View) {
    && e.name in ListingDir(view.stream)
    && (e.inode == ListingDir(view.stream)[e.name] || InodeFound(view.probe, e.name, e.inode))
  }

  lemma {:induction false} GoalIsListed(stored: seq<Item>, stream: seq<Dirent>)
    requires Stored(stored) && UniqueListing(stream) && ReadState(Marked(stored, stream), Changes(stored, stream))
    ensures GoalDir(Marked(stored, stream), Changes(stored, stream)) == ListingDir(stream)
  {
    var goal := GoalDir(Marked(stored, stream), Changes(stored, stream));
    forall n ensures Lookup(goal, n) == Lookup(ListingDir(stream), n) {
      DirDiff.GoalIsListing(stored, stream, n);
    }
    SameLookup(goal, ListingDir(stream));
  }

  lemma ShowsGoal(h: Hub, h': Hub, wd: Wd, c: Diff, view: View, fs: Key -> FileType)
    requires Prepared(h, wd, c, fs) && HubOk(h', fs) && OnlyEntries(h.g, h'.g, wd) && ListStays(h'.g, wd, c)
    requires EntriesFrom(h.g, h'.g, view.probe) && GoalDir(c.b, c.a) == ListingDir(view.stream)
    ensures Shows(h'.g, wd, view)
  {
    NewNames(h, h', wd, c, fs);
    forall x | x in h'.g.iws[wd].list ensures x in h'.g.items && ShownAs(h'.g.items[x], view) {
      NameOfEntry(h, wd, c, fs, x);
    }
  }

  lemma FreedShows(g: Graph, wd: Wd, view: View, gone: set<ItemId>)
    requires Shows(g, wd, view) && g.iws[wd].list !! gone
    ensures Shows(Freed(g, gone), wd, view) && ListNames(Freed(g, gone), wd) == ListNames(g, wd)
  {
    assert ListNames(Freed(g, gone), wd) == ListNames(g, wd);
  }

  // ------------------------------------------------------------------ main results

  /** All callbacks are made: from `h` the new entries were brought into memory, and then the callbacks led to `h1`. */
  ghost predicate Called(h: Hub, h1: Hub, wd: Wd, c: Diff, more: map<ItemId, Entry>, view: View, fs: Key -> FileType) {
    && h.g.items.Keys !! more.Keys && (forall x | x in more :: x in c.after)
    && var h0 := h.(g := Grown(h.g, more));
       && Prepared(h0, wd, c, fs) && HubOk(h1, fs) && OnlyEntries(h0.g, h1.g, wd) && h0.log <= h1.log
       && ListStays(h1.g, wd, c) && EntriesFrom(h0.g, h1.g, view.probe) && GoalDir(c.b, c.a) == ListingDir(view.stream)
       && (forall y | y in h0.g.items && y !in c.after :: y in h1.g.items && h1.g.items[y] == h0.g.items[y])
  }

  lemma RunIsCalled(h: Hub, h': Hub, wd: Wd, view: View, r: Run, fs: Key -> FileType)
    requires HubOk(h, fs) && NamesOk(h.g) && IsRunOf(h, h', wd, view, r) && ViewTrue(h.g.iws[wd].key, view, fs)
    ensures var c := DiffOf(h.g, view, r);
            Called(h, r.hs[|c.acts|], wd, c, NewEntries(c.a, r.next), view, fs)
  {
    var c := DiffOf(h.g, view, r);
    PlannedIsPrepared(h, wd, view, r, fs);
    TraceStays(r.hs, wd, c, fs);
    TraceEntries(r.hs, wd, c, |c.acts|, fs);
    OrderIsStored(h.g, wd, r.before);
    GoalIsListed(ItemsOf(h.g, r.before), view.stream);
    NewAreAfter(c.a, r.next);
  }

  lemma {:induction false} NewAreAfter(a: seq<Change>, next: nat)
    ensures forall x | x in NewEntries(a, next) :: x in NewIds(|a|, next)
  {
    forall x | x in NewEntries(a, next) ensures x in NewIds(|a|, next) {
      assert NewIds(|a|, next)[x - next] == x;
    }
  }

  lemma CalledHub(h: Hub, h1: Hub, wd: Wd, c: Diff, more: map<ItemId, Entry>, view: View, fs: Key -> FileType)
    requires Called(h, h1, wd, c, more, view, fs)
    ensures HubOk(h1.(g := Freed(h1.g, Leaving(c))), fs) && Shows(Freed(h1.g, Leaving(c)), wd, view)
    ensures ListNames(Freed(h1.g, Leaving(c)), wd) == ListNames(h1.g, wd)
  {
    var h0 := h.(g := Grown(h.g, more));
    LeavingUnlisted(h0, h1, wd, c, fs);
    FreedHub(h1, Leaving(c), fs);
    ShowsGoal(h0, h1, wd, c, view, fs);
    FreedShows(h1.g, wd, view, Leaving(c));
  }

  lemma CalledMemory(h: Hub, h1: Hub, wd: Wd, c: Diff, more: map<ItemId, Entry>, view: View, fs: Key -> FileType)
    requires Called(h, h1, wd, c, more, view, fs) && GraphOk(h.g) && NamesOk(h.g) && NoLeaks(h.g)
    ensures NamesOk(Freed(h1.g, Leaving(c))) && NoLeaks(Freed(h1.g, Leaving(c)))
  {
    var h0 := h.(g := Grown(h.g, more));
    GrownNames(h.g, more);
    DiffNames(h0, h1, wd, c, fs);
    NamesStay(h1.g, Freed(h1.g, Leaving(c)));
    FreedNoLeaks(h, h0, h1, wd, c, more, fs);
  }

  lemma GrownNames(g: Graph, more: map<ItemId, Entry>)
    requires GraphOk(g) && NamesOk(g) && g.items.Keys !! more.Keys
    ensures NamesOk(Grown(g, more))
  {
    forall v, x | v in g.iws && x in g.iws[v].list ensures x in g.items {
      assert IWatchOk(g, v);
    }
  }

  lemma CalledElsewhere(h: Hub, h1: Hub, wd: Wd, c: Diff, more: map<ItemId, Entry>, view: View, fs: Key -> FileType)
    requires Called(h, h1, wd, c, more, view, fs)
    ensures OnlyList(h.g, Freed(h1.g, Leaving(c)), wd)
    ensures forall y | y in h.g.items && y !in h.g.iws[wd].list && y !in c.after ::
              y in Freed(h1.g, Leaving(c)).items && Freed(h1.g, Leaving(c)).items[y] == h.g.items[y]
  {
    assert forall x | x in Leaving(c) :: x in c.before;
  }

  /**
   * What a diff leads to: all invariants hold, no other inotify watch and no entry of another directory is
   * touched, no entry is in memory that is not listed, and the list shows the listing.
   */
  ghost predicate Refreshed(h: Hub, h': Hub, wd: Wd, view: View, fs: Key -> FileType) {
    && HubOk(h', fs) && NamesOk(h'.g) && NoLeaks(h'.g) && OnlyList(h.g, h'.g, wd) && h.log <= h'.log
    && (forall y | y in h.g.items && y !in h.g.iws[wd].list :: y in h'.g.items && h'.g.items[y] == h.g.items[y])
    && Shows(h'.g, wd, view)
  }

  lemma CalledKeeps(h: Hub, h1: Hub, wd: Wd, c: Diff, more: map<ItemId, Entry>, view: View, fs: Key -> FileType)
    requires Called(h, h1, wd, c, more, view, fs) && GraphOk(h.g) && NamesOk(h.g) && NoLeaks(h.g)
    requires forall x | x in c.after :: x !in h.g.items
    ensures Refreshed(h, h1.(g := Freed(h1.g, Leaving(c))), wd, view, fs)
  {
    CalledHub(h, h1, wd, c, more, view, fs);
    CalledMemory(h, h1, wd, c, more, view, fs);
    CalledElsewhere(h, h1, wd, c, more, view, fs);
  }

  lemma CalledBelow(h: Hub, h1: Hub, wd: Wd, c: Diff, more: map<ItemId, Entry>, next: nat, view: View,
                    fs: Key -> FileType)
    requires Called(h, h1, wd, c, more, view, fs) && Below(h.g, next)
    requires forall x | x in more :: x < next + |c.after|
    ensures Below(Freed(h1.g, Leaving(c)), next + |c.after|)
  {
  }

  lemma NewAreNew(g: Graph, wd: Wd, view: View, r: Run)
    requires Planned(g, wd, view, r)
    ensures forall x | x in DiffOf(g, view, r).after :: x !in g.items
  {
  }

  /** A whole diff keeps all that has to be kept, and its list shows the listing. */
  lemma RunKeeps(h: Hub, h': Hub, wd: Wd, view: View, r: Run, fs: Key -> FileType)
    requires HubOk(h, fs) && NamesOk(h.g) && NoLeaks(h.g) && IsRunOf(h, h', wd, view, r)
    requires ViewTrue(h.g.iws[wd].key, view, fs)
    ensures Refreshed(h, h', wd, view, fs)
  {
    var c := DiffOf(h.g, view, r);
    RunIsCalled(h, h', wd, view, r, fs);
    NewAreNew(h.g, wd, view, r);
    CalledKeeps(h, r.hs[|c.acts|], wd, c, NewEntries(c.a, r.next), view, fs);
  }

  lemma RunBelow(h: Hub, h': Hub, wd: Wd, view: View, r: Run, fs: Key -> FileType)
    requires HubOk(h, fs) && NamesOk(h.g) && IsRunOf(h, h', wd, view, r) && ViewTrue(h.g.iws[wd].key, view, fs)
    ensures Below(h'.g, r.next + |DiffOf(h.g, view, r).after|)
  {
    var c := DiffOf(h.g, view, r);
    RunIsCalled(h, h', wd, view, r, fs);
    CalledBelow(h, r.hs[|c.acts|], wd, c, NewEntries(c.a, r.next), r.next, view, fs);
  }

  /** A reader of the log knows the names of the directory. */
  ghost predicate Informed(h: Hub, h': Hub, wd: Wd) {
    && wd in h.g.iws && wd in h'.g.iws && |h.log| <= |h'.log|
    && NamesAfter(ListNames(h.g, wd), h'.log[|h.log|..], wd) == ListNames(h'.g, wd)
  }

  /**
   * A program that follows the events of a directory knows the names in it after a diff if and only if the
   * renames are not circular.
   */
  lemma ReaderFollows(h: Hub, h': Hub, wd: Wd, view: View, r: Run, fs: Key -> FileType)
    requires HubOk(h, fs) && NamesOk(h.g) && IsRunOf(h, h', wd, view, r)
    requires ViewTrue(h.g.iws[wd].key, view, fs) && Listens(h.g, wd)
    ensures Informed(h, h', wd) <==> RenameGraph.Acyclic(DirDiff.RenamesBetween(ItemsOf(h.g, r.before), view.stream))
  {
    var c := DiffOf(h.g, view, r);
    RunIsCalled(h, h', wd, view, r, fs);
    PlannedFits(h, wd, view, r);
    CalledReader(h, r.hs, wd, view, r.forced, c, NewEntries(c.a, r.next), fs);
    LinksWellFormed(c.b, c.a);
    RenameGraph.ForcedIffCyclic(Links(c.b, c.a), r.order, r.forced);
  }

  lemma CalledReader(h: Hub, hs: seq<Hub>, wd: Wd, view: View, forced: set<nat>, c: Diff, more: map<ItemId, Entry>,
                     fs: Key -> FileType)
    requires |hs| == |c.acts| + 1 && Fitting(c) && IsTrace(hs, wd, c) && hs[0] == h.(g := Grown(h.g, more))
    requires GraphOk(h.g) && Listens(h.g, wd) && Called(h, hs[|c.acts|], wd, c, more, view, fs)
    requires Plan(c.b, c.a, c.acts, forced)
    ensures var h1 := hs[|c.acts|]; Informed(h, h1.(g := Freed(h1.g, Leaving(c))), wd) <==> forced == {}
  {
    ReaderKnowsDirectory(hs, wd, c, forced, fs);
    SameListNames(h.g, hs[0].g, wd);
    CalledHub(h, hs[|c.acts|], wd, c, more, view, fs);
  }

  lemma SameListNames(g: Graph, g': Graph, wd: Wd)
    requires GraphOk(g) && wd in g.iws && g'.iws == g.iws
    requires (forall x | x in g.items :: x in g'.items && g'.items[x] == g.items[x])
    ensures ListNames(g', wd) == ListNames(g, wd)
  {
    assert IWatchOk(g, wd);
  }
}
