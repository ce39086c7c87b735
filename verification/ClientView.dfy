/**
 * What a program that reads the events of a directory can make of them: it keeps a set of names,
 * adds a name on IN_CREATE and IN_MOVED_TO, and removes one on IN_DELETE and IN_MOVED_FROM.
 */
module ClientView {
  import opened Wrappers
  import opened DirEvents
  import opened DepList
  import opened DiffSpec
  import opened DiffMeaning
  import opened Flags
  import opened WatchGraph
  import opened Subwatches
  import opened Hub
  import opened DiffCallbacks

  function NamesStep(s: set<string>, r: Report, wd: Wd): set<string> {
    if !r.Told? || r.wd != wd || r.name.None? then s
    else if InCreate in r.mask || InMovedTo in r.mask then s + {r.name.value}
    else if InDelete in r.mask || InMovedFrom in r.mask then s - {r.name.value}
    else s
  }

  /** The names after all these reports. */
  function NamesAfter(s: set<string>, log: seq<Report>, wd: Wd): set<string> {
    if log == [] then s else NamesStep(NamesAfter(s, log[..|log| - 1], wd), log[|log| - 1], wd)
  }

  lemma {:induction false} NamesAppend(s: set<string>, a: seq<Report>, b: seq<Report>, wd: Wd)
    ensures NamesAfter(s, a + b, wd) == NamesAfter(NamesAfter(s, a, wd), b, wd)
  {
    if b == [] {
      assert a + b == a;
    } else {
      assert (a + b)[..|a + b| - 1] == a + b[..|b| - 1];
      NamesAppend(s, a, b[..|b| - 1], wd);
    }
  }

  /** The inotify watch reports every change of the directory. */
  predicate Listens(g: Graph, wd: Wd) {
    && wd in g.iws && !g.iws[wd].closed && InOneshot !in g.iws[wd].flags
    && {InCreate, InDelete, InMovedFrom, InMovedTo} <= g.iws[wd].flags
  }

  function Taught(s: set<string>, bit: Bit, n: string): set<string> {
    if bit == InCreate || bit == InMovedTo then s + {n} else s - {n}
  }

  lemma {:induction false} Heard(h: Hub, wd: Wd, bit: Bit, e: Entry)
    requires Listens(h.g, wd) && bit in {InCreate, InDelete, InMovedFrom, InMovedTo}
    ensures var h' := Tell(h, wd, {bit}, Some(e));
            && h'.g == h.g && h'.log == h.log + [ReportOf(wd, {bit}, Some(e))]
            && (forall s :: NamesStep(s, ReportOf(wd, {bit}, Some(e)), wd) == Taught(s, bit, e.name))
  {
    var iw := h.g.iws[wd];
    assert IsEvent(bit) && bit in iw.flags;
    assert Passing({bit}, iw.flags) == {bit};
    assert h.g.iws[wd := iw] == h.g.iws;
  }

  /** Watching an entry leaves its name and all inotify watches alone. */
  lemma AddSubwatchSame(g: Graph, wd: Wd, x: ItemId, p: Probe)
    requires wd in g.iws && x in g.items
    ensures var g' := AddSubwatch(g, wd, x, p);
            g'.iws == g.iws && x in g'.items && g'.items[x].name == g.items[x].name
  {
  }

  lemma Suffix<T>(a: seq<T>, b: seq<T>)
    ensures a <= a + b && (a + b)[|a|..] == b
  {
  }

  // ------------------------------------------------------------------ one callback

  /** The reports between two states tell a reader the same as the event. */
  ghost predicate Conveys(h: Hub, h': Hub, wd: Wd, e: Event) {
    && h.log <= h'.log && Listens(h'.g, wd)
    && (forall d: Dir :: NamesAfter(d.Keys, h'.log[|h.log|..], wd) == Apply(d, e).Keys)
  }

  lemma {:induction false} RemovedConveyed(h: Hub, wd: Wd, x: ItemId, extend: bool, inode: nat)
    requires Listens(h.g, wd) && x in h.g.items
    ensures Conveys(h, HandleRemoved(h, wd, x, extend), wd, Removed(h.g.items[x].name, inode))
  {
    var bit := if extend && h.g.pf.extendFrom then InMovedFrom else InDelete;
    var r := ReportOf(wd, {bit}, Some(h.g.items[x]));
    Heard(h, wd, bit, h.g.items[x]);
    Suffix(h.log, [r]);
    OneReport(r, wd);
  }

  lemma {:induction false} OneReport(r: Report, wd: Wd)
    ensures forall s :: NamesAfter(s, [r], wd) == NamesStep(s, r, wd)
  {
    forall s ensures NamesAfter(s, [r], wd) == NamesStep(s, r, wd) {
      assert [r][..0] == [];
      assert NamesAfter(s, [], wd) == s;
    }
  }

  lemma {:induction false} TwoReports(r: Report, q: Report, wd: Wd)
    ensures forall s :: NamesAfter(s, [r, q], wd) == NamesStep(NamesStep(s, r, wd), q, wd)
  {
    OneReport(r, wd);
    forall s ensures NamesAfter(s, [r, q], wd) == NamesStep(NamesStep(s, r, wd), q, wd) {
      assert [r, q][..1] == [r];
    }
  }

  lemma {:induction false} ReplacedConveyed(h: Hub, wd: Wd, x: ItemId, inode: nat)
    requires Listens(h.g, wd) && x in h.g.items
    ensures Conveys(h, HandleReplaced(h, wd, x), wd, Replaced(h.g.items[x].name, inode))
  {
    Suffix(h.log, []);
    assert h.log + [] == h.log;
  }

  lemma {:induction false} MovedReports(h: Hub, wd: Wd, from: ItemId, to: ItemId) returns (r: Report, q: Report)
    requires Listens(h.g, wd) && from in h.g.items && to in h.g.items
    ensures var h' := HandleMoved(h, wd, from, to);
            h'.log == h.log + [r, q] && Listens(h'.g, wd)
    ensures r.Told? && q.Told? && r.wd == q.wd == wd && r.mask - {InIsDir} == {InMovedFrom}
    ensures q.mask - {InIsDir} == {InMovedTo}
    ensures r.name == Some(h.g.items[from].name) && q.name == Some(h.g.items[to].name)
    ensures r.cookie == h.g.items[from].inode % 0x1_0000_0000 && q.cookie == h.g.items[to].inode % 0x1_0000_0000
    ensures forall s :: NamesStep(NamesStep(s, r, wd), q, wd) == s - {h.g.items[from].name} + {h.g.items[to].name}
  {
    var h0 := h.(g := InheritType(h.g, from, to));
    var e, f := h0.g.items[from], h0.g.items[to];
    Heard(h0, wd, InMovedFrom, e);
    var h1 := Tell(h0, wd, {InMovedFrom}, Some(e));
    Heard(h1, wd, InMovedTo, f);
    r, q := ReportOf(wd, {InMovedFrom}, Some(e)), ReportOf(wd, {InMovedTo}, Some(f));
    assert h.log + [r] + [q] == h.log + [r, q];
  }

  /** The report is one about the entry with this name, up to IN_ISDIR. */
  predicate Says(r: Report, wd: Wd, bit: Bit, name: string, cookie: nat) {
    r.Told? && r.wd == wd && r.mask - {InIsDir} == {bit} && r.name == Some(name) && r.cookie == cookie
  }

  /** A rename is reported as IN_MOVED_FROM with the old name and IN_MOVED_TO with the new one, with one cookie. */
  lemma {:induction false} MovedConveyed(h: Hub, wd: Wd, from: ItemId, to: ItemId, inode: nat)
    requires Listens(h.g, wd) && from in h.g.items && to in h.g.items && h.g.items[from].inode == h.g.items[to].inode
    ensures Conveys(h, HandleMoved(h, wd, from, to), wd, Moved(h.g.items[from].name, h.g.items[to].name, inode))
    ensures var h' := HandleMoved(h, wd, from, to);
            var cookie := h.g.items[from].inode % 0x1_0000_0000;
            && |h'.log| == |h.log| + 2
            && Says(h'.log[|h.log|], wd, InMovedFrom, h.g.items[from].name, cookie)
            && Says(h'.log[|h.log| + 1], wd, InMovedTo, h.g.items[to].name, cookie)
  {
    var r, q := MovedReports(h, wd, from, to);
    Suffix(h.log, [r, q]);
    TwoReports(r, q, wd);
  }

  lemma {:induction false} AddedReport(h: Hub, wd: Wd, x: ItemId, p: Probe, extend: bool) returns (r: Report)
    requires Listens(h.g, wd) && x in h.g.items
    ensures var h' := HandleAdded(h, wd, x, p, extend);
            h'.log == h.log + [r] && Listens(h'.g, wd)
    ensures forall s :: NamesStep(s, r, wd) == s + {h.g.items[x].name}
  {
    var g0 := WithList(h.g, wd, h.g.iws[wd].list + {x});
    AddSubwatchSame(g0, wd, x, p);
    var g1 := AddSubwatch(g0, wd, x, p);
    var bit := if extend && h.g.pf.extendTo then InMovedTo else InCreate;
    Heard(h.(g := g1), wd, bit, g1.items[x]);
    r := ReportOf(wd, {bit}, Some(g1.items[x]));
  }

  lemma {:induction false} AddedConveyed(h: Hub, wd: Wd, x: ItemId, p: Probe, extend: bool, inode: nat)
    requires Listens(h.g, wd) && x in h.g.items
    ensures Conveys(h, HandleAdded(h, wd, x, p, extend), wd, Added(h.g.items[x].name, inode))
  {
    var r := AddedReport(h, wd, x, p, extend);
    Suffix(h.log, [r]);
    OneReport(r, wd);
  }

  lemma MoveLabelled(h0: Hub, h: Hub, wd: Wd, c: Diff, p: nat, fs: Key -> FileType)
    requires Prepared(h0, wd, c, fs) && p < |c.acts| && Midway(h0, h, wd, c, p, fs) && InMemory(h, wd, c)
    requires c.acts[p].Move?
    ensures var j := c.acts[p].j;
            && j < |c.after| && Renames(c.b, c.a)[j].Some? && Renames(c.b, c.a)[j].value < |c.before|
            && var from, to := h.g.items[c.before[Renames(c.b, c.a)[j].value]], h.g.items[c.after[j]];
               && from.name == c.b[Renames(c.b, c.a)[j].value].name && to.name == c.a[j].item.name
               && from.inode == to.inode
  {
    PresentStep(c, p);
    var j := c.acts[p].j;
    InStep(c, j, p);
    StillFresh(h0, h, wd, c, p, fs, j);
    MatchCorrect(c.b, c.a, |c.b|);
    assert h.g.items[c.before[Renames(c.b, c.a)[j].value]] == EntryOf(c.b[Renames(c.b, c.a)[j].value]);
  }

  /** Each callback reports the event of the diff that it is made for. */
  lemma ActConveyed(h0: Hub, h: Hub, h': Hub, wd: Wd, c: Diff, p: nat, fs: Key -> FileType)
    requires Prepared(h0, wd, c, fs) && p < |c.acts| && Midway(h0, h, wd, c, p, fs) && Follows(h, h', wd, c, p)
    requires Listens(h.g, wd) && ActsOk(c.b, c.a, c.acts)
    ensures Conveys(h, h', wd, Events(c.b, c.a, c.acts)[p])
  {
    PresentStep(c, p);
    assert ActOk(c.b, c.a, Renames(c.b, c.a), c.acts[p]);
    match c.acts[p]
    case Drop(i) =>
      assert h.g.items[c.before[i]] == EntryOf(c.b[i]);
      if IsReplaced(c.a, Renames(c.b, c.a), i) {
        ReplacedConveyed(h, wd, c.before[i], c.b[i].inode);
      } else {
        RemovedConveyed(h, wd, c.before[i], c.extend, c.b[i].inode);
      }
    case Move(j) =>
      MoveLabelled(h0, h, wd, c, p, fs);
      MovedConveyed(h, wd, c.before[Renames(c.b, c.a)[j].value], c.after[j], c.a[j].item.inode);
    case Create(j) =>
      InStep(c, j, p);
      StillFresh(h0, h, wd, c, p, fs, j);
      AddedConveyed(h, wd, c.after[j], c.probe(c.a[j].item.name), c.extend, c.a[j].item.inode);
  }

  // ------------------------------------------------------------------ the whole diff

  /** After `p` callbacks the reader knows the names that the events so far lead to. */
  ghost predicate KeptUp(h0: Hub, h: Hub, wd: Wd, c: Diff, p: nat)
    requires ActsOk(c.b, c.a, c.acts) && p <= |c.acts|
  {
    && h0.log <= h.log && Listens(h.g, wd)
    && NamesAfter(DirOf(c.b).Keys, h.log[|h0.log|..], wd) == Replay(DirOf(c.b), Events(c.b, c.a, c.acts)[..p]).Keys
  }

  lemma KeptUpNext(h0: Hub, h: Hub, h': Hub, wd: Wd, c: Diff, p: nat)
    requires ActsOk(c.b, c.a, c.acts) && p < |c.acts|
    requires KeptUp(h0, h, wd, c, p) && Conveys(h, h', wd, Events(c.b, c.a, c.acts)[p])
    ensures KeptUp(h0, h', wd, c, p + 1)
  {
    var d, es := DirOf(c.b), Events(c.b, c.a, c.acts);
    var a, b := h.log[|h0.log|..], h'.log[|h.log|..];
    assert h'.log[|h0.log|..] == a + b;
    NamesAppend(d.Keys, a, b, wd);
    assert es[..p + 1][..p] == es[..p] && es[..p + 1][p] == es[p];
  }

  lemma TraceConveys(hs: seq<Hub>, wd: Wd, c: Diff, p: nat, fs: Key -> FileType)
    requires p + 1 < |hs| <= |c.acts| + 1 && Prepared(hs[0], wd, c, fs) && IsTrace(hs, wd, c)
    requires Listens(hs[p].g, wd) && ActsOk(c.b, c.a, c.acts)
    ensures Conveys(hs[p], hs[p + 1], wd, Events(c.b, c.a, c.acts)[p])
  {
    TraceKeeps(hs, wd, c, p, fs);
    assert FollowsAt(hs, wd, c, p);
    ActConveyed(hs[0], hs[p], hs[p + 1], wd, c, p, fs);
  }

  lemma {:induction false} ReaderKeepsUp(hs: seq<Hub>, wd: Wd, c: Diff, p: nat, fs: Key -> FileType)
    requires p < |hs| <= |c.acts| + 1 && Prepared(hs[0], wd, c, fs) && IsTrace(hs, wd, c)
    requires Listens(hs[0].g, wd) && ActsOk(c.b, c.a, c.acts)
    ensures KeptUp(hs[0], hs[p], wd, c, p)
  {
    if p > 0 {
      ReaderKeepsUp(hs, wd, c, p - 1, fs);
      TraceConveys(hs, wd, c, p - 1, fs);
      KeptUpNext(hs[0], hs[p - 1], hs[p], wd, c, p - 1);
    }
  }

  /** The names in the list of an inotify watch. */
  ghost function ListNames(g: Graph, wd: Wd): set<string>
    requires wd in g.iws
  {
    set x | x in g.iws[wd].list && x in g.items :: g.items[x].name
  }

  lemma OldNames(h: Hub, wd: Wd, c: Diff, fs: Key -> FileType)
    requires Prepared(h, wd, c, fs)
    ensures ListNames(h.g, wd) == DirOf(c.b).Keys
  {
    forall i | 0 <= i < |c.b| ensures c.b[i].name in ListNames(h.g, wd) {
      assert c.before[i] in h.g.iws[wd].list && h.g.items[c.before[i]] == EntryOf(c.b[i]);
    }
    forall x | x in h.g.iws[wd].list ensures h.g.items[x].name in DirOf(c.b) {
      var i :| 0 <= i < |c.before| && c.before[i] == x;
      assert c.b[i].name == h.g.items[x].name;
    }
  }

  /** The directory that a diff leads to. */
  ghost function GoalDir(b: seq<Item>, a: seq<Change>): (d: Dir)
    requires ReadState(b, a)
    ensures forall n :: Lookup(d, n) == Goal(b, a, n)
  {
    var names := (set i | 0 <= i < |b| :: b[i].name) + (set j | 0 <= j < |a| :: a[j].item.name);
    map n | n in names && Goal(b, a, n).Some? :: Goal(b, a, n).value
  }

  lemma GoalNames(b: seq<Item>, a: seq<Change>, n: Name)
    requires ReadState(b, a)
    ensures n in GoalDir(b, a) <==>
            || (exists i :: 0 <= i < |b| && b[i].intact && b[i].name == n)
            || (exists j :: 0 <= j < |a| && a[j].item.name == n)
  {
    assert n in GoalDir(b, a) <==> Goal(b, a, n).Some?;
    if i :| 0 <= i < |b| && b[i].intact && b[i].name == n {
      forall j | 0 <= j < |a| ensures a[j].item.name != n {
        assert ChangeOk(b, a[j]);
      }
    }
  }

  /** The entries of the directory at the end of a diff. */
  ghost predicate Stays(c: Diff, x: ItemId)
    requires |c.before| == |c.b|
  {
    (exists i :: 0 <= i < |c.b| && c.b[i].intact && c.before[i] == x) || x in c.after
  }

  lemma NameOfEntry(h: Hub, wd: Wd, c: Diff, fs: Key -> FileType, x: ItemId)
    requires Prepared(h, wd, c, fs) && Stays(c, x)
    ensures x in h.g.items && h.g.items[x].name in GoalDir(c.b, c.a)
    ensures h.g.items[x].inode == GoalDir(c.b, c.a)[h.g.items[x].name]
  {
    GoalNames(c.b, c.a, h.g.items[x].name);
    assert Lookup(GoalDir(c.b, c.a), h.g.items[x].name) == Goal(c.b, c.a, h.g.items[x].name);
    if j :| 0 <= j < |c.after| && c.after[j] == x {
      assert c.a[j].item.name == h.g.items[x].name;
    } else {
      var i :| 0 <= i < |c.b| && c.b[i].intact && c.before[i] == x;
      assert c.b[i].name == h.g.items[x].name;
      forall j | 0 <= j < |c.a| ensures c.a[j].item.name != c.b[i].name {
        assert ChangeOk(c.b, c.a[j]);
      }
    }
  }

  lemma EntryOfName(h: Hub, wd: Wd, c: Diff, fs: Key -> FileType, n: Name) returns (x: ItemId)
    requires Prepared(h, wd, c, fs) && n in GoalDir(c.b, c.a)
    ensures x in h.g.items && Stays(c, x) && h.g.items[x].name == n
  {
    GoalNames(c.b, c.a, n);
    if i :| 0 <= i < |c.b| && c.b[i].intact && c.b[i].name == n {
      x := c.before[i];
    } else {
      var j :| 0 <= j < |c.a| && c.a[j].item.name == n;
      x := c.after[j];
    }
  }

  lemma NewNames(h: Hub, h': Hub, wd: Wd, c: Diff, fs: Key -> FileType)
    requires Prepared(h, wd, c, fs) && OnlyEntries(h.g, h'.g, wd)
    requires forall x :: x in h'.g.iws[wd].list <==> Stays(c, x)
    ensures ListNames(h'.g, wd) == GoalDir(c.b, c.a).Keys
  {
    forall n ensures n in ListNames(h'.g, wd) <==> n in GoalDir(c.b, c.a) {
      if n in ListNames(h'.g, wd) {
        var x :| x in h'.g.iws[wd].list && x in h'.g.items && h'.g.items[x].name == n;
        NameOfEntry(h, wd, c, fs, x);
      }
      if n in GoalDir(c.b, c.a) {
        var x := EntryOfName(h, wd, c, fs, n);
        assert h'.g.items[x].name == n;
      }
    }
  }

  /**
   * A program that follows the events of a directory ends up with the names that are in it,
   * exactly if no rename had to be reported early; otherwise it misses the names of those.
   */
  lemma {:induction false} ReaderKnowsDirectory(hs: seq<Hub>, wd: Wd, c: Diff, forced: set<nat>, fs: Key -> FileType)
    requires |hs| == |c.acts| + 1 && Prepared(hs[0], wd, c, fs) && IsTrace(hs, wd, c)
    requires Listens(hs[0].g, wd) && Plan(c.b, c.a, c.acts, forced)
    ensures var h, h' := hs[0], hs[|c.acts|];
            && wd in h.g.iws && wd in h'.g.iws && |h.log| <= |h'.log|
            && var known := NamesAfter(ListNames(h.g, wd), h'.log[|h.log|..], wd);
               && known == ListNames(h'.g, wd) - ForcedNames(c.a, forced)
               && (known == ListNames(h'.g, wd) <==> forced == {})
  {
    var h, h' := hs[0], hs[|c.acts|];
    var goal := GoalDir(c.b, c.a);
    ReaderKeepsUp(hs, wd, c, |c.acts|, fs);
    DiffKeepsGraph(hs, wd, c, fs);
    assert forall x :: x in h'.g.iws[wd].list <==> Stays(c, x);
    OldNames(h, wd, c, fs);
    NewNames(h, h', wd, c, fs);
    NamesOfReplay(c, forced, goal);
  }

  lemma NamesOfReplay(c: Diff, forced: set<nat>, goal: Dir)
    requires ReadState(c.b, c.a) && Plan(c.b, c.a, c.acts, forced) && (forall n :: Lookup(goal, n) == Goal(c.b, c.a, n))
    ensures var es := Events(c.b, c.a, c.acts);
            var seen := Replay(DirOf(c.b), es[..|c.acts|]);
            && seen.Keys == goal.Keys - ForcedNames(c.a, forced)
            && (seen.Keys == goal.Keys <==> forced == {})
  {
    var es := Events(c.b, c.a, c.acts);
    assert es[..|c.acts|] == es;
    ReplayMeaning(c.b, c.a, c.acts, forced, goal);
    if goal.Keys - ForcedNames(c.a, forced) == goal.Keys {
      assert goal - ForcedNames(c.a, forced) == goal;
    }
  }
}
