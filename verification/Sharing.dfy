/**
 * What an inotify watch hears of a kernel event, and that it does not depend on who else has records on the
 * watch: all messages about one event, in order, with a one-shot watch closing after the first.
 */
module Sharing {
  import opened Wrappers
  import opened Names
  import opened DirEvents
  import opened DepList
  import opened DiffSpec
  import opened Flags
  import opened WatchGraph
  import opened Subwatches
  import opened Hub
  import opened DiffCallbacks
  import opened ClientView
  import opened DirRefresh
  import opened Notify
  import RenameGraph

  // ------------------------------------------------------------------ hearing

  /** An event as a program reads it, up to IN_ISDIR and the cookie. */
  datatype Message = Message(bits: set<Bit>, name: Option<string>)

  /** The messages to a descriptor. */
  function MessagesTo(log: seq<Report>, v: Wd): seq<Message> {
    if log == [] then []
    else
      var init, r := MessagesTo(log[..|log| - 1], v), log[|log| - 1];
      if r.Told? && r.wd == v then init + [Message(r.mask - {InIsDir}, r.name)] else init
  }

  lemma {:induction false} MessagesAppend(a: seq<Report>, b: seq<Report>, v: Wd)
    ensures MessagesTo(a + b, v) == MessagesTo(a, v) + MessagesTo(b, v)
  {
    if b == [] {
      assert a + b == a;
    } else {
      assert (a + b)[..|a + b| - 1] == a + b[..|b| - 1];
      MessagesAppend(a, b[..|b| - 1], v);
    }
  }

  lemma {:induction false} OneMessage(r: Report, v: Wd)
    ensures MessagesTo([r], v) == if r.Told? && r.wd == v then [Message(r.mask - {InIsDir}, r.name)] else []
  {
    assert [r][..0] == [];
  }

  /** Of what is offered, a closed watch hears nothing, and a one-shot watch only the first message. */
  function Hear(iw: IWatch, offers: seq<Message>): seq<Message> {
    if iw.closed || offers == [] then []
    else if InOneshot in iw.flags then offers[..1]
    else offers
  }

  /** From `h` to `h'` inotify watch `v` is offered these messages, and hears what it can. */
  ghost predicate Hears(h: Hub, h': Hub, v: Wd, offers: seq<Message>) {
    && v in h.g.iws && v in h'.g.iws && h.log <= h'.log
    && MessagesTo(h'.log[|h.log|..], v) == Hear(h.g.iws[v], offers)
    && h'.g.iws[v].flags == h.g.iws[v].flags
    && (h'.g.iws[v].closed <==> h.g.iws[v].closed || (InOneshot in h.g.iws[v].flags && offers != []))
  }

  lemma HearsChain(h: Hub, h1: Hub, h2: Hub, v: Wd, a: seq<Message>, b: seq<Message>)
    requires Hears(h, h1, v, a) && Hears(h1, h2, v, b)
    ensures Hears(h, h2, v, a + b)
  {
    var s, t := h1.log[|h.log|..], h2.log[|h1.log|..];
    assert h2.log[|h.log|..] == s + t;
    MessagesAppend(s, t, v);
    assert a == [] ==> a + b == b;
    assert a != [] ==> (a + b)[..1] == a[..1];
  }

  lemma HearsNothing(h: Hub, h': Hub, v: Wd)
    requires v in h.g.iws && v in h'.g.iws && h'.log == h.log
    requires h'.g.iws[v].flags == h.g.iws[v].flags && h'.g.iws[v].closed == h.g.iws[v].closed
    ensures Hears(h, h', v, [])
  {
    assert h'.log[|h.log|..] == [];
  }

  function NameIn(di: Option<Entry>): Option<string> {
    match di case None => None case Some(e) => Some(e.name)
  }

  /** What is left of an event when it has passed a mask. */
  function Offer(mask: set<Bit>, flags: set<Bit>, name: Option<string>): seq<Message> {
    var m := Passing(mask, flags);
    if IsBlank(m) then [] else [Message(m - {InIsDir}, name)]
  }

  lemma TellHears(h: Hub, wd: Wd, mask: set<Bit>, di: Option<Entry>, v: Wd)
    requires wd in h.g.iws && v in h.g.iws
    ensures Hears(h, Tell(h, wd, mask, di), v, if v == wd then Offer(mask, h.g.iws[wd].flags, NameIn(di)) else [])
  {
    var h', m := Tell(h, wd, mask, di), Passing(mask, h.g.iws[wd].flags);
    if h.g.iws[wd].closed || IsBlank(m) {
      assert h'.log[|h.log|..] == [];
    } else {
      var r := ReportOf(wd, m, di);
      Suffix(h.log, [r]);
      OneMessage(r, v);
      assert m + {InIsDir} - {InIsDir} == m - {InIsDir};
    }
  }

  // ------------------------------------------------------------------ a diff

  /** What a mask lets through of a change of a directory. */
  function EventOffers(pf: Platform, flags: set<Bit>, extend: bool, e: Event): seq<Message> {
    match e
    case Removed(n, _) => Offer({if extend && pf.extendFrom then InMovedFrom else InDelete}, flags, Some(n))
    case Replaced(_, _) => []
    case Moved(f, t, _) => Offer({InMovedFrom}, flags, Some(f)) + Offer({InMovedTo}, flags, Some(t))
    case Added(n, _) => Offer({if extend && pf.extendTo then InMovedTo else InCreate}, flags, Some(n))
  }

  function DirOffers(pf: Platform, flags: set<Bit>, extend: bool, es: seq<Event>): seq<Message> {
    if es == [] then [] else DirOffers(pf, flags, extend, es[..|es| - 1]) + EventOffers(pf, flags, extend, es[|es| - 1])
  }

  /** What `v` is offered by a callback for a change of the directory of `wd`. */
  function OffersFor(g: Graph, v: Wd, wd: Wd, extend: bool, e: Event): seq<Message>
    requires wd in g.iws
  {
    if v == wd then EventOffers(g.pf, g.iws[wd].flags, extend, e) else []
  }

  lemma RemovedHears(h: Hub, wd: Wd, x: ItemId, extend: bool, v: Wd, inode: nat)
    requires wd in h.g.iws && x in h.g.items && v in h.g.iws
    ensures Hears(h, HandleRemoved(h, wd, x, extend), v,
                  OffersFor(h.g, v, wd, extend, Removed(h.g.items[x].name, inode)))
  {
    var mask := {if extend && h.g.pf.extendFrom then InMovedFrom else InDelete};
    TellHears(h, wd, mask, Some(h.g.items[x]), v);
    var h1 := Tell(h, wd, mask, Some(h.g.items[x]));
    assert DelSubwatch(h1.g, wd, x).iws == h1.g.iws;
  }

  lemma ReplacedHears(h: Hub, wd: Wd, x: ItemId, v: Wd)
    requires wd in h.g.iws && x in h.g.items && v in h.g.iws
    ensures Hears(h, HandleReplaced(h, wd, x), v, [])
  {
    assert DelSubwatch(h.g, wd, x).iws == h.g.iws;
    HearsNothing(h, HandleReplaced(h, wd, x), v);
  }

  lemma MovedHears(h: Hub, wd: Wd, from: ItemId, to: ItemId, v: Wd, extend: bool, inode: nat)
    requires wd in h.g.iws && from in h.g.items && to in h.g.items && v in h.g.iws
    ensures Hears(h, HandleMoved(h, wd, from, to), v,
                  OffersFor(h.g, v, wd, extend, Moved(h.g.items[from].name, h.g.items[to].name, inode)))
  {
    var h0 := h.(g := InheritType(h.g, from, to));
    HearsNothing(h, h0, v);
    var e, f := Some(h0.g.items[from]), Some(h0.g.items[to]);
    var h1 := Tell(h0, wd, {InMovedFrom}, e);
    var h2 := Tell(h1, wd, {InMovedTo}, f);
    TellHears(h0, wd, {InMovedFrom}, e, v);
    TellHears(h1, wd, {InMovedTo}, f, v);
    var flags := h.g.iws[wd].flags;
    var s := if v == wd then Offer({InMovedFrom}, flags, NameIn(e)) else [];
    var t := if v == wd then Offer({InMovedTo}, flags, NameIn(f)) else [];
    HearsChain(h0, h1, h2, v, s, t);
    MoveHears(h2, wd, from, to, v);
    assert s + t == OffersFor(h.g, v, wd, extend, Moved(h.g.items[from].name, h.g.items[to].name, inode));
    assert HandleMoved(h, wd, from, to) == h2.(g := MoveEntry(h2.g, wd, from, to));
    HearsChain(h0, h2, HandleMoved(h, wd, from, to), v, s + t, []);
    assert s + t + [] == s + t;
  }

  lemma MoveHears(h: Hub, wd: Wd, from: ItemId, to: ItemId, v: Wd)
    requires wd in h.g.iws && from in h.g.items && to in h.g.items && v in h.g.iws
    ensures Hears(h, h.(g := MoveEntry(h.g, wd, from, to)), v, [])
  {
    HearsNothing(h, h.(g := MoveEntry(h.g, wd, from, to)), v);
  }

  lemma AddedHears(h: Hub, wd: Wd, x: ItemId, p: Probe, extend: bool, v: Wd, inode: nat)
    requires wd in h.g.iws && x in h.g.items && v in h.g.iws
    ensures Hears(h, HandleAdded(h, wd, x, p, extend), v,
                  OffersFor(h.g, v, wd, extend, Added(h.g.items[x].name, inode)))
  {
    var g0 := WithList(h.g, wd, h.g.iws[wd].list + {x});
    AddSubwatchSame(g0, wd, x, p);
    var h1 := h.(g := AddSubwatch(g0, wd, x, p));
    var mask := {if extend && h.g.pf.extendTo then InMovedTo else InCreate};
    TellHears(h1, wd, mask, Some(h1.g.items[x]), v);
  }

  lemma DropHears(h0: Hub, h: Hub, h': Hub, wd: Wd, c: Diff, p: nat, v: Wd, fs: Key -> FileType)
    requires Prepared(h0, wd, c, fs) && p < |c.acts| && Midway(h0, h, wd, c, p, fs) && Follows(h, h', wd, c, p)
    requires v in h.g.iws && ActsOk(c.b, c.a, c.acts) && c.acts[p].Drop?
    ensures Hears(h, h', v, OffersFor(h.g, v, wd, c.extend, Events(c.b, c.a, c.acts)[p]))
  {
    PresentStep(c, p);
    var i := c.acts[p].i;
    assert ActOk(c.b, c.a, Renames(c.b, c.a), c.acts[p]);
    assert h.g.items[c.before[i]] == EntryOf(c.b[i]);
    if IsReplaced(c.a, Renames(c.b, c.a), i) {
      ReplacedHears(h, wd, c.before[i], v);
    } else {
      RemovedHears(h, wd, c.before[i], c.extend, v, c.b[i].inode);
    }
  }

  lemma RenameHears(h0: Hub, h: Hub, h': Hub, wd: Wd, c: Diff, p: nat, v: Wd, fs: Key -> FileType)
    requires Prepared(h0, wd, c, fs) && p < |c.acts| && Midway(h0, h, wd, c, p, fs) && Follows(h, h', wd, c, p)
    requires v in h.g.iws && ActsOk(c.b, c.a, c.acts) && c.acts[p].Move?
    ensures Hears(h, h', v, OffersFor(h.g, v, wd, c.extend, Events(c.b, c.a, c.acts)[p]))
  {
    PresentStep(c, p);
    var j := c.acts[p].j;
    assert ActOk(c.b, c.a, Renames(c.b, c.a), c.acts[p]);
    MoveLabelled(h0, h, wd, c, p, fs);
    MovedHears(h, wd, c.before[Renames(c.b, c.a)[j].value], c.after[j], v, c.extend, c.a[j].item.inode);
  }

  lemma CreateHears(h0: Hub, h: Hub, h': Hub, wd: Wd, c: Diff, p: nat, v: Wd, fs: Key -> FileType)
    requires Prepared(h0, wd, c, fs) && p < |c.acts| && Midway(h0, h, wd, c, p, fs) && Follows(h, h', wd, c, p)
    requires v in h.g.iws && ActsOk(c.b, c.a, c.acts) && c.acts[p].Create?
    ensures Hears(h, h', v, OffersFor(h.g, v, wd, c.extend, Events(c.b, c.a, c.acts)[p]))
  {
    PresentStep(c, p);
    var j := c.acts[p].j;
    assert ActOk(c.b, c.a, Renames(c.b, c.a), c.acts[p]);
    InStep(c, j, p);
    StillFresh(h0, h, wd, c, p, fs, j);
    AddedHears(h, wd, c.after[j], c.probe(c.a[j].item.name), c.extend, v, c.a[j].item.inode);
  }

  /** Each callback offers what the event it is made for calls for, to its own watch only. */
  lemma ActHears(h0: Hub, h: Hub, h': Hub, wd: Wd, c: Diff, p: nat, v: Wd, fs: Key -> FileType)
    requires Prepared(h0, wd, c, fs) && p < |c.acts| && Midway(h0, h, wd, c, p, fs) && Follows(h, h', wd, c, p)
    requires v in h.g.iws && ActsOk(c.b, c.a, c.acts)
    ensures Hears(h, h', v, OffersFor(h.g, v, wd, c.extend, Events(c.b, c.a, c.acts)[p]))
  {
    match c.acts[p]
    case Drop(_) => DropHears(h0, h, h', wd, c, p, v, fs);
    case Move(_) => RenameHears(h0, h, h', wd, c, p, v, fs);
    case Create(_) => CreateHears(h0, h, h', wd, c, p, v, fs);
  }

  /** What `v` is offered by the first `p` callbacks of a diff of the directory of `wd`. */
  ghost function TraceOffers(g: Graph, v: Wd, wd: Wd, c: Diff, p: nat): seq<Message>
    requires wd in g.iws && ActsOk(c.b, c.a, c.acts) && p <= |c.acts|
  {
    if v == wd then DirOffers(g.pf, g.iws[wd].flags, c.extend, Events(c.b, c.a, c.acts)[..p]) else []
  }

  lemma {:induction false} TraceHears(hs: seq<Hub>, wd: Wd, c: Diff, p: nat, v: Wd, fs: Key -> FileType)
    requires p < |hs| <= |c.acts| + 1 && Prepared(hs[0], wd, c, fs) && IsTrace(hs, wd, c)
    requires v in hs[0].g.iws && ActsOk(c.b, c.a, c.acts)
    ensures Hears(hs[0], hs[p], v, TraceOffers(hs[0].g, v, wd, c, p))
  {
    if p == 0 {
      HearsNothing(hs[0], hs[0], v);
    } else {
      TraceHears(hs, wd, c, p - 1, v, fs);
      StepHears(hs, wd, c, p - 1, v, fs);
    }
  }

  lemma StepHears(hs: seq<Hub>, wd: Wd, c: Diff, p: nat, v: Wd, fs: Key -> FileType)
    requires p + 1 < |hs| <= |c.acts| + 1 && Prepared(hs[0], wd, c, fs) && IsTrace(hs, wd, c)
    requires ActsOk(c.b, c.a, c.acts) && v in hs[0].g.iws && Hears(hs[0], hs[p], v, TraceOffers(hs[0].g, v, wd, c, p))
    ensures Hears(hs[0], hs[p + 1], v, TraceOffers(hs[0].g, v, wd, c, p + 1))
  {
    TraceKeeps(hs, wd, c, p, fs);
    assert FollowsAt(hs, wd, c, p);
    ActHears(hs[0], hs[p], hs[p + 1], wd, c, p, v, fs);
    OffersGrow(hs[0].g, hs[p].g, v, wd, c, p);
    HearsChain(hs[0], hs[p], hs[p + 1], v, TraceOffers(hs[0].g, v, wd, c, p),
               OffersFor(hs[p].g, v, wd, c.extend, Events(c.b, c.a, c.acts)[p]));
  }

  lemma OffersGrow(g: Graph, g': Graph, v: Wd, wd: Wd, c: Diff, p: nat)
    requires wd in g.iws && wd in g'.iws && g'.pf == g.pf && g'.iws[wd].flags == g.iws[wd].flags
    requires ActsOk(c.b, c.a, c.acts) && p < |c.acts|
    ensures TraceOffers(g, v, wd, c, p + 1)
            == TraceOffers(g, v, wd, c, p) + OffersFor(g', v, wd, c.extend, Events(c.b, c.a, c.acts)[p])
  {
    var es := Events(c.b, c.a, c.acts);
    assert es[..p + 1][..p] == es[..p];
  }

  /** What a diff of a directory with these entries offers. */
  ghost function DiffOffers(g: Graph, v: Wd, view: View, ids: seq<ItemId>): seq<Message>
    requires v in g.iws && forall x | x in ids :: x in g.items
  {
    var stored := ItemsOf(g, ids);
    var b, a := Marked(stored, view.stream), Changes(stored, view.stream);
    var acts := Acts(b, a, RenameGraph.Schedule(Links(b, a)));
    if ActsOk(b, a, acts) then DirOffers(g.pf, g.iws[v].flags, view.extend, Events(b, a, acts)) else []
  }

  /** There is only one name order. */
  lemma {:induction false} SameOrder(g: Graph, wd: Wd, a: seq<ItemId>, b: seq<ItemId>)
    requires InNameOrder(g, wd, a) && InNameOrder(g, wd, b)
    ensures a == b
  {
    SamePrefix(g, wd, a, b, |a|);
    if |b| > |a| {
      assert b[|a|] in b;
      var i :| 0 <= i < |a| && a[i] == b[|a|];
      assert b[i] == a[i];
      NameOrderTotal(g.items[b[i]].name, g.items[b[|a|]].name);
    }
  }

  lemma {:induction false} SamePrefix(g: Graph, wd: Wd, a: seq<ItemId>, b: seq<ItemId>, n: nat)
    requires InNameOrder(g, wd, a) && InNameOrder(g, wd, b) && n <= |a|
    ensures n <= |b| && a[..n] == b[..n]
  {
    if n > 0 {
      SamePrefix(g, wd, a, b, n - 1);
      var x := a[n - 1];
      assert x in a;
      var j :| 0 <= j < |b| && b[j] == x;
      NotBefore(g, wd, a, b, n - 1, j);
      var y := b[n - 1];
      assert y in b;
      var i :| 0 <= i < |a| && a[i] == y;
      NotBefore(g, wd, b, a, n - 1, i);
      if y != x {
        NameOrderTotal(g.items[x].name, g.items[y].name);
      }
      assert a[..n] == a[..n - 1] + [x] && b[..n] == b[..n - 1] + [y];
    }
  }

  /** If two orders start the same, the next one of the first does not come earlier in the second. */
  lemma NotBefore(g: Graph, wd: Wd, a: seq<ItemId>, b: seq<ItemId>, n: nat, j: nat)
    requires InNameOrder(g, wd, a) && n < |a| && n <= |b| && a[..n] == b[..n] && j < |b| && b[j] == a[n]
    ensures j >= n
  {
    if j < n {
      assert a[j] == a[..n][j] == b[j];
      NameOrderTotal(g.items[a[j]].name, g.items[a[n]].name);
    }
  }

  lemma RunHears(h: Hub, h': Hub, wd: Wd, view: View, r: Run, v: Wd, fs: Key -> FileType)
    requires HubOk(h, fs) && NamesOk(h.g) && IsRunOf(h, h', wd, view, r) && ViewTrue(h.g.iws[wd].key, view, fs)
    requires v in h.g.iws
    ensures Hears(h, h', v, if v == wd then DiffOffers(h.g, v, view, r.before) else [])
  {
    var c := DiffOf(h.g, view, r);
    PlannedIsPrepared(h, wd, view, r, fs);
    PlannedFits(h, wd, view, r);
    TraceHears(r.hs, wd, c, |c.acts|, v, fs);
    RunEnds(h, r.hs[0], r.hs[|c.acts|], h', v, TraceOffers(r.hs[0].g, v, wd, c, |c.acts|));
    var es := Events(c.b, c.a, c.acts);
    assert es[..|c.acts|] == es;
  }

  lemma RunEnds(h: Hub, h0: Hub, h1: Hub, h': Hub, v: Wd, offers: seq<Message>)
    requires v in h.g.iws && h0.log == h.log && h0.g.iws == h.g.iws && h'.log == h1.log && h'.g.iws == h1.g.iws
    requires Hears(h0, h1, v, offers)
    ensures Hears(h, h', v, offers)
  {
  }

  // ------------------------------------------------------------------ a kernel event

  /** The directory list of `v` is as it was. */
  ghost predicate ListSame(g: Graph, g': Graph, v: Wd) {
    && v in g.iws && v in g'.iws && g'.iws[v].list == g.iws[v].list
    && (forall x | x in g.iws[v].list :: x in g.items && x in g'.items && g'.items[x] == g.items[x])
  }

  /** What is heard of a comparison of the directory with its stored list. */
  ghost function CompareOffers(g: Graph, v: Wd, ev: KEvent, ids: seq<ItemId>): seq<Message>
    requires v in g.iws && forall x | x in ids :: x in g.items
  {
    if ev.listing.None? then [] else DiffOffers(g, v, ViewOf(ev), ids)
  }

  function SubscriberTo(g: Graph, mode: FileType, d: Dep): Sub
    requires d.wd in g.iws
  {
    Sub(g.iws[d.wd].flags, mode, d.target.Parent?)
  }

  /** What one bit of the event offers by way of one record. */
  ghost function BitOffers(g: Graph, mode: FileType, ev: KEvent, d: Dep, ie: Bit, ids: seq<ItemId>): seq<Message>
    requires d.wd in g.iws && forall x | x in ids :: x in g.items
  {
    if CallsForDiff(g, ev, d, ie) then CompareOffers(g, d.wd, ev, ids)
    else
      var told := Reported(g.pf, ev.notes, ev.noLinks, SubscriberTo(g, mode, d), ie);
      if told == {} then [] else [Message(told - {InIsDir}, NameIn(EntryFor(g, d)))]
  }

  /** Having started from `h0`: no list but that of `v` matters, and it is as it was unless compared. */
  ghost predicate Underway(h0: Hub, h: Hub, k: Key, v: Wd, compared: bool, fs: Key -> FileType) {
    Notifying(h0, h, k, fs) && (compared || ListSame(h0.g, h.g, v))
  }

  lemma TellBitHears(h: Hub, k: Key, mode: FileType, ev: KEvent, d: Dep, ie: Bit, v: Wd)
    requires GraphOk(h.g) && HasDep(h.g, k, d) && d.wd in h.g.iws && mode == WatchMode(h.g, k) && ie in IE_ORDER
    requires !CallsForDiff(h.g, ev, d, ie) && v in h.g.iws
    ensures Hears(h, TellBit(h, mode, ev, d, ie), v, if d.wd == v then BitOffers(h.g, mode, ev, d, ie, []) else [])
  {
    var s, bits := SubscriberTo(h.g, mode, d), BitsFor(h.g.pf, mode, ev, d.target.Parent?);
    assert d.target.Parent? ==> mode == h.g.iws[d.wd].mode by {
      assert WatchOk(h.g, k) && DepOk(h.g, k, d);
    }
    PassingIsReported(h.g.pf, ev, s, ie);
    if ie in bits {
      var mask := MaskFor(bits, ie);
      TellHears(h, d.wd, mask, EntryFor(h.g, d), v);
      if !IsBlank(Passing(mask, s.flags)) {
        NotBlank(Passing(mask, s.flags));
      }
    } else {
      HearsNothing(h, h, v);
    }
  }

  lemma DispatchedUnderway(h0: Hub, h: Hub, h': Hub, k: Key, mode: FileType, ev: KEvent, d: Dep, ie: Bit, v: Wd,
                           compared: bool, fs: Key -> FileType)
    requires Underway(h0, h, k, v, compared, fs) && HasDep(h.g, k, d) && EventTrue(k, ev, fs)
    requires v in h0.g.iws && Dispatched(h, h', mode, ev, d, ie)
    ensures Underway(h0, h', k, v, compared || (d.wd == v && CallsForDiff(h0.g, ev, d, ie)), fs)
  {
    DispatchedKeeps(h0, h, h', k, mode, ev, d, ie, fs);
    SameCalls(h0, h, k, ev, d, ie, fs);
    if !CallsForDiff(h.g, ev, d, ie) {
      TellBitList(h, mode, ev, d, ie, v, fs);
    } else if ev.listing.Some? && d.wd != v {
      var r :| IsRunOf(h, h', d.wd, ViewOf(ev), r);
      DiffList(h, h', k, ev, d, r, v, fs);
    }
  }

  lemma TellBitList(h: Hub, mode: FileType, ev: KEvent, d: Dep, ie: Bit, v: Wd, fs: Key -> FileType)
    requires HubOk(h, fs) && d.wd in h.g.iws && v in h.g.iws
    ensures ListSame(h.g, TellBit(h, mode, ev, d, ie).g, v)
  {
    assert IWatchOk(h.g, v);
    var bits := BitsFor(h.g.pf, mode, ev, d.target.Parent?);
    if ie in bits {
      TellKeeps(h, d.wd, MaskFor(bits, ie), EntryFor(h.g, d), fs);
    }
  }

  /** A diff of another directory leaves the list alone. */
  lemma DiffList(h: Hub, h': Hub, k: Key, ev: KEvent, d: Dep, r: Run, v: Wd, fs: Key -> FileType)
    requires HubOk(h, fs) && NamesOk(h.g) && NoLeaks(h.g) && HasDep(h.g, k, d) && d.target.Parent? && d.wd in h.g.iws
    requires ev.listing.Some? && EventTrue(k, ev, fs) && IsRunOf(h, h', d.wd, ViewOf(ev), r) && v in h.g.iws
    requires v != d.wd
    ensures ListSame(h.g, h'.g, v)
  {
    assert h.g.iws[d.wd].key == k by {
      assert WatchOk(h.g, k) && DepOk(h.g, k, d);
    }
    RunKeeps(h, h', d.wd, ViewOf(ev), r, fs);
    assert IWatchOk(h.g, v);
    assert h.g.iws[v].list !! h.g.iws[d.wd].list;
  }

  /** What is offered depends on nothing that changes before it is offered. */
  lemma SameOffers(h0: Hub, h: Hub, k: Key, mode: FileType, ev: KEvent, d: Dep, ie: Bit, ids: seq<ItemId>,
                   fs: Key -> FileType)
    requires Notifying(h0, h, k, fs) && HasDep(h.g, k, d) && d.wd in h0.g.iws && !CallsForDiff(h.g, ev, d, ie)
    requires d.target.Child? ==> ListSame(h0.g, h.g, d.wd)
    requires forall x | x in ids :: x in h0.g.items
    ensures d.wd in h.g.iws && BitOffers(h.g, mode, ev, d, ie, []) == BitOffers(h0.g, mode, ev, d, ie, ids)
  {
    assert SameSettings(h0.g.iws[d.wd], h.g.iws[d.wd]);
    SameCalls(h0, h, k, ev, d, ie, fs);
    assert DepOk(h.g, k, d) by {
      assert WatchOk(h.g, k);
    }
  }

  lemma DiffHears(h0: Hub, h: Hub, h': Hub, k: Key, ev: KEvent, d: Dep, r: Run, v: Wd, ids: seq<ItemId>,
                  fs: Key -> FileType)
    requires Notifying(h0, h, k, fs) && HasDep(h.g, k, d) && d.target.Parent? && d.wd in h.g.iws && v in h.g.iws
    requires ev.listing.Some? && EventTrue(k, ev, fs) && IsRunOf(h, h', d.wd, ViewOf(ev), r)
    requires InNameOrder(h0.g, v, ids) && (d.wd == v ==> ListSame(h0.g, h.g, v))
    ensures Hears(h, h', v, if d.wd == v then DiffOffers(h0.g, v, ViewOf(ev), ids) else [])
  {
    assert h.g.iws[d.wd].key == k by {
      assert WatchOk(h.g, k) && DepOk(h.g, k, d);
    }
    RunHears(h, h', d.wd, ViewOf(ev), r, v, fs);
    if d.wd == v {
      assert SameSettings(h0.g.iws[v], h.g.iws[v]);
      SameDiffOffers(h0.g, h.g, v, ViewOf(ev), ids, r.before);
    }
  }

  lemma SameDiffOffers(g: Graph, g': Graph, v: Wd, view: View, ids: seq<ItemId>, ids': seq<ItemId>)
    requires ListSame(g, g', v) && g'.pf == g.pf && g'.iws[v].flags == g.iws[v].flags
    requires InNameOrder(g, v, ids) && InNameOrder(g', v, ids')
    ensures DiffOffers(g', v, view, ids') == DiffOffers(g, v, view, ids)
  {
    SameOrder(g', v, ids', ids);
    assert ItemsOf(g', ids) == ItemsOf(g, ids);
  }

  /** One record, one bit: its inotify watch, and no other, hears what is offered. */
  lemma DispatchedHears(h0: Hub, h: Hub, h': Hub, k: Key, mode: FileType, ev: KEvent, d: Dep, ie: Bit, v: Wd,
                        compared: bool, ids: seq<ItemId>, fs: Key -> FileType)
    requires Underway(h0, h, k, v, compared, fs) && HasDep(h.g, k, d) && EventTrue(k, ev, fs) && mode == fs(k)
    requires ie in IE_ORDER
    requires InNameOrder(h0.g, v, ids) && d.wd in h0.g.iws && Dispatched(h, h', mode, ev, d, ie)
    requires d.wd == v && (d.target.Child? || CallsForDiff(h0.g, ev, d, ie)) ==> !compared
    ensures Hears(h, h', v, if d.wd == v then BitOffers(h0.g, mode, ev, d, ie, ids) else [])
  {
    SameCalls(h0, h, k, ev, d, ie, fs);
    WatchedType(h.g, k, fs);
    if !CallsForDiff(h.g, ev, d, ie) {
      TellBitHears(h, k, mode, ev, d, ie, v);
      if d.wd == v {
        SameOffers(h0, h, k, mode, ev, d, ie, ids, fs);
      }
    } else if ev.listing.None? {
      HearsNothing(h, h', v);
    } else {
      var r :| IsRunOf(h, h', d.wd, ViewOf(ev), r);
      DiffHears(h0, h, h', k, ev, d, r, v, ids, fs);
    }
  }

  /** What one bit of the event offers to `v`, record by record. */
  ghost function RowOffers(g: Graph, mode: FileType, ev: KEvent, deps: seq<Dep>, v: Wd, ie: Bit,
                           ids: seq<ItemId>): seq<Message>
    requires v in g.iws && forall x | x in ids :: x in g.items
  {
    if deps == [] then []
    else
      var init, d := RowOffers(g, mode, ev, deps[..|deps| - 1], v, ie, ids), deps[|deps| - 1];
      init + if d.wd == v then BitOffers(g, mode, ev, d, ie, ids) else []
  }

  /** One of the records has made `v` compare its directory. */
  ghost predicate Compared(g: Graph, ev: KEvent, deps: seq<Dep>, ie: Bit, v: Wd) {
    exists d :: d in deps && d.wd == v && CallsForDiff(g, ev, d, ie)
  }

  /** An inotify watch that has a record on its own file has no other on that watch. */
  lemma SoleRecord(g: Graph, k: Key, d: Dep, e: Dep)
    requires GraphOk(g) && HasDep(g, k, d) && HasDep(g, k, e) && d.wd == e.wd && d.target.Parent?
    ensures e == d
  {
    assert WatchOk(g, k) && DepOk(g, k, d) && DepOk(g, k, e);
    assert IWatchOk(g, d.wd);
  }

  /** The records are some of those on watch `k`. */
  ghost predicate Records(g: Graph, k: Key, deps: seq<Dep>) {
    GraphOk(g) && Distinct(deps) && (forall d | d in deps :: HasDep(g, k, d) && d.wd in g.iws)
  }

  /** The first `j` records have been dealt with for one bit. */
  ghost predicate RowHeard(h0: Hub, h: Hub, h': Hub, k: Key, mode: FileType, ev: KEvent, deps: seq<Dep>, ie: Bit, v: Wd,
                           compared: bool, ids: seq<ItemId>, fs: Key -> FileType)
  {
    && InNameOrder(h0.g, v, ids)
    && Underway(h0, h', k, v, compared || Compared(h0.g, ev, deps, ie, v), fs)
    && Hears(h, h', v, RowOffers(h0.g, mode, ev, deps, v, ie, ids))
  }

  /** A directory is compared for one record only. */
  lemma ComparedOnce(g: Graph, k: Key, ev: KEvent, deps: seq<Dep>, d: Dep, ie: Bit, v: Wd)
    requires Records(g, k, deps + [d]) && d.wd == v
    ensures !Compared(g, ev, deps, ie, v)
  {
    var all := deps + [d];
    forall e | e in deps && e.wd == v && CallsForDiff(g, ev, e, ie) ensures false {
      var q :| 0 <= q < |deps| && deps[q] == e;
      assert all[q] == e && all[|deps|] == d;
      SoleRecord(g, k, e, d);
    }
  }

  lemma ComparedNext(g: Graph, ev: KEvent, deps: seq<Dep>, d: Dep, ie: Bit, v: Wd)
    ensures Compared(g, ev, deps + [d], ie, v) <==>
            Compared(g, ev, deps, ie, v) || (d.wd == v && CallsForDiff(g, ev, d, ie))
  {
    var all := deps + [d];
    assert all[|deps|] == d;
    if e :| e in deps && e.wd == v && CallsForDiff(g, ev, e, ie) {
      assert e in all;
    }
  }

  lemma {:induction false} RowOffersNext(g: Graph, mode: FileType, ev: KEvent, deps: seq<Dep>, d: Dep, v: Wd, ie: Bit,
                                         ids: seq<ItemId>)
    requires v in g.iws && forall x | x in ids :: x in g.items
    ensures RowOffers(g, mode, ev, deps + [d], v, ie, ids)
            == RowOffers(g, mode, ev, deps, v, ie, ids) + if d.wd == v then BitOffers(g, mode, ev, d, ie, ids) else []
  {
    assert (deps + [d])[..|deps|] == deps;
  }

  lemma {:induction false} RowHeardNext(h0: Hub, h: Hub, h1: Hub, h2: Hub, k: Key, mode: FileType, ev: KEvent,
                                        deps: seq<Dep>, d: Dep,
                                        ie: Bit, v: Wd, compared: bool, ids: seq<ItemId>, fs: Key -> FileType)
    requires RowHeard(h0, h, h1, k, mode, ev, deps, ie, v, compared, ids, fs) && EventTrue(k, ev, fs) && mode == fs(k)
    requires ie in IE_ORDER
    requires Records(h0.g, k, deps + [d]) && HasDep(h0.g, k, d) && d.wd in h0.g.iws
    requires Dispatched(h1, h2, mode, ev, d, ie)
    requires compared && d.wd == v ==> d.target.Parent? && !CallsForDiff(h0.g, ev, d, ie)
    ensures RowHeard(h0, h, h2, k, mode, ev, deps + [d], ie, v, compared, ids, fs)
  {
    RowUnderway(h0, h1, h2, k, mode, ev, deps, d, ie, v, compared, fs);
    RowHearsMore(h0, h, h1, h2, k, mode, ev, deps, d, ie, v, compared, ids, fs);
  }

  lemma {:induction false} RowHearsMore(h0: Hub, h: Hub, h1: Hub, h2: Hub, k: Key, mode: FileType, ev: KEvent,
                                        deps: seq<Dep>, d: Dep,
                                        ie: Bit, v: Wd, compared: bool, ids: seq<ItemId>, fs: Key -> FileType)
    requires RowHeard(h0, h, h1, k, mode, ev, deps, ie, v, compared, ids, fs) && EventTrue(k, ev, fs) && mode == fs(k)
    requires ie in IE_ORDER
    requires Records(h0.g, k, deps + [d]) && HasDep(h0.g, k, d) && d.wd in h0.g.iws
    requires Dispatched(h1, h2, mode, ev, d, ie)
    requires compared && d.wd == v ==> d.target.Parent? && !CallsForDiff(h0.g, ev, d, ie)
    ensures Hears(h, h2, v, RowOffers(h0.g, mode, ev, deps + [d], v, ie, ids))
  {
    if d.wd == v {
      ComparedOnce(h0.g, k, ev, deps, d, ie, v);
    }
    DispatchedHears(h0, h1, h2, k, mode, ev, d, ie, v, compared || Compared(h0.g, ev, deps, ie, v), ids, fs);
    RowOffersNext(h0.g, mode, ev, deps, d, v, ie, ids);
    HearsChain(h, h1, h2, v, RowOffers(h0.g, mode, ev, deps, v, ie, ids),
               if d.wd == v then BitOffers(h0.g, mode, ev, d, ie, ids) else []);
  }

  lemma RowUnderway(h0: Hub, h: Hub, h': Hub, k: Key, mode: FileType, ev: KEvent, deps: seq<Dep>, d: Dep, ie: Bit,
                    v: Wd, compared: bool, fs: Key -> FileType)
    requires Underway(h0, h, k, v, compared || Compared(h0.g, ev, deps, ie, v), fs) && HasDep(h0.g, k, d)
    requires v in h0.g.iws
    requires EventTrue(k, ev, fs) && Dispatched(h, h', mode, ev, d, ie)
    ensures Underway(h0, h', k, v, compared || Compared(h0.g, ev, deps + [d], ie, v), fs)
  {
    DispatchedUnderway(h0, h, h', k, mode, ev, d, ie, v, compared || Compared(h0.g, ev, deps, ie, v), fs);
    ComparedNext(h0.g, ev, deps, d, ie, v);
  }

  lemma RowHeardStart(h0: Hub, h: Hub, k: Key, mode: FileType, ev: KEvent, ie: Bit, v: Wd, compared: bool,
                      ids: seq<ItemId>, fs: Key -> FileType)
    requires InNameOrder(h0.g, v, ids) && Underway(h0, h, k, v, compared, fs)
    ensures RowHeard(h0, h, h, k, mode, ev, [], ie, v, compared, ids, fs)
  {
    HearsNothing(h, h, v);
  }

  lemma {:induction false} RowHears(h0: Hub, hs: seq<Hub>, k: Key, mode: FileType, ev: KEvent, deps: seq<Dep>, ie: Bit,
                                    v: Wd, j: nat, compared: bool, ids: seq<ItemId>, fs: Key -> FileType)
    requires j < |hs| <= |deps| + 1 && RowDone(hs, mode, ev, deps, ie) && EventTrue(k, ev, fs) && mode == fs(k)
    requires ie in IE_ORDER
    requires Records(h0.g, k, deps) && InNameOrder(h0.g, v, ids) && Underway(h0, hs[0], k, v, compared, fs)
    requires compared ==> forall d | d in deps && d.wd == v :: d.target.Parent? && !CallsForDiff(h0.g, ev, d, ie)
    ensures RowHeard(h0, hs[0], hs[j], k, mode, ev, deps[..j], ie, v, compared, ids, fs)
  {
    if j == 0 {
      RowHeardStart(h0, hs[0], k, mode, ev, ie, v, compared, ids, fs);
    } else {
      RowHears(h0, hs, k, mode, ev, deps, ie, v, j - 1, compared, ids, fs);
      assert DispatchedAt(hs, mode, ev, deps, ie, j - 1);
      assert deps[..j - 1] + [deps[j - 1]] == deps[..j];
      SomeRecords(h0.g, k, deps, j);
      RowHeardNext(h0, hs[0], hs[j - 1], hs[j], k, mode, ev, deps[..j - 1], deps[j - 1], ie, v, compared, ids, fs);
    }
  }

  lemma SomeRecords(g: Graph, k: Key, deps: seq<Dep>, j: nat)
    requires Records(g, k, deps) && j <= |deps|
    ensures Records(g, k, deps[..j])
  {
  }

  lemma RowLeadsHears(h0: Hub, h: Hub, h': Hub, k: Key, mode: FileType, ev: KEvent, deps: seq<Dep>, ie: Bit, v: Wd,
                      compared: bool, ids: seq<ItemId>, fs: Key -> FileType)
    requires RowLeadsTo(h, h', mode, ev, deps, ie) && EventTrue(k, ev, fs) && mode == fs(k) && ie in IE_ORDER
    requires Records(h0.g, k, deps) && InNameOrder(h0.g, v, ids) && Underway(h0, h, k, v, compared, fs)
    requires compared ==> forall d | d in deps && d.wd == v :: d.target.Parent? && !CallsForDiff(h0.g, ev, d, ie)
    ensures RowHeard(h0, h, h', k, mode, ev, deps, ie, v, compared, ids, fs)
  {
    var hs :| |hs| == |deps| + 1 && hs[0] == h && hs[|deps|] == h' && RowDone(hs, mode, ev, deps, ie);
    RowHears(h0, hs, k, mode, ev, deps, ie, v, |deps|, compared, ids, fs);
    assert deps[..|deps|] == deps;
  }

  function Flat(rows: seq<seq<Message>>): seq<Message> {
    if rows == [] then [] else Flat(rows[..|rows| - 1]) + rows[|rows| - 1]
  }

  /** What the event offers to `v`, bit by bit. */
  ghost function Offers(g: Graph, mode: FileType, ev: KEvent, deps: seq<Dep>, v: Wd,
                        ids: seq<ItemId>): (rows: seq<seq<Message>>)
    requires v in g.iws && forall x | x in ids :: x in g.items
    ensures |rows| == |IE_ORDER|
    ensures forall i | 0 <= i < |rows| :: rows[i] == RowOffers(g, mode, ev, deps, v, IE_ORDER[i], ids)
  {
    seq(|IE_ORDER|, i requires 0 <= i < |IE_ORDER| => RowOffers(g, mode, ev, deps, v, IE_ORDER[i], ids))
  }

  ghost predicate RowsHeard(h0: Hub, h: Hub, k: Key, mode: FileType, ev: KEvent, deps: seq<Dep>, v: Wd,
                            ids: seq<ItemId>, i: nat, fs: Key -> FileType)
    requires i <= |IE_ORDER|
  {
    && InNameOrder(h0.g, v, ids)
    && Underway(h0, h, k, v, i > 2 && Compared(h0.g, ev, deps, InModify, v), fs)
    && Hears(h0, h, v, Flat(Offers(h0.g, mode, ev, deps, v, ids)[..i]))
  }

  lemma RowsHeardNext(h0: Hub, h: Hub, h': Hub, k: Key, mode: FileType, ev: KEvent, deps: seq<Dep>, v: Wd,
                      ids: seq<ItemId>, i: nat, fs: Key -> FileType)
    requires i < |IE_ORDER| && RowsHeard(h0, h, k, mode, ev, deps, v, ids, i, fs)
    requires RowLeadsTo(h, h', mode, ev, deps, IE_ORDER[i])
    requires Records(h0.g, k, deps) && EventTrue(k, ev, fs) && mode == fs(k)
    ensures RowsHeard(h0, h', k, mode, ev, deps, v, ids, i + 1, fs)
  {
    var ie, compared := IE_ORDER[i], i > 2 && Compared(h0.g, ev, deps, InModify, v);
    if compared {
      forall d | d in deps && d.wd == v ensures d.target.Parent? && !CallsForDiff(h0.g, ev, d, ie) {
        var e :| e in deps && e.wd == v && CallsForDiff(h0.g, ev, e, InModify);
        SoleRecord(h0.g, k, e, d);
      }
    }
    RowLeadsHears(h0, h, h', k, mode, ev, deps, ie, v, compared, ids, fs);
    var rows := Offers(h0.g, mode, ev, deps, v, ids);
    HearsChain(h0, h, h', v, Flat(rows[..i]), rows[i]);
    assert rows[..i + 1][..i] == rows[..i];
    assert ie != InModify ==> !Compared(h0.g, ev, deps, ie, v);
  }

  lemma {:induction false} RowsHear(rows: seq<Hub>, k: Key, mode: FileType, ev: KEvent, deps: seq<Dep>, v: Wd,
                                    ids: seq<ItemId>, i: nat, fs: Key -> FileType)
    requires i < |rows| <= |IE_ORDER| + 1 && RowsDone(rows, mode, ev, deps) && EventTrue(k, ev, fs) && mode == fs(k)
    requires Notifying(rows[0], rows[0], k, fs) && Records(rows[0].g, k, deps) && InNameOrder(rows[0].g, v, ids)
    ensures RowsHeard(rows[0], rows[i], k, mode, ev, deps, v, ids, i, fs)
  {
    if i == 0 {
      assert IWatchOk(rows[0].g, v);
      HearsNothing(rows[0], rows[0], v);
    } else {
      RowsHear(rows, k, mode, ev, deps, v, ids, i - 1, fs);
      assert RowAt(rows, mode, ev, deps, i - 1);
      RowsHeardNext(rows[0], rows[i - 1], rows[i], k, mode, ev, deps, v, ids, i - 1, fs);
    }
  }
}
