/**
 * Sharing a kqueue watch is transparent: what an inotify watch hears of a kernel event is what it would hear
 * with its own records alone and the event cut down to its own filter. The exceptions are exactly characterized.
 */
module Transparency {
  import opened Wrappers
  import opened DirEvents
  import opened DepList
  import opened DiffSpec
  import opened Flags
  import opened WatchGraph
  import opened Subwatches
  import opened Hub
  import opened DirRefresh
  import opened Notify
  import opened Sharing
  import RenameGraph

  // ------------------------------------------------------------------ stray messages

  const UNMOUNTED := Message({InUnmount}, None)

  /** What is offered on a shared watch is what is offered alone, with stray messages where nothing is offered alone. */
  predicate Beside(told: seq<seq<Message>>, own: seq<seq<Message>>, stray: seq<bool>) {
    && |told| == |own| == |stray|
    && forall i | 0 <= i < |own| :: if stray[i] then told[i] == [UNMOUNTED] && own[i] == [] else told[i] == own[i]
  }

  /**
   * Stray messages do no harm: there are none, or, for a one-shot watch, each comes after a message of its own,
   * or the first message of its own is the same as a stray one.
   */
  predicate Undisturbed(oneshot: bool, own: seq<seq<Message>>, stray: seq<bool>)
    requires |own| == |stray|
  {
    if !oneshot then forall i | 0 <= i < |stray| :: !stray[i]
    else
      || (forall i | 0 <= i < |stray| && stray[i] :: Flat(own[..i]) != [])
      || (Flat(own) != [] && Flat(own)[0] == UNMOUNTED)
  }

  lemma {:induction false} FlatStep(rows: seq<seq<Message>>, n: nat)
    requires n < |rows|
    ensures Flat(rows[..n + 1]) == Flat(rows[..n]) + rows[n]
  {
    assert rows[..n + 1][..n] == rows[..n];
  }

  lemma {:induction false} StrayAdds(told: seq<seq<Message>>, own: seq<seq<Message>>, stray: seq<bool>, n: nat)
    requires Beside(told, own, stray) && n <= |own|
    ensures |Flat(told[..n])| >= |Flat(own[..n])|
    ensures (forall i | 0 <= i < n :: !stray[i]) ==> Flat(told[..n]) == Flat(own[..n])
    ensures (exists i :: 0 <= i < n && stray[i]) ==> |Flat(told[..n])| > |Flat(own[..n])|
  {
    if n > 0 {
      StrayAdds(told, own, stray, n - 1);
      FlatStep(told, n - 1);
      FlatStep(own, n - 1);
    }
  }

  /** Some stray message comes before all messages of its own. */
  predicate StrayFirst(own: seq<seq<Message>>, stray: seq<bool>, n: nat)
    requires n <= |own| == |stray|
  {
    exists i :: 0 <= i < n && stray[i] && Flat(own[..i]) == []
  }

  /** The first message of `f` is that of `g`, or, if a stray one comes before it, a stray one. */
  predicate SameFirst(f: seq<Message>, g: seq<Message>, strayFirst: bool) {
    if strayFirst then f != [] && f[0] == UNMOUNTED
    else (f == [] <==> g == []) && (f != [] ==> g != [] && f[0] == g[0])
  }

  lemma SameFirstStep(f: seq<Message>, g: seq<Message>, told: seq<Message>, own: seq<Message>, strayFirst: bool,
                      stray: bool)
    requires SameFirst(f, g, strayFirst) && (if stray then told == [UNMOUNTED] && own == [] else told == own)
    ensures SameFirst(f + told, g + own, strayFirst || (stray && g == []))
  {
  }

  lemma {:induction false} FirstOffer(told: seq<seq<Message>>, own: seq<seq<Message>>, stray: seq<bool>, n: nat)
    requires Beside(told, own, stray) && n <= |own|
    ensures SameFirst(Flat(told[..n]), Flat(own[..n]), StrayFirst(own, stray, n))
  {
    if n > 0 {
      FirstOffer(told, own, stray, n - 1);
      FlatStep(told, n - 1);
      FlatStep(own, n - 1);
      StrayFirstStep(own, stray, n - 1);
      SameFirstStep(Flat(told[..n - 1]), Flat(own[..n - 1]), told[n - 1], own[n - 1], StrayFirst(own, stray, n - 1),
                    stray[n - 1]);
    }
  }

  lemma StrayFirstStep(own: seq<seq<Message>>, stray: seq<bool>, n: nat)
    requires n < |own| == |stray|
    ensures StrayFirst(own, stray, n + 1) <==> StrayFirst(own, stray, n) || (stray[n] && Flat(own[..n]) == [])
  {
  }

  lemma {:induction false} SameHeard(iw: IWatch, told: seq<seq<Message>>, own: seq<seq<Message>>, stray: seq<bool>)
    requires Beside(told, own, stray) && !iw.closed
    ensures var oneshot := InOneshot in iw.flags;
            && (Hear(iw, Flat(told)) == Hear(iw, Flat(own)) <==> Undisturbed(oneshot, own, stray))
            && (oneshot && !Undisturbed(oneshot, own, stray) ==> Hear(iw, Flat(told)) == [UNMOUNTED])
  {
    var n := |own|;
    assert told[..n] == told && own[..n] == own;
    StrayAdds(told, own, stray, n);
    FirstOffer(told, own, stray, n);
    assert StrayFirst(own, stray, n) <==> !(forall i | 0 <= i < |stray| && stray[i] :: Flat(own[..i]) != []);
    var f, g := Flat(told), Flat(own);
    assert f != [] ==> f[..1] == [f[0]];
    assert g != [] ==> g[..1] == [g[0]];
  }

  // ------------------------------------------------------------------ the records of one inotify watch

  function Own(deps: seq<Dep>, v: Wd): (r: seq<Dep>)
    ensures forall d :: d in r <==> d in deps && d.wd == v
  {
    if deps == [] then []
    else
      var init, last := Own(deps[..|deps| - 1], v), deps[|deps| - 1];
      assert deps == deps[..|deps| - 1] + [last];
      if last.wd == v then init + [last] else init
  }

  lemma {:induction false} OwnDistinct(deps: seq<Dep>, v: Wd)
    requires Distinct(deps)
    ensures Distinct(Own(deps, v))
  {
    if deps != [] {
      var init, last := deps[..|deps| - 1], deps[|deps| - 1];
      OwnDistinct(init, v);
      forall i | 0 <= i < |Own(init, v)| ensures Own(init, v)[i] != last {
        assert Own(init, v)[i] in init;
      }
    }
  }

  /** Records of others offer nothing. */
  lemma {:induction false} OwnOffers(g: Graph, mode: FileType, ev: KEvent, deps: seq<Dep>, v: Wd, ie: Bit,
                                     ids: seq<ItemId>)
    requires v in g.iws && forall x | x in ids :: x in g.items
    ensures RowOffers(g, mode, ev, Own(deps, v), v, ie, ids) == RowOffers(g, mode, ev, deps, v, ie, ids)
  {
    if deps != [] {
      var init, last := deps[..|deps| - 1], deps[|deps| - 1];
      OwnOffers(g, mode, ev, init, v, ie, ids);
      if last.wd == v {
        RowOffersNext(g, mode, ev, Own(init, v), last, v, ie, ids);
      }
    }
  }

  /** A kernel event as a watch with this filter would have got it. */
  function Cut(ev: KEvent, filter: set<Note>): KEvent {
    ev.(notes := ev.notes * filter)
  }

  // ------------------------------------------------------------------ bit by bit

  lemma {:induction false} ExtendOnlyMatters(pf: Platform, flags: set<Bit>, e: bool, f: bool, es: seq<Event>)
    requires pf.extendTo || pf.extendFrom ==> e == f
    ensures DirOffers(pf, flags, e, es) == DirOffers(pf, flags, f, es)
  {
    if es != [] {
      ExtendOnlyMatters(pf, flags, e, f, es[..|es| - 1]);
    }
  }

  /** A comparison finds the same, however the event is cut down. */
  lemma SameComparison(g: Graph, ev: KEvent, d: Dep, ids: seq<ItemId>)
    requires d.wd in g.iws && d.target.Parent? && g.iws[d.wd].mode.Directory? && forall x | x in ids :: x in g.items
    ensures CompareOffers(g, d.wd, Cut(ev, FilterOf(g, d)), ids) == CompareOffers(g, d.wd, ev, ids)
  {
    var own := Cut(ev, FilterOf(g, d));
    if ev.listing.Some? {
      var stored := ItemsOf(g, ids);
      var b, a := Marked(stored, ev.listing.value), Changes(stored, ev.listing.value);
      var acts := Acts(b, a, RenameGraph.Schedule(Links(b, a)));
      if ActsOk(b, a, acts) {
        ExtendOnlyMatters(g.pf, g.iws[d.wd].flags, NoteExtend in ev.notes, NoteExtend in own.notes, Events(b, a, acts));
      }
    }
  }

  lemma NotJustIsDir(pf: Platform, notes: set<Note>, noLinks: bool, s: Sub, ie: Bit)
    ensures Reported(pf, notes, noLinks, s, ie) != {} ==> Reported(pf, notes, noLinks, s, ie) - {InIsDir} != {}
  {
    var told := Reported(pf, notes, noLinks, s, ie);
    if told != {} {
      var b :| b in told && (IsEvent(b) || b.InUnmount?);
      assert b in told - {InIsDir};
    }
  }

  lemma BitBeside(g: Graph, k: Key, mode: FileType, ev: KEvent, d: Dep, ie: Bit, ids: seq<ItemId>)
    requires GraphOk(g) && FiltersOk(g) && HasDep(g, k, d) && d.wd in g.iws && mode == WatchMode(g, k) && ie in IE_ORDER
    requires ev.notes <= g.watches[k].fflags && forall x | x in ids :: x in g.items
    ensures var told := BitOffers(g, mode, ev, d, ie, ids);
            var own := BitOffers(g, mode, Cut(ev, FilterOf(g, d)), d, ie, ids);
            if Stray(g.pf, ev.notes, SubscriberTo(g, mode, d), ie) then told == [UNMOUNTED] && own == []
            else told == own
  {
    var s, own := SubscriberTo(g, mode, d), Cut(ev, FilterOf(g, d));
    assert WatchOk(g, k) && DepOk(g, k, d);
    var i :| 0 <= i < |g.watches[k].deps| && g.watches[k].deps[i] == d;
    DeliveredIsShared(g, k, ev.notes, i);
    SharingTransparent(g.pf, Subscribers(g, g.watches[k].deps), i, ev.notes, ev.noLinks, ie);
    NotJustIsDir(g.pf, ev.notes, ev.noLinks, s, ie);
    NotJustIsDir(g.pf, own.notes, ev.noLinks, s, ie);
    if CallsForDiff(g, ev, d, ie) {
      SameComparison(g, ev, d, ids);
    }
  }

  /** The bits of the event that are stray for the subscriber. */
  function Strays(pf: Platform, notes: set<Note>, s: Sub): (r: seq<bool>)
    ensures |r| == |IE_ORDER| && forall i | 0 <= i < |r| :: r[i] == Stray(pf, notes, s, IE_ORDER[i])
  {
    seq(|IE_ORDER|, i requires 0 <= i < |IE_ORDER| => Stray(pf, notes, s, IE_ORDER[i]))
  }

  /** An inotify watch on the file itself has one record, and is offered what is offered to that. */
  lemma {:induction false} ParentRow(g: Graph, mode: FileType, ev: KEvent, deps: seq<Dep>, d: Dep, ie: Bit,
                                     ids: seq<ItemId>)
    requires d.wd in g.iws && Distinct(deps) && (forall x | x in ids :: x in g.items)
    requires forall e | e in deps && e.wd == d.wd :: e == d
    ensures RowOffers(g, mode, ev, deps, d.wd, ie, ids) == if d in deps then BitOffers(g, mode, ev, d, ie, ids) else []
  {
    if deps != [] {
      var init, last := deps[..|deps| - 1], deps[|deps| - 1];
      assert deps == init + [last];
      ParentRow(g, mode, ev, init, d, ie, ids);
    }
  }

  /** An inotify watch on a directory can have several records for a file in it; none of them gets stray messages. */
  lemma {:induction false} ChildRow(g: Graph, k: Key, mode: FileType, ev: KEvent, deps: seq<Dep>, d: Dep, ie: Bit,
                                    ids: seq<ItemId>)
    requires GraphOk(g) && FiltersOk(g) && HasDep(g, k, d) && d.wd in g.iws && d.target.Child?
    requires mode == WatchMode(g, k) && ie in IE_ORDER && ev.notes <= g.watches[k].fflags
    requires (forall x | x in ids :: x in g.items)
    requires forall e | e in deps :: HasDep(g, k, e)
    ensures RowOffers(g, mode, ev, deps, d.wd, ie, ids)
            == RowOffers(g, mode, Cut(ev, FilterOf(g, d)), deps, d.wd, ie, ids)
  {
    if deps != [] {
      var init, last := deps[..|deps| - 1], deps[|deps| - 1];
      ChildRow(g, k, mode, ev, init, d, ie, ids);
      if last.wd == d.wd {
        SameFilterOf(g, k, d, last);
        BitBeside(g, k, mode, ev, last, ie, ids);
      }
    }
  }

  lemma SameFilterOf(g: Graph, k: Key, d: Dep, e: Dep)
    requires GraphOk(g) && HasDep(g, k, d) && HasDep(g, k, e) && d.wd == e.wd && d.target.Child?
    ensures e.target.Child? && FilterOf(g, e) == FilterOf(g, d)
  {
    assert WatchOk(g, k) && DepOk(g, k, d) && DepOk(g, k, e);
    if e.target.Parent? {
      SoleRecord(g, k, e, d);
    }
  }

  /** Row by row, what is offered on the shared watch and what is offered alone. */
  lemma {:induction false} RowBeside(g: Graph, k: Key, mode: FileType, ev: KEvent, d: Dep, ie: Bit, ids: seq<ItemId>)
    requires GraphOk(g) && FiltersOk(g) && HasDep(g, k, d) && d.wd in g.iws && mode == WatchMode(g, k) && ie in IE_ORDER
    requires ev.notes <= g.watches[k].fflags && forall x | x in ids :: x in g.items
    ensures var deps := g.watches[k].deps;
            var told := RowOffers(g, mode, ev, deps, d.wd, ie, ids);
            var own := RowOffers(g, mode, Cut(ev, FilterOf(g, d)), Own(deps, d.wd), d.wd, ie, ids);
            if Stray(g.pf, ev.notes, SubscriberTo(g, mode, d), ie) then told == [UNMOUNTED] && own == []
            else told == own
  {
    var deps, cut := g.watches[k].deps, Cut(ev, FilterOf(g, d));
    OwnOffers(g, mode, cut, deps, d.wd, ie, ids);
    if d.target.Parent? {
      forall e | e in deps && e.wd == d.wd ensures e == d {
        SoleRecord(g, k, d, e);
      }
      assert Distinct(deps) by {
        assert WatchOk(g, k);
      }
      ParentRow(g, mode, ev, deps, d, ie, ids);
      ParentRow(g, mode, cut, deps, d, ie, ids);
      BitBeside(g, k, mode, ev, d, ie, ids);
    } else {
      ChildRow(g, k, mode, ev, deps, d, ie, ids);
    }
  }

  // ------------------------------------------------------------------ the whole event

  /** What inotify watch `v` hears while the bits of an event are dealt with. */
  function Heard(rows: seq<Hub>, v: Wd): seq<Message>
    requires |rows| == |IE_ORDER| + 1
  {
    if |rows[0].log| > |rows[|IE_ORDER|].log| then [] else MessagesTo(rows[|IE_ORDER|].log[|rows[0].log|..], v)
  }

  /** What the inotify watch of record `d` would be offered if it had the watch to itself. */
  ghost function OffersAlone(g: Graph, k: Key, mode: FileType, ev: KEvent, d: Dep,
                             ids: seq<ItemId>): (rows: seq<seq<Message>>)
    requires k in g.watches && d.wd in g.iws && forall x | x in ids :: x in g.items
    ensures |rows| == |IE_ORDER|
  {
    Offers(g, mode, Cut(ev, FilterOf(g, d)), Own(g.watches[k].deps, d.wd), d.wd, ids)
  }

  /** The event is on a watch of a sound state; `d` is a record on it, `ids` the list of its inotify watch. */
  ghost predicate Arrives(h: Hub, k: Key, ev: KEvent, d: Dep, ids: seq<ItemId>, fs: Key -> FileType) {
    && Notifying(h, h, k, fs) && EventTrue(k, ev, fs) && ev.notes <= h.g.watches[k].fflags
    && HasDep(h.g, k, d) && d.wd in h.g.iws && !h.g.iws[d.wd].closed && InNameOrder(h.g, d.wd, ids)
  }

  /** `shared` are the stages of the event, and `alone` those of the same event with the others left out. */
  ghost predicate Stages(shared: seq<Hub>, alone: seq<Hub>, k: Key, ev: KEvent, d: Dep) {
    && |shared| == |alone| == |IE_ORDER| + 1 && shared[0] == alone[0] && k in shared[0].g.watches
    && var g := shared[0].g;
       && RowsDone(shared, WatchMode(g, k), ev, g.watches[k].deps)
       && RowsDone(alone, WatchMode(g, k), Cut(ev, FilterOf(g, d)), Own(g.watches[k].deps, d.wd))
  }

  lemma {:induction false} SharedRecords(g: Graph, k: Key, v: Wd)
    requires GraphOk(g) && k in g.watches
    ensures Records(g, k, g.watches[k].deps) && Records(g, k, Own(g.watches[k].deps, v))
  {
    assert WatchOk(g, k);
    OwnDistinct(g.watches[k].deps, v);
  }

  lemma HeardIs(rows: seq<Hub>, k: Key, mode: FileType, ev: KEvent, deps: seq<Dep>, v: Wd, ids: seq<ItemId>,
                fs: Key -> FileType)
    requires |rows| == |IE_ORDER| + 1 && RowsDone(rows, mode, ev, deps) && EventTrue(k, ev, fs)
    requires mode == WatchMode(rows[0].g, k)
    requires Notifying(rows[0], rows[0], k, fs) && Records(rows[0].g, k, deps) && InNameOrder(rows[0].g, v, ids)
    ensures Heard(rows, v) == Hear(rows[0].g.iws[v], Flat(Offers(rows[0].g, mode, ev, deps, v, ids)))
  {
    WatchedType(rows[0].g, k, fs);
    RowsHear(rows, k, mode, ev, deps, v, ids, |IE_ORDER|, fs);
    var offers := Offers(rows[0].g, mode, ev, deps, v, ids);
    assert offers[..|IE_ORDER|] == offers;
  }

  lemma AllBeside(g: Graph, k: Key, ev: KEvent, d: Dep, ids: seq<ItemId>)
    requires GraphOk(g) && FiltersOk(g) && HasDep(g, k, d) && d.wd in g.iws
    requires ev.notes <= g.watches[k].fflags && forall x | x in ids :: x in g.items
    ensures var mode := WatchMode(g, k);
            Beside(Offers(g, mode, ev, g.watches[k].deps, d.wd, ids), OffersAlone(g, k, mode, ev, d, ids),
                   Strays(g.pf, ev.notes, SubscriberTo(g, mode, d)))
  {
    forall i | 0 <= i < |IE_ORDER| {
      RowBeside(g, k, WatchMode(g, k), ev, d, IE_ORDER[i], ids);
    }
  }

  /**
   * Through all the bits of an event, with the closing of one-shot watches, an inotify watch hears the same as if
   * it had the watch to itself, if and only if stray messages do no harm. If they do to a one-shot watch, it hears
   * one IN_UNMOUNT.
   */
  lemma SharingIsTransparent(shared: seq<Hub>, alone: seq<Hub>, k: Key, ev: KEvent, d: Dep, ids: seq<ItemId>,
                             fs: Key -> FileType)
    requires Stages(shared, alone, k, ev, d) && Arrives(shared[0], k, ev, d, ids, fs)
    ensures var g := shared[0].g;
            var s := SubscriberTo(g, WatchMode(g, k), d);
            var undisturbed := Undisturbed(InOneshot in s.flags, OffersAlone(g, k, s.mode, ev, d, ids),
                                           Strays(g.pf, ev.notes, s));
            && (Heard(shared, d.wd) == Heard(alone, d.wd) <==> undisturbed)
            && (InOneshot in s.flags && !undisturbed ==> Heard(shared, d.wd) == [UNMOUNTED])
            && (d.target.Child? || NoteRevoke !in ev.notes ==> undisturbed)
  {
    var g := shared[0].g;
    var mode, deps := WatchMode(g, k), g.watches[k].deps;
    SharedRecords(g, k, d.wd);
    HeardIs(shared, k, mode, ev, deps, d.wd, ids, fs);
    HeardIs(alone, k, mode, Cut(ev, FilterOf(g, d)), Own(deps, d.wd), d.wd, ids, fs);
    AllBeside(g, k, ev, d, ids);
    SameHeard(g.iws[d.wd], Offers(g, mode, ev, deps, d.wd, ids), OffersAlone(g, k, mode, ev, d, ids),
              Strays(g.pf, ev.notes, SubscriberTo(g, mode, d)));
    NoStrays(g.pf, ev.notes, SubscriberTo(g, mode, d), OffersAlone(g, k, mode, ev, d, ids));
  }

  /** Only a revocation, and only for a watch on the file itself, brings stray messages. */
  lemma NoStrays(pf: Platform, notes: set<Note>, s: Sub, own: seq<seq<Message>>)
    requires |own| == |IE_ORDER|
    ensures !s.isParent || NoteRevoke !in notes ==> Undisturbed(InOneshot in s.flags, own, Strays(pf, notes, s))
  {
  }

  // ------------------------------------------------------------------ which messages are heard at all

  lemma {:induction false} FlatHas(rows: seq<seq<Message>>, n: nat, m: Message)
    requires n <= |rows|
    ensures m in Flat(rows[..n]) <==> exists i :: 0 <= i < n && m in rows[i]
  {
    if n > 0 {
      FlatHas(rows, n - 1, m);
      FlatStep(rows, n - 1);
    }
  }

  /** A subscriber on the file itself is told of a revocation in any case. */
  lemma UnmountOffered(g: Graph, mode: FileType, ev: KEvent, d: Dep, ids: seq<ItemId>)
    requires d.wd in g.iws && d.target.Parent? && NoteRevoke in ev.notes && forall x | x in ids :: x in g.items
    ensures BitOffers(g, mode, ev, d, InUnmount, ids) == [UNMOUNTED]
  {
    var s := SubscriberTo(g, mode, d);
    ReportedCore(g.pf, ev.notes, ev.noLinks, s, InUnmount);
    var told := Reported(g.pf, ev.notes, ev.noLinks, s, InUnmount);
    assert told - {InIsDir} == {InUnmount};
    assert InUnmount in told - {InIsDir};
  }

  /** A watch that is not one-shot hears the same messages, if not as many times. */
  lemma SameMessages(shared: seq<Hub>, alone: seq<Hub>, k: Key, ev: KEvent, d: Dep, ids: seq<ItemId>,
                     fs: Key -> FileType, m: Message)
    requires Stages(shared, alone, k, ev, d) && Arrives(shared[0], k, ev, d, ids, fs)
    requires InOneshot !in shared[0].g.iws[d.wd].flags
    ensures m in Heard(shared, d.wd) <==> m in Heard(alone, d.wd)
  {
    var g := shared[0].g;
    var mode := WatchMode(g, k);
    AllHeard(shared, alone, k, ev, d, ids, fs);
    AllBeside(g, k, ev, d, ids);
    UnmountIsLast(g, k, mode, ev, d, ids);
    SameElements(Offers(g, mode, ev, g.watches[k].deps, d.wd, ids), OffersAlone(g, k, mode, ev, d, ids),
                 Strays(g.pf, ev.notes, SubscriberTo(g, mode, d)), m);
  }

  lemma AllHeard(shared: seq<Hub>, alone: seq<Hub>, k: Key, ev: KEvent, d: Dep, ids: seq<ItemId>, fs: Key -> FileType)
    requires Stages(shared, alone, k, ev, d) && Arrives(shared[0], k, ev, d, ids, fs)
    requires InOneshot !in shared[0].g.iws[d.wd].flags
    ensures var g := shared[0].g;
            && Heard(shared, d.wd) == Flat(Offers(g, WatchMode(g, k), ev, g.watches[k].deps, d.wd, ids))
            && Heard(alone, d.wd) == Flat(OffersAlone(g, k, WatchMode(g, k), ev, d, ids))
  {
    var g := shared[0].g;
    var mode, deps := WatchMode(g, k), g.watches[k].deps;
    SharedRecords(g, k, d.wd);
    HeardIs(shared, k, mode, ev, deps, d.wd, ids, fs);
    HeardIs(alone, k, mode, Cut(ev, FilterOf(g, d)), Own(deps, d.wd), d.wd, ids, fs);
  }

  /** Where there are stray messages, the last message is not stray, and like them. */
  lemma UnmountIsLast(g: Graph, k: Key, mode: FileType, ev: KEvent, d: Dep, ids: seq<ItemId>)
    requires GraphOk(g) && FiltersOk(g) && HasDep(g, k, d) && d.wd in g.iws && mode == WatchMode(g, k)
    requires forall x | x in ids :: x in g.items
    ensures var stray, own := Strays(g.pf, ev.notes, SubscriberTo(g, mode, d)), OffersAlone(g, k, mode, ev, d, ids);
            (exists i :: 0 <= i < |stray| && stray[i]) ==> exists j :: 0 <= j < |own| && own[j] == [UNMOUNTED]
  {
    if d.target.Parent? && NoteRevoke in ev.notes {
      assert NoteRevoke in FilterOf(g, d) by {
        assert IWatchOk(g, d.wd);
      }
      AloneRow(g, k, mode, ev, d, ids, 8);
      UnmountOffered(g, mode, Cut(ev, FilterOf(g, d)), d, ids);
    }
  }

  /** An inotify watch on the file itself is offered what its one record is offered. */
  lemma AloneRow(g: Graph, k: Key, mode: FileType, ev: KEvent, d: Dep, ids: seq<ItemId>, i: nat)
    requires GraphOk(g) && HasDep(g, k, d) && d.wd in g.iws && d.target.Parent? && i < |IE_ORDER|
    requires forall x | x in ids :: x in g.items
    ensures OffersAlone(g, k, mode, ev, d, ids)[i] == BitOffers(g, mode, Cut(ev, FilterOf(g, d)), d, IE_ORDER[i], ids)
  {
    var deps := g.watches[k].deps;
    SharedRecords(g, k, d.wd);
    forall e | e in deps && e.wd == d.wd ensures e == d {
      SoleRecord(g, k, d, e);
    }
    ParentRow(g, mode, Cut(ev, FilterOf(g, d)), Own(deps, d.wd), d, IE_ORDER[i], ids);
  }

  lemma {:induction false} SameElements(told: seq<seq<Message>>, own: seq<seq<Message>>, stray: seq<bool>, m: Message)
    requires Beside(told, own, stray)
    requires (exists i :: 0 <= i < |stray| && stray[i]) ==> exists j :: 0 <= j < |own| && own[j] == [UNMOUNTED]
    ensures m in Flat(told) <==> m in Flat(own)
  {
    var n := |own|;
    assert told[..n] == told && own[..n] == own;
    FlatHas(told, n, m);
    FlatHas(own, n, m);
    if i :| 0 <= i < n && m in told[i] {
      if stray[i] {
        var j :| 0 <= j < n && own[j] == [UNMOUNTED];
        assert m in own[j];
      } else {
        assert m in own[i];
      }
    }
    if i :| 0 <= i < n && m in own[i] {
      assert m in told[i];
    }
  }

  // ------------------------------------------------------------------ an example

  /** A file with one name, watched itself once for IN_MOVE_SELF, and through its directory for IN_ATTRIB. */
  function OneShot(pf: Platform): Hub {
    var self, dir := {InMoveSelf, InOneshot}, {InAttrib};
    var both := InotifyToKqueue(pf, self, Regular, true) + InotifyToKqueue(pf, dir, Regular, false);
    Hub(Graph(pf,
              map[Key(0, 1) := Watch(3, InotifyToKqueue(pf, dir, Directory, true), [Dep(2, Parent)]),
                  Key(0, 2) := Watch(4, both, [Dep(1, Parent), Dep(2, Child(7))])],
              map[1 := IWatch(4, self, Regular, Key(0, 2), false, true, {}),
                  2 := IWatch(3, dir, Directory, Key(0, 1), false, false, {7})],
              map[7 := Entry("f", 2, Regular)]),
        [Issued(1), Issued(2)])
  }

  function Unmount(): KEvent {
    KEvent({NoteAttrib, NoteRename, NoteRevoke}, false, None, n => Probe(None, None))
  }

  function OneShotFiles(k: Key): FileType {
    if k == Key(0, 1) then Directory else Regular
  }

  lemma OneShotFilters(pf: Platform)
    ensures FiltersOk(OneShot(pf).g)
  {
    var g := OneShot(pf).g;
    var file, entry, dir := Dep(1, Parent), Dep(2, Child(7)), Dep(2, Parent);
    assert NoteRevoke in FilterOf(g, file) && NoteAttrib in FilterOf(g, entry) && NoteRevoke in FilterOf(g, dir);
    forall n ensures Needed(g, [dir], n) <==> n in FilterOf(g, dir) {
    }
    forall n ensures Needed(g, [file, entry], n) <==> n in FilterOf(g, file) || n in FilterOf(g, entry) {
    }
    forall k ensures FilterOk(g, k) {
      if k != Key(0, 1) && k != Key(0, 2) {
        assert k !in g.watches;
      }
    }
  }

  lemma OneShotGraph(pf: Platform)
    ensures GraphOk(OneShot(pf).g) && NamesOk(OneShot(pf).g) && NoLeaks(OneShot(pf).g)
    ensures TypesOk(OneShot(pf).g, OneShotFiles)
  {
    var g := OneShot(pf).g;
    forall k ensures WatchOk(g, k) {
      if k != Key(0, 1) && k != Key(0, 2) {
        assert k !in g.watches;
      }
    }
    assert 7 in g.iws[2].list;
  }

  lemma OneShotLives(pf: Platform)
    ensures LivesOk(OneShot(pf))
  {
    var h := OneShot(pf);
    forall v ensures LifeOk(h, v) {
      assert h.log == [] + [Issued(1)] + [Issued(2)];
      PhaseStep([], Issued(1), v);
      PhaseStep([] + [Issued(1)], Issued(2), v);
    }
  }

  lemma OneShotArrives(pf: Platform)
    ensures Arrives(OneShot(pf), Key(0, 2), Unmount(), Dep(1, Parent), [], OneShotFiles)
  {
    OneShotFilters(pf);
    OneShotGraph(pf);
    OneShotLives(pf);
  }

  lemma {:induction false} FirstInFlat(rows: seq<seq<Message>>, n: nat, m: Message)
    requires n < |rows| && rows[n] == [m] && forall i | 0 <= i < n :: rows[i] == []
    ensures Flat(rows) != [] && Flat(rows)[0] == m && forall i | 0 <= i <= n :: Flat(rows[..i]) == []
  {
    forall i | 0 <= i <= n ensures Flat(rows[..i]) == [] {
      AllEmpty(rows, i);
    }
    FlatStep(rows, n);
    FlatPrefix(rows, n + 1, |rows|);
    assert rows[..|rows|] == rows;
  }

  lemma {:induction false} AllEmpty(rows: seq<seq<Message>>, n: nat)
    requires n <= |rows| && forall i | 0 <= i < n :: rows[i] == []
    ensures Flat(rows[..n]) == []
  {
    if n > 0 {
      AllEmpty(rows, n - 1);
      FlatStep(rows, n - 1);
    }
  }

  lemma {:induction false} FlatPrefix(rows: seq<seq<Message>>, m: nat, n: nat)
    requires m <= n <= |rows|
    ensures Flat(rows[..m]) <= Flat(rows[..n])
  {
    if m < n {
      FlatPrefix(rows, m, n - 1);
      FlatStep(rows, n - 1);
    }
  }

  /** What happens if a stray message comes before all others, and the first of the others is no stray one. */
  lemma Harmed(shared: seq<Hub>, alone: seq<Hub>, k: Key, ev: KEvent, d: Dep, ids: seq<ItemId>, fs: Key -> FileType,
               i: nat, j: nat, m: Message)
    requires Stages(shared, alone, k, ev, d) && Arrives(shared[0], k, ev, d, ids, fs)
    requires InOneshot in shared[0].g.iws[d.wd].flags && i <= j < |IE_ORDER| && m != UNMOUNTED
    requires var g := shared[0].g;
             && Stray(g.pf, ev.notes, SubscriberTo(g, WatchMode(g, k), d), IE_ORDER[i])
             && OffersAlone(g, k, WatchMode(g, k), ev, d, ids)[j] == [m]
             && (forall q | 0 <= q < j :: OffersAlone(g, k, WatchMode(g, k), ev, d, ids)[q] == [])
    ensures Heard(shared, d.wd) == [UNMOUNTED] && Heard(alone, d.wd) == [m]
  {
    var g := shared[0].g;
    var mode, deps := WatchMode(g, k), g.watches[k].deps;
    SharedRecords(g, k, d.wd);
    HeardIs(alone, k, mode, Cut(ev, FilterOf(g, d)), Own(deps, d.wd), d.wd, ids, fs);
    StrayHarms(g.iws[d.wd], OffersAlone(g, k, mode, ev, d, ids), Strays(g.pf, ev.notes, SubscriberTo(g, mode, d)), i, j,
               m);
    SharingIsTransparent(shared, alone, k, ev, d, ids, fs);
  }

  lemma {:induction false} StrayHarms(iw: IWatch, own: seq<seq<Message>>, stray: seq<bool>, i: nat, j: nat, m: Message)
    requires !iw.closed && InOneshot in iw.flags && |own| == |stray| && i <= j < |own| && stray[i] && m != UNMOUNTED
    requires own[j] == [m] && forall q | 0 <= q < j :: own[q] == []
    ensures !Undisturbed(true, own, stray) && Hear(iw, Flat(own)) == [m]
  {
    FirstInFlat(own, j, m);
    assert Flat(own)[..1] == [m];
    assert stray[i] && Flat(own[..i]) == [];
  }

  /** What the watch on the file itself would be offered for the bits up to IN_MOVE_SELF if it were alone. */
  lemma OneShotReport(pf: Platform, ie: Bit)
    requires ie in IE_ORDER[..7]
    ensures var s := Sub({InMoveSelf, InOneshot}, Regular, true);
            var told := Reported(pf, Restricted(pf, Unmount().notes, s), false, s, ie);
            if ie == InMoveSelf then told != {} && told - {InIsDir} == {InMoveSelf, InUnmount} else told == {}
  {
    var s := Sub({InMoveSelf, InOneshot}, Regular, true);
    var notes := Restricted(pf, Unmount().notes, s);
    if ie == InMoveSelf {
      ReportedCore(pf, notes, false, s, ie);
      assert InMoveSelf in Reported(pf, notes, false, s, ie) - {InIsDir};
    } else {
      OneShotMeans(pf, notes, s, ie);
    }
  }

  lemma OneShotMeans(pf: Platform, notes: set<Note>, s: Sub, ie: Bit)
    requires ie in IE_ORDER[..6] && notes <= {NoteRename, NoteRevoke}
    ensures !MeansTo(pf, notes, false, s, ie)
  {
  }

  lemma OneShotRows(pf: Platform, g: Graph, i: nat)
    requires g == OneShot(pf).g && GraphOk(g) && i < 7
    ensures OffersAlone(g, Key(0, 2), Regular, Unmount(), Dep(1, Parent), [])[i]
            == if i == 6 then [Message({InMoveSelf, InUnmount}, None)] else []
  {
    var d := Dep(1, Parent);
    AloneRow(g, Key(0, 2), Regular, Unmount(), d, [], i);
    OneShotReport(pf, IE_ORDER[i]);
    assert FilterOf(g, d) == Filter(pf, SubscriberTo(g, Regular, d));
  }

  /**
   * Stray messages can do harm: the file system is revoked together with a rename and a change of attributes. Alone,
   * the watch would hear of the rename; on the shared watch it hears IN_UNMOUNT for the attributes, and closes.
   */
  lemma OneShotExample(pf: Platform, shared: seq<Hub>, alone: seq<Hub>)
    requires Stages(shared, alone, Key(0, 2), Unmount(), Dep(1, Parent)) && shared[0] == OneShot(pf)
    ensures Heard(shared, 1) == [UNMOUNTED]
    ensures Heard(alone, 1) == [Message({InMoveSelf, InUnmount}, None)]
  {
    var g := OneShot(pf).g;
    OneShotArrives(pf);
    forall i | 0 <= i < 7 {
      OneShotRows(pf, g, i);
    }
    Harmed(shared, alone, Key(0, 2), Unmount(), Dep(1, Parent), [], OneShotFiles, 5, 6,
           Message({InMoveSelf, InUnmount}, None));
  }
}
