/** What a kernel event on a watch does: the events reported to its subscribers, and the inotify watches that end. */
module Notify {
  import opened Wrappers
  import opened DepList
  import opened Flags
  import opened WatchGraph
  import opened Subwatches
  import opened Hub
  import opened WatchLife
  import opened ClientView
  import opened DirRefresh

  /**
   * A kernel event: its flags, whether the file has no links left, the listing of the directory, unless it cannot
   * be listed, and what is found on opening its entries.
   */
  datatype KEvent = KEvent(notes: set<Note>, noLinks: bool, listing: Option<seq<Dirent>>, probe: string -> Probe)

  /** What the system says at this event about the directory with key `k`. */
  function ViewOf(ev: KEvent): View
    requires ev.listing.Some?
  {
    View(ev.listing.value, ev.probe, NoteExtend in ev.notes)
  }

  /** The system tells the truth about the directory with key `k`. */
  ghost predicate EventTrue(k: Key, ev: KEvent, fs: Key -> FileType) {
    (ev.listing.Some? ==> ListingTrue(k, ev.listing.value, fs)) && ProbesTrue(k, ev.probe, fs)
  }

  /** The event makes the inotify watch on the file itself compare its directory with the stored list. */
  predicate CallsForDiff(g: Graph, ev: KEvent, d: Dep, ie: Bit) {
    d.target.Parent? && ie == InModify && NoteWrite in ev.notes && d.wd in g.iws && g.iws[d.wd].mode.Directory?
  }

  /** Report one bit of the event to one record; `mode` is the type of the watched file. */
  function TellBit(h: Hub, mode: FileType, ev: KEvent, d: Dep, ie: Bit): Hub
    requires d.wd in h.g.iws
  {
    var bits := BitsFor(h.g.pf, mode, ev, d.target.Parent?);
    if ie in bits then Tell(h, d.wd, MaskFor(bits, ie), EntryFor(h.g, d)) else h
  }

  function BitsFor(pf: Platform, mode: FileType, ev: KEvent, isParent: bool): set<Bit> {
    KqueueToInotify(pf, ev.notes, mode, isParent, Deleted(ev.notes, mode, ev.noLinks))
  }

  /** The mask for one bit: the bits that are not events of their own go along with it. */
  function MaskFor(bits: set<Bit>, ie: Bit): set<Bit> {
    {ie} + (set b: Bit | b in bits && !IsEvent(b))
  }

  /** The entry an event on this record is about; none for the watched file itself. */
  function EntryFor(g: Graph, d: Dep): Option<Entry> {
    if d.target.Child? && d.target.x in g.items then Some(g.items[d.target.x]) else None
  }

  // ------------------------------------------------------------------ what is told

  function Subscriber(g: Graph, d: Dep): Sub
    requires d.wd in g.iws
  {
    Sub(g.iws[d.wd].flags, ModeOf(g, d), d.target.Parent?)
  }

  lemma PassingIsMask(pf: Platform, ev: KEvent, s: Sub, ie: Bit)
    ensures Passing(MaskFor(BitsFor(pf, s.mode, ev, s.isParent), ie), s.flags)
            == set b: Bit | InMask(pf, ev.notes, ev.noLinks, s, ie, b)
  {
    var bits := BitsFor(pf, s.mode, ev, s.isParent);
    forall b: Bit ensures b in Passing(MaskFor(bits, ie), s.flags) <==> InMask(pf, ev.notes, ev.noLinks, s, ie, b) {
      assert b in bits <==> MeansTo(pf, ev.notes, ev.noLinks, s, b);
    }
  }

  lemma PassingIsReported(pf: Platform, ev: KEvent, s: Sub, ie: Bit)
    requires ie in IE_ORDER && !DiffsFor(ev.notes, s, ie)
    ensures var bits := BitsFor(pf, s.mode, ev, s.isParent);
            var m := Passing(MaskFor(bits, ie), s.flags);
            Reported(pf, ev.notes, ev.noLinks, s, ie) == if ie !in bits || IsBlank(m) then {} else m
  {
    PassingIsMask(pf, ev, s, ie);
    assert ie in BitsFor(pf, s.mode, ev, s.isParent) <==> MeansTo(pf, ev.notes, ev.noLinks, s, ie);
  }

  lemma NotBlank(m: set<Bit>)
    requires !IsBlank(m)
    ensures m != {}
  {
  }

  /** The report to a record is the one its mask and the event call for. */
  lemma TellsReported(h: Hub, k: Key, mode: FileType, ev: KEvent, d: Dep, ie: Bit)
    requires GraphOk(h.g) && HasDep(h.g, k, d) && d.wd in h.g.iws && mode == WatchMode(h.g, k) && ie in IE_ORDER
    requires !CallsForDiff(h.g, ev, d, ie)
    ensures var told := Reported(h.g.pf, ev.notes, ev.noLinks, Subscriber(h.g, d), ie);
            TellBit(h, mode, ev, d, ie).log ==
            if h.g.iws[d.wd].closed || told == {} then h.log
            else h.log + [ReportOf(d.wd, told, EntryFor(h.g, d))]
  {
    var s, bits := Subscriber(h.g, d), BitsFor(h.g.pf, mode, ev, d.target.Parent?);
    assert s.mode == mode && (d.target.Parent? ==> s.mode == h.g.iws[d.wd].mode) by {
      assert WatchOk(h.g, k) && DepOk(h.g, k, d);
    }
    PassingIsReported(h.g.pf, ev, s, ie);
    if ie in bits && !IsBlank(Passing(MaskFor(bits, ie), s.flags)) {
      NotBlank(Passing(MaskFor(bits, ie), s.flags));
    }
  }

  function Subscribers(g: Graph, deps: seq<Dep>): (ds: seq<Sub>)
    requires forall d | d in deps :: d.wd in g.iws
  {
    seq(|deps|, i requires 0 <= i < |deps| => Subscriber(g, deps[i]))
  }

  /** An event the kernel delivers on a watch is one its subscribers can share. */
  lemma DeliveredIsShared(g: Graph, k: Key, notes: set<Note>, i: nat)
    requires GraphOk(g) && FiltersOk(g) && k in g.watches && i < |g.watches[k].deps| && notes <= g.watches[k].fflags
    ensures forall d | d in g.watches[k].deps :: d.wd in g.iws
    ensures Deliverable(g.pf, Subscribers(g, g.watches[k].deps), i, notes)
  {
    var deps := g.watches[k].deps;
    assert WatchOk(g, k) && FilterOk(g, k);
    forall d | d in deps
      ensures d.wd in g.iws && Filter(g.pf, Subscriber(g, d)) == FilterOf(g, d) && ModeOf(g, d) == WatchMode(g, k)
    {
      assert DepOk(g, k, d);
    }
    var ds := Subscribers(g, deps);
    forall n | n in notes ensures n in Union(g.pf, ds) {
      assert Needed(g, deps, n);
      var d :| d in deps && n in FilterOf(g, d);
      var j :| 0 <= j < |deps| && deps[j] == d;
      assert n in Filter(g.pf, ds[j]);
    }
    assert FilterOf(g, deps[i]) != {};
  }

  // ------------------------------------------------------------------ the assertions of the notification loop

  /**
   * A record leads back to the watch it is on; it agrees on the type and inode of the file; and
   * its entry is the one that the directory list has under that name.
   */
  ghost predicate Asserted(g: Graph, k: Key, mode: FileType, d: Dep) {
    && DepDefined(g, d) && KeyOf(g, d) == k && k in g.watches && d in g.watches[k].deps
    && ModeOf(g, d) == mode
    && (d.target.Child? ==>
          && d.target.x in g.iws[d.wd].list
          && forall y | y in g.iws[d.wd].list && y in g.items && g.items[y].name == g.items[d.target.x].name ::
               y == d.target.x)
  }

  lemma AssertionsHold(g: Graph, k: Key, d: Dep)
    requires GraphOk(g) && NamesOk(g) && HasDep(g, k, d)
    ensures Asserted(g, k, WatchMode(g, k), d)
  {
    assert WatchOk(g, k) && DepOk(g, k, d);
  }

  // ------------------------------------------------------------------ the notification loop

  /** Every closed inotify watch has a record on this watch. */
  ghost predicate ClosedOn(g: Graph, k: Key) {
    forall v | v in g.iws && g.iws[v].closed :: exists d :: HasDep(g, k, d) && d.wd == v
  }

  predicate SameSettings(a: IWatch, b: IWatch) {
    b == a.(closed := b.closed, list := b.list)
  }

  /** On the way through the records of watch `k`, having started from `h0`. */
  ghost predicate Notifying(h0: Hub, h: Hub, k: Key, fs: Key -> FileType) {
    && HubOk(h, fs) && NamesOk(h.g) && NoLeaks(h.g) && ClosedOn(h.g, k)
    && h.g.pf == h0.g.pf && h.g.iws.Keys == h0.g.iws.Keys
    && (forall v | v in h0.g.iws :: SameSettings(h0.g.iws[v], h.g.iws[v]))
    && k in h0.g.watches && k in h.g.watches && h.g.watches[k] == h0.g.watches[k]
    && h0.log <= h.log
  }

  lemma NotifyingNext(h0: Hub, h: Hub, h': Hub, k: Key, d: Dep, fs: Key -> FileType)
    requires Notifying(h0, h, k, fs) && HasDep(h.g, k, d) && OnlyList(h.g, h'.g, d.wd)
    requires HubOk(h', fs) && NamesOk(h'.g) && NoLeaks(h'.g) && k in h'.g.watches && h'.g.watches[k] == h.g.watches[k]
    requires h.log <= h'.log
    ensures Notifying(h0, h', k, fs)
  {
    forall v | v in h'.g.iws && h'.g.iws[v].closed ensures exists e :: HasDep(h'.g, k, e) && e.wd == v {
      if v == d.wd {
        assert HasDep(h'.g, k, d);
      } else {
        var e :| HasDep(h.g, k, e) && e.wd == v;
        assert HasDep(h'.g, k, e);
      }
    }
    forall v | v in h0.g.iws ensures SameSettings(h0.g.iws[v], h'.g.iws[v]) {
      assert SameSettings(h0.g.iws[v], h.g.iws[v]);
    }
  }

  lemma TellBitKeeps(h0: Hub, h: Hub, k: Key, mode: FileType, ev: KEvent, d: Dep, ie: Bit, fs: Key -> FileType)
    requires Notifying(h0, h, k, fs) && HasDep(h.g, k, d) && d.wd in h.g.iws
    ensures Notifying(h0, TellBit(h, mode, ev, d, ie), k, fs)
    ensures TellBit(h, mode, ev, d, ie).g.items == h.g.items
  {
    var bits := BitsFor(h.g.pf, mode, ev, d.target.Parent?);
    if ie in bits {
      ToldKeeps(h0, h, k, d, MaskFor(bits, ie), EntryFor(h.g, d), fs);
    }
  }

  lemma ToldKeeps(h0: Hub, h: Hub, k: Key, d: Dep, mask: set<Bit>, di: Option<Entry>, fs: Key -> FileType)
    requires Notifying(h0, h, k, fs) && HasDep(h.g, k, d) && d.wd in h.g.iws
    ensures Notifying(h0, Tell(h, d.wd, mask, di), k, fs)
    ensures Tell(h, d.wd, mask, di).g.items == h.g.items
  {
    TellKeeps(h, d.wd, mask, di, fs);
    var h' := Tell(h, d.wd, mask, di);
    SameListsKeep(h.g, h'.g, d.wd);
    NotifyingNext(h0, h, h', k, d, fs);
  }

  lemma SameListsKeep(g: Graph, g': Graph, wd: Wd)
    requires NamesOk(g) && NoLeaks(g) && OnlyEntries(g, g', wd) && g'.items == g.items
    requires g'.iws[wd].list == g.iws[wd].list
    ensures NamesOk(g') && NoLeaks(g')
  {
    forall v | v in g'.iws ensures g'.iws[v].list == g.iws[v].list {
    }
    NamesStay(g, g');
    forall x | x in g'.items ensures exists v :: v in g'.iws && x in g'.iws[v].list {
      var v :| v in g.iws && x in g.iws[v].list;
      assert x in g'.iws[v].list;
    }
  }

  /** A diff keeps what the notification loop relies on, above all the records it is going through. */
  lemma DiffKeeps(h0: Hub, h: Hub, h': Hub, k: Key, ev: KEvent, d: Dep, r: Run, fs: Key -> FileType)
    requires Notifying(h0, h, k, fs) && HasDep(h.g, k, d) && d.target.Parent? && d.wd in h.g.iws
    requires ev.listing.Some? && EventTrue(k, ev, fs) && IsRunOf(h, h', d.wd, ViewOf(ev), r)
    ensures Notifying(h0, h', k, fs) && Shows(h'.g, d.wd, ViewOf(ev)) && h.g.iws[d.wd].key == k
  {
    assert h.g.iws[d.wd].key == k by {
      assert WatchOk(h.g, k) && DepOk(h.g, k, d);
    }
    RunKeeps(h, h', d.wd, ViewOf(ev), r, fs);
    NotifyingNext(h0, h, h', k, d, fs);
  }

  /** If the event calls for a diff, the list of the directory shows the listing. */
  ghost predicate UpToDate(g: Graph, k: Key, ev: KEvent) {
    forall d | HasDep(g, k, d) && CallsForDiff(g, ev, d, InModify) && ev.listing.Some? :: Shows(g, d.wd, ViewOf(ev))
  }

  lemma ToldUpToDate(g: Graph, g': Graph, k: Key, ev: KEvent, v: Wd)
    requires OnlyEntries(g, g', v) && g'.items == g.items && g'.watches == g.watches && g'.iws[v].list == g.iws[v].list
    requires UpToDate(g, k, ev)
    ensures UpToDate(g', k, ev)
  {
    forall d | HasDep(g', k, d) && CallsForDiff(g', ev, d, InModify) && ev.listing.Some?
      ensures Shows(g', d.wd, ViewOf(ev))
    {
      assert HasDep(g, k, d) && CallsForDiff(g, ev, d, InModify);
      assert g'.iws[d.wd].list == g.iws[d.wd].list;
      assert ListNames(g', d.wd) == ListNames(g, d.wd);
    }
  }

  lemma TellBitUpToDate(h: Hub, k: Key, mode: FileType, ev: KEvent, d: Dep, ie: Bit, fs: Key -> FileType)
    requires HubOk(h, fs) && d.wd in h.g.iws && UpToDate(h.g, k, ev)
    ensures UpToDate(TellBit(h, mode, ev, d, ie).g, k, ev)
  {
    var bits := BitsFor(h.g.pf, mode, ev, d.target.Parent?);
    if ie in bits {
      TellKeeps(h, d.wd, MaskFor(bits, ie), EntryFor(h.g, d), fs);
      ToldUpToDate(h.g, Tell(h, d.wd, MaskFor(bits, ie), EntryFor(h.g, d)).g, k, ev, d.wd);
    }
  }

  /** At most one record of a watch calls for a diff. */
  lemma DiffUpToDate(g: Graph, k: Key, ev: KEvent, d: Dep)
    requires GraphOk(g) && HasDep(g, k, d) && d.target.Parent?
    requires ev.listing.Some? ==> Shows(g, d.wd, ViewOf(ev))
    ensures UpToDate(g, k, ev)
  {
    assert WatchOk(g, k);
  }

  lemma PrunedUpToDate(h0: Hub, h: Hub, k: Key, gone: bool, ev: KEvent, fs: Key -> FileType)
    requires UpToDate(h0.g, k, ev) && Pruning(h0, h, k, gone, fs) && GraphOk(h0.g)
    ensures UpToDate(h.g, k, ev)
  {
    forall d | HasDep(h.g, k, d) && CallsForDiff(h.g, ev, d, InModify) && ev.listing.Some?
      ensures Shows(h.g, d.wd, ViewOf(ev))
    {
      assert HasDep(h0.g, k, d) && CallsForDiff(h0.g, ev, d, InModify);
      assert IWatchOk(h.g, d.wd) && IWatchOk(h0.g, d.wd);
      assert ListNames(h.g, d.wd) == ListNames(h0.g, d.wd);
    }
  }

  /** One record has been dealt with for one bit: by a diff, if one is called for, and by a report otherwise. */
  ghost predicate Dispatched(h: Hub, h': Hub, mode: FileType, ev: KEvent, d: Dep, ie: Bit) {
    d.wd in h.g.iws &&
    if !CallsForDiff(h.g, ev, d, ie) then h' == TellBit(h, mode, ev, d, ie)
    else if ev.listing.None? then h' == h
    else exists r :: IsRunOf(h, h', d.wd, ViewOf(ev), r)
  }

  /** All records, in order, have been dealt with for one bit. */
  ghost predicate RowDone(hs: seq<Hub>, mode: FileType, ev: KEvent, deps: seq<Dep>, ie: Bit)
    requires |hs| <= |deps| + 1
  {
    forall j {:trigger DispatchedAt(hs, mode, ev, deps, ie, j)} | 0 <= j < |hs| - 1 ::
      DispatchedAt(hs, mode, ev, deps, ie, j)
  }

  ghost predicate DispatchedAt(hs: seq<Hub>, mode: FileType, ev: KEvent, deps: seq<Dep>, ie: Bit, j: nat)
    requires j < |hs| - 1 && j < |deps|
  {
    Dispatched(hs[j], hs[j + 1], mode, ev, deps[j], ie)
  }

  lemma RowExtends(hs: seq<Hub>, h: Hub, mode: FileType, ev: KEvent, deps: seq<Dep>, ie: Bit)
    requires 0 < |hs| <= |deps| && RowDone(hs, mode, ev, deps, ie)
    requires Dispatched(hs[|hs| - 1], h, mode, ev, deps[|hs| - 1], ie)
    ensures RowDone(hs + [h], mode, ev, deps, ie)
  {
    forall j: nat | j < |hs| ensures DispatchedAt(hs + [h], mode, ev, deps, ie, j) {
      assert j < |hs| - 1 ==> DispatchedAt(hs, mode, ev, deps, ie, j);
    }
  }

  ghost predicate RowLeadsTo(h: Hub, h': Hub, mode: FileType, ev: KEvent, deps: seq<Dep>, ie: Bit) {
    exists hs {:trigger RowDone(hs, mode, ev, deps, ie)} ::
      |hs| == |deps| + 1 && hs[0] == h && hs[|deps|] == h' && RowDone(hs, mode, ev, deps, ie)
  }

  /** The bits of the event have been dealt with in the order of IE_ORDER, each for all records. */
  ghost predicate RowsDone(rows: seq<Hub>, mode: FileType, ev: KEvent, deps: seq<Dep>)
    requires |rows| <= |IE_ORDER| + 1
  {
    forall i {:trigger RowAt(rows, mode, ev, deps, i)} | 0 <= i < |rows| - 1 :: RowAt(rows, mode, ev, deps, i)
  }

  ghost predicate RowAt(rows: seq<Hub>, mode: FileType, ev: KEvent, deps: seq<Dep>, i: nat)
    requires i < |rows| - 1 && i < |IE_ORDER|
  {
    RowLeadsTo(rows[i], rows[i + 1], mode, ev, deps, IE_ORDER[i])
  }

  lemma RowsExtend(rows: seq<Hub>, h: Hub, mode: FileType, ev: KEvent, deps: seq<Dep>)
    requires 0 < |rows| <= |IE_ORDER| && RowsDone(rows, mode, ev, deps)
    requires RowLeadsTo(rows[|rows| - 1], h, mode, ev, deps, IE_ORDER[|rows| - 1])
    ensures RowsDone(rows + [h], mode, ev, deps)
  {
    forall i: nat | i < |rows| ensures RowAt(rows + [h], mode, ev, deps, i) {
      assert i < |rows| - 1 ==> RowAt(rows, mode, ev, deps, i);
    }
  }

  // ------------------------------------------------------------------ the steps of the notification loop

  /** One of the first `j` records calls for a diff. */
  ghost predicate DiffMade(g: Graph, ev: KEvent, deps: seq<Dep>, ie: Bit, j: nat)
    requires j <= |deps|
  {
    exists q :: 0 <= q < j && CallsForDiff(g, ev, deps[q], ie)
  }

  lemma SameCalls(h0: Hub, h: Hub, k: Key, ev: KEvent, d: Dep, ie: Bit, fs: Key -> FileType)
    requires Notifying(h0, h, k, fs)
    ensures CallsForDiff(h.g, ev, d, ie) <==> CallsForDiff(h0.g, ev, d, ie)
  {
    assert d.wd in h0.g.iws ==> SameSettings(h0.g.iws[d.wd], h.g.iws[d.wd]);
  }

  lemma NoDiffDue(h0: Hub, h: Hub, k: Key, ev: KEvent, fs: Key -> FileType)
    requires Notifying(h0, h, k, fs) && !DiffMade(h0.g, ev, h.g.watches[k].deps, InModify, |h.g.watches[k].deps|)
    ensures UpToDate(h.g, k, ev)
  {
    var deps := h.g.watches[k].deps;
    forall d | HasDep(h.g, k, d) ensures !CallsForDiff(h.g, ev, d, InModify) {
      var q :| 0 <= q < |deps| && deps[q] == d;
      SameCalls(h0, h, k, ev, deps[q], InModify, fs);
    }
  }

  lemma DispatchedKeeps(h0: Hub, h: Hub, h': Hub, k: Key, mode: FileType, ev: KEvent, d: Dep, ie: Bit,
                        fs: Key -> FileType)
    requires Notifying(h0, h, k, fs) && HasDep(h.g, k, d) && EventTrue(k, ev, fs) && Dispatched(h, h', mode, ev, d, ie)
    ensures Notifying(h0, h', k, fs)
    ensures UpToDate(h.g, k, ev) || CallsForDiff(h0.g, ev, d, ie) ==> UpToDate(h'.g, k, ev)
  {
    SameCalls(h0, h, k, ev, d, ie, fs);
    if !CallsForDiff(h.g, ev, d, ie) {
      TellBitKeeps(h0, h, k, mode, ev, d, ie, fs);
      if UpToDate(h.g, k, ev) {
        TellBitUpToDate(h, k, mode, ev, d, ie, fs);
      }
    } else {
      if ev.listing.Some? {
        var r :| IsRunOf(h, h', d.wd, ViewOf(ev), r);
        DiffKeeps(h0, h, h', k, ev, d, r, fs);
      }
      DiffUpToDate(h'.g, k, ev, d);
    }
  }

  /** After `j` records of a row. */
  ghost predicate RowState(h0: Hub, h: Hub, k: Key, ev: KEvent, deps: seq<Dep>, ie: Bit, j: nat, before: bool,
                           fs: Key -> FileType)
    requires j <= |deps|
  {
    Notifying(h0, h, k, fs) && (before || DiffMade(h0.g, ev, deps, ie, j) ==> UpToDate(h.g, k, ev))
  }

  lemma {:induction false} RowKeeps(h0: Hub, hs: seq<Hub>, k: Key, mode: FileType, ev: KEvent, deps: seq<Dep>, ie: Bit,
                                    j: nat, fs: Key -> FileType)
    requires j < |hs| <= |deps| + 1 && RowDone(hs, mode, ev, deps, ie) && EventTrue(k, ev, fs)
    requires k in h0.g.watches && deps == h0.g.watches[k].deps && Notifying(h0, hs[0], k, fs)
    ensures RowState(h0, hs[j], k, ev, deps, ie, j, UpToDate(hs[0].g, k, ev), fs)
  {
    if j > 0 {
      RowKeeps(h0, hs, k, mode, ev, deps, ie, j - 1, fs);
      assert DispatchedAt(hs, mode, ev, deps, ie, j - 1);
      RowStateNext(h0, hs[j - 1], hs[j], k, mode, ev, deps, ie, j - 1, UpToDate(hs[0].g, k, ev), fs);
    }
  }

  lemma RowStateNext(h0: Hub, h: Hub, h': Hub, k: Key, mode: FileType, ev: KEvent, deps: seq<Dep>, ie: Bit, j: nat,
                     before: bool, fs: Key -> FileType)
    requires j < |deps| && k in h0.g.watches && deps == h0.g.watches[k].deps && EventTrue(k, ev, fs)
    requires RowState(h0, h, k, ev, deps, ie, j, before, fs) && Dispatched(h, h', mode, ev, deps[j], ie)
    ensures RowState(h0, h', k, ev, deps, ie, j + 1, before, fs)
  {
    assert HasDep(h.g, k, deps[j]);
    DispatchedKeeps(h0, h, h', k, mode, ev, deps[j], ie, fs);
  }

  lemma RowLeads(h0: Hub, h: Hub, h': Hub, k: Key, mode: FileType, ev: KEvent, deps: seq<Dep>, ie: Bit,
                 fs: Key -> FileType)
    requires k in h0.g.watches && deps == h0.g.watches[k].deps && Notifying(h0, h, k, fs) && EventTrue(k, ev, fs)
    requires RowLeadsTo(h, h', mode, ev, deps, ie)
    ensures Notifying(h0, h', k, fs) && (UpToDate(h.g, k, ev) || ie == InModify ==> UpToDate(h'.g, k, ev))
  {
    var hs :| |hs| == |deps| + 1 && hs[0] == h && hs[|deps|] == h' && RowDone(hs, mode, ev, deps, ie);
    RowKeeps(h0, hs, k, mode, ev, deps, ie, |deps|, fs);
    if ie == InModify && !DiffMade(h0.g, ev, deps, ie, |deps|) {
      NoDiffDue(h0, h', k, ev, fs);
    }
  }

  /** After all bits, the list of a directory that the event calls a diff for shows the listing. */
  lemma {:induction false} RowsKeep(rows: seq<Hub>, k: Key, mode: FileType, ev: KEvent, deps: seq<Dep>, i: nat,
                                    fs: Key -> FileType)
    requires i < |rows| <= |IE_ORDER| + 1 && RowsDone(rows, mode, ev, deps) && EventTrue(k, ev, fs)
    requires Notifying(rows[0], rows[0], k, fs) && deps == rows[0].g.watches[k].deps
    ensures Notifying(rows[0], rows[i], k, fs) && (i > 2 ==> UpToDate(rows[i].g, k, ev))
  {
    if i > 0 {
      RowsKeep(rows, k, mode, ev, deps, i - 1, fs);
      RowsKeepNext(rows, k, mode, ev, deps, i, fs);
    }
  }

  lemma RowsKeepNext(rows: seq<Hub>, k: Key, mode: FileType, ev: KEvent, deps: seq<Dep>, i: nat, fs: Key -> FileType)
    requires 0 < i < |rows| <= |IE_ORDER| + 1 && RowsDone(rows, mode, ev, deps) && EventTrue(k, ev, fs)
    requires k in rows[0].g.watches && deps == rows[0].g.watches[k].deps
    requires Notifying(rows[0], rows[i - 1], k, fs) && (i > 3 ==> UpToDate(rows[i - 1].g, k, ev))
    ensures Notifying(rows[0], rows[i], k, fs) && (i > 2 ==> UpToDate(rows[i].g, k, ev))
  {
    assert RowAt(rows, mode, ev, deps, i - 1);
    RowLeads(rows[0], rows[i - 1], rows[i], k, mode, ev, deps, IE_ORDER[i - 1], fs);
  }

  // ------------------------------------------------------------------ the inotify watches that end

  /** The inotify watch of this record ends: it is closed, or its file is gone. */
  predicate Ends(g: Graph, gone: bool, d: Dep) {
    d.wd in g.iws && (g.iws[d.wd].closed || (gone && d.target.Parent?))
  }

  ghost predicate Doomed(g: Graph, k: Key, gone: bool, v: Wd) {
    v in g.iws && (g.iws[v].closed || (gone && HasDep(g, k, Dep(v, Parent))))
  }

  /** Some of the inotify watches that end have ended, with IN_IGNORED, and nothing else has happened. */
  ghost predicate Pruning(h0: Hub, h: Hub, k: Key, gone: bool, fs: Key -> FileType) {
    && HubOk(h, fs) && ClosedOn(h0.g, k) && h.g.pf == h0.g.pf && NoLeaks(h.g)
    && (forall x | x in h.g.items :: x in h0.g.items && h.g.items[x] == h0.g.items[x])
    && (forall v | v in h.g.iws :: v in h0.g.iws && h.g.iws[v] == h0.g.iws[v])
    && (forall v | v in h0.g.iws && v !in h.g.iws :: Doomed(h0.g, k, gone, v))
    && (forall q, d :: HasDep(h.g, q, d) <==> HasDep(h0.g, q, d) && d.wd in h.g.iws)
    && h0.log <= h.log && (forall i | |h0.log| <= i < |h.log| :: h.log[i].Ignored?)
  }

  /** All of them have. */
  ghost predicate Pruned(h0: Hub, h: Hub, k: Key, gone: bool, fs: Key -> FileType) {
    Pruning(h0, h, k, gone, fs) && forall v | v in h.g.iws :: !Doomed(h0.g, k, gone, v)
  }

  lemma PruneStart(h: Hub, k: Key, gone: bool, fs: Key -> FileType)
    requires HubOk(h, fs) && ClosedOn(h.g, k) && NoLeaks(h.g)
    ensures Pruning(h, h, k, gone, fs)
  {
    forall q, d | HasDep(h.g, q, d) ensures d.wd in h.g.iws {
      assert WatchOk(h.g, q) && DepOk(h.g, q, d);
    }
  }

  /** One more ends; if another inotify watch has a record on the watch, the watch is still there. */
  lemma PruneNext(h0: Hub, h: Hub, h': Hub, k: Key, gone: bool, d: Dep, fs: Key -> FileType)
    requires Pruning(h0, h, k, gone, fs) && HasDep(h.g, k, d) && Ends(h.g, gone, d)
    requires HubOk(h', fs) && Rid(h.g, h'.g, d.wd) && h'.log == h.log + [Ignored(d.wd)]
    ensures Pruning(h0, h', k, gone, fs)
    ensures (exists e :: HasDep(h.g, k, e) && e.wd != d.wd) ==> k in h'.g.watches
    ensures (forall e | HasDep(h.g, k, e) :: e.wd == d.wd) ==> Pruned(h0, h', k, gone, fs)
  {
    RidNoLeaks(h.g, h'.g, d.wd);
    assert Doomed(h0.g, k, gone, d.wd) by {
      if !h.g.iws[d.wd].closed {
        assert HasDep(h0.g, k, d) && d == Dep(d.wd, Parent);
      }
    }
    if e :| HasDep(h.g, k, e) && e.wd != d.wd {
      assert HasDep(h'.g, k, e);
    } else {
      NoneLeft(h0, h', k, gone, fs);
    }
  }

  lemma RidNoLeaks(g: Graph, g': Graph, wd: Wd)
    requires NoLeaks(g) && Rid(g, g', wd)
    ensures NoLeaks(g')
  {
    forall x | x in g'.items ensures exists v :: v in g'.iws && x in g'.iws[v].list {
      var v :| v in g.iws && x in g.iws[v].list;
      assert v != wd && x in g'.iws[v].list;
    }
  }

  /** If no record on the watch calls for an end, every inotify watch that had to end has ended. */
  lemma NoneLeft(h0: Hub, h: Hub, k: Key, gone: bool, fs: Key -> FileType)
    requires Pruning(h0, h, k, gone, fs) && forall d | HasDep(h.g, k, d) :: !Ends(h.g, gone, d)
    ensures Pruned(h0, h, k, gone, fs)
  {
    forall v | v in h.g.iws ensures !Doomed(h0.g, k, gone, v) {
      assert (exists d :: HasDep(h0.g, k, d) && d.wd == v) ==> exists d :: HasDep(h.g, k, d) && d.wd == v;
      assert HasDep(h0.g, k, Dep(v, Parent)) ==> HasDep(h.g, k, Dep(v, Parent));
    }
  }
}
