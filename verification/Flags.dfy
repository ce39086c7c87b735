/**
 * The translation between inotify masks and kqueue filter flags. Flag words are sets of named
 * bits; the flags that only some kernels have are switched by `Platform`.
 */
module Flags {
  import opened DepList

  /** The kqueue filter flags of a vnode. */
  datatype Note =
    | NoteOpen | NoteClose | NoteCloseWrite | NoteRead | NoteAttrib | NoteWrite | NoteExtend
    | NoteLink | NoteRename | NoteDelete | NoteRevoke

  /** The bits of an inotify mask. */
  datatype Bit =
    | InAccess | InModify | InAttrib | InCloseWrite | InCloseNoWrite | InOpen | InMovedFrom | InMovedTo
    | InCreate | InDelete | InDeleteSelf | InMoveSelf
    | InUnmount | InOverflow | InIgnored
    | InOnlyDir | InDontFollow | InExclUnlink | InMaskAdd | InIsDir | InOneshot

  datatype Platform = Platform(open: bool, close: bool, closeWrite: bool, read: bool, extendTo: bool, extendFrom: bool)

  /** The bits of IN_ALL_EVENTS. */
  predicate IsEvent(b: Bit) {
    match b
    case InAccess => true case InModify => true case InAttrib => true case InCloseWrite => true
    case InCloseNoWrite => true case InOpen => true case InMovedFrom => true case InMovedTo => true
    case InCreate => true case InDelete => true case InDeleteSelf => true case InMoveSelf => true
    case _ => false
  }

  predicate Supported(mode: FileType) {
    mode.Regular? || mode.Directory? || mode.Symlink?
  }

  /** A subscription with this mask needs the kernel flag `n`. */
  predicate Needs(pf: Platform, flags: set<Bit>, mode: FileType, isParent: bool, n: Note) {
    Supported(mode) &&
    match n
    case NoteOpen => pf.open && InOpen in flags
    case NoteClose => pf.close && InCloseNoWrite in flags
    case NoteCloseWrite => pf.closeWrite && InCloseWrite in flags && mode.Regular?
    case NoteRead => pf.read && InAccess in flags && (mode.Regular? || mode.Directory?)
    case NoteAttrib => InAttrib in flags
    case NoteWrite => (InModify in flags && mode.Regular?) || (isParent && mode.Directory?)
    case NoteExtend => isParent && mode.Directory? && (pf.extendTo || pf.extendFrom)
    case NoteLink => isParent && InAttrib in flags && mode.Regular?
    case NoteRename => isParent && InMoveSelf in flags
    case NoteDelete => isParent
    case NoteRevoke => isParent
  }

  function InotifyToKqueue(pf: Platform, flags: set<Bit>, mode: FileType, isParent: bool): set<Note> {
    set n: Note | Needs(pf, flags, mode, isParent, n)
  }

  /** The event bit `b` follows from a kernel event; IN_ISDIR accompanies some of the others. */
  predicate Means(pf: Platform, notes: set<Note>, mode: FileType, isParent: bool, isDeleted: bool, b: Bit) {
    match b
    case InOpen => pf.open && NoteOpen in notes
    case InCloseNoWrite => pf.close && NoteClose in notes
    case InCloseWrite => pf.closeWrite && NoteCloseWrite in notes
    case InAccess => pf.read && NoteRead in notes && (mode.Regular? || mode.Directory?)
    case InAttrib => NoteAttrib in notes || ((NoteLink in notes || NoteDelete in notes) && mode.Regular? && isParent)
    case InModify => NoteWrite in notes && mode.Regular?
    case InDeleteSelf => NoteDelete in notes && isParent && (isDeleted || !mode.Regular?)
    case InMoveSelf => NoteRename in notes && isParent
    case InUnmount => NoteRevoke in notes && isParent
    case InIsDir =>
      mode.Directory? && isParent &&
      (NoteAttrib in notes || (pf.open && NoteOpen in notes) || (pf.read && NoteRead in notes)
       || (pf.close && NoteClose in notes) || (pf.closeWrite && NoteCloseWrite in notes))
    case _ => false
  }

  function KqueueToInotify(pf: Platform, notes: set<Note>, mode: FileType, isParent: bool, isDeleted: bool): set<Bit> {
    set b: Bit | Means(pf, notes, mode, isParent, isDeleted, b)
  }

  /** One subscriber of a shared watch: the mask of its inotify watch, and whether it watches the file itself. */
  datatype Sub = Sub(flags: set<Bit>, mode: FileType, isParent: bool)

  function Filter(pf: Platform, d: Sub): set<Note> {
    InotifyToKqueue(pf, d.flags, d.mode, d.isParent)
  }

  /** The filter of a shared watch: all that its subscribers need. */
  function Union(pf: Platform, ds: seq<Sub>): (r: set<Note>)
    ensures forall n :: n in r <==> exists i :: 0 <= i < |ds| && n in Filter(pf, ds[i])
  {
    if ds == [] then {} else Union(pf, ds[..|ds| - 1]) + Filter(pf, ds[|ds| - 1])
  }

  /** No more links to the file are left. */
  predicate Deleted(notes: set<Note>, mode: FileType, noLinks: bool) {
    NoteDelete in notes && (!mode.Regular? || noLinks)
  }

  /** The order in which the bits of one kernel event are reported. */
  const IE_ORDER: seq<Bit> :=
    [InOpen, InAccess, InModify, InCloseNoWrite, InCloseWrite, InAttrib, InMoveSelf, InDeleteSelf, InUnmount]

  /** The kernel event makes the subscriber compare its directory with the stored list. */
  predicate DiffsFor(notes: set<Note>, d: Sub, ie: Bit) {
    d.isParent && ie == InModify && NoteWrite in notes && d.mode.Directory?
  }

  predicate MeansTo(pf: Platform, notes: set<Note>, noLinks: bool, d: Sub, b: Bit) {
    Means(pf, notes, d.mode, d.isParent, Deleted(notes, d.mode, noLinks), b)
  }

  /** `b` is in the mask built for the report of `ie`, and the subscriber's mask lets it through. */
  predicate InMask(pf: Platform, notes: set<Note>, noLinks: bool, d: Sub, ie: Bit, b: Bit) {
    && (b == ie || (!IsEvent(b) && MeansTo(pf, notes, noLinks, d, b)))
    && ((IsEvent(b) && b in d.flags) || b.InUnmount? || b.InIsDir?)
  }

  /** The mask reported to a subscriber for one bit; empty if nothing is reported. */
  function Reported(pf: Platform, notes: set<Note>, noLinks: bool, d: Sub, ie: Bit): set<Bit> {
    var mask := set b: Bit | InMask(pf, notes, noLinks, d, ie, b);
    if DiffsFor(notes, d, ie) || !MeansTo(pf, notes, noLinks, d, ie)
       || (forall b | b in mask :: !IsEvent(b) && !b.InUnmount?) then {}
    else mask
  }

  /** The kernel event as a subscriber alone on the watch would have got it. */
  function Restricted(pf: Platform, notes: set<Note>, d: Sub): set<Note> {
    notes * Filter(pf, d)
  }

  /** A watch on the file itself always has something to wait for, exactly if the file type is supported. */
  lemma ParentFilter(pf: Platform, flags: set<Bit>, mode: FileType)
    ensures InotifyToKqueue(pf, flags, mode, true) != {} <==> Supported(mode)
  {
    if Supported(mode) {
      assert NoteDelete in InotifyToKqueue(pf, flags, mode, true);
    }
  }

  /** What a report consists of, bit by bit. */
  lemma ReportedBits(pf: Platform, notes: set<Note>, noLinks: bool, d: Sub, ie: Bit)
    requires ie in IE_ORDER
    ensures var told := MeansTo(pf, notes, noLinks, d, ie) && !DiffsFor(notes, d, ie)
                        && (ie in d.flags || MeansTo(pf, notes, noLinks, d, InUnmount));
            Reported(pf, notes, noLinks, d, ie)
            == if told then set b: Bit | InMask(pf, notes, noLinks, d, ie, b) else {}
  {
    var mask := set b: Bit | InMask(pf, notes, noLinks, d, ie, b);
    assert IsEvent(ie) || ie.InUnmount?;
    if ie in d.flags || ie.InUnmount? {
      assert ie in mask;
    } else if MeansTo(pf, notes, noLinks, d, InUnmount) {
      assert InUnmount in mask;
    }
  }

  /** A bit the subscriber asked for is translated the same way whatever else is in the event. */
  lemma SameBit(pf: Platform, notes: set<Note>, noLinks: bool, d: Sub, ie: Bit)
    requires Supported(d.mode) && ie in IE_ORDER && (ie in d.flags || ie == InUnmount)
    requires NoteCloseWrite in notes ==> d.mode.Regular?
    ensures MeansTo(pf, notes, noLinks, d, ie) <==> MeansTo(pf, Restricted(pf, notes, d), noLinks, d, ie)
  {
  }

  /** The event carries a flag that brings in bit `ie`, which the filter of a mask without `ie` keeps out. */
  predicate BroughtIn(pf: Platform, notes: set<Note>, mode: FileType, ie: Bit) {
    match ie
    case InOpen => pf.open && NoteOpen in notes
    case InAccess => pf.read && NoteRead in notes && (mode.Regular? || mode.Directory?)
    case InModify => NoteWrite in notes && mode.Regular?
    case InCloseNoWrite => pf.close && NoteClose in notes
    case InCloseWrite => pf.closeWrite && NoteCloseWrite in notes
    case InAttrib =>
      (NoteAttrib in notes || (NoteLink in notes && mode.Regular?)) && !(NoteDelete in notes && mode.Regular?)
    case InMoveSelf => NoteRename in notes
    case _ => false
  }

  /**
   * A report that a subscriber gets only because of the others: the file system is revoked, and
   * the event also carries a bit that this subscriber did not ask for and its filter keeps out.
   */
  predicate Stray(pf: Platform, notes: set<Note>, d: Sub, ie: Bit) {
    d.isParent && NoteRevoke in notes && ie !in d.flags && BroughtIn(pf, notes, d.mode, ie)
  }

  /** A bit that was not asked for is brought in by a flag that the subscriber's own filter keeps out. */
  lemma BroughtInByOthers(pf: Platform, notes: set<Note>, noLinks: bool, d: Sub, ie: Bit)
    requires Supported(d.mode) && d.isParent && ie in IE_ORDER && ie !in d.flags && ie != InUnmount
    ensures BroughtIn(pf, notes, d.mode, ie) <==>
            MeansTo(pf, notes, noLinks, d, ie) && !MeansTo(pf, Restricted(pf, notes, d), noLinks, d, ie)
  {
  }

  /** The kernel event is one the shared watch can deliver. */
  ghost predicate Deliverable(pf: Platform, ds: seq<Sub>, i: nat, notes: set<Note>) {
    && i < |ds| && Supported(ds[i].mode)
    && (forall j | 0 <= j < |ds| :: ds[j].mode == ds[i].mode)
    && notes <= Union(pf, ds)
  }

  lemma CloseWriteIsRegular(pf: Platform, ds: seq<Sub>, i: nat, notes: set<Note>)
    requires Deliverable(pf, ds, i, notes)
    ensures NoteCloseWrite in notes ==> ds[i].mode.Regular?
  {
    if NoteCloseWrite in notes {
      var j :| 0 <= j < |ds| && NoteCloseWrite in Filter(pf, ds[j]);
    }
  }

  /** Up to IN_ISDIR a report is the bit it is for, if asked for, and IN_UNMOUNT, if the file system is revoked. */
  lemma ReportedCore(pf: Platform, notes: set<Note>, noLinks: bool, d: Sub, ie: Bit)
    requires ie in IE_ORDER
    ensures Reported(pf, notes, noLinks, d, ie) - {InIsDir} ==
            if !MeansTo(pf, notes, noLinks, d, ie) || DiffsFor(notes, d, ie) then {}
            else (if ie in d.flags then {ie} else {})
                 + (if MeansTo(pf, notes, noLinks, d, InUnmount) then {InUnmount} else {})
  {
    ReportedBits(pf, notes, noLinks, d, ie);
  }

  lemma TransparentTo(pf: Platform, notes: set<Note>, noLinks: bool, d: Sub, ie: Bit)
    requires Supported(d.mode) && ie in IE_ORDER && (NoteCloseWrite in notes ==> d.mode.Regular?)
    ensures var own := Restricted(pf, notes, d);
            var told, alone := Reported(pf, notes, noLinks, d, ie) - {InIsDir},
                               Reported(pf, own, noLinks, d, ie) - {InIsDir};
            && (DiffsFor(notes, d, ie) <==> DiffsFor(own, d, ie))
            && (told == alone <==> !Stray(pf, notes, d, ie))
            && (Stray(pf, notes, d, ie) ==> told == {InUnmount} && alone == {})
  {
    var own := Restricted(pf, notes, d);
    ReportedCore(pf, notes, noLinks, d, ie);
    ReportedCore(pf, own, noLinks, d, ie);
    SameBit(pf, notes, noLinks, d, InUnmount);
    OwnImpliesAll(pf, notes, noLinks, d, ie);
    if ie in d.flags || ie == InUnmount {
      SameBit(pf, notes, noLinks, d, ie);
    } else if d.isParent {
      BroughtInByOthers(pf, notes, noLinks, d, ie);
    }
  }

  /**
   * Sharing is transparent: whatever the other subscribers of a watch asked for, a subscriber
   * compares its directory exactly when it would if the kernel event were cut down to its own
   * filter, and, up to the IN_ISDIR bit, is told the same for each bit, except for stray
   * reports, which are one more IN_UNMOUNT.
   */
  lemma SharingTransparent(pf: Platform, ds: seq<Sub>, i: nat, notes: set<Note>, noLinks: bool, ie: Bit)
    requires Deliverable(pf, ds, i, notes) && ie in IE_ORDER
    ensures var own := Restricted(pf, notes, ds[i]);
            var told, alone := Reported(pf, notes, noLinks, ds[i], ie) - {InIsDir},
                               Reported(pf, own, noLinks, ds[i], ie) - {InIsDir};
            && (DiffsFor(notes, ds[i], ie) <==> DiffsFor(own, ds[i], ie))
            && (told == alone <==> !Stray(pf, notes, ds[i], ie))
            && (Stray(pf, notes, ds[i], ie) ==> told == {InUnmount} && alone == {})
  {
    CloseWriteIsRegular(pf, ds, i, notes);
    TransparentTo(pf, notes, noLinks, ds[i], ie);
  }

  lemma OwnImpliesAll(pf: Platform, notes: set<Note>, noLinks: bool, d: Sub, ie: Bit)
    requires ie in IE_ORDER
    ensures MeansTo(pf, Restricted(pf, notes, d), noLinks, d, ie) ==> MeansTo(pf, notes, noLinks, d, ie)
  {
  }

  /** A stray report does occur: a file is watched itself for IN_MODIFY, and through its directory for IN_ATTRIB. */
  lemma StrayExample(pf: Platform)
    ensures var a, b := Sub({InModify}, Regular, true), Sub({InAttrib}, Regular, false);
            var notes := {NoteAttrib, NoteRevoke};
            Deliverable(pf, [a, b], 0, notes) && Stray(pf, notes, a, InAttrib)
  {
    var a, b := Sub({InModify}, Regular, true), Sub({InAttrib}, Regular, false);
    var ds := [a, b];
    assert NoteAttrib in Filter(pf, ds[1]) && NoteRevoke in Filter(pf, ds[0]);
    assert {NoteAttrib, NoteRevoke} <= Union(pf, ds);
  }

  /** IN_ISDIR differs exactly when only flags kept out by the subscriber's own filter bring it in. */
  lemma IsDirDifference(pf: Platform, ds: seq<Sub>, i: nat, notes: set<Note>, noLinks: bool)
    requires Deliverable(pf, ds, i, notes)
    ensures var own, marks := Restricted(pf, notes, ds[i]), {NoteAttrib, NoteOpen, NoteRead, NoteClose};
            MeansTo(pf, notes, noLinks, ds[i], InIsDir) != MeansTo(pf, own, noLinks, ds[i], InIsDir)
            <==> ds[i].mode.Directory? && ds[i].isParent && notes * marks != {} && own * marks == {}
  {
    CloseWriteIsRegular(pf, ds, i, notes);
    var d := ds[i];
    var own, marks := Restricted(pf, notes, d), {NoteAttrib, NoteOpen, NoteRead, NoteClose};
    forall n | n in notes ensures Supports(pf, n) {
      var j :| 0 <= j < |ds| && n in Filter(pf, ds[j]);
    }
    assert d.mode.Directory? && d.isParent ==> (MeansTo(pf, notes, noLinks, d, InIsDir) <==> notes * marks != {}) by {
      MarksMean(pf, notes, noLinks, d);
    }
    assert d.mode.Directory? && d.isParent ==> (MeansTo(pf, own, noLinks, d, InIsDir) <==> own * marks != {}) by {
      MarksMean(pf, own, noLinks, d);
    }
    if notes * marks == {} {
      assert own * marks == {};
    }
  }

  /** The kernel has this flag. */
  predicate Supports(pf: Platform, n: Note) {
    match n
    case NoteOpen => pf.open
    case NoteClose => pf.close
    case NoteCloseWrite => pf.closeWrite
    case NoteRead => pf.read
    case _ => true
  }

  lemma MarksMean(pf: Platform, notes: set<Note>, noLinks: bool, d: Sub)
    requires (forall n | n in notes :: Supports(pf, n)) && (NoteCloseWrite in notes ==> d.mode.Regular?)
    ensures d.mode.Directory? && d.isParent ==>
              (MeansTo(pf, notes, noLinks, d, InIsDir) <==> notes * {NoteAttrib, NoteOpen, NoteRead, NoteClose} != {})
  {
    var marks := {NoteAttrib, NoteOpen, NoteRead, NoteClose};
    assert NoteAttrib in notes ==> NoteAttrib in notes * marks;
    assert NoteOpen in notes ==> NoteOpen in notes * marks;
    assert NoteRead in notes ==> NoteRead in notes * marks;
    assert NoteClose in notes ==> NoteClose in notes * marks;
    if notes * marks != {} {
      var n :| n in notes * marks;
      assert Supports(pf, n);
    }
  }
}
