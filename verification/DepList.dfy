/**
 * The directory list of a watch: stored entries, a new listing split against them, and the
 * specification of the diff between the two.
 */
module DepList {
  import opened Wrappers
  import opened Names
  import opened DirEvents
  import opened RenameGraph

  datatype FileType = Unknown | Regular | Directory | Symlink | Special

  /** What `readdir` returns for one name. */
  datatype Dirent = Dirent(name: Name, inode: nat, fileType: FileType)

  /**
   * A directory entry. The three marks share a word with the file type in the C structure;
   * `replaced` is also the READDED mark of an entry of the new listing.
   */
  datatype Item = Item(name: Name, inode: nat, fileType: FileType, intact: bool, replaced: bool, moved: bool)

  /** An entry of the new listing together with the old entries it points to. */
  datatype Change = Change(item: Item, replacee: Option<nat>, movedFrom: Option<nat>)

  /** The type word reserved for a search key (DI_EXT_PATH): no file type, all three marks. */
  predicate IsSentinel(it: Item) {
    it.fileType.Unknown? && it.intact && it.replaced && it.moved
  }

  predicate Clean(it: Item) {
    !it.intact && !it.replaced && !it.moved
  }

  predicate IsDot(n: Name) {
    n == "." || n == ".."
  }

  ghost predicate Sorted(items: seq<Item>) {
    forall a, b | 0 <= a < b < |items| :: NameLess(items[a].name, items[b].name)
  }

  /** What a stored list looks like between two diffs. */
  ghost predicate Stored(items: seq<Item>) {
    && Sorted(items)
    && (forall i | 0 <= i < |items| :: Clean(items[i]) && !IsDot(items[i].name))
  }

  ghost predicate UniqueNames(items: seq<Item>) {
    forall a, b | 0 <= a < |items| && 0 <= b < |items| :: items[a].name == items[b].name ==> a == b
  }

  lemma SortedIsUnique(items: seq<Item>)
    requires Sorted(items)
    ensures UniqueNames(items)
  {
    forall a, b | 0 <= a < |items| && 0 <= b < |items| && items[a].name == items[b].name ensures a == b {
      NameOrderTotal(items[a].name, items[b].name);
    }
  }

  /** A name turns up at most once in a listing. */
  ghost predicate UniqueListing(stream: seq<Dirent>) {
    forall a, b | 0 <= a < |stream| && 0 <= b < |stream| :: stream[a].name == stream[b].name ==> a == b
  }

  /** Look an entry up by name. */
  function Find(items: seq<Item>, n: Name): (r: Option<nat>)
    ensures r.Some? ==> r.value < |items| && items[r.value].name == n
    ensures r.None? ==> forall i | 0 <= i < |items| :: items[i].name != n
  {
    if items == [] then None
    else if items[|items| - 1].name == n then Some(|items| - 1)
    else Find(items[..|items| - 1], n)
  }

  // ------------------------------------------------------------------ reading a listing

  /** The entry is in the listing under the same name with the same inode. */
  predicate Survives(stream: seq<Dirent>, it: Item) {
    exists d :: d in stream && d.name == it.name && d.inode == it.inode
  }

  function Marked(stored: seq<Item>, stream: seq<Dirent>): seq<Item> {
    seq(|stored|, i requires 0 <= i < |stored| => stored[i].(intact := Survives(stream, stored[i])))
  }

  /** The change record of one entry of the listing, nothing for a dot entry or an unchanged one. */
  function ChangeOf(stored: seq<Item>, d: Dirent): (c: seq<Change>)
    ensures |c| <= 1
  {
    var found := Find(stored, d.name);
    if IsDot(d.name) || (found.Some? && stored[found.value].inode == d.inode) then []
    else [Change(Item(d.name, d.inode, d.fileType, false, found.Some?, false), found, None)]
  }

  /** The changes, latest entry of the listing first. */
  function Changes(stored: seq<Item>, stream: seq<Dirent>): seq<Change> {
    if stream == [] then []
    else ChangeOf(stored, stream[|stream| - 1]) + Changes(stored, stream[..|stream| - 1])
  }

  /** The directory a listing shows. */
  ghost function ListingDir(stream: seq<Dirent>): (d: Dir)
  {
    map x | x in stream && !IsDot(x.name) :: x.name := InodeIn(stream, x.name)
  }

  ghost function InodeIn(stream: seq<Dirent>, n: Name): nat
    requires exists x :: x in stream && x.name == n
  {
    var x :| x in stream && x.name == n;
    x.inode
  }

  /** The directory a list of entries shows. */
  ghost function DirOf(items: seq<Item>): Dir {
    map i | 0 <= i < |items| :: items[i].name := items[Find(items, items[i].name).value].inode
  }

  // ------------------------------------------------------------------ the input of the diff

  /** What reading a listing hands to the diff. */
  ghost predicate ReadState(before: seq<Item>, after: seq<Change>) {
    && Sorted(before)
    && UniqueNames(before)
    && (forall i | 0 <= i < |before| :: !before[i].replaced && !before[i].moved && !IsDot(before[i].name))
    && UniqueChanges(after)
    && (forall j | 0 <= j < |after| :: ChangeOk(before, after[j]))
  }

  ghost predicate UniqueChanges(after: seq<Change>) {
    forall j, k | 0 <= j < |after| && 0 <= k < |after| :: after[j].item.name == after[k].item.name ==> j == k
  }

  ghost predicate ChangeOk(before: seq<Item>, c: Change) {
    && !c.item.intact && !c.item.moved && c.movedFrom.None? && !IsDot(c.item.name)
    && c.item.replaced == c.replacee.Some?
    && (c.replacee.Some? ==>
          && c.replacee.value < |before|
          && before[c.replacee.value].name == c.item.name
          && before[c.replacee.value].inode != c.item.inode
          && !before[c.replacee.value].intact)
    && (c.replacee.None? ==> forall i | 0 <= i < |before| :: before[i].name != c.item.name)
  }

  // ------------------------------------------------------------------ matching renames by inode

  /** The first entry of the new listing with this inode that no old entry has claimed yet. */
  function FirstFree(after: seq<Change>, from: seq<Option<nat>>, inode: nat, j: nat): (r: Option<nat>)
    requires |from| == |after| && j <= |after|
    ensures r.Some? ==> j <= r.value < |after| && after[r.value].item.inode == inode && from[r.value].None?
    ensures forall k | j <= k < (if r.Some? then r.value else |after|) :: after[k].item.inode != inode || from[k].Some?
    decreases |after| - j
  {
    if j == |after| then None
    else if after[j].item.inode == inode && from[j].None? then Some(j)
    else FirstFree(after, from, inode, j + 1)
  }

  /** For each new entry the old entry it was renamed from, after the first `i` old entries made their claims. */
  function Match(before: seq<Item>, after: seq<Change>, i: nat): (from: seq<Option<nat>>)
    requires i <= |before|
    ensures |from| == |after|
  {
    if i == 0 then seq(|after|, j => None)
    else
      var prev := Match(before, after, i - 1);
      if before[i - 1].intact then prev
      else
        var r := FirstFree(after, prev, before[i - 1].inode, 0);
        if r.Some? then prev[r.value := Some(i - 1)] else prev
  }

  ghost predicate MatchOk(before: seq<Item>, after: seq<Change>, from: seq<Option<nat>>, i: nat)
    requires |from| == |after| && i <= |before|
  {
    && (forall j | 0 <= j < |from| && from[j].Some? ::
          from[j].value < i && !before[from[j].value].intact && before[from[j].value].inode == after[j].item.inode)
    && (forall j, k | 0 <= j < |from| && 0 <= k < |from| :: from[j].Some? && from[j] == from[k] ==> j == k)
    && (forall x, j | 0 <= x < i && 0 <= j < |from| ::
          !before[x].intact && before[x].inode == after[j].item.inode && from[j].None? ==> Some(x) in from)
  }

  /**
   * Renames pair entries one to one, with equal inodes, and as many as possible: when a changed
   * old entry and a new entry share an inode, one of the two is taken.
   */
  lemma {:induction false} MatchCorrect(before: seq<Item>, after: seq<Change>, i: nat)
    requires i <= |before|
    ensures MatchOk(before, after, Match(before, after, i), i)
  {
    if i > 0 {
      MatchCorrect(before, after, i - 1);
      var prev, from := Match(before, after, i - 1), Match(before, after, i);
      forall x, j | 0 <= x < i && 0 <= j < |from| && !before[x].intact
                    && before[x].inode == after[j].item.inode && from[j].None?
        ensures Some(x) in from
      {
        if x < i - 1 {
          assert Some(x) in prev;
          var k :| 0 <= k < |prev| && prev[k] == Some(x);
          assert from[k] == Some(x);
        } else {
          var r := FirstFree(after, prev, before[i - 1].inode, 0);
          assert r.Some? && from[r.value] == Some(x);
        }
      }
    }
  }

  function Renames(before: seq<Item>, after: seq<Change>): (from: seq<Option<nat>>)
    ensures |from| == |after|
  {
    Match(before, after, |before|)
  }

  /** The rename graph of a diff. */
  function Links(before: seq<Item>, after: seq<Change>): (g: Graph)
    ensures |g| == |after|
  {
    var from := Renames(before, after);
    seq(|after|, j requires 0 <= j < |after| => Link(from[j], after[j].replacee))
  }

  lemma LinksWellFormed(before: seq<Item>, after: seq<Change>)
    requires ReadState(before, after)
    ensures WellFormed(Links(before, after))
  {
    MatchCorrect(before, after, |before|);
    var g := Links(before, after);
    forall j, k | 0 <= j < |g| && 0 <= k < |g| && g[j].onto.Some? && g[j].onto == g[k].onto ensures j == k {
      assert ChangeOk(before, after[j]) && ChangeOk(before, after[k]);
    }
    forall j | 0 <= j < |g| && g[j].from.Some? ensures g[j].from != g[j].onto {
      assert ChangeOk(before, after[j]);
    }
  }
}
