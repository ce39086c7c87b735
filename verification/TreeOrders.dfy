/** The two users of the rank-balanced tree: directory lists in name order, and watches in the order of their keys. */
module TreeOrders {
  import opened Wrappers
  import opened Names
  import opened DepList
  import opened WatchGraph
  import T = RankTree
  import DirDiff

  // ------------------------------------------------------------------ directory lists

  function ItemCmp(a: Item, b: Item): int {
    if NameLess(a.name, b.name) then -1 else if a.name == b.name then 0 else 1
  }

  lemma ItemCmpOrders()
    ensures T.Comparison(ItemCmp)
  {
    forall x: Item, y: Item ensures ItemCmp(x, y) < 0 <==> ItemCmp(y, x) > 0 {
      NameOrderTotal(x.name, y.name);
    }
    forall x: Item, y: Item, z: Item | ItemCmp(x, y) <= 0 && ItemCmp(y, z) <= 0 ensures ItemCmp(x, z) <= 0 {
      if NameLess(x.name, y.name) && NameLess(y.name, z.name) {
        NameOrderTransitive(x.name, y.name, z.name);
      }
    }
  }

  lemma SortedAscends(items: seq<Item>)
    ensures Sorted(items) <==> T.Ascending(ItemCmp, items)
  {
    assert forall a, b | 0 <= a < b < |items| ::
             NameLess(items[a].name, items[b].name) <==> ItemCmp(items[a], items[b]) < 0;
  }

  /** There is one place only for a new entry in a sorted list. */
  lemma {:induction false} PlacedIsInserted(items: seq<Item>, it: Item, k: nat)
    requires k <= |items| && Sorted(items[..k] + [it] + items[k..])
    ensures items[..k] + [it] + items[k..] == DirDiff.Insert(items, it)
  {
    var s := items[..k] + [it] + items[k..];
    if k == 0 {
      if items != [] {
        assert s[0] == it && s[1] == items[0];
      }
    } else {
      assert s[0] == items[0] && s[k] == it;
      NameOrderTotal(items[0].name, it.name);
      var rest := items[1..];
      assert s[1..] == rest[..k - 1] + [it] + rest[k - 1..];
      PlacedIsInserted(rest, it, k - 1);
    }
  }

  /** Inserting an entry into the tree is inserting it into the list at its place in name order. */
  method InsertEntry(root: T.Tree<Item>, it: Item) returns (t: T.Tree<Item>)
    requires T.Balanced(root) && Sorted(T.Inorder(root)) && (forall x | x in T.Inorder(root) :: x.name != it.name)
    ensures T.Balanced(t) && Sorted(T.Inorder(t)) && T.Inorder(t) == DirDiff.Insert(T.Inorder(root), it)
  {
    ItemCmpOrders();
    SortedAscends(T.Inorder(root));
    var found;
    t, found := T.Insert(ItemCmp, root, it);
    SortedAscends(T.Inorder(t));
    ghost var items := T.Inorder(root);
    ghost var k :| 0 <= k <= |items| && T.Inorder(t) == items[..k] + [it] + items[k..];
    PlacedIsInserted(items, it, k);
  }

  /** Looking a name up in the tree is looking it up in the list. */
  method FindEntry(root: T.Tree<Item>, n: string) returns (r: Option<Item>)
    requires Sorted(T.Inorder(root))
    ensures r.Some? <==> Find(T.Inorder(root), n).Some?
    ensures r.Some? ==> r.value == T.Inorder(root)[Find(T.Inorder(root), n).value]
  {
    ItemCmpOrders();
    ghost var items := T.Inorder(root);
    SortedAscends(items);
    var key := Item(n, 0, Unknown, true, true, true);
    r := T.Find(ItemCmp, root, key);
    if r.Some? {
      FoundIs(items, r.value);
    } else {
      NotFound(items, key);
    }
  }

  lemma {:induction false} NotFound(items: seq<Item>, key: Item)
    requires forall y | y in items :: ItemCmp(key, y) != 0
    ensures Find(items, key.name).None?
  {
    var r := Find(items, key.name);
    if r.Some? {
      assert items[r.value] in items;
      NameOrderTotal(key.name, key.name);
    }
  }

  lemma {:induction false} FoundIs(items: seq<Item>, it: Item)
    requires Sorted(items) && it in items
    ensures Find(items, it.name).Some? && items[Find(items, it.name).value] == it
  {
    SortedIsUnique(items);
    var i :| 0 <= i < |items| && items[i] == it;
  }

  lemma CutOut(items: seq<Item>, a: seq<Item>, v: Item, b: seq<Item>, i: nat)
    requires UniqueNames(items) && items == a + [v] + b && i < |items| && items[i].name == v.name
    ensures a + b == items[..i] + items[i + 1..]
  {
    assert items[|a|] == v;
  }

  lemma OneCut(items: seq<Item>, left: seq<Item>, v: Item, i: nat)
    requires Sorted(items) && i < |items| && items[i].name == v.name
    requires T.IsCut(items, v, left)
    ensures left == items[..i] + items[i + 1..]
  {
    SortedIsUnique(items);
    var a, b :| items == a + [v] + b && left == a + b;
    CutOut(items, a, v, b, i);
  }

  lemma NotMissing(items: seq<Item>, i: nat)
    requires i < |items|
    ensures !forall y | y in items :: ItemCmp(items[i], y) != 0
  {
    assert items[i] in items && ItemCmp(items[i], items[i]) == 0 by {
      NameOrderTotal(items[i].name, items[i].name);
    }
  }

  /** Removing an entry from the tree cuts it out of the list. */
  method RemoveEntry(root: T.Tree<Item>, ghost i: nat, it: Item) returns (t: T.Tree<Item>)
    requires T.Balanced(root) && Sorted(T.Inorder(root)) && i < |T.Inorder(root)| && T.Inorder(root)[i] == it
    ensures T.Balanced(t) && T.Inorder(t) == T.Inorder(root)[..i] + T.Inorder(root)[i + 1..]
  {
    ItemCmpOrders();
    ghost var items := T.Inorder(root);
    SortedAscends(items);
    NotMissing(items, i);
    var found;
    t, found := T.Delete(ItemCmp, root, it);
    OneCut(items, T.Inorder(t), found.value, i);
  }

  // ------------------------------------------------------------------ watches

  function KeyCmp(a: Key, b: Key): int {
    if a.dev == b.dev then (if a.inode > b.inode then 1 else 0) - (if a.inode < b.inode then 1 else 0)
    else (if a.dev > b.dev then 1 else 0) - (if a.dev < b.dev then 1 else 0)
  }

  lemma KeyCmpOrders()
    ensures T.Comparison(KeyCmp)
    ensures forall a, b :: KeyCmp(a, b) == 0 <==> a == b
  {
  }

  /** The key that the tree derives from the first record of a watch. */
  function DerivedKey(g: Graph, k: Key): Key
    requires k in g.watches && g.watches[k].deps != []
  {
    KeyOf(g, g.watches[k].deps[0])
  }

  /**
   * Whatever record comes first, the key derived from it is the one the watch was inserted with, so
   * that adding and removing records never puts a watch out of order.
   */
  lemma KeysStay(g: Graph, k: Key)
    requires GraphOk(g) && k in g.watches
    ensures g.watches[k].deps != [] && DerivedKey(g, k) == k
    ensures forall d | d in g.watches[k].deps :: KeyOf(g, d) == k
  {
    assert WatchOk(g, k);
    assert g.watches[k].deps[0] in g.watches[k].deps;
  }

  /** The key a watch is compared by: derived from its first record; what is looked for has the key given. */
  function ComparedKey(g: Graph, k: Key): Key {
    if k in g.watches && g.watches[k].deps != [] then DerivedKey(g, k) else k
  }

  /** Watches, named by the keys they were inserted with, as the tree compares them while the records are as in `g`. */
  function WatchCmp(g: Graph): (Key, Key) -> int {
    (a, b) => KeyCmp(ComparedKey(g, a), ComparedKey(g, b))
  }

  lemma WatchCmpIs(g: Graph, a: Key, b: Key)
    requires GraphOk(g)
    ensures WatchCmp(g)(a, b) == KeyCmp(a, b)
  {
    if a in g.watches {
      KeysStay(g, a);
    }
    if b in g.watches {
      KeysStay(g, b);
    }
  }

  lemma WatchCmpOrders(g: Graph)
    ensures T.Comparison(WatchCmp(g))
  {
    KeyCmpOrders();
  }

  /** The tree holds the watches, in the order in which it compares them. */
  ghost predicate Indexes(g: Graph, root: T.Tree<Key>) {
    && T.Balanced(root) && T.Ascending(WatchCmp(g), T.Inorder(root))
    && (forall k :: k in T.Inorder(root) <==> k in g.watches)
  }

  /** Records come and go, and others come first: the tree still compares by the order it was built in. */
  lemma {:induction false} OrderStays(g: Graph, g': Graph, root: T.Tree<Key>)
    requires GraphOk(g) && GraphOk(g') && T.Ascending(WatchCmp(g), T.Inorder(root))
    ensures T.Ascending(WatchCmp(g'), T.Inorder(root))
  {
    var s := T.Inorder(root);
    forall i, j | 0 <= i < j < |s| ensures WatchCmp(g')(s[i], s[j]) < 0 {
      WatchCmpIs(g, s[i], s[j]);
      WatchCmpIs(g', s[i], s[j]);
    }
  }

  lemma StillIndexes(g: Graph, g': Graph, root: T.Tree<Key>)
    requires GraphOk(g) && GraphOk(g') && Indexes(g, root) && g'.watches.Keys == g.watches.Keys
    ensures Indexes(g', root)
  {
    OrderStays(g, g', root);
  }

  /** Whatever happened to the records since the tree was built, a watch is found exactly if it is there. */
  method FindWatch(ghost g0: Graph, g: Graph, root: T.Tree<Key>, k: Key) returns (r: Option<Key>)
    requires GraphOk(g0) && GraphOk(g) && Indexes(g0, root) && g.watches.Keys == g0.watches.Keys
    ensures r == if k in g.watches then Some(k) else None
  {
    StillIndexes(g0, g, root);
    WatchCmpOrders(g);
    KeyCmpOrders();
    r := T.Find(WatchCmp(g), root, k);
    WatchCmpIs(g, k, if r.Some? then r.value else k);
  }

  lemma PlacedWatch(s: seq<Key>, t: seq<Key>, k: Key, i: nat)
    requires i <= |s| && t == s[..i] + [k] + s[i..]
    ensures forall x :: x in t <==> x in s || x == k
  {
    assert t[i] == k;
    forall x | x in s ensures x in t {
      var j :| 0 <= j < |s| && s[j] == x;
      assert t[if j < i then j else j + 1] == x;
    }
  }

  /** A new watch has its first record when it goes into the tree, and the tree holds it then. */
  method InsertWatch(ghost g: Graph, g': Graph, root: T.Tree<Key>, k: Key) returns (t: T.Tree<Key>)
    requires GraphOk(g) && GraphOk(g') && Indexes(g, root) && k !in g.watches && g'.watches.Keys == g.watches.Keys + {k}
    ensures Indexes(g', t)
  {
    OrderStays(g, g', root);
    WatchCmpOrders(g');
    KeyCmpOrders();
    var found;
    t, found := T.Insert(WatchCmp(g'), root, k);
    WatchCmpIs(g', k, if found.Some? then found.value else k);
    ghost var i :| 0 <= i <= |T.Inorder(root)| && T.Inorder(t) == T.Inorder(root)[..i] + [k] + T.Inorder(root)[i..];
    PlacedWatch(T.Inorder(root), T.Inorder(t), k, i);
  }

  lemma CutWatch(g: Graph, s: seq<Key>, t: seq<Key>, k: Key)
    requires T.Ascending(WatchCmp(g), s) && T.IsCut(s, k, t)
    ensures forall x :: x in t <==> x in s && x != k
  {
    var a, b :| s == a + [k] + b && t == a + b;
    assert WatchCmp(g)(k, k) == 0;
    assert s[|a|] == k;
    forall x | x in a || x in b ensures x in s && x != k {
      if x in a {
        var i :| 0 <= i < |a| && a[i] == x;
        assert s[i] == x && WatchCmp(g)(s[i], s[|a|]) < 0;
      } else {
        var i :| 0 <= i < |b| && b[i] == x;
        assert s[|a| + 1 + i] == x && WatchCmp(g)(s[|a|], s[|a| + 1 + i]) < 0;
      }
    }
  }

  /** A watch that has lost its last record goes from the tree, and no other does. */
  method RemoveWatch(g: Graph, ghost g': Graph, root: T.Tree<Key>, k: Key) returns (t: T.Tree<Key>)
    requires GraphOk(g) && GraphOk(g') && Indexes(g, root) && k in g.watches && g'.watches.Keys == g.watches.Keys - {k}
    ensures Indexes(g', t)
  {
    WatchCmpOrders(g);
    KeyCmpOrders();
    WatchCmpIs(g, k, k);
    assert k in T.Inorder(root);
    var found;
    t, found := T.Delete(WatchCmp(g), root, k);
    WatchCmpIs(g, k, found.value);
    CutWatch(g, T.Inorder(root), T.Inorder(t), k);
    OrderStays(g, g', t);
  }
}
