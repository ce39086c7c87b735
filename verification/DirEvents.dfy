/**
 * The events a directory diff reports, and what a reader who replays them sees.
 */
module DirEvents {
  import opened Wrappers

  type Name = string

  /** A directory as a reader knows it: which file each name stands for. */
  type Dir = map<Name, nat>

  datatype Event =
    | Removed(name: Name, inode: nat)
    | Replaced(name: Name, inode: nat)
    | Moved(from: Name, to: Name, inode: nat)
    | Added(name: Name, inode: nat)

  /** A replaced file produces no event of its own: the rename that overwrites it tells the reader. */
  function Apply(d: Dir, e: Event): Dir {
    match e
    case Removed(n, _) => d - {n}
    case Replaced(_, _) => d
    case Moved(f, t, i) => (d - {f})[t := i]
    case Added(n, i) => d[n := i]
  }

  function Replay(d: Dir, es: seq<Event>): Dir {
    if es == [] then d else Apply(Replay(d, es[..|es| - 1]), es[|es| - 1])
  }

  /** The name disappears from the directory. */
  predicate Vanishes(e: Event, n: Name) {
    (e.Removed? && e.name == n) || (e.Moved? && e.from == n)
  }

  /** The name appears in the directory. */
  predicate Appears(e: Event, n: Name) {
    (e.Added? && e.name == n) || (e.Moved? && e.to == n)
  }

  function Lookup(d: Dir, n: Name): Option<nat> {
    if n in d then Some(d[n]) else None
  }

  /** The old entry `n` is dealt with by this event: removed, replaced or renamed away. */
  predicate Leaves(e: Event, n: Name) {
    Vanishes(e, n) || (e.Replaced? && e.name == n)
  }

  ghost predicate ExactlyOne(es: seq<Event>, role: Event -> bool) {
    exists p :: 0 <= p < |es| && role(es[p]) && forall q | 0 <= q < |es| && role(es[q]) :: q == p
  }

  /**
   * A disappearance names the file that is there; a file that turns up takes a name that is
   * free or whose holder was reported replaced.
   */
  ghost predicate StepFaithful(d: Dir, es: seq<Event>, p: nat)
    requires p < |es|
  {
    var now := Replay(d, es[..p]);
    match es[p]
    case Removed(n, i) => Lookup(now, n) == Some(i)
    case Replaced(n, i) => Lookup(now, n) == Some(i)
    case Moved(f, t, i) => Lookup(now, f) == Some(i) && (t in now ==> Replaced(t, now[t]) in es[..p])
    case Added(n, i) => n !in now
  }

  ghost predicate Faithful(d: Dir, es: seq<Event>) {
    forall p | 0 <= p < |es| :: StepFaithful(d, es, p)
  }

  /** No name is reported to appear before it is reported to disappear. */
  ghost predicate Ordered(es: seq<Event>) {
    forall p, q, n | 0 <= p < q < |es| && Appears(es[p], n) :: !Vanishes(es[q], n)
  }

  lemma {:induction false} ReplayAppend(d: Dir, x: seq<Event>, y: seq<Event>)
    ensures Replay(d, x + y) == Replay(Replay(d, x), y)
  {
    if y == [] {
      assert x + y == x;
    } else {
      assert (x + y)[..|x + y| - 1] == x + y[..|y| - 1];
      ReplayAppend(d, x, y[..|y| - 1]);
    }
  }

  /** A name no event mentions keeps its file. */
  lemma {:induction false} Untouched(d: Dir, es: seq<Event>, n: Name)
    requires forall p | 0 <= p < |es| :: !Vanishes(es[p], n) && !Appears(es[p], n)
    ensures Lookup(Replay(d, es), n) == Lookup(d, n)
  {
    if es != [] {
      Untouched(d, es[..|es| - 1], n);
      var last := es[|es| - 1];
      assert !Vanishes(last, n) && !Appears(last, n);
    }
  }

  /** The last event that mentions a name decides what it stands for. */
  lemma {:induction false} LastWord(d: Dir, es: seq<Event>, n: Name, p: nat)
    requires p < |es| && (Vanishes(es[p], n) || Appears(es[p], n))
    requires forall q | p < q < |es| :: !Vanishes(es[q], n) && !Appears(es[q], n)
    ensures Lookup(Replay(d, es), n) == if Appears(es[p], n) then Some(es[p].inode) else None
  {
    var head, tail := es[..p + 1], es[p + 1..];
    assert es == head + tail;
    ReplayAppend(d, head, tail);
    assert head[..p] == es[..p] && head[p] == es[p];
    Untouched(Replay(d, head), tail, n);
  }
}
