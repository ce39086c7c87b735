/**
 * The meaning of a directory diff: replaying what is reported turns the old directory into the
 * new one, except for the names of renames that were forced to break a circular rename.
 */
module DiffMeaning {
  import opened Wrappers
  import opened DirEvents
  import opened RenameGraph
  import opened DepList
  import opened DiffSpec

  /** The file a name stands for after the changes. */
  ghost function Goal(before: seq<Item>, after: seq<Change>, n: Name): (r: Option<nat>)
    requires ReadState(before, after)
    ensures forall j | 0 <= j < |after| && after[j].item.name == n :: r == Some(after[j].item.inode)
    ensures (forall j | 0 <= j < |after| :: after[j].item.name != n) ==>
              forall i | 0 <= i < |before| && before[i].name == n ::
                r == if before[i].intact then Some(before[i].inode) else None
    ensures (forall j | 0 <= j < |after| :: after[j].item.name != n)
            && (forall i | 0 <= i < |before| :: before[i].name != n) ==>
              r == None
  {
    if j :| 0 <= j < |after| && after[j].item.name == n then Some(after[j].item.inode)
    else if i :| 0 <= i < |before| && before[i].name == n && before[i].intact then Some(before[i].inode)
    else None
  }

  ghost predicate IsForcedName(after: seq<Change>, forced: set<nat>, n: Name) {
    exists j :: j in forced && j < |after| && after[j].item.name == n
  }

  ghost function From(before: seq<Item>, after: seq<Change>): (from: seq<Option<nat>>)
    requires ReadState(before, after)
    ensures from == Renames(before, after) && MatchOk(before, after, from, |before|)
  {
    MatchCorrect(before, after, |before|);
    Renames(before, after)
  }

  lemma VanishesOnce(before: seq<Item>, after: seq<Change>, acts: seq<Act>, forced: set<nat>, n: Name, p: nat, q: nat)
    requires ReadState(before, after) && Plan(before, after, acts, forced)
    requires p < |acts| && q < |acts|
    requires var es := Events(before, after, acts); Leaves(es[p], n) && Leaves(es[q], n)
    ensures p == q
  {
    var from := From(before, after);
    assert ActOk(before, after, from, acts[p]) && ActOk(before, after, from, acts[q]);
  }

  lemma AppearsOnce(before: seq<Item>, after: seq<Change>, acts: seq<Act>, forced: set<nat>, n: Name, p: nat, q: nat)
    requires ReadState(before, after) && Plan(before, after, acts, forced)
    requires p < |acts| && q < |acts|
    requires var es := Events(before, after, acts); Appears(es[p], n) && Appears(es[q], n)
    ensures p == q
  {
    var from := From(before, after);
    assert ActOk(before, after, from, acts[p]) && ActOk(before, after, from, acts[q]);
  }

  /** A name that is reported to appear before it is reported to vanish is the target of a forced rename. */
  lemma AppearThenVanish(before: seq<Item>, after: seq<Change>, acts: seq<Act>, forced: set<nat>, n: Name, p: nat,
                         q: nat)
    requires ReadState(before, after) && Plan(before, after, acts, forced)
    requires p < q < |acts|
    requires var es := Events(before, after, acts); Appears(es[p], n) && Vanishes(es[q], n)
    ensures acts[p].Move? && acts[p].j in forced && after[acts[p].j].item.name == n
  {
    var from := From(before, after);
    assert ActOk(before, after, from, acts[p]) && ActOk(before, after, from, acts[q]);
    assert acts[p].Move? && acts[q].Move?;
    assert ChangeOk(before, after[acts[p].j]);
    assert Blocks(Links(before, after), acts[p].j, acts[q].j);
  }

  /** The target of a forced rename does vanish later. */
  lemma ForcedVanishes(before: seq<Item>, after: seq<Change>, acts: seq<Act>, forced: set<nat>, p: nat) returns (q: nat)
    requires ReadState(before, after) && Plan(before, after, acts, forced)
    requires p < |acts| && acts[p].Move? && acts[p].j in forced
    ensures p < q < |acts|
    ensures Vanishes(Events(before, after, acts)[q], after[acts[p].j].item.name)
  {
    var from, j := From(before, after), acts[p].j;
    assert ActOk(before, after, from, acts[p]);
    var k :| Blocks(Links(before, after), j, k);
    assert ActOk(before, after, from, Move(k));
    assert Move(k) in acts;
    q :| 0 <= q < |acts| && acts[q] == Move(k);
    assert ChangeOk(before, after[j]);
  }

  /** Every entry of the new listing is reported to appear. */
  lemma NewAppears(before: seq<Item>, after: seq<Change>, acts: seq<Act>, forced: set<nat>, j: nat) returns (p: nat)
    requires ReadState(before, after) && Plan(before, after, acts, forced) && j < |after|
    ensures p < |acts| && !acts[p].Drop? && acts[p].j == j
    ensures Appears(Events(before, after, acts)[p], after[j].item.name)
  {
    var from := From(before, after);
    var x := if from[j].Some? then Move(j) else Create(j);
    assert ActOk(before, after, from, x);
    assert x in acts;
    p :| 0 <= p < |acts| && acts[p] == x;
  }

  /** Every old entry that is not unchanged leaves. */
  lemma OldLeaves(before: seq<Item>, after: seq<Change>, acts: seq<Act>, forced: set<nat>, i: nat) returns (p: nat)
    requires ReadState(before, after) && Plan(before, after, acts, forced) && i < |before| && !before[i].intact
    ensures p < |acts| && Leaves(Events(before, after, acts)[p], before[i].name)
    ensures acts[p].Drop? ==> acts[p].i == i
  {
    var from := From(before, after);
    var x := if IsGone(before, from, i) then Drop(i) else var j :| 0 <= j < |from| && from[j] == Some(i); Move(j);
    assert ActOk(before, after, from, x);
    assert x in acts;
    p :| 0 <= p < |acts| && acts[p] == x;
  }

  lemma DirOfLookup(items: seq<Item>, n: Name)
    requires UniqueNames(items)
    ensures forall i | 0 <= i < |items| && items[i].name == n :: Lookup(DirOf(items), n) == Some(items[i].inode)
    ensures (forall i | 0 <= i < |items| :: items[i].name != n) ==> Lookup(DirOf(items), n) == None
  {
  }

  /** What a reader who replays the report believes about one name. */
  lemma ReplayName(before: seq<Item>, after: seq<Change>, acts: seq<Act>, forced: set<nat>, n: Name)
    requires ReadState(before, after) && Plan(before, after, acts, forced)
    ensures Lookup(Replay(DirOf(before), Events(before, after, acts)), n)
            == if IsForcedName(after, forced, n) then None else Goal(before, after, n)
  {
    if j :| 0 <= j < |after| && after[j].item.name == n {
      ReplayNew(before, after, acts, forced, j);
    } else {
      ReplayOld(before, after, acts, forced, n);
    }
  }

  lemma ReplayNew(before: seq<Item>, after: seq<Change>, acts: seq<Act>, forced: set<nat>, j: nat)
    requires ReadState(before, after) && Plan(before, after, acts, forced) && j < |after|
    ensures Lookup(Replay(DirOf(before), Events(before, after, acts)), after[j].item.name)
            == if j in forced then None else Some(after[j].item.inode)
  {
    var es, n := Events(before, after, acts), after[j].item.name;
    var p := NewAppears(before, after, acts, forced, j);
    forall r | 0 <= r < |es| && Appears(es[r], n) ensures r == p {
      AppearsOnce(before, after, acts, forced, n, p, r);
    }
    if j in forced {
      assert ActOk(before, after, From(before, after), acts[p]);
      var k :| Blocks(Links(before, after), j, k);
      var q := ForcedVanishes(before, after, acts, forced, p);
      forall r | q < r < |es| ensures !Vanishes(es[r], n) {
        if Vanishes(es[r], n) {
          VanishesOnce(before, after, acts, forced, n, q, r);
        }
      }
      LastWord(DirOf(before), es, n, q);
    } else {
      forall r | p < r < |es| ensures !Vanishes(es[r], n) {
        if Vanishes(es[r], n) {
          AppearThenVanish(before, after, acts, forced, n, p, r);
        }
      }
      LastWord(DirOf(before), es, n, p);
    }
  }

  lemma ReplayGone(before: seq<Item>, after: seq<Change>, acts: seq<Act>, forced: set<nat>, i: nat)
    requires ReadState(before, after) && Plan(before, after, acts, forced) && i < |before| && !before[i].intact
    requires forall j | 0 <= j < |after| :: after[j].item.name != before[i].name
    requires forall r | 0 <= r < |Events(before, after, acts)| ::
               !Appears(Events(before, after, acts)[r], before[i].name)
    ensures Lookup(Replay(DirOf(before), Events(before, after, acts)), before[i].name) == None
  {
    var es, n := Events(before, after, acts), before[i].name;
    var p := OldLeaves(before, after, acts, forced, i);
    forall j | 0 <= j < |after| ensures after[j].replacee != Some(i) {
      assert ChangeOk(before, after[j]);
    }
    assert Vanishes(es[p], n);
    forall r | p < r < |es| ensures !Vanishes(es[r], n) {
      if Vanishes(es[r], n) {
        VanishesOnce(before, after, acts, forced, n, p, r);
      }
    }
    LastWord(DirOf(before), es, n, p);
  }

  lemma ReplayOld(before: seq<Item>, after: seq<Change>, acts: seq<Act>, forced: set<nat>, n: Name)
    requires ReadState(before, after) && Plan(before, after, acts, forced)
    requires forall j | 0 <= j < |after| :: after[j].item.name != n
    ensures Lookup(Replay(DirOf(before), Events(before, after, acts)), n) == Goal(before, after, n)
  {
    var es, from := Events(before, after, acts), From(before, after);
    forall r | 0 <= r < |es| ensures !Appears(es[r], n) {
      assert ActOk(before, after, from, acts[r]);
    }
    DirOfLookup(before, n);
    if i :| 0 <= i < |before| && before[i].name == n && !before[i].intact {
      ReplayGone(before, after, acts, forced, i);
    } else {
      forall r | 0 <= r < |es| ensures !Vanishes(es[r], n) {
        assert ActOk(before, after, from, acts[r]);
      }
      Untouched(DirOf(before), es, n);
    }
  }

  // ------------------------------------------------------------------ the report can be carried out

  /** No event before `p` mentions the old name `n`. */
  lemma OldNameStands(before: seq<Item>, after: seq<Change>, acts: seq<Act>, i: nat, p: nat)
    requires ReadState(before, after) && Plan(before, after, acts, {}) && i < |before| && p <= |acts|
    requires var es := Events(before, after, acts);
             forall r | 0 <= r < p :: !Vanishes(es[r], before[i].name) && !Appears(es[r], before[i].name)
    ensures Lookup(Replay(DirOf(before), Events(before, after, acts)[..p]), before[i].name) == Some(before[i].inode)
  {
    DirOfLookup(before, before[i].name);
    Untouched(DirOf(before), Events(before, after, acts)[..p], before[i].name);
  }

  /** A dropped entry, or the source of a rename, is still in place when it is reported. */
  lemma SourceInPlace(before: seq<Item>, after: seq<Change>, acts: seq<Act>, i: nat, p: nat)
    requires ReadState(before, after) && Plan(before, after, acts, {}) && i < |before| && p < |acts|
    requires Leaves(Events(before, after, acts)[p], before[i].name)
    ensures Lookup(Replay(DirOf(before), Events(before, after, acts)[..p]), before[i].name) == Some(before[i].inode)
  {
    var es, n, from := Events(before, after, acts), before[i].name, From(before, after);
    assert ActOk(before, after, from, acts[p]);
    forall r | 0 <= r < p ensures !Vanishes(es[r], n) && !Appears(es[r], n) {
      if Vanishes(es[r], n) {
        VanishesOnce(before, after, acts, {}, n, r, p);
      }
      if Appears(es[r], n) {
        assert ActOk(before, after, from, acts[r]);
        if Vanishes(es[p], n) {
          AppearThenVanish(before, after, acts, {}, n, r, p);
        }
      }
    }
    OldNameStands(before, after, acts, i, p);
  }

  /** An old entry whose name is taken over by a rename is reported as replaced before that. */
  lemma ReplacedStands(before: seq<Item>, after: seq<Change>, acts: seq<Act>, i: nat, p: nat, q: nat)
    requires ReadState(before, after) && Plan(before, after, acts, {}) && p < |acts| && q < |acts| && !acts[p].Drop?
    requires i < |before| && acts[p].j < |after| && after[acts[p].j].item.name == before[i].name
    requires Appears(Events(before, after, acts)[p], before[i].name)
    requires forall r | 0 <= r < p :: !Appears(Events(before, after, acts)[r], before[i].name)
    requires Leaves(Events(before, after, acts)[q], before[i].name)
    requires !Vanishes(Events(before, after, acts)[q], before[i].name) && acts[q] == Drop(i)
    ensures var es, n := Events(before, after, acts), before[i].name;
            var now := Replay(DirOf(before), es[..p]);
            n in now && acts[p].Move? && Replaced(n, now[n]) in es[..p]
  {
    var es, from, n := Events(before, after, acts), From(before, after), before[i].name;
    assert ActOk(before, after, from, acts[q]) && ActOk(before, after, from, acts[p]);
    assert es[q] == Replaced(n, before[i].inode);
    assert q < p && es[..p][q] == es[q];
    forall r | 0 <= r < p ensures !Vanishes(es[r], n) {
      if Vanishes(es[r], n) {
        VanishesOnce(before, after, acts, {}, n, r, q);
      }
    }
    OldNameStands(before, after, acts, i, p);
    var k :| 0 <= k < |after| && from[k].Some? && after[k].replacee == Some(i);
    assert ChangeOk(before, after[k]);
  }

  /** The name a rename or a creation takes is free, or its holder was reported replaced. */
  lemma TargetFree(before: seq<Item>, after: seq<Change>, acts: seq<Act>, p: nat)
    requires ReadState(before, after) && Plan(before, after, acts, {}) && p < |acts| && !acts[p].Drop?
    requires acts[p].j < |after| && Appears(Events(before, after, acts)[p], after[acts[p].j].item.name)
    ensures var es, n := Events(before, after, acts), after[acts[p].j].item.name;
            var now := Replay(DirOf(before), es[..p]);
            n in now ==> acts[p].Move? && Replaced(n, now[n]) in es[..p]
  {
    var es, from, n := Events(before, after, acts), From(before, after), after[acts[p].j].item.name;
    forall r | 0 <= r < p ensures !Appears(es[r], n) {
      if Appears(es[r], n) {
        AppearsOnce(before, after, acts, {}, n, r, p);
      }
    }
    assert ChangeOk(before, after[acts[p].j]);
    if i :| 0 <= i < |before| && before[i].name == n {
      var q := OldLeaves(before, after, acts, {}, i);
      assert ActOk(before, after, from, acts[q]) && ActOk(before, after, from, acts[p]);
      if Vanishes(es[q], n) {
        VanishedIsFree(before, after, acts, n, p, q);
      } else {
        ReplacedStands(before, after, acts, i, p, q);
      }
    } else {
      forall r | 0 <= r < p ensures !Vanishes(es[r], n) {
        assert ActOk(before, after, from, acts[r]);
      }
      DirOfLookup(before, n);
      Untouched(DirOf(before), es[..p], n);
    }
  }

  lemma VanishedIsFree(before: seq<Item>, after: seq<Change>, acts: seq<Act>, n: Name, p: nat, q: nat)
    requires ReadState(before, after) && Plan(before, after, acts, {}) && p < |acts| && q < |acts| && p != q
    requires var es := Events(before, after, acts); Appears(es[p], n) && Vanishes(es[q], n)
    ensures Lookup(Replay(DirOf(before), Events(before, after, acts)[..p]), n) == None
  {
    var es := Events(before, after, acts);
    if p < q {
      AppearThenVanish(before, after, acts, {}, n, p, q);
    }
    forall r | q < r < p ensures !Vanishes(es[r], n) && !Appears(es[r], n) {
      if Vanishes(es[r], n) {
        VanishesOnce(before, after, acts, {}, n, r, q);
      }
      if Appears(es[r], n) {
        AppearsOnce(before, after, acts, {}, n, r, p);
      }
    }
    LastWord(DirOf(before), es[..p], n, q);
  }

  // ------------------------------------------------------------------ main results

  ghost function ForcedNames(after: seq<Change>, forced: set<nat>): set<Name> {
    set j | j in forced && j < |after| :: after[j].item.name
  }

  /**
   * Replaying the report gives the new directory without the names of the forced renames; so it
   * gives the new directory exactly when no rename was forced.
   */
  lemma ReplayMeaning(before: seq<Item>, after: seq<Change>, acts: seq<Act>, forced: set<nat>, goal: Dir)
    requires ReadState(before, after) && Plan(before, after, acts, forced)
    requires forall n :: Lookup(goal, n) == Goal(before, after, n)
    ensures Replay(DirOf(before), Events(before, after, acts)) == goal - ForcedNames(after, forced)
    ensures Replay(DirOf(before), Events(before, after, acts)) == goal <==> forced == {}
  {
    var seen := Replay(DirOf(before), Events(before, after, acts));
    forall n ensures Lookup(seen, n) == Lookup(goal - ForcedNames(after, forced), n) {
      ReplayName(before, after, acts, forced, n);
    }
    SameLookup(seen, goal - ForcedNames(after, forced));
    if forced != {} {
      var j :| j in forced;
      var k :| Blocks(Links(before, after), j, k);
      ReplayNew(before, after, acts, forced, j);
      assert Lookup(goal, after[j].item.name) == Goal(before, after, after[j].item.name);
    }
  }

  lemma SameLookup(a: Dir, b: Dir)
    requires forall n :: Lookup(a, n) == Lookup(b, n)
    ensures a == b
  {
    forall n ensures n in a <==> n in b {
      assert Lookup(a, n) == Lookup(b, n);
    }
    forall n | n in a ensures a[n] == b[n] {
      assert Lookup(a, n) == Lookup(b, n);
    }
  }

  /**
   * A report is in order, and can be carried out step by step, exactly when no rename was forced.
   */
  lemma ReportOrder(before: seq<Item>, after: seq<Change>, acts: seq<Act>, forced: set<nat>)
    requires ReadState(before, after) && Plan(before, after, acts, forced)
    ensures Ordered(Events(before, after, acts)) <==> forced == {}
    ensures forced == {} ==> Faithful(DirOf(before), Events(before, after, acts))
  {
    var es, from := Events(before, after, acts), From(before, after);
    if forced == {} {
      forall p, q, n | 0 <= p < q < |es| && Appears(es[p], n) ensures !Vanishes(es[q], n) {
        if Vanishes(es[q], n) {
          AppearThenVanish(before, after, acts, forced, n, p, q);
        }
      }
      forall p | 0 <= p < |es| ensures StepFaithful(DirOf(before), es, p) {
        assert ActOk(before, after, from, acts[p]);
        match acts[p]
        case Drop(i) => SourceInPlace(before, after, acts, i, p);
        case Move(j) =>
          SourceInPlace(before, after, acts, from[j].value, p);
          TargetFree(before, after, acts, p);
        case Create(j) => TargetFree(before, after, acts, p);
      }
      assert Faithful(DirOf(before), es);
    } else {
      var j :| j in forced;
      var k :| Blocks(Links(before, after), j, k);
      var p := NewAppears(before, after, acts, forced, j);
      assert ActOk(before, after, from, acts[p]);
      var q := ForcedVanishes(before, after, acts, forced, p);
      assert !Ordered(es);
    }
  }

  /** Every old entry that changed and every new entry gets exactly one callback. */
  lemma OneRoleEach(before: seq<Item>, after: seq<Change>, acts: seq<Act>, forced: set<nat>)
    requires ReadState(before, after) && Plan(before, after, acts, forced)
    ensures forall i | 0 <= i < |before| && !before[i].intact ::
              ExactlyOne(Events(before, after, acts), e => Leaves(e, before[i].name))
    ensures forall i | 0 <= i < |before| && before[i].intact ::
              forall p | 0 <= p < |acts| :: !Leaves(Events(before, after, acts)[p], before[i].name)
    ensures forall j | 0 <= j < |after| ::
              ExactlyOne(Events(before, after, acts), e => Appears(e, after[j].item.name))
  {
    var es, from := Events(before, after, acts), From(before, after);
    forall i | 0 <= i < |before| && !before[i].intact ensures ExactlyOne(es, e => Leaves(e, before[i].name)) {
      var p := OldLeaves(before, after, acts, forced, i);
      forall q | 0 <= q < |es| && Leaves(es[q], before[i].name) ensures q == p {
        VanishesOnce(before, after, acts, forced, before[i].name, p, q);
      }
    }
    forall i, p | 0 <= i < |before| && before[i].intact && 0 <= p < |acts| ensures !Leaves(es[p], before[i].name) {
      assert ActOk(before, after, from, acts[p]);
    }
    forall j | 0 <= j < |after| ensures ExactlyOne(es, e => Appears(e, after[j].item.name)) {
      var p := NewAppears(before, after, acts, forced, j);
      forall q | 0 <= q < |es| && Appears(es[q], after[j].item.name) ensures q == p {
        AppearsOnce(before, after, acts, forced, after[j].item.name, p, q);
      }
    }
  }
}
