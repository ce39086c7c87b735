/** What holds in every interleaving of user threads and workers. */
module ProtocolRuns {
  import opened Wrappers
  import opened Protocol
  import opened ProtocolInv

  /** A run from a state without workers. */
  ghost predicate IsRun(states: seq<State>, steps: seq<Step>) {
    && |states| == |steps| + 1
    && Init(states[0])
    && (forall i | 0 <= i < |steps| :: Enabled(states[i], steps[i]) && states[i + 1] == Do(states[i], steps[i]))
  }

  lemma {:induction false} RunsKeepInv(states: seq<State>, steps: seq<Step>, i: nat)
    requires IsRun(states, steps) && i < |states|
    ensures Inv(states[i])
  {
    if i == 0 {
      InitInv(states[0]);
    } else {
      RunsKeepInv(states, steps, i - 1);
      StepKeepsInv(states[i - 1], steps[i - 1]);
    }
  }

  /**
   * A worker is in memory as long as a thread holds a reference to it; it is freed only when no
   * thread holds one and none can get one any more; listed workers have distinct descriptors.
   */
  lemma WorkerLifetime(states: seq<State>, steps: seq<Step>, i: nat)
    requires IsRun(states, steps) && i < |states|
    ensures forall t, w | HoldsRef(Pc(states[i], t), w) :: w in states[i].workers
    ensures i < |steps| && steps[i].Work? && steps[i].k.Free? ==>
              && (forall t :: !HoldsRef(Pc(states[i], t), steps[i].w) && !Creates(Pc(states[i], t), steps[i].w))
              && steps[i].w !in states[i].listed
              && states[i].workers[steps[i].w].lock.None?
    ensures forall v, w | v in states[i].listed && w in states[i].listed ::
              && v in states[i].workers && w in states[i].workers
              && (states[i].workers[v].fd == states[i].workers[w].fd != -1 ==> v == w)
  {
    RunsKeepInv(states, steps, i);
    var s := states[i];
    forall t, w | HoldsRef(Pc(s, t), w) ensures w in s.workers {
      assert PairOk(s, t, w);
    }
    if i < |steps| && steps[i].Work? && steps[i].k.Free? {
      var w := steps[i].w;
      assert WorkEnabled(s, w, Free) && WorkerOk(s, w);
      forall t ensures !HoldsRef(Pc(s, t), w) && !Creates(Pc(s, t), w) && s.workers[w].lock != Some(User(t)) {
        assert PairOk(s, t, w);
      }
    }
  }

  /** At most one command is outstanding per worker, and a live worker keeps no wake-up for a later one. */
  lemma OneCommand(states: seq<State>, steps: seq<Step>, i: nat, w: Wid)
    requires IsRun(states, steps) && i < |states|
    ensures forall t, u | Pc(states[i], t) == Waiting(w) && HoldsLock(Pc(states[i], u), w) :: t == u
    ensures w in states[i].workers && Alive(states[i].workers[w].pc) && (forall t :: Pc(states[i], t) != Waiting(w)) ==>
              states[i].workers[w].pc.Running? && states[i].workers[w].sema == 0 && states[i].workers[w].trigger.None?
  {
    RunsKeepInv(states, steps, i);
    var s := states[i];
    forall t, u | Pc(s, t) == Waiting(w) && HoldsLock(Pc(s, u), w) ensures t == u {
      assert PairOk(s, t, w) && PairOk(s, u, w);
    }
    assert WorkingOk(s, w) && WakeOk(s, w);
  }

  /**
   * A call that reached a worker returns the result of its own command or EBADF; woken by a live
   * worker it is its own command's result.
   */
  lemma OwnResult(states: seq<State>, steps: seq<Step>, i: nat)
    requires IsRun(states, steps) && i < |steps| && steps[i].Cmd?
    ensures var th := states[i].threads[steps[i].t];
            && (steps[i].c.Unref? ==> th.result == Ebadf || th.result == Own(th.call))
            && (steps[i].c.Wake? && Alive(states[i].workers[th.pc.w].pc) ==> th.result == Own(th.call))
  {
    RunsKeepInv(states, steps, i);
    var s, t := states[i], steps[i].t;
    assert CmdEnabled(s, t, steps[i].c);
    assert ThreadOk(s, t);
    if steps[i].c.Wake? {
      assert WakeOk(s, Pc(s, t).w) && PairOk(s, t, Pc(s, t).w);
    }
  }

  /** The worker writes a result only into the command of a thread that still waits for it. */
  lemma ResultWanted(states: seq<State>, steps: seq<Step>, i: nat)
    requires IsRun(states, steps) && i < |steps| && steps[i].Work? && steps[i].k.Finish?
    ensures var pc := states[i].workers[steps[i].w].pc;
            Pc(states[i], pc.t) == Waiting(steps[i].w) && states[i].threads[pc.t].call == pc.call
  {
    RunsKeepInv(states, steps, i);
    assert WorkEnabled(states[i], steps[i].w, Finish) && WorkingOk(states[i], steps[i].w);
  }

  // ------------------------------------------------------------------ nobody is stuck

  /**
   * A step that brings a call or the death of a worker forward. That a call fails counts only where it has to:
   * a command cannot be posted to a worker that has closed its queue.
   */
  predicate Forward(s: State, step: Step) {
    match step
    case Cmd(t, c) => !c.Call? && (c.NotifyFail? ==> !CmdEnabled(s, t, NotifyOk))
    case New(_, n) => !n.Count? && !n.CreateFail?
    case Work(_, k) => !k.Die? && !k.DrainLock?
    case SetLimit(_) => false
  }

  predicate InCall(s: State, t: Tid) {
    !Pc(s, t).Out?
  }

  predicate Busy(s: State, w: Wid) {
    w in s.workers && !s.workers[w].pc.Running?
  }

  lemma WriterMoves(s: State) returns (step: Step)
    requires Inv(s) && s.writer.Some?
    ensures Enabled(s, step) && Forward(s, step)
  {
    match s.writer.value
    case User(t) =>
      assert ThreadOk(s, t);
      if Pc(s, t).Inserting? {
        assert PairOk(s, t, Pc(s, t).w);
        step := New(t, Insert);
      } else {
        step := New(t, WUnlock);
      }
    case Worker(w) =>
      assert WorkerOk(s, w);
      match s.workers[w].pc
      case Erasing => step := Work(w, Unlink);
      case Unlinked => step := Work(w, ClearFd);
      case _ => step := Work(w, EraseUnlock);
  }

  lemma ReaderMoves(s: State, t: Tid) returns (step: Step)
    requires Inv(s) && t in s.readers
    ensures Enabled(s, step) && Forward(s, step)
  {
    assert ThreadOk(s, t);
    if Pc(s, t).Referenced? {
      step := Cmd(t, RUnlock);
    } else if w :| w in s.listed && w in s.workers && s.workers[w].fd == Pc(s, t).fd {
      step := Cmd(t, Ref(w));
    } else {
      step := Cmd(t, Miss);
    }
  }

  lemma WaiterMoves(s: State, t: Tid) returns (step: Step)
    requires Inv(s) && ListFree(s) && Pc(s, t).Waiting?
    ensures Enabled(s, step) && Forward(s, step)
  {
    assert Promised(s, t);
    var w := Pc(s, t).w;
    assert WorkerOk(s, w) && WorkingOk(s, w);
    var k := s.workers[w];
    if k.sema > 0 {
      step := Cmd(t, Wake);
    } else {
      match k.pc
      case Running => step := Work(w, Take);
      case Taken(_, _) => step := Work(w, Finish);
      case Posting(_, _) => step := Work(w, Post);
      case WantErase => step := Work(w, EraseLock);
      case _ => step := Work(w, DeathPost);
    }
  }

  lemma OwnerMoves(s: State, t: Tid, w: Wid) returns (step: Step)
    requires Inv(s) && ListFree(s) && HoldsLock(Pc(s, t), w)
    ensures Enabled(s, step) && Forward(s, step)
  {
    assert PairOk(s, t, w);
    match Pc(s, t)
    case Locked(_, _) => step := Cmd(t, Check);
    case Checked(_) => step := if s.workers[w].kqOpen then Cmd(t, NotifyOk) else Cmd(t, NotifyFail);
    case Waiting(_) => step := WaiterMoves(s, t);
    case _ => step := Cmd(t, CmdUnlock);
  }

  lemma HolderMoves(s: State, t: Tid, w: Wid) returns (step: Step)
    requires Inv(s) && ListFree(s) && HoldsRef(Pc(s, t), w)
    ensures Enabled(s, step) && Forward(s, step)
  {
    assert PairOk(s, t, w) && WorkerOk(s, w) && ThreadOk(s, t);
    match Pc(s, t)
    case Dropping(_) =>
      assert s.workers[w].refs != {};
      step := Cmd(t, Unref);
    case Holding(_, _) =>
      if s.workers[w].lock.None? {
        step := Cmd(t, CmdLock);
      } else if s.workers[w].lock.value.User? {
        assert PairOk(s, s.workers[w].lock.value.t, w);
        step := OwnerMoves(s, s.workers[w].lock.value.t, w);
      } else {
        step := Work(w, DrainUnlock);
      }
    case _ => step := OwnerMoves(s, t, w);
  }

  /** There is always room for another worker. */
  lemma {:induction false} FreshWorker(used: set<Wid>) returns (w: Wid)
    ensures w !in used
  {
    w := Above(used);
  }

  lemma {:induction false} Above(used: set<Wid>) returns (bound: Wid)
    ensures forall w | w in used :: w < bound
  {
    bound := 0;
    if v :| v in used {
      var rest := Above(used - {v});
      bound := if rest > v then rest else v + 1;
      forall w | w in used && w != v ensures w < bound {
        assert w in used - {v};
      }
    }
  }

  lemma CallerMoves(s: State, t: Tid) returns (step: Step)
    requires Inv(s) && ListFree(s) && InCall(s, t)
    ensures Enabled(s, step) && Forward(s, step)
  {
    assert ThreadOk(s, t);
    var pc := Pc(s, t);
    if pc.WantRead? {
      step := Cmd(t, RLock);
    } else if pc.Counted? {
      var w := FreshWorker(s.workers.Keys);
      step := New(t, Create(w, 0));
    } else if pc.Refused? {
      step := New(t, Uncount);
    } else if pc.Created? {
      step := New(t, WLock);
    } else {
      step := HolderMoves(s, t, pc.w);
    }
  }

  lemma BusyMoves(s: State, w: Wid) returns (step: Step)
    requires Inv(s) && ListFree(s) && Busy(s, w)
    ensures Enabled(s, step) && Forward(s, step)
  {
    assert WorkerOk(s, w) && WorkingOk(s, w);
    var k := s.workers[w];
    if k.pc.Taken? {
      step := Work(w, Finish);
    } else if k.pc.Posting? {
      step := Work(w, Post);
    } else if k.pc.WantErase? {
      step := Work(w, EraseLock);
    } else if k.pc.Erased? {
      step := Work(w, DeathPost);
    } else if k.pc.Posted? {
      step := Work(w, CloseKq);
    } else if k.pc.DrainLocked? {
      step := Work(w, DrainUnlock);
    } else if k.rc == 0 {
      step := Work(w, Free);
    } else {
      var t :| t in k.refs;
      assert PairOk(s, t, w);
      step := HolderMoves(s, t, w);
    }
  }

  /**
   * No deadlock: while a thread is in a call, or a worker executes a command or is dying, some
   * step can be taken that brings it forward, without failing a call that could succeed.
   */
  lemma NoDeadlock(states: seq<State>, steps: seq<Step>, i: nat) returns (step: Step)
    requires IsRun(states, steps) && i < |states|
    requires (exists t :: InCall(states[i], t)) || (exists w :: Busy(states[i], w))
    ensures Enabled(states[i], step) && Forward(states[i], step)
  {
    RunsKeepInv(states, steps, i);
    var s := states[i];
    if s.writer.Some? {
      step := WriterMoves(s);
    } else if s.readers != {} {
      var t :| t in s.readers;
      step := ReaderMoves(s, t);
    } else if t :| InCall(s, t) {
      step := CallerMoves(s, t);
    } else {
      var w :| Busy(s, w);
      step := BusyMoves(s, w);
    }
  }

  /** A waiting thread is woken by its command or by the death of the worker: one of the two is under way. */
  lemma WaiterPromised(states: seq<State>, steps: seq<Step>, i: nat, t: Tid)
    requires IsRun(states, steps) && i < |states| && Pc(states[i], t).Waiting?
    ensures Pc(states[i], t).w in states[i].workers
    ensures var k := states[i].workers[Pc(states[i], t).w];
            || k.sema > 0 || k.trigger == Some((t, states[i].threads[t].call))
            || k.pc == Taken(t, states[i].threads[t].call)
            || k.pc == Posting(t, states[i].threads[t].call) || Doomed(k.pc)
  {
    RunsKeepInv(states, steps, i);
    assert Promised(states[i], t) && WorkingOk(states[i], Pc(states[i], t).w);
  }

  // ------------------------------------------------------------------ the number of instances

  /** The threads that hold a place among the instances. */
  ghost function Admitted(s: State): set<Tid> {
    set t | t in s.counted && !Pc(s, t).Refused?
  }

  ghost predicate WithinLimit(s: State) {
    |s.listed| + |s.leaving| + |Admitted(s)| <= s.limit
  }

  lemma AdmittedSmaller(s: State)
    ensures |Admitted(s)| <= |s.counted|
  {
    SubsetSize(Admitted(s), s.counted);
  }

  lemma {:induction false} SubsetSize(a: set<Tid>, b: set<Tid>)
    requires a <= b
    ensures |a| <= |b|
  {
    if x :| x in a {
      SubsetSize(a - {x}, b - {x});
    }
  }

  lemma AdmittedByNew(s: State, t: Tid, step: NewStep)
    requires ThreadOk(s, t) && NewEnabled(s, t, step)
    ensures var s' := DoNew(s, t, step);
            if step.Count? && s.nworkers < s.limit then Admitted(s') == Admitted(s) + {t}
            else if step.CreateFail? || step.Insert? then t in Admitted(s) && Admitted(s') == Admitted(s) - {t}
            else Admitted(s') == Admitted(s)
  {
    var s' := DoNew(s, t, step);
    forall x | x != t ensures Pc(s', x) == Pc(s, x) {
    }
  }

  lemma NewKeepsLimit(s: State, t: Tid, step: NewStep)
    requires Books(s) && ThreadOk(s, t) && NewEnabled(s, t, step) && WithinLimit(s)
    ensures WithinLimit(DoNew(s, t, step))
  {
    AdmittedSmaller(s);
    AdmittedByNew(s, t, step);
    if step.Insert? {
      SetGrows(s.listed, Pc(s, t).w);
    }
  }

  lemma SetGrows(a: set<Wid>, w: Wid)
    ensures |a + {w}| <= |a| + 1
  {
    if w in a {
      assert a + {w} == a;
    }
  }

  lemma WorkAdmitsNone(s: State, w: Wid, step: WorkStep)
    requires WorkEnabled(s, w, step)
    ensures Admitted(DoWork(s, w, step)) == Admitted(s)
  {
    var s' := DoWork(s, w, step);
    forall t ensures Pc(s', t) == Pc(s, t) {
    }
  }

  lemma WorkKeepsLimit(s: State, w: Wid, step: WorkStep)
    requires Books(s) && WorkerOk(s, w) && WorkEnabled(s, w, step) && WithinLimit(s)
    ensures WithinLimit(DoWork(s, w, step))
  {
    var s' := DoWork(s, w, step);
    WorkAdmitsNone(s, w, step);
    if step.Unlink? {
      assert s.listed == s'.listed + {w};
    }
  }

  lemma StepKeepsLimit(s: State, step: Step)
    requires Inv(s) && Enabled(s, step) && WithinLimit(s)
    requires step.SetLimit? ==> step.limit >= s.limit
    ensures WithinLimit(Do(s, step))
  {
    match step
    case Cmd(t, c) =>
      assert ThreadOk(s, t);
      assert Admitted(DoCmd(s, t, c)) == Admitted(s);
    case New(t, n) =>
      assert ThreadOk(s, t);
      NewKeepsLimit(s, t, n);
    case Work(w, k) =>
      assert WorkerOk(s, w);
      WorkKeepsLimit(s, w, k);
    case SetLimit(_) =>
      assert Admitted(Do(s, step)) == Admitted(s);
  }

  /** With a limit that is not lowered, there are never more instances than the limit. */
  lemma {:induction false} InstanceLimit(states: seq<State>, steps: seq<Step>, i: nat)
    requires IsRun(states, steps) && i < |states|
    requires forall j | 0 <= j < |steps| && steps[j].SetLimit? :: steps[j].limit >= states[j].limit
    ensures WithinLimit(states[i]) && |states[i].listed| <= states[i].limit
  {
    if i > 0 {
      InstanceLimit(states, steps, i - 1);
      RunsKeepInv(states, steps, i - 1);
      StepKeepsLimit(states[i - 1], steps[i - 1]);
    }
  }
}
