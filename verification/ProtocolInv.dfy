/** The invariant of the worker protocol, and that every step keeps it. */
module ProtocolInv {
  import opened Wrappers
  import opened Protocol

  predicate HoldsRef(pc: UserPc, w: Wid) {
    && (pc.Referenced? || pc.Holding? || pc.Locked? || pc.Checked? || pc.Waiting? || pc.Unlocking? || pc.Dropping?)
    && pc.w == w
  }

  predicate HoldsLock(pc: UserPc, w: Wid) {
    (pc.Locked? || pc.Checked? || pc.Waiting? || pc.Unlocking?) && pc.w == w
  }

  predicate Creates(pc: UserPc, w: Wid) {
    (pc.Created? || pc.Inserting?) && pc.w == w
  }

  /** The worker still serves commands. */
  predicate Alive(pc: WorkerPc) {
    pc.Running? || pc.Taken? || pc.Posting?
  }

  /** The worker is dying and has not posted its last wake-up yet. */
  predicate Doomed(pc: WorkerPc) {
    pc.WantErase? || pc.Erasing? || pc.Unlinked? || pc.Cleared? || pc.Erased?
  }

  predicate Gone(pc: WorkerPc) {
    pc.Posted? || pc.Draining? || pc.DrainLocked?
  }

  /** The worker can be on the list. */
  predicate MayBeListed(pc: WorkerPc) {
    Alive(pc) || pc.WantErase? || pc.Erasing?
  }

  predicate ThreadOk(s: State, t: Tid) {
    var pc := Pc(s, t);
    && (t in s.readers <==> pc.Reading? || pc.Referenced?)
    && (s.writer == Some(User(t)) <==> pc.Inserting? || pc.Inserted?)
    && (t in s.counted <==> pc.Counted? || pc.Refused? || pc.Created? || pc.Inserting?)
    && ((pc.WantRead? || pc.Reading? || pc.Referenced? || pc.Holding? || pc.Locked?) ==> pc.fd >= 0)
    && ((pc.Checked? || pc.Waiting? || pc.Unlocking? || pc.Dropping?) ==>
          s.threads[t].result == Ebadf || s.threads[t].result == Own(s.threads[t].call))
    && (pc.Checked? ==> s.threads[t].result == Ebadf)
  }

  predicate WorkerOk(s: State, w: Wid) {
    w in s.workers ==>
      var k := s.workers[w];
      && k.rc == |k.refs|
      && (w in s.listed ==> MayBeListed(k.pc) && k.creator.None?)
      && (w !in s.listed && k.creator.None? ==> !MayBeListed(k.pc))
      && (k.creator.Some? ==> k.pc.Running? && k.refs == {} && k.fd >= 0 && k.sema == 0 && k.trigger.None?)
      && (s.writer == Some(Worker(w)) <==> k.pc.Erasing? || k.pc.Unlinked? || k.pc.Cleared?)
      && (w in s.leaving <==> k.pc.Unlinked?)
      && (k.lock == Some(Worker(w)) <==> k.pc.DrainLocked?)
      && (k.lock.Some? ==> k.lock == Some(Worker(w)) || (k.lock.value.User? && HoldsLock(Pc(s, k.lock.value.t), w)))
      && (k.kqOpen <==> !(k.pc.Draining? || k.pc.DrainLocked?))
      && (k.pc.Cleared? || k.pc.Erased? || Gone(k.pc) ==> k.fd == -1)
  }

  /** The thread that holds the command mutex waits for its command. */
  predicate Served(s: State, w: Wid, k: WorkerState, t: Tid) {
    k.lock == Some(User(t)) && Pc(s, t) == Waiting(w)
  }

  /** The thread is past the check of the descriptor and may still wait for a wake-up. */
  predicate Expects(pc: UserPc) {
    pc.Checked? || pc.Waiting?
  }

  /** The worker works on the command of the thread that waits for it, and has not woken it yet. */
  predicate WorkingOk(s: State, w: Wid) {
    w in s.workers ==>
      var k := s.workers[w];
      && (k.pc.Taken? || k.pc.Posting? ==>
            Served(s, w, k, k.pc.t) && s.threads[k.pc.t].call == k.pc.call && k.sema == 0 && k.trigger.None?)
      && (k.pc.Posting? ==> s.threads[k.pc.t].result == Own(k.pc.call))
      && (Alive(k.pc) && k.trigger.Some? ==>
            && Served(s, w, k, k.trigger.value.0) && s.threads[k.trigger.value.0].call == k.trigger.value.1
            && k.sema == 0)
  }

  /** A wake-up of a live worker is for the thread that waits, and its command is done; a dead worker leaves one. */
  predicate WakeOk(s: State, w: Wid) {
    w in s.workers ==>
      var k := s.workers[w];
      && (Alive(k.pc) && k.sema > 0 ==>
            && k.sema == 1 && k.lock.Some? && k.lock.value.User? && Served(s, w, k, k.lock.value.t)
            && s.threads[k.lock.value.t].result == Own(s.threads[k.lock.value.t].call))
      && (Gone(k.pc) && k.lock.Some? && k.lock.value.User? && Expects(Pc(s, k.lock.value.t)) ==> k.sema > 0)
  }

  /** The thread that holds the command mutex, if a thread does, is known to do so. */
  predicate OwnerOk(s: State, w: Wid) {
    w in s.workers && s.workers[w].lock.Some? && s.workers[w].lock.value.User? ==>
      PairOk(s, s.workers[w].lock.value.t, w)
  }

  /** A waiting thread will be woken: it can go on, its command is on its way, or the worker is about to die. */
  predicate Promised(s: State, t: Tid) {
    var pc := Pc(s, t);
    pc.Waiting? ==>
      && pc.w in s.workers
      && var k := s.workers[pc.w];
         || k.sema > 0
         || (k.pc.Running? && k.trigger == Some((t, s.threads[t].call)))
         || ((k.pc.Taken? || k.pc.Posting?) && k.pc.t == t)
         || Doomed(k.pc)
  }

  predicate PairOk(s: State, t: Tid, w: Wid) {
    var pc := Pc(s, t);
    && (HoldsRef(pc, w) || Creates(pc, w) ==> w in s.workers)
    && (w in s.workers ==>
          && (t in s.workers[w].refs <==> HoldsRef(pc, w))
          && (s.workers[w].lock == Some(User(t)) <==> HoldsLock(pc, w))
          && (s.workers[w].creator == Some(t) <==> Creates(pc, w)))
  }

  ghost predicate Inv(s: State) {
    && (forall t {:trigger ThreadOk(s, t)} :: ThreadOk(s, t))
    && (forall t {:trigger Promised(s, t)} :: Promised(s, t))
    && (forall w {:trigger WorkerOk(s, w)} :: WorkerOk(s, w))
    && (forall w {:trigger WorkingOk(s, w)} :: WorkingOk(s, w))
    && (forall w {:trigger WakeOk(s, w)} :: WakeOk(s, w))
    && (forall t, w {:trigger PairOk(s, t, w)} :: PairOk(s, t, w))
    && Books(s)
  }

  /** The list lock and the instance count. */
  ghost predicate Books(s: State) {
    Lists(s) && s.nworkers == |s.listed| + |s.leaving| + |s.counted|
  }

  ghost predicate Lists(s: State) {
    && (s.writer.Some? ==> s.readers == {})
    && (s.writer.Some? && s.writer.value.Worker? ==> s.writer.value.w in s.workers)
    && (forall t | t in s.readers || t in s.counted :: t in s.threads)
    && s.listed <= s.workers.Keys && s.leaving <= s.workers.Keys
    && (forall v, w | v in s.listed && w in s.listed && s.workers[v].fd == s.workers[w].fd && s.workers[v].fd != -1 ::
          v == w)
  }

  /** Threads that are out of the library, no worker. */
  ghost predicate Init(s: State) {
    && (forall t | t in s.threads :: s.threads[t].pc.Out?)
    && s.workers == map[] && s.listed == {} && s.readers == {} && s.writer.None?
    && s.nworkers == 0 && s.counted == {} && s.leaving == {}
  }

  lemma InitInv(s: State)
    requires Init(s)
    ensures Inv(s)
  {
  }

  // ------------------------------------------------------------------ commands

  lemma CmdThread(s: State, t: Tid, step: CmdStep, x: Tid)
    requires CmdEnabled(s, t, step) && ThreadOk(s, t) && ThreadOk(s, x)
    ensures ThreadOk(DoCmd(s, t, step), x)
  {
  }

  lemma CmdPair(s: State, t: Tid, step: CmdStep, x: Tid, v: Wid)
    requires CmdEnabled(s, t, step) && PairOk(s, t, v) && PairOk(s, x, v)
    ensures PairOk(DoCmd(s, t, step), x, v)
  {
  }

  lemma CmdPromised(s: State, t: Tid, step: CmdStep, x: Tid)
    requires CmdEnabled(s, t, step) && Promised(s, x) && ThreadOk(s, t)
    requires var pc := Pc(s, x);
             Expects(pc) ==> PairOk(s, t, pc.w) && PairOk(s, x, pc.w) && WorkingOk(s, pc.w) && WakeOk(s, pc.w)
    ensures Promised(DoCmd(s, t, step), x)
  {
  }

  lemma CmdWorker(s: State, t: Tid, step: CmdStep, v: Wid)
    requires CmdEnabled(s, t, step) && WorkerOk(s, v) && ThreadOk(s, t) && PairOk(s, t, v)
    ensures WorkerOk(DoCmd(s, t, step), v)
  {
  }

  lemma CmdWorking(s: State, t: Tid, step: CmdStep, v: Wid)
    requires CmdEnabled(s, t, step) && WorkerOk(s, v) && WorkingOk(s, v) && WakeOk(s, v) && PairOk(s, t, v)
    requires OwnerOk(s, v)
    ensures WorkingOk(DoCmd(s, t, step), v)
  {
  }

  lemma CmdWake(s: State, t: Tid, step: CmdStep, v: Wid)
    requires CmdEnabled(s, t, step) && WorkerOk(s, v) && WorkingOk(s, v) && WakeOk(s, v) && PairOk(s, t, v)
    requires OwnerOk(s, v)
    requires ThreadOk(s, t)
    ensures WakeOk(DoCmd(s, t, step), v)
  {
  }

  // ------------------------------------------------------------------ new instances

  lemma NewThread(s: State, t: Tid, step: NewStep, x: Tid)
    requires NewEnabled(s, t, step) && ThreadOk(s, t) && ThreadOk(s, x)
    ensures ThreadOk(DoNew(s, t, step), x)
  {
  }

  lemma NewPair(s: State, t: Tid, step: NewStep, x: Tid, v: Wid)
    requires NewEnabled(s, t, step) && PairOk(s, t, v) && PairOk(s, x, v)
    ensures PairOk(DoNew(s, t, step), x, v)
  {
  }

  lemma NewPromised(s: State, t: Tid, step: NewStep, x: Tid)
    requires NewEnabled(s, t, step) && Promised(s, x)
    ensures Promised(DoNew(s, t, step), x)
  {
  }

  lemma NewWorker(s: State, t: Tid, step: NewStep, v: Wid)
    requires NewEnabled(s, t, step) && WorkerOk(s, v) && ThreadOk(s, t) && Books(s) && PairOk(s, t, v)
    ensures WorkerOk(DoNew(s, t, step), v)
  {
  }

  lemma NewWorkingWake(s: State, t: Tid, step: NewStep, v: Wid)
    requires NewEnabled(s, t, step) && WorkingOk(s, v) && WakeOk(s, v) && PairOk(s, t, v)
    ensures WorkingOk(DoNew(s, t, step), v) && WakeOk(DoNew(s, t, step), v)
  {
  }

  // ------------------------------------------------------------------ workers

  lemma WorkThread(s: State, w: Wid, step: WorkStep, x: Tid)
    requires WorkEnabled(s, w, step) && WorkerOk(s, w) && WorkingOk(s, w) && ThreadOk(s, x)
    ensures ThreadOk(DoWork(s, w, step), x)
  {
  }

  lemma WorkPair(s: State, w: Wid, step: WorkStep, x: Tid, v: Wid)
    requires WorkEnabled(s, w, step) && WorkerOk(s, w) && PairOk(s, x, v)
    ensures PairOk(DoWork(s, w, step), x, v)
  {
  }

  lemma WorkPromised(s: State, w: Wid, step: WorkStep, x: Tid)
    requires WorkEnabled(s, w, step) && Promised(s, x) && WorkerOk(s, w) && PairOk(s, x, w)
    ensures Promised(DoWork(s, w, step), x)
  {
  }

  lemma WorkSelf(s: State, w: Wid, step: WorkStep)
    requires WorkEnabled(s, w, step) && WorkerOk(s, w)
    ensures WorkerOk(DoWork(s, w, step), w)
  {
  }

  lemma WorkOther(s: State, w: Wid, step: WorkStep, v: Wid)
    requires WorkEnabled(s, w, step) && WorkerOk(s, v) && WorkerOk(s, w) && v != w
    ensures WorkerOk(DoWork(s, w, step), v)
  {
  }

  lemma WorkWorking(s: State, w: Wid, step: WorkStep, v: Wid)
    requires WorkEnabled(s, w, step) && WorkingOk(s, v) && WorkingOk(s, w)
    ensures WorkingOk(DoWork(s, w, step), v)
  {
  }

  lemma WorkWake(s: State, w: Wid, step: WorkStep, v: Wid)
    requires WorkEnabled(s, w, step) && WakeOk(s, v) && WorkingOk(s, w) && WakeOk(s, w)
    ensures WakeOk(DoWork(s, w, step), v)
  {
  }

  // ------------------------------------------------------------------ the list and the count

  lemma CmdBooks(s: State, t: Tid, step: CmdStep)
    requires CmdEnabled(s, t, step) && Books(s) && ThreadOk(s, t)
    ensures Books(DoCmd(s, t, step))
  {
  }

  lemma NewBooks(s: State, t: Tid, step: NewStep)
    requires NewEnabled(s, t, step) && Books(s) && ThreadOk(s, t)
    requires var pc := Pc(s, t); pc.Inserting? ==> WorkerOk(s, pc.w) && PairOk(s, t, pc.w)
    ensures Books(DoNew(s, t, step))
  {
  }

  lemma WorkLists(s: State, w: Wid, step: WorkStep)
    requires WorkEnabled(s, w, step) && Lists(s) && WorkerOk(s, w)
    ensures Lists(DoWork(s, w, step))
  {
  }

  lemma WorkBooks(s: State, w: Wid, step: WorkStep)
    requires WorkEnabled(s, w, step) && Books(s) && WorkerOk(s, w)
    ensures Books(DoWork(s, w, step))
  {
    WorkLists(s, w, step);
    WorkCount(s, w, step);
  }

  lemma WorkCount(s: State, w: Wid, step: WorkStep)
    requires WorkEnabled(s, w, step) && WorkerOk(s, w) && s.nworkers == |s.listed| + |s.leaving| + |s.counted|
    ensures var s' := DoWork(s, w, step); s'.nworkers == |s'.listed| + |s'.leaving| + |s'.counted|
  {
    if step.Unlink? {
      assert s.listed == (s.listed - {w}) + {w};
    } else if step.ClearFd? {
      assert s.leaving == (s.leaving - {w}) + {w};
    }
  }

  /** Every step keeps the invariant. */
  lemma StepKeepsInv(s: State, step: Step)
    requires Inv(s) && Enabled(s, step)
    ensures Inv(Do(s, step))
  {
    match step
    case Cmd(t, c) => CmdKeepsInv(s, t, c);
    case New(t, n) => NewKeepsInv(s, t, n);
    case Work(w, k) => WorkKeepsInv(s, w, k);
    case SetLimit(n) =>
      var s' := Do(s, step);
      forall x ensures ThreadOk(s', x) { assert ThreadOk(s, x); }
      forall x ensures Promised(s', x) { assert Promised(s, x); }
      forall v ensures WorkerOk(s', v) { assert WorkerOk(s, v); }
      forall v ensures WorkingOk(s', v) { assert WorkingOk(s, v); }
      forall v ensures WakeOk(s', v) { assert WakeOk(s, v); }
      forall x, v ensures PairOk(s', x, v) { assert PairOk(s, x, v); }
  }

  lemma CmdKeepsInv(s: State, t: Tid, step: CmdStep)
    requires Inv(s) && CmdEnabled(s, t, step)
    ensures Inv(DoCmd(s, t, step))
  {
    var s' := DoCmd(s, t, step);
    assert ThreadOk(s, t);
    CmdBooks(s, t, step);
    forall x ensures ThreadOk(s', x) && Promised(s', x) {
      assert ThreadOk(s, x) && Promised(s, x);
      CmdThread(s, t, step, x);
      if Expects(Pc(s, x)) {
        var w := Pc(s, x).w;
        assert PairOk(s, t, w) && PairOk(s, x, w) && WorkingOk(s, w) && WakeOk(s, w);
      }
      CmdPromised(s, t, step, x);
    }
    forall v ensures WorkerOk(s', v) && WorkingOk(s', v) && WakeOk(s', v) {
      assert WorkerOk(s, v) && WorkingOk(s, v) && WakeOk(s, v) && PairOk(s, t, v) && OwnerOk(s, v);
      CmdWorker(s, t, step, v);
      CmdWorking(s, t, step, v);
      CmdWake(s, t, step, v);
    }
    forall x, v ensures PairOk(s', x, v) {
      assert PairOk(s, t, v) && PairOk(s, x, v);
      CmdPair(s, t, step, x, v);
    }
  }

  lemma NewKeepsInv(s: State, t: Tid, step: NewStep)
    requires Inv(s) && NewEnabled(s, t, step)
    ensures Inv(DoNew(s, t, step))
  {
    var s' := DoNew(s, t, step);
    assert ThreadOk(s, t);
    if Pc(s, t).Inserting? {
      assert WorkerOk(s, Pc(s, t).w) && PairOk(s, t, Pc(s, t).w);
    }
    NewBooks(s, t, step);
    forall x ensures ThreadOk(s', x) && Promised(s', x) {
      assert ThreadOk(s, x) && Promised(s, x);
      NewThread(s, t, step, x);
      NewPromised(s, t, step, x);
    }
    forall v ensures WorkerOk(s', v) && WorkingOk(s', v) && WakeOk(s', v) {
      assert WorkerOk(s, v) && WorkingOk(s, v) && WakeOk(s, v) && PairOk(s, t, v);
      NewWorker(s, t, step, v);
      NewWorkingWake(s, t, step, v);
    }
    forall x, v ensures PairOk(s', x, v) {
      assert PairOk(s, t, v) && PairOk(s, x, v);
      NewPair(s, t, step, x, v);
    }
  }

  lemma WorkKeepsInv(s: State, w: Wid, step: WorkStep)
    requires Inv(s) && WorkEnabled(s, w, step)
    ensures Inv(DoWork(s, w, step))
  {
    var s' := DoWork(s, w, step);
    assert WorkerOk(s, w) && WorkingOk(s, w) && WakeOk(s, w);
    WorkBooks(s, w, step);
    forall x ensures ThreadOk(s', x) && Promised(s', x) {
      assert ThreadOk(s, x) && Promised(s, x) && PairOk(s, x, w);
      WorkThread(s, w, step, x);
      WorkPromised(s, w, step, x);
    }
    forall v ensures WorkerOk(s', v) && WorkingOk(s', v) && WakeOk(s', v) {
      assert WorkerOk(s, v) && WorkingOk(s, v) && WakeOk(s, v);
      if v == w {
        WorkSelf(s, w, step);
      } else {
        WorkOther(s, w, step, v);
      }
      WorkWorking(s, w, step, v);
      WorkWake(s, w, step, v);
    }
    forall x, v ensures PairOk(s', x, v) {
      assert PairOk(s, x, v);
      WorkPair(s, w, step, x, v);
    }
  }
}
