/**
 * The protocol between user threads and worker threads, as a state machine over atomic steps:
 * the list of workers under its read-write lock, the reference count, the command mutex, the
 * wake-up counter, and the way a worker dies.
 */
module Protocol {
  import opened Wrappers

  type Tid = nat
  type Wid = nat

  /** What a call to the library returns: EINVAL, EBADF, or the result of command number `call`. */
  datatype Result = Einval | Ebadf | Own(call: nat)

  /** Where a user thread is. */
  datatype UserPc =
    | Out
    // a command on the instance with descriptor `fd`
    | WantRead(fd: int)
    | Reading(fd: int)              // holds the list for reading
    | Referenced(w: Wid, fd: int)   // ... and a reference to a worker
    | Holding(w: Wid, fd: int)      // holds the reference only
    | Locked(w: Wid, fd: int)       // ... and the command mutex
    | Checked(w: Wid)               // the worker still carried `fd`
    | Waiting(w: Wid)               // the command is posted
    | Unlocking(w: Wid)
    | Dropping(w: Wid)              // the mutex is released, the reference is not
    // a new instance
    | Counted
    | Refused
    | Created(w: Wid)
    | Inserting(w: Wid)             // holds the list for writing
    | Inserted(w: Wid)

  datatype Thread = Thread(pc: UserPc, call: nat, result: Result)

  /** Where a worker thread is; `Erasing` to `Cleared` hold the list for writing. */
  datatype WorkerPc =
    | Running | Taken(t: Tid, call: nat) | Posting(t: Tid, call: nat)
    | WantErase | Erasing | Unlinked | Cleared | Erased | Posted | Draining | DrainLocked

  datatype Agent = User(t: Tid) | Worker(w: Wid)

  /**
   * A worker. `refs` and `creator` are auxiliary: the threads counted in `rc` and the thread
   * that is still to list the worker.
   */
  datatype WorkerState = WorkerState(
    pc: WorkerPc, fd: int, rc: nat, lock: Option<Agent>, sema: nat, trigger: Option<(Tid, nat)>, kqOpen: bool,
    refs: set<Tid>, creator: Option<Tid>)

  /** `counted` and `leaving` are auxiliary: instances counted in `nworkers`, but not listed yet, or no longer. */
  datatype State = State(
    threads: map<Tid, Thread>, workers: map<Wid, WorkerState>,
    listed: set<Wid>, readers: set<Tid>, writer: Option<Agent>,
    nworkers: nat, limit: nat, counted: set<Tid>, leaving: set<Wid>)

  /** The steps of a thread that executes a command on an instance. */
  datatype CmdStep =
    | Call(fd: int) | RLock | Miss | Ref(w: Wid) | RUnlock | CmdLock | Check | NotifyOk | NotifyFail | Wake
    | CmdUnlock | Unref

  /** The steps of a thread that creates an instance. */
  datatype NewStep = Count | Uncount | Create(w: Wid, fd: int) | CreateFail | WLock | Insert | WUnlock

  /** The steps of a worker thread. */
  datatype WorkStep =
    | Take | TakeClose | Finish | Post | Die
    | EraseLock | Unlink | ClearFd | EraseUnlock | DeathPost | CloseKq | DrainLock | DrainUnlock | Free

  datatype Step = Cmd(t: Tid, c: CmdStep) | New(t: Tid, n: NewStep) | Work(w: Wid, k: WorkStep) | SetLimit(limit: nat)

  function Pc(s: State, t: Tid): UserPc {
    if t in s.threads then s.threads[t].pc else Out
  }

  predicate ListFree(s: State) {
    s.writer.None? && s.readers == {}
  }

  predicate CmdEnabled(s: State, t: Tid, step: CmdStep) {
    var pc := Pc(s, t);
    t in s.threads &&
    match step
    case Call(fd) => pc.Out? && fd >= 0
    case RLock => pc.WantRead? && s.writer.None?
    case Miss => pc.Reading? && forall w | w in s.listed && w in s.workers :: s.workers[w].fd != pc.fd
    case Ref(w) => pc.Reading? && w in s.listed && w in s.workers && s.workers[w].fd == pc.fd
    case RUnlock => pc.Referenced?
    case CmdLock => pc.Holding? && pc.w in s.workers && s.workers[pc.w].lock.None?
    case Check => pc.Locked? && pc.w in s.workers
    case NotifyOk => pc.Checked? && pc.w in s.workers && s.workers[pc.w].kqOpen
    case NotifyFail => pc.Checked?
    case Wake => pc.Waiting? && pc.w in s.workers && s.workers[pc.w].sema > 0
    case CmdUnlock => pc.Unlocking? && pc.w in s.workers
    case Unref => pc.Dropping? && pc.w in s.workers && s.workers[pc.w].rc > 0
  }

  predicate NewEnabled(s: State, t: Tid, step: NewStep) {
    var pc := Pc(s, t);
    t in s.threads &&
    match step
    case Count => pc.Out?
    case Uncount => pc.Refused? && s.nworkers > 0
    case Create(w, fd) => pc.Counted? && w !in s.workers && fd >= 0
    case CreateFail => pc.Counted?
    case WLock => pc.Created? && ListFree(s)
    case Insert => pc.Inserting? && pc.w in s.workers
    case WUnlock => pc.Inserted?
  }

  /** A worker dies on its own (end of file on its pipe) only after it was listed. */
  predicate WorkEnabled(s: State, w: Wid, step: WorkStep) {
    w in s.workers &&
    var k := s.workers[w];
    match step
    case Take => k.pc.Running? && k.trigger.Some?
    case TakeClose => k.pc.Running? && k.trigger.Some?
    case Finish => k.pc.Taken? && k.pc.t in s.threads
    case Post => k.pc.Posting?
    case Die => k.pc.Running? && w in s.listed
    case EraseLock => k.pc.WantErase? && ListFree(s)
    case Unlink => k.pc.Erasing?
    case ClearFd => k.pc.Unlinked? && s.nworkers > 0
    case EraseUnlock => k.pc.Cleared?
    case DeathPost => k.pc.Erased?
    case CloseKq => k.pc.Posted?
    case DrainLock => k.pc.Draining? && k.rc > 0 && k.lock.None?
    case DrainUnlock => k.pc.DrainLocked?
    case Free => k.pc.Draining? && k.rc == 0
  }

  /** The step can be taken. */
  predicate Enabled(s: State, step: Step) {
    match step
    case Cmd(t, c) => CmdEnabled(s, t, c)
    case New(t, n) => NewEnabled(s, t, n)
    case Work(w, k) => WorkEnabled(s, w, k)
    case SetLimit(_) => true
  }

  function Goto(s: State, t: Tid, pc: UserPc): State
    requires t in s.threads
  {
    s.(threads := s.threads[t := s.threads[t].(pc := pc)])
  }

  function SetW(s: State, w: Wid, k: WorkerState): State {
    s.(workers := s.workers[w := k])
  }

  /**
   * A listed worker that carries the descriptor of the new one gives it up. (The source stops at
   * the first one it finds; there never is a second one.)
   */
  function Evict(s: State, fd: int): (workers: map<Wid, WorkerState>)
    ensures workers.Keys == s.workers.Keys
  {
    map w | w in s.workers ::
      if w in s.listed && s.workers[w].fd == fd then s.workers[w].(fd := -1) else s.workers[w]
  }

  function DoCmd(s: State, t: Tid, step: CmdStep): State
    requires CmdEnabled(s, t, step)
  {
    var pc := Pc(s, t);
    match step
    case Call(fd) => s.(threads := s.threads[t := Thread(WantRead(fd), s.threads[t].call + 1, Einval)])
    case RLock => Goto(s, t, Reading(pc.fd)).(readers := s.readers + {t})
    case Miss => Goto(s, t, Out).(readers := s.readers - {t})
    case Ref(w) =>
      var k := s.workers[w];
      SetW(Goto(s, t, Referenced(w, pc.fd)), w, k.(rc := k.rc + 1, refs := k.refs + {t}))
    case RUnlock => Goto(s, t, Holding(pc.w, pc.fd)).(readers := s.readers - {t})
    case CmdLock => SetW(Goto(s, t, Locked(pc.w, pc.fd)), pc.w, s.workers[pc.w].(lock := Some(User(t))))
    case Check =>
      var next := if s.workers[pc.w].fd == pc.fd then Checked(pc.w) else Unlocking(pc.w);
      s.(threads := s.threads[t := s.threads[t].(pc := next, result := Ebadf)])
    case NotifyOk => SetW(Goto(s, t, Waiting(pc.w)), pc.w, s.workers[pc.w].(trigger := Some((t, s.threads[t].call))))
    case NotifyFail => Goto(s, t, Unlocking(pc.w))
    case Wake => SetW(Goto(s, t, Unlocking(pc.w)), pc.w, s.workers[pc.w].(sema := s.workers[pc.w].sema - 1))
    case CmdUnlock => SetW(Goto(s, t, Dropping(pc.w)), pc.w, s.workers[pc.w].(lock := None))
    case Unref =>
      var k := s.workers[pc.w];
      SetW(Goto(s, t, Out), pc.w, k.(rc := k.rc - 1, refs := k.refs - {t}))
  }

  function DoNew(s: State, t: Tid, step: NewStep): State
    requires NewEnabled(s, t, step)
  {
    var pc := Pc(s, t);
    match step
    case Count =>
      var next := if s.nworkers >= s.limit then Refused else Counted;
      Goto(s, t, next).(nworkers := s.nworkers + 1, counted := s.counted + {t})
    case Uncount => Goto(s, t, Out).(nworkers := s.nworkers - 1, counted := s.counted - {t})
    case Create(w, fd) =>
      SetW(Goto(s, t, Created(w)), w, WorkerState(Running, fd, 0, None, 0, None, true, {}, Some(t)))
    case CreateFail => Goto(s, t, Refused)
    case WLock => Goto(s, t, Inserting(pc.w)).(writer := Some(User(t)))
    case Insert =>
      var workers := Evict(s, s.workers[pc.w].fd);
      Goto(s, t, Inserted(pc.w)).(workers := workers[pc.w := workers[pc.w].(creator := None)],
                                  listed := s.listed + {pc.w}, counted := s.counted - {t})
    case WUnlock => Goto(s, t, Out).(writer := None)
  }

  function DoWork(s: State, w: Wid, step: WorkStep): State
    requires WorkEnabled(s, w, step)
  {
    var k := s.workers[w];
    match step
    case Take => SetW(s, w, k.(pc := Taken(k.trigger.value.0, k.trigger.value.1), trigger := None))
    case TakeClose => SetW(s, w, k.(pc := WantErase, trigger := None))
    case Finish =>
      SetW(s.(threads := s.threads[k.pc.t := s.threads[k.pc.t].(result := Own(k.pc.call))]),
           w, k.(pc := Posting(k.pc.t, k.pc.call)))
    case Post => SetW(s, w, k.(pc := Running, sema := k.sema + 1))
    case Die => SetW(s, w, k.(pc := WantErase))
    case EraseLock => SetW(s, w, k.(pc := Erasing)).(writer := Some(Worker(w)))
    case Unlink => SetW(s, w, k.(pc := Unlinked)).(listed := s.listed - {w}, leaving := s.leaving + {w})
    case ClearFd => SetW(s, w, k.(pc := Cleared, fd := -1)).(nworkers := s.nworkers - 1, leaving := s.leaving - {w})
    case EraseUnlock => SetW(s, w, k.(pc := Erased)).(writer := None)
    case DeathPost => SetW(s, w, k.(pc := Posted, sema := k.sema + 1))
    case CloseKq => SetW(s, w, k.(pc := Draining, kqOpen := false))
    case DrainLock => SetW(s, w, k.(pc := DrainLocked, lock := Some(Worker(w))))
    case DrainUnlock => SetW(s, w, k.(pc := Draining, lock := None))
    case Free => s.(workers := s.workers - {w})
  }

  function Do(s: State, step: Step): State
    requires Enabled(s, step)
  {
    match step
    case Cmd(t, c) => DoCmd(s, t, c)
    case New(t, n) => DoNew(s, t, n)
    case Work(w, k) => DoWork(s, w, k)
    case SetLimit(n) => s.(limit := n)
  }
}
