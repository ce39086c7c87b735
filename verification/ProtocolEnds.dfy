/** That all calls to the library end: a measure that every step forward makes smaller. */
module ProtocolEnds {
  import opened Wrappers
  import opened Protocol
  import opened ProtocolRuns

  // ------------------------------------------------------------------ sums

  ghost function Sum(m: map<nat, nat>): nat {
    if m == map[] then 0
    else
      var x :| x in m;
      m[x] + Sum(m - {x})
  }

  lemma {:induction false} SumWithout(m: map<nat, nat>, x: nat)
    requires x in m
    ensures Sum(m) == m[x] + Sum(m - {x})
    decreases |m|
  {
    var y :| y in m && Sum(m) == m[y] + Sum(m - {y});
    if y != x {
      SumWithout(m - {y}, x);
      SumWithout(m - {x}, y);
      assert m - {y} - {x} == m - {x} - {y};
    }
  }

  lemma SumWith(m: map<nat, nat>, x: nat, v: nat)
    ensures Sum(m[x := v]) + (if x in m then m[x] else 0) == Sum(m) + v
  {
    SumWithout(m[x := v], x);
    assert m[x := v] - {x} == m - {x};
    if x in m {
      SumWithout(m, x);
    } else {
      assert m - {x} == m;
    }
  }

  // ------------------------------------------------------------------ the measure

  /** How far a thread is from the end of its call; posting a command makes work for the worker. */
  function UserRank(pc: UserPc): nat {
    match pc
    case Out => 0
    case WantRead(_) => 19
    case Reading(_) => 18
    case Referenced(_, _) => 17
    case Holding(_, _) => 16
    case Locked(_, _) => 15
    case Checked(_) => 14
    case Waiting(_) => 3
    case Unlocking(_) => 2
    case Dropping(_) => 1
    case Counted => 5
    case Created(_) => 4
    case Inserting(_) => 3
    case Inserted(_) => 2
    case Refused => 1
  }

  /**
   * How far a worker is from rest; a posted command is the most it can still have before it. A dying worker that
   * waits for references takes and releases the command mutex; `lock` says how much its release counts.
   */
  function WorkRank(k: WorkerState, lock: nat): nat {
    (if k.trigger.Some? then 10 else 0) +
    match k.pc
    case Running => 0
    case Taken(_, _) => 2
    case Posting(_, _) => 1
    case WantErase => 9
    case Erasing => 8
    case Unlinked => 7
    case Cleared => 6
    case Erased => 5
    case Posted => 4
    case DrainLocked => 2 + lock
    case Draining => 2
  }

  ghost function UserRanks(threads: map<Tid, Thread>): map<nat, nat> {
    map t | t in threads :: UserRank(threads[t].pc)
  }

  ghost function WorkRanks(workers: map<Wid, WorkerState>, lock: nat): map<nat, nat> {
    map w | w in workers :: WorkRank(workers[w], lock)
  }

  ghost function Measure(s: State, lock: nat): nat {
    Sum(UserRanks(s.threads)) + Sum(WorkRanks(s.workers, lock))
  }

  lemma ThreadChanges(threads: map<Tid, Thread>, t: Tid, th: Thread)
    requires t in threads
    ensures Sum(UserRanks(threads[t := th])) + UserRank(threads[t].pc) == Sum(UserRanks(threads)) + UserRank(th.pc)
  {
    assert UserRanks(threads[t := th]) == UserRanks(threads)[t := UserRank(th.pc)];
    SumWith(UserRanks(threads), t, UserRank(th.pc));
  }

  lemma WorkerChanges(workers: map<Wid, WorkerState>, w: Wid, k: WorkerState, lock: nat)
    ensures Sum(WorkRanks(workers[w := k], lock)) + (if w in workers then WorkRank(workers[w], lock) else 0)
            == Sum(WorkRanks(workers, lock)) + WorkRank(k, lock)
  {
    assert WorkRanks(workers[w := k], lock) == WorkRanks(workers, lock)[w := WorkRank(k, lock)];
    SumWith(WorkRanks(workers, lock), w, WorkRank(k, lock));
  }

  lemma WorkerGoes(workers: map<Wid, WorkerState>, w: Wid, lock: nat)
    requires w in workers
    ensures Sum(WorkRanks(workers - {w}, lock)) + WorkRank(workers[w], lock) == Sum(WorkRanks(workers, lock))
  {
    assert WorkRanks(workers - {w}, lock) == WorkRanks(workers, lock) - {w};
    SumWithout(WorkRanks(workers, lock), w);
  }

  /** A step of a thread that leaves the ranks of workers alone. */
  lemma ThreadSteps(s: State, s': State, t: Tid, lock: nat)
    requires t in s.threads && t in s'.threads && s'.threads == s.threads[t := s'.threads[t]]
    requires Sum(WorkRanks(s'.workers, lock)) == Sum(WorkRanks(s.workers, lock))
    ensures Measure(s', lock) + UserRank(Pc(s, t)) == Measure(s, lock) + UserRank(Pc(s', t))
  {
    ThreadChanges(s.threads, t, s'.threads[t]);
  }

  /** A step of a thread that also changes a worker. */
  lemma BothStep(s: State, s': State, t: Tid, w: Wid, lock: nat)
    requires t in s.threads && t in s'.threads && s'.threads == s.threads[t := s'.threads[t]]
    requires w in s.workers && w in s'.workers && s'.workers == s.workers[w := s'.workers[w]]
    ensures Measure(s', lock) + UserRank(Pc(s, t)) + WorkRank(s.workers[w], lock)
            == Measure(s, lock) + UserRank(Pc(s', t)) + WorkRank(s'.workers[w], lock)
  {
    ThreadChanges(s.threads, t, s'.threads[t]);
    WorkerChanges(s.workers, w, s'.workers[w], lock);
  }

  /** The worker that a step of a thread changes, if any. */
  function Touched(s: State, t: Tid, step: CmdStep): Option<Wid>
    requires CmdEnabled(s, t, step)
  {
    if step.Ref? then Some(step.w)
    else if step.CmdLock? || step.NotifyOk? || step.Wake? || step.CmdUnlock? || step.Unref? then Some(Pc(s, t).w)
    else None
  }

  lemma CmdFrame(s: State, t: Tid, step: CmdStep)
    requires CmdEnabled(s, t, step)
    ensures var s', w := DoCmd(s, t, step), Touched(s, t, step);
            && t in s'.threads && s'.threads == s.threads[t := s'.threads[t]]
            && if w.None? then s'.workers == s.workers
               else && w.value in s.workers && w.value in s'.workers
                    && s'.workers == s.workers[w.value := s'.workers[w.value]]
  {
  }

  lemma CmdRanks(s: State, t: Tid, step: CmdStep, lock: nat)
    requires CmdEnabled(s, t, step)
    ensures var s', w := DoCmd(s, t, step), Touched(s, t, step);
            && (step.Call? ==> UserRank(Pc(s', t)) == UserRank(Pc(s, t)) + 19)
            && (!step.Call? ==> UserRank(Pc(s', t)) < UserRank(Pc(s, t)))
            && (step.NotifyOk? ==> UserRank(Pc(s', t)) + 11 == UserRank(Pc(s, t)))
            && (w.Some? ==>
                  var more := if step.NotifyOk? then 10 else 0;
                  && w.value in s.workers && w.value in s'.workers
                  && WorkRank(s'.workers[w.value], lock) <= WorkRank(s.workers[w.value], lock) + more)
  {
  }

  lemma CmdMeasure(s: State, t: Tid, step: CmdStep, lock: nat)
    requires CmdEnabled(s, t, step)
    ensures if step.Call? then Measure(DoCmd(s, t, step), lock) == Measure(s, lock) + 19
            else Measure(DoCmd(s, t, step), lock) < Measure(s, lock)
  {
    CmdFrame(s, t, step);
    CmdRanks(s, t, step, lock);
    match Touched(s, t, step)
    case None => ThreadSteps(s, DoCmd(s, t, step), t, lock);
    case Some(w) => BothStep(s, DoCmd(s, t, step), t, w, lock);
  }

  lemma NewRanks(s: State, t: Tid, step: NewStep)
    requires NewEnabled(s, t, step)
    ensures var s' := DoNew(s, t, step);
            && t in s'.threads && s'.threads == s.threads[t := s'.threads[t]]
            && if step.Count? then UserRank(Pc(s', t)) <= UserRank(Pc(s, t)) + 5
               else UserRank(Pc(s', t)) < UserRank(Pc(s, t))
  {
  }

  lemma NewWorkers(s: State, t: Tid, step: NewStep, lock: nat)
    requires NewEnabled(s, t, step)
    ensures Sum(WorkRanks(DoNew(s, t, step).workers, lock)) == Sum(WorkRanks(s.workers, lock))
  {
    if step.Create? {
      WorkerChanges(s.workers, step.w, DoNew(s, t, step).workers[step.w], lock);
    } else if step.Insert? {
      InsertRanks(s, t, lock);
    }
  }

  lemma NewMeasure(s: State, t: Tid, step: NewStep, lock: nat)
    requires NewEnabled(s, t, step)
    ensures if step.Count? then Measure(DoNew(s, t, step), lock) <= Measure(s, lock) + 5
            else Measure(DoNew(s, t, step), lock) < Measure(s, lock)
  {
    NewRanks(s, t, step);
    NewWorkers(s, t, step, lock);
    ThreadSteps(s, DoNew(s, t, step), t, lock);
  }

  lemma InsertRanks(s: State, t: Tid, lock: nat)
    requires NewEnabled(s, t, Insert)
    ensures WorkRanks(DoNew(s, t, Insert).workers, lock) == WorkRanks(s.workers, lock)
  {
    SameRanks(s.workers, DoNew(s, t, Insert).workers, lock);
  }

  lemma SameRanks(a: map<Wid, WorkerState>, b: map<Wid, WorkerState>, lock: nat)
    requires b.Keys == a.Keys && forall w | w in a :: b[w].pc == a[w].pc && b[w].trigger == a[w].trigger
    ensures WorkRanks(b, lock) == WorkRanks(a, lock)
  {
  }

  lemma WorkRankChanges(s: State, w: Wid, step: WorkStep, lock: nat)
    requires WorkEnabled(s, w, step) && !step.Free?
    ensures var s' := DoWork(s, w, step);
            && w in s'.workers && s'.workers == s.workers[w := s'.workers[w]]
            && var m, n := WorkRank(s.workers[w], lock), WorkRank(s'.workers[w], lock);
               if step.Die? then n == m + 9 else if step.DrainLock? then n == m + lock
               else if step.DrainUnlock? then n + lock == m else n < m
  {
  }

  /** A worker changes at most the result in a thread's command. */
  lemma WorkThreads(s: State, w: Wid, step: WorkStep)
    requires WorkEnabled(s, w, step)
    ensures Sum(UserRanks(DoWork(s, w, step).threads)) == Sum(UserRanks(s.threads))
  {
    if step.Finish? {
      var t := s.workers[w].pc.t;
      ThreadChanges(s.threads, t, DoWork(s, w, step).threads[t]);
    }
  }

  lemma WorkMeasure(s: State, w: Wid, step: WorkStep, lock: nat)
    requires WorkEnabled(s, w, step)
    ensures var m := Measure(DoWork(s, w, step), lock);
            if step.Die? then m == Measure(s, lock) + 9 else if step.DrainLock? then m == Measure(s, lock) + lock
            else if step.DrainUnlock? then m + lock == Measure(s, lock) else m < Measure(s, lock)
  {
    WorkThreads(s, w, step);
    if step.Free? {
      WorkerGoes(s.workers, w, lock);
    } else {
      WorkRankChanges(s, w, step, lock);
      WorkerChanges(s.workers, w, DoWork(s, w, step).workers[w], lock);
    }
  }

  /** The steps that make new work: a call and the death of a worker. */
  predicate Raises(step: Step) {
    match step
    case Cmd(_, c) => c.Call?
    case New(_, n) => n.Count?
    case Work(_, k) => k.Die?
    case SetLimit(_) => false
  }

  /** The steps of a dying worker that waits for references, and a change of the limit. */
  predicate Idles(step: Step) {
    step.SetLimit? || (step.Work? && (step.k.DrainLock? || step.k.DrainUnlock?))
  }

  lemma StepMeasure(s: State, step: Step, lock: nat)
    requires Enabled(s, step)
    ensures var m, m' := Measure(s, lock), Measure(Do(s, step), lock);
            if Raises(step) then m' <= m + 19
            else if !Idles(step) then m' < m
            else if step.SetLimit? then m' == m
            else if step.k.DrainLock? then m' == m + lock else m' + lock == m
  {
    match step
    case Cmd(t, c) => CmdMeasure(s, t, c, lock);
    case New(t, n) => NewMeasure(s, t, n, lock);
    case Work(w, k) => WorkMeasure(s, w, k, lock);
    case SetLimit(_) =>
  }

  // ------------------------------------------------------------------ all calls end

  function Count(steps: seq<Step>, what: Step -> bool): nat {
    if steps == [] then 0 else Count(steps[..|steps| - 1], what) + if what(steps[|steps| - 1]) then 1 else 0
  }

  lemma {:induction false} CountNext(steps: seq<Step>, i: nat, j: nat, what: Step -> bool)
    requires i < j <= |steps|
    ensures Count(steps[i..j], what) == Count(steps[i..j - 1], what) + if what(steps[j - 1]) then 1 else 0
  {
    assert steps[i..j][..j - 1 - i] == steps[i..j - 1];
  }

  predicate Lowers(step: Step) {
    !Raises(step) && !Idles(step)
  }

  lemma BoundNext(start: nat, lowers: nat, raises: nat, m: nat, m': nat, step: Step)
    requires lowers + m <= start + 19 * raises
    requires if Raises(step) then m' <= m + 19 else if Idles(step) then m' == m else m' < m
    ensures lowers + (if Lowers(step) then 1 else 0) + m' <= start + 19 * (raises + if Raises(step) then 1 else 0)
  {
  }

  /**
   * Between any two states of a run, under any schedule and however often dying workers look for references, there
   * are no more steps than the work there was at the beginning and the new work allow. Without new calls and deaths
   * that is a fixed number.
   */
  lemma {:induction false} StepsBounded(states: seq<State>, steps: seq<Step>, i: nat, j: nat)
    requires IsRun(states, steps) && i <= j < |states|
    ensures Count(steps[i..j], Lowers) + Measure(states[j], 0)
            <= Measure(states[i], 0) + 19 * Count(steps[i..j], Raises)
    decreases j
  {
    if i < j {
      StepsBounded(states, steps, i, j - 1);
      StepMeasure(states[j - 1], steps[j - 1], 0);
      CountNext(steps, i, j, Lowers);
      CountNext(steps, i, j, Raises);
      BoundNext(Measure(states[i], 0), Count(steps[i..j - 1], Lowers), Count(steps[i..j - 1], Raises),
                Measure(states[j - 1], 0), Measure(states[j], 0), steps[j - 1]);
    } else {
      assert steps[i..j] == [];
    }
  }

  /** No thread is in a call, and every worker is at rest. */
  ghost predicate Quiet(s: State) {
    (forall t :: !InCall(s, t)) && (forall w :: !Busy(s, w))
  }

  /** From state `i` on a run goes by steps forward only. */
  ghost predicate GoesForward(states: seq<State>, steps: seq<Step>, i: nat) {
    IsRun(states, steps) && i < |states| && forall j | i <= j < |steps| :: Forward(states[j], steps[j])
  }

  lemma ForwardLowers(states: seq<State>, steps: seq<Step>, i: nat, j: nat)
    requires GoesForward(states, steps, i) && i <= j < |steps|
    ensures Measure(states[j + 1], 1) < Measure(states[j], 1)
  {
    assert Forward(states[j], steps[j]);
    StepMeasure(states[j], steps[j], 1);
  }

  lemma {:induction false} Descent(ms: seq<nat>, i: nat, j: nat)
    requires i <= j < |ms| && forall q | i < q <= j :: ms[q] < ms[q - 1]
    ensures j - i + ms[j] <= ms[i]
    decreases j
  {
    if i < j {
      Descent(ms, i, j - 1);
      assert ms[j] < ms[j - 1];
    }
  }

  lemma ForwardBounded(states: seq<State>, steps: seq<Step>, i: nat)
    requires GoesForward(states, steps, i)
    ensures |steps| - i <= Measure(states[i], 1)
  {
    var ms := seq(|states|, q requires 0 <= q < |states| => Measure(states[q], 1));
    forall q | i < q <= |steps| ensures ms[q] < ms[q - 1] {
      ForwardLowers(states, steps, i, q - 1);
    }
    Descent(ms, i, |steps|);
  }

  /**
   * All calls end: a run that goes on by steps forward takes no more steps than its measure says, and when no
   * step forward is left, no thread is in a call, no command is under way, and every dying worker is gone.
   */
  lemma CallsEnd(states: seq<State>, steps: seq<Step>, i: nat)
    requires GoesForward(states, steps, i)
    ensures |steps| - i <= Measure(states[i], 1)
    ensures (forall step | Enabled(states[|steps|], step) :: !Forward(states[|steps|], step)) ==> Quiet(states[|steps|])
  {
    ForwardBounded(states, steps, i);
    if !Quiet(states[|steps|]) {
      var step := NoDeadlock(states, steps, |steps|);
      assert Enabled(states[|steps|], step) && Forward(states[|steps|], step);
    }
  }
}
