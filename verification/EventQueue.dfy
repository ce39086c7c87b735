/** The event queue over its growing array, and the accounting of the pipe it is sent through. */
module EventQueue {
  import opened Wrappers
  import opened EventStream

  const IOV_MAX: nat := 1024

  /** The value of the space counter that stands for an empty pipe (SIZE_MAX). */
  const SBEMPTY: nat := 0xffff_ffff_ffff_ffff

  /** The counter is unsigned: a subtraction wraps around here. */
  const SIZE_MOD: nat := 0x1_0000_0000_0000_0000

  /** The size of an event on the wire: a header of 16 bytes, then the name and its NUL. */
  function Length(e: Event): nat {
    16 + if e.name.Some? then |e.name.value| + 1 else 0
  }

  function Bytes(es: seq<Event>): nat {
    if es == [] then 0 else Bytes(es[..|es| - 1]) + Length(Last(es))
  }

  function Min(a: nat, b: nat): nat {
    if a < b then a else b
  }

  /** How many events a flush sends: as many as fit into the space, and into one system call. */
  function Batch(w: seq<Event>, space: nat, k: nat): (n: nat)
    requires k <= Min(|w|, IOV_MAX)
    ensures k <= n <= Min(|w|, IOV_MAX)
    decreases Min(|w|, IOV_MAX) - k
  {
    if k == Min(|w|, IOV_MAX) || Bytes(w[..k]) + Length(w[k]) > space then k else Batch(w, space, k + 1)
  }

  lemma BytesStep(w: seq<Event>, k: nat)
    requires k < |w|
    ensures Bytes(w[..k + 1]) == Bytes(w[..k]) + Length(w[k])
  {
    assert w[..k + 1][..k] == w[..k];
  }

  lemma {:induction false} BytesAppend(a: seq<Event>, b: seq<Event>)
    ensures Bytes(a + b) == Bytes(a) + Bytes(b)
  {
    if b == [] {
      assert a + b == a;
    } else {
      assert (a + b)[..|a + b| - 1] == a + b[..|b| - 1];
      BytesAppend(a, b[..|b| - 1]);
    }
  }

  /** A batch fits, and no longer one does. */
  lemma {:induction false} BatchFits(w: seq<Event>, space: nat, k: nat)
    requires k <= Min(|w|, IOV_MAX) && Bytes(w[..k]) <= space
    ensures var n := Batch(w, space, k);
            Bytes(w[..n]) <= space && (n < Min(|w|, IOV_MAX) ==> Bytes(w[..n + 1]) > space)
    decreases Min(|w|, IOV_MAX) - k
  {
    if k < Min(|w|, IOV_MAX) {
      BytesStep(w, k);
      if Bytes(w[..k]) + Length(w[k]) <= space {
        BatchFits(w, space, k + 1);
      }
    }
  }

  // ------------------------------------------------------------------ the array

  class EventQueue {
    var iov: array<Event>      // its length is the number of slots allocated
    var memEvents: nat
    var maxEvents: nat
    var last: Option<Event>
    var sbEvents: nat
    ghost var sent: seq<Event>
    ghost var history: seq<Offer>

    ghost predicate Valid()
      reads this
    {
      memEvents <= iov.Length && 0 < maxEvents <= INT_MAX
    }

    ghost function View(): Queue
      requires Valid()
      reads this, iov
    {
      Queue(sent, iov[..memEvents], last, maxEvents, history)
    }

    constructor (maxEvents: nat)
      requires 0 < maxEvents <= INT_MAX
      ensures Valid() && fresh(iov) && View() == Queue([], [], None, maxEvents, [])
    {
      iov := new Event[0](i => OVERFLOW);
      memEvents, sbEvents := 0, 0;
      this.maxEvents := maxEvents;
      last := None;
      sent, history := [], [];
    }

    /** Set the limit; a limit that is not positive is refused. */
    method SetMaxEvents(n: int) returns (ok: bool)
      requires Valid() && n <= INT_MAX
      modifies this`maxEvents
      ensures Valid() && ok == (n > 0)
      ensures View() == if n > 0 then Limited(old(View()), n) else old(View())
    {
      ok := n > 0;
      if ok {
        maxEvents := n;
      }
    }

    /** Make room for one more event. The new size never exceeds the limit by more than one slot. */
    method Extend()
      requires Valid() && memEvents <= maxEvents && memEvents * 3 <= INT_MAX
      modifies this`iov
      ensures Valid() && View() == old(View())
      ensures memEvents < iov.Length
      ensures iov == old(iov) || (fresh(iov) && iov.Length <= maxEvents + 1)
    {
      if memEvents >= iov.Length {
        var toAllocate := memEvents * 3 / 2;
        if toAllocate < 10 {
          toAllocate := 10;
        }
        if toAllocate > maxEvents {
          toAllocate := maxEvents + 1;
        }
        var ptr := new Event[toAllocate](i => OVERFLOW);
        var i := 0;
        while i < memEvents
          invariant i <= memEvents < ptr.Length
          invariant ptr[..i] == iov[..i]
          modifies ptr
        {
          ptr[i] := iov[i];
          i := i + 1;
        }
        iov := ptr;
      }
    }

    /** Place an event in the queue; `buffered` is what the kernel says of the pipe. */
    method Enqueue(e: Event, buffered: bool) returns (ok: bool)
      requires Valid() && memEvents * 3 <= INT_MAX
      modifies this, iov
      ensures Valid() && (iov == old(iov) || fresh(iov))
      ensures View() == Enqueued(old(View()), e, buffered)
      ensures ok == !Last(history).v.Refused?
    {
      if memEvents > maxEvents {
        history := history + [Offer(e, Refused)];
        return false;
      }
      Extend();
      var x, full := e, false;
      if memEvents == maxEvents {
        x, full := OVERFLOW, true;
      }
      ok := !full;
      var prev := if memEvents > 0 then Some(iov[memEvents - 1]) else last;
      if prev == Some(x) && (memEvents > 0 || buffered) {
        history := history + [Offer(e, if full then Refused else Merged)];
        return;
      }
      ghost var before := iov[..memEvents];
      iov[memEvents] := x;
      memEvents := memEvents + 1;
      assert iov[..memEvents] == before + [x];
      history := history + [Offer(e, if full then Refused else Kept)];
    }

    /** Move the events after the first `k` to the front. */
    method Shift(k: nat)
      requires k <= memEvents <= iov.Length
      modifies iov
      ensures iov[..memEvents - k] == old(iov[k..memEvents])
    {
      var i := 0;
      while i < memEvents - k
        invariant i <= memEvents - k
        invariant forall j | 0 <= j < i :: iov[j] == old(iov[j + k])
        invariant forall j | i <= j < iov.Length :: iov[j] == old(iov[j])
      {
        iov[i] := iov[i + k];
        i := i + 1;
      }
    }

    /** Count the events that fit into the space. */
    method Fit(space: nat) returns (iovcnt: nat, iovlen: nat)
      requires Valid()
      ensures iovcnt == Batch(View().waiting, space, 0)
      ensures iovlen == Bytes(View().waiting[..iovcnt]) <= space
    {
      var iovmax := if memEvents > IOV_MAX then IOV_MAX else memEvents;
      iovcnt, iovlen := 0, 0;
      ghost var w := iov[..memEvents];
      while iovcnt < iovmax && iovlen + Length(iov[iovcnt]) <= space
        invariant iovcnt <= iovmax
        invariant iovlen == Bytes(w[..iovcnt]) <= space
        invariant Batch(w, space, 0) == Batch(w, space, iovcnt)
      {
        BytesStep(w, iovcnt);
        iovlen := iovlen + Length(iov[iovcnt]);
        iovcnt := iovcnt + 1;
      }
    }

    /**
     * Send as many events as fit into the space. `sends` is the outcome of the system call, which
     * writes all or nothing; the result is the number of bytes written.
     */
    method Flush(space: nat, sends: bool) returns (size: nat)
      requires Valid()
      modifies this, iov
      ensures Valid() && iov == old(iov)
      ensures var k := Batch(old(View()).waiting, space, 0);
              && View() == (if sends then Flushed(old(View()), k) else old(View()))
              && size == (if sends then Bytes(old(View()).waiting[..k]) else 0) <= space
    {
      var iovcnt, iovlen := Fit(space);
      if iovcnt == 0 || !sends {
        return 0;
      }
      ghost var w := iov[..memEvents];
      assert w[iovcnt..] == iov[iovcnt..memEvents];
      last := Some(iov[iovcnt - 1]);
      Shift(iovcnt);
      memEvents := memEvents - iovcnt;
      sbEvents := sbEvents + iovcnt;
      sent := sent + w[..iovcnt];
      size := iovlen;
    }

    /** Forget the last event sent: the pipe is empty. */
    method ResetLast()
      requires Valid()
      modifies this`last, this`sbEvents
      ensures Valid() && View() == Drained(old(View()))
    {
      last := None;
      sbEvents := 0;
    }
  }

  // ------------------------------------------------------------------ the pipe

  /**
   * The worker's side of the pipe. `space` is the counter of the main loop; `mark` is how much had
   * been sent when the pipe was last empty, `base` the buffer size read for the first flush since.
   */
  datatype Pipe = Pipe(q: Queue, space: nat, bufSize: nat, mark: nat, base: nat)

  /** The bytes sent since the pipe was last empty. */
  function InFlight(p: Pipe): nat
    requires p.mark <= |p.q.sent|
  {
    Bytes(p.q.sent[p.mark..])
  }

  /** The top of the main loop: flush if there is something to send and room for it. */
  function Pumped(p: Pipe, sends: bool): Pipe {
    if p.space == 0 || p.q.waiting == [] then p
    else
      var space := if p.space == SBEMPTY then p.bufSize else p.space;
      var base := if p.space == SBEMPTY then p.bufSize else p.base;
      var k := Batch(p.q.waiting, space, 0);
      var q := if sends then Flushed(p.q, k) else p.q;
      var size := if sends then Bytes(p.q.waiting[..k]) else 0;
      p.(q := q, base := base, space := if q.waiting == [] then (space - size) % SIZE_MOD else 0)
  }

  /** The kernel reports the pipe empty. */
  function Emptied(p: Pipe): Pipe {
    p.(q := Drained(p.q), space := SBEMPTY, mark := |p.q.sent|)
  }

  ghost predicate PipeOk(p: Pipe) {
    && Good(p.q)
    && 0 < p.bufSize <= INT_MAX && p.base <= INT_MAX
    && p.mark <= |p.q.sent|
    && (if p.space == SBEMPTY then InFlight(p) == 0 else InFlight(p) + p.space <= p.base)
  }

  datatype PipeOp =
    | Offered(e: Event, buffered: bool)
    | Pump(sends: bool)
    | EmptyPipe
    | Limit(n: nat)
    | Resize(n: nat)

  predicate Admissible(p: Pipe, op: PipeOp) {
    match op
    case Offered(e, _) => IsOffer(e)
    case Limit(n) => n > 0 && SafeLimit(p.q, n)
    case Resize(n) => 0 < n <= INT_MAX
    case _ => true
  }

  function Act(p: Pipe, op: PipeOp): Pipe {
    match op
    case Offered(e, buffered) => p.(q := Enqueued(p.q, e, buffered))
    case Pump(sends) => Pumped(p, sends)
    case EmptyPipe => Emptied(p)
    case Limit(n) => p.(q := Limited(p.q, n))
    case Resize(n) => p.(bufSize := n)
  }

  lemma FlushBytes(q: Queue, mark: nat, k: nat)
    requires mark <= |q.sent| && k <= |q.waiting|
    ensures mark <= |Flushed(q, k).sent|
    ensures Bytes(Flushed(q, k).sent[mark..]) == Bytes(q.sent[mark..]) + Bytes(q.waiting[..k])
  {
    if k == 0 {
      assert q.waiting[..0] == [];
    } else {
      assert (q.sent + q.waiting[..k])[mark..] == q.sent[mark..] + q.waiting[..k];
      BytesAppend(q.sent[mark..], q.waiting[..k]);
    }
  }

  /** The counter is reduced only by what was sent, so the subtraction never wraps, and the books balance. */
  lemma PumpKeepsPipe(p: Pipe, sends: bool)
    requires PipeOk(p)
    ensures PipeOk(Pumped(p, sends))
    ensures p.space > 0 && p.q.waiting != [] ==>
              var space := if p.space == SBEMPTY then p.bufSize else p.space;
              Bytes(p.q.waiting[..Batch(p.q.waiting, space, 0)]) <= space < SBEMPTY
    ensures Pumped(p, sends).q.sent + Pumped(p, sends).q.waiting == p.q.sent + p.q.waiting
  {
    if p.space > 0 && p.q.waiting != [] {
      var space := if p.space == SBEMPTY then p.bufSize else p.space;
      var k := Batch(p.q.waiting, space, 0);
      BatchFits(p.q.waiting, space, 0);
      FlushGood(p.q, k);
      FlushBytes(p.q, p.mark, k);
    }
  }

  lemma ActKeepsPipe(p: Pipe, op: PipeOp)
    requires PipeOk(p) && Admissible(p, op)
    ensures PipeOk(Act(p, op))
  {
    match op
    case Offered(e, buffered) => EnqueueGood(p.q, e, buffered);
    case Pump(sends) => PumpKeepsPipe(p, sends);
    case EmptyPipe => assert Emptied(p).q.sent[|p.q.sent|..] == [];
    case Limit(n) =>
    case Resize(n) =>
  }

  ghost predicate IsPipeRun(ps: seq<Pipe>, ops: seq<PipeOp>) {
    && |ps| == |ops| + 1
    && ps[0].q.sent == [] && ps[0].q.waiting == [] && ps[0].q.last == None && ps[0].q.history == [] && ps[0].q.max > 0
    && ps[0].space == SBEMPTY && 0 < ps[0].bufSize <= INT_MAX && ps[0].mark == 0 && ps[0].base == 0
    && (forall i | 0 <= i < |ops| :: Admissible(ps[i], ops[i]) && ps[i + 1] == Act(ps[i], ops[i]))
  }

  /**
   * In every run, the bytes sent since the pipe was last empty never exceed the buffer size read
   * at the first flush after that, and the stream stays as it should be.
   */
  lemma {:induction false} PipeAccounting(ps: seq<Pipe>, ops: seq<PipeOp>, i: nat)
    requires IsPipeRun(ps, ops) && i < |ps|
    ensures PipeOk(ps[i]) && InFlight(ps[i]) <= ps[i].base
  {
    if i == 0 {
      assert ps[0].q.sent[0..] == [];
    } else {
      PipeAccounting(ps, ops, i - 1);
      ActKeepsPipe(ps[i - 1], ops[i - 1]);
      if ps[i].space == SBEMPTY {
        assert InFlight(ps[i]) == 0;
      }
    }
  }

  /**
   * With the pipe empty and a working system call, a flush sends something exactly when the first
   * event is no longer than the buffer; a longer one closes the pipe until the next notification.
   */
  lemma FlushProgress(p: Pipe)
    requires PipeOk(p) && p.space == SBEMPTY && p.q.waiting != []
    ensures Length(p.q.waiting[0]) <= p.bufSize <==> |Pumped(p, true).q.sent| > |p.q.sent|
    ensures Length(p.q.waiting[0]) > p.bufSize ==> Pumped(p, true).q == p.q && Pumped(p, true).space == 0
  {
    var w := p.q.waiting;
    assert w[..0] == [];
    if Length(w[0]) <= p.bufSize {
      assert Batch(w, p.bufSize, 0) == Batch(w, p.bufSize, 1);
    }
  }

  /** What a turn of the main loop does, in plain subtraction. */
  lemma PumpedWithoutWrap(p: Pipe, sends: bool)
    requires PipeOk(p)
    ensures p.space > 0 && p.q.waiting != [] ==>
              var space := if p.space == SBEMPTY then p.bufSize else p.space;
              var k := Batch(p.q.waiting, space, 0);
              var q := if sends then Flushed(p.q, k) else p.q;
              var size := if sends then Bytes(p.q.waiting[..k]) else 0;
              && size <= space && Pumped(p, sends).q == q
              && Pumped(p, sends).space == if q.waiting == [] then space - size else 0
  {
    PumpKeepsPipe(p, sends);
  }

  /** One turn of the main loop over the real queue. */
  method PumpQueue(eq: EventQueue, space: nat, bufSize: nat, sends: bool, ghost p: Pipe) returns (space': nat)
    requires eq.Valid() && p.q == eq.View() && p.space == space && p.bufSize == bufSize && PipeOk(p)
    modifies eq, eq.iov
    ensures eq.Valid() && eq.View() == Pumped(p, sends).q && space' == Pumped(p, sends).space
  {
    space' := space;
    PumpedWithoutWrap(p, sends);
    if space' > 0 && eq.memEvents > 0 {
      if space' == SBEMPTY {
        space' := bufSize;
      }
      var size := eq.Flush(space', sends);
      space' := if eq.memEvents == 0 then space' - size else 0;
    }
  }
}
