/**
 * The event queue of a worker as a value: what was sent, what waits, and for each event that
 * was offered what became of it.
 */
module EventStream {
  import opened Wrappers

  /** An inotify event. The mask of an overflow marker is IN_Q_OVERFLOW. */
  datatype Event = Event(wd: int, mask: nat, cookie: nat, name: Option<string>)

  const IN_Q_OVERFLOW: nat := 0x00004000

  const OVERFLOW: Event := Event(-1, IN_Q_OVERFLOW, 0, None)

  /** Events of watches, as opposed to the marker. */
  predicate IsOffer(e: Event) {
    e.wd > 0
  }

  datatype Verdict = Kept | Merged | Refused

  datatype Offer = Offer(e: Event, v: Verdict)

  datatype Queue = Queue(sent: seq<Event>, waiting: seq<Event>, last: Option<Event>, max: nat, history: seq<Offer>)

  function Last<T>(s: seq<T>): T
    requires s != []
  {
    s[|s| - 1]
  }

  /** The event a new one is compared with: the one at the end of the queue, or the last one sent. */
  function Previous(q: Queue): Option<Event> {
    if q.waiting != [] then Some(Last(q.waiting)) else q.last
  }

  /** What an offer does to the queue; `buffered` tells whether the pipe still holds data. */
  function Enqueued(q: Queue, e: Event, buffered: bool): Queue {
    var full := |q.waiting| >= q.max;
    var x := if full then OVERFLOW else e;
    if |q.waiting| > q.max then q.(history := q.history + [Offer(e, Refused)])
    else if Previous(q) == Some(x) && (q.waiting != [] || buffered) then
      q.(history := q.history + [Offer(e, if full then Refused else Merged)])
    else
      q.(waiting := q.waiting + [x], history := q.history + [Offer(e, if full then Refused else Kept)])
  }

  /** The first `k` events go out. */
  function Flushed(q: Queue, k: nat): Queue
    requires k <= |q.waiting|
  {
    if k == 0 then q
    else q.(sent := q.sent + q.waiting[..k], waiting := q.waiting[k..], last := Some(q.waiting[k - 1]))
  }

  /** The pipe is empty: nothing to compare a new event with. */
  function Drained(q: Queue): Queue {
    q.(last := None)
  }

  function Limited(q: Queue, n: nat): Queue {
    q.(max := n)
  }

  // ------------------------------------------------------------------ the stream a reader gets

  /** The stream that the verdicts stand for: each run of refused events is one marker. */
  function Render(h: seq<Offer>): seq<Event> {
    if h == [] then []
    else
      var rest, o := h[..|h| - 1], Last(h);
      match o.v
      case Kept => Render(rest) + [o.e]
      case Merged => Render(rest)
      case Refused => Render(rest) + if rest != [] && Last(rest).v.Refused? then [] else [OVERFLOW]
  }

  /** A real event is offered, and it is merged only if it equals its immediate predecessor. */
  ghost predicate JustifiedAt(h: seq<Offer>, i: nat)
    requires i < |h|
  {
    && IsOffer(h[i].e)
    && (h[i].v.Merged? ==> i > 0 && h[i - 1].e == h[i].e && !h[i - 1].v.Refused?)
  }

  ghost predicate Justified(h: seq<Offer>) {
    forall i | 0 <= i < |h| :: JustifiedAt(h, i)
  }

  lemma {:induction false} RenderedTail(h: seq<Offer>)
    requires Justified(h) && h != []
    ensures Render(h) != []
    ensures Last(Render(h)) == if Last(h).v.Refused? then OVERFLOW else Last(h).e
  {
    var rest := h[..|h| - 1];
    assert JustifiedAt(h, |h| - 1);
    if !Last(h).v.Kept? && rest != [] {
      forall i | 0 <= i < |rest| ensures JustifiedAt(rest, i) {
        assert JustifiedAt(h, i);
      }
      RenderedTail(rest);
    }
  }

  /** One more offer. */
  lemma {:induction false} OfferAppended(h: seq<Offer>, o: Offer)
    requires Justified(h) && IsOffer(o.e)
    requires o.v.Merged? ==> h != [] && Last(h).e == o.e && !Last(h).v.Refused?
    ensures Justified(h + [o])
    ensures Render(h + [o]) ==
            match o.v
            case Kept => Render(h) + [o.e]
            case Merged => Render(h)
            case Refused => Render(h) + if h != [] && Last(h).v.Refused? then [] else [OVERFLOW]
  {
    var h' := h + [o];
    assert h'[..|h'| - 1] == h && Last(h') == o;
    forall i | 0 <= i < |h'| ensures JustifiedAt(h', i) {
      if i < |h| {
        assert JustifiedAt(h, i);
      }
    }
  }

  /** What the queue keeps: the stream is as the verdicts say, and a queue over its limit ends in the marker. */
  ghost predicate Good(q: Queue) {
    && q.max > 0
    && Justified(q.history)
    && q.sent + q.waiting == Render(q.history)
    && (q.last.Some? ==> q.sent != [] && q.last.value == Last(q.sent))
    && (|q.waiting| > q.max ==> Last(q.waiting) == OVERFLOW)
  }

  /** The event a new one is compared with is what became of the offer before it. */
  lemma PreviousIsTail(q: Queue)
    requires Good(q) && Previous(q).Some?
    ensures q.history != []
    ensures Previous(q).value == if Last(q.history).v.Refused? then OVERFLOW else Last(q.history).e
  {
    assert Last(q.sent + q.waiting) == Previous(q).value;
    assert Render(q.history) != [];
    RenderedTail(q.history);
  }

  /** A full queue ends in the marker exactly when the offer before was refused. */
  lemma FullTail(q: Queue)
    requires Good(q) && q.waiting != []
    ensures q.history != [] && (Last(q.waiting) == OVERFLOW <==> Last(q.history).v.Refused?)
  {
    PreviousIsTail(q);
    assert JustifiedAt(q.history, |q.history| - 1);
  }

  lemma EnqueueGood(q: Queue, e: Event, buffered: bool)
    requires Good(q) && IsOffer(e)
    ensures Good(Enqueued(q, e, buffered))
  {
    var q' := Enqueued(q, e, buffered);
    var o := Last(q'.history);
    if |q.waiting| >= q.max {
      FullTail(q);
    } else if o.v.Merged? {
      PreviousIsTail(q);
    }
    OfferAppended(q.history, o);
    assert q'.waiting != q.waiting ==> q.sent + q'.waiting == (q.sent + q.waiting) + [Last(q'.waiting)];
  }

  /** Whole events leave in order, none is lost and none is sent twice. */
  lemma FlushGood(q: Queue, k: nat)
    requires Good(q) && k <= |q.waiting|
    ensures Good(Flushed(q, k))
    ensures Flushed(q, k).sent + Flushed(q, k).waiting == q.sent + q.waiting
  {
    assert q.waiting == q.waiting[..k] + q.waiting[k..];
    assert q.sent + q.waiting == (q.sent + q.waiting[..k]) + q.waiting[k..];
  }

  /** The new limit does not cut into events that wait, or the marker is in place already. */
  predicate SafeLimit(q: Queue, n: nat) {
    |q.waiting| <= n || (q.waiting != [] && Last(q.waiting) == OVERFLOW)
  }

  /**
   * Changing the limit keeps the stream honest exactly when it is safe: after an unsafe change
   * the next event is refused without a marker.
   */
  lemma LimitGoodIffSafe(q: Queue, n: nat, e: Event, buffered: bool)
    requires Good(q) && n > 0 && IsOffer(e)
    ensures SafeLimit(q, n) <==> Good(Limited(q, n))
    ensures var q' := Enqueued(Limited(q, n), e, buffered);
            SafeLimit(q, n) <==> q'.sent + q'.waiting == Render(q'.history)
  {
    if SafeLimit(q, n) {
      EnqueueGood(Limited(q, n), e, buffered);
    } else {
      FullTail(q);
      OfferAppended(q.history, Offer(e, Refused));
    }
  }

  // ------------------------------------------------------------------ runs

  datatype Op = Offered(e: Event, buffered: bool) | Flush(k: nat) | Drain | Limit(n: nat)

  predicate Allowed(q: Queue, op: Op) {
    match op
    case Offered(e, _) => IsOffer(e)
    case Flush(k) => k <= |q.waiting|
    case Drain => true
    case Limit(n) => n > 0 && SafeLimit(q, n)
  }

  function Apply(q: Queue, op: Op): Queue
    requires Allowed(q, op)
  {
    match op
    case Offered(e, buffered) => Enqueued(q, e, buffered)
    case Flush(k) => Flushed(q, k)
    case Drain => Drained(q)
    case Limit(n) => Limited(q, n)
  }

  ghost predicate IsRun(qs: seq<Queue>, ops: seq<Op>) {
    && |qs| == |ops| + 1
    && qs[0].sent == [] && qs[0].waiting == [] && qs[0].last == None && qs[0].history == [] && qs[0].max > 0
    && (forall i | 0 <= i < |ops| :: Allowed(qs[i], ops[i]) && qs[i + 1] == Apply(qs[i], ops[i]))
  }

  lemma ApplyGood(q: Queue, op: Op)
    requires Good(q) && Allowed(q, op)
    ensures Good(Apply(q, op))
    ensures q.sent <= Apply(q, op).sent && q.history <= Apply(q, op).history
  {
    match op
    case Offered(e, buffered) => EnqueueGood(q, e, buffered);
    case Flush(k) => FlushGood(q, k);
    case Drain =>
    case Limit(n) =>
  }

  /**
   * In every run the stream sent and still queued is the stream offered, where events equal to
   * their immediate predecessor may be dropped and each maximal run of refused events is
   * replaced by one overflow marker.
   */
  lemma {:induction false} StreamRefinement(qs: seq<Queue>, ops: seq<Op>, i: nat)
    requires IsRun(qs, ops) && i < |qs|
    ensures Good(qs[i])
  {
    if i > 0 {
      StreamRefinement(qs, ops, i - 1);
      ApplyGood(qs[i - 1], ops[i - 1]);
    }
  }

  /** What is sent is never taken back, whatever happens later. */
  lemma {:induction false} SentIsFinal(qs: seq<Queue>, ops: seq<Op>, i: nat, j: nat)
    requires IsRun(qs, ops) && i <= j < |qs|
    ensures qs[i].sent <= qs[j].sent && qs[i].history <= qs[j].history
    decreases j - i
  {
    if i < j {
      SentIsFinal(qs, ops, i, j - 1);
      StreamRefinement(qs, ops, j - 1);
      ApplyGood(qs[j - 1], ops[j - 1]);
    }
  }

  /** The queue exceeds a limit that is not lowered by at most the marker. */
  lemma {:induction false} QueueBound(qs: seq<Queue>, ops: seq<Op>, i: nat)
    requires IsRun(qs, ops) && i < |qs|
    requires forall j | 0 <= j < |ops| && ops[j].Limit? :: ops[j].n >= qs[j].max
    ensures |qs[i].waiting| <= qs[i].max + 1
  {
    if i > 0 {
      QueueBound(qs, ops, i - 1);
    }
  }

  /** The offered events, in order. */
  function OffersOf(ops: seq<Op>): seq<Event> {
    if ops == [] then []
    else OffersOf(ops[..|ops| - 1]) + if Last(ops).Offered? then [Last(ops).e] else []
  }

  function EventsOf(h: seq<Offer>): seq<Event> {
    seq(|h|, i requires 0 <= i < |h| => h[i].e)
  }

  /** The verdicts are about exactly the events that were offered. */
  lemma {:induction false} HistoryIsInput(qs: seq<Queue>, ops: seq<Op>, i: nat)
    requires IsRun(qs, ops) && i < |qs|
    ensures EventsOf(qs[i].history) == OffersOf(ops[..i])
  {
    if i > 0 {
      HistoryIsInput(qs, ops, i - 1);
      assert ops[..i][..i - 1] == ops[..i - 1] && Last(ops[..i]) == ops[i - 1];
      assert qs[i] == Apply(qs[i - 1], ops[i - 1]);
    }
  }
}
