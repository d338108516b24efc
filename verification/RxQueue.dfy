/** The bounded receive queue that evicts its oldest frame when full. */
module RxQueue {

  const RX_CAPACITY := 8192

  // ---------------------------------------------------------------------------
  // The queue as a value, with its counters

  datatype Fifo<T> = Fifo(frames: seq<T>, received: nat, dropped: nat)

  function Empty<T>(): Fifo<T> { Fifo([], 0, 0) }

  function Push<T>(q: Fifo<T>, frame: T): Fifo<T> {
    var full := |q.frames| == RX_CAPACITY;
    Fifo((if full then q.frames[1..] else q.frames) + [frame], q.received + 1,
      if full then q.dropped + 1 else q.dropped)
  }

  function Drained<T>(q: Fifo<T>): Fifo<T> {
    q.(frames := [])
  }

  // ---------------------------------------------------------------------------
  // The queue in place

  class Counters {
    var rxReceived: nat
    var rxDropped: nat
    var txAccepted: nat
    var txCompleted: nat

    constructor ()
      ensures rxReceived == rxDropped == txAccepted == txCompleted == 0
    {
      rxReceived, rxDropped, txAccepted, txCompleted := 0, 0, 0, 0;
    }
  }

  class Queue<T> {
    var frames: seq<T>
    const statistics: Counters

    ghost function View(): Fifo<T>
      reads this, statistics
    {
      Fifo(frames, statistics.rxReceived, statistics.rxDropped)
    }

    constructor (statistics: Counters)
      ensures this.statistics == statistics && frames == []
    {
      this.statistics := statistics;
      frames := [];
    }

    method PushBack(frame: T)
      modifies this, statistics`rxReceived, statistics`rxDropped
      ensures View() == Push(old(View()), frame)
    {
      if |frames| == RX_CAPACITY {
        frames := frames[1..];
        statistics.rxDropped := statistics.rxDropped + 1;
      }
      frames := frames + [frame];
      statistics.rxReceived := statistics.rxReceived + 1;
    }

    method Drain() returns (out: seq<T>)
      modifies this
      ensures out == old(frames) && View() == Drained(old(View()))
    {
      out := frames;
      frames := [];
    }
  }

  // ---------------------------------------------------------------------------
  // Refinement of an unbounded log

  /**
   What happened to the queue: every frame pushed, how many of them had been
   pushed at the last drain, and what came out in drains: the frames, and their
   positions in the log.
   */
  datatype History<T> = History(log: seq<T>, mark: nat, drained: seq<T>, out: seq<nat>)

  function NoHistory<T>(): History<T> { History([], 0, [], []) }

  function Logged<T>(h: History<T>, frame: T): History<T> {
    h.(log := h.log + [frame])
  }

  /** A drain hands over what it took, the newest positions of the log. */
  function Taken<T>(h: History<T>, frames: seq<T>): History<T>
    requires |frames| <= |h.log|
  {
    History(h.log, |h.log|, h.drained + frames, h.out + Positions(|h.log| - |frames|, |h.log|))
  }

  function Positions(lo: nat, hi: nat): (s: seq<nat>)
    requires lo <= hi
    ensures |s| == hi - lo
    ensures forall i | 0 <= i < |s| :: s[i] == lo + i
  {
    seq(hi - lo, i => lo + i)
  }

  function Min(a: int, b: int): int {
    if a < b then a else b
  }

  /** The part of the log that is still in the queue, by position. */
  function Queued<T>(h: History<T>): (s: seq<nat>)
    requires h.mark <= |h.log|
  {
    var n := Min(|h.log| - h.mark, RX_CAPACITY);
    Positions(|h.log| - n, |h.log|)
  }

  predicate Increasing(s: seq<nat>, limit: nat) {
    && (forall i, j | 0 <= i < j < |s| :: s[i] < s[j])
    && (forall i | 0 <= i < |s| :: s[i] < limit)
  }

  /**
   The queue holds exactly the newest min(n, 8192) of the n frames pushed since
   the last drain; what came out, then what is queued, are positions of the log
   in increasing order; and the rest of the log is what was dropped.
   */
  ghost predicate Refines<T>(q: Fifo<T>, h: History<T>) {
    && h.mark <= |h.log|
    && q.frames == h.log[|h.log| - Min(|h.log| - h.mark, 8192)..]
    && |h.drained| == |h.out|
    && Increasing(h.out, h.mark)
    && (forall i | 0 <= i < |h.out| :: h.drained[i] == h.log[h.out[i]])
    && Increasing(h.out + Queued(h), |h.log|)
    && q.received == |h.log| == |h.out| + |q.frames| + q.dropped
  }

  lemma RefinesInitially<T>()
    ensures Refines<T>(Empty(), NoHistory())
  {
  }

  lemma PushRefines<T>(q: Fifo<T>, h: History<T>, frame: T)
    requires Refines(q, h)
    ensures Refines(Push(q, frame), Logged(h, frame))
  {
  }

  lemma DrainRefines<T>(q: Fifo<T>, h: History<T>)
    requires Refines(q, h)
    ensures Refines(Drained(q), Taken(h, q.frames))
    ensures Taken(h, q.frames).out == h.out + Queued(h)
  {
  }

  datatype Op<T> = PushOp(frame: T) | DrainOp

  /** Any run of pushes and drains, from an empty queue. */
  function Run<T>(ops: seq<Op<T>>): (r: (Fifo<T>, History<T>))
    ensures Refines(r.0, r.1)
    ensures |r.0.frames| <= RX_CAPACITY
  {
    if ops == [] then
      (Empty(), NoHistory())
    else
      var (q, h) := Run(ops[..|ops| - 1]);
      match ops[|ops| - 1]
      case PushOp(frame) =>
        PushRefines(q, h, frame);
        (Push(q, frame), Logged(h, frame))
      case DrainOp =>
        DrainRefines(q, h);
        (Drained(q), Taken(h, q.frames))
  }
}
