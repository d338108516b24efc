/** Against a device that answers, every frame that `send` accepted is delivered in bounded time. */
module SessionProgress {
  import opened Wrappers
  import opened MachineInts
  import opened CanFrames
  import opened HostFrames
  import opened GsUsbSession
  import opened SessionProperties
  import E = EchoCredits

  // ---------------------------------------------------------------------------
  // A device that answers

  /** The credits once these host frames are processed, if none of them is refused. */
  function CreditsAfter(c: E.Credits, rest: seq<u8>): Option<E.Credits>
    decreases |rest|
  {
    if |rest| < HOST_FRAME_LEN then Some(c)
    else
      match Decode(rest[..HOST_FRAME_LEN])
      case Failure(_) => None
      case Success((id, _)) =>
        if id == RX_ECHO_ID then CreditsAfter(c, rest[HOST_FRAME_LEN..])
        else if id >= E.ECHO_CREDITS || !c.used[id] then None
        else CreditsAfter(E.Release(c, id), rest[HOST_FRAME_LEN..])
  }

  /** These host frames are all in order, and they leave a credit free. */
  predicate LeavesCredit(c: E.Credits, rest: seq<u8>) {
    CreditsAfter(c, rest).Some? && E.InUse(CreditsAfter(c, rest).value.used) < E.ECHO_CREDITS
  }

  /**
   The device has completed the transfer in flight when it is polled, and what it
   returns from a read is in order and echoes a credit if none is free.
   */
  predicate Answers(s: State, d: Device) {
    && (s.worker.phase.PollOut? && s.worker.output.Some? ==> d.out == OutDone(HOST_FRAME_LEN))
    && (s.worker.phase.PollIn? ==>
          match d.inp
          case InNothing => LeavesCredit(s.worker.credits, [])
          case InDone(data) =>
            0 < |data| <= s.worker.requestSize && |data| % HOST_FRAME_LEN == 0 && LeavesCredit(s.worker.credits, data)
          case InError(_, _) => false)
  }

  /** In this run the device answers whenever the worker takes a turn. */
  predicate Answered(s: State, events: seq<Event>)
    decreases |events|
  {
    events != [] ==>
      (events[0].WorkerTurn? ==> Answers(s, events[0].device)) && Answered(Step(s, events[0]), events[1..])
  }

  /** There always is such an answer. */
  lemma CanAnswer(s: State)
    requires s.worker.requestSize >= HOST_FRAME_LEN
    ensures exists d :: Answers(s, d)
  {
    if E.InUse(s.worker.credits.used) < E.ECHO_CREDITS {
      assert Answers(s, Device(OutDone(HOST_FRAME_LEN), InNothing));
    } else {
      var frame := FrameFields(1, NoFlags, 0, seq(64, _ => 0));
      var data := Encode(0, frame).value;
      DecodeEncode(0, frame);
      E.InUseUpdate(s.worker.credits.used, 0, false);
      assert data[..HOST_FRAME_LEN] == data;
      assert CreditsAfter(s.worker.credits, data) == Some(E.Release(s.worker.credits, 0));
      assert Answers(s, Device(OutDone(HOST_FRAME_LEN), InDone(data)));
    }
  }

  // ---------------------------------------------------------------------------
  // How long it takes

  /** The most turns the worker takes from one submit section to the next. */
  function RoundTurns(w: Worker): nat {
    262 + w.requestSize / HOST_FRAME_LEN
  }

  function Room(w: Worker): nat {
    if |w.pending| < TX_CAPACITY then TX_CAPACITY - |w.pending| else 0
  }

  /** The most turns up to the next submit section, itself included. */
  function ToSubmit(w: Worker): nat {
    var chunks := w.requestSize / HOST_FRAME_LEN;
    match w.phase
    case Submit => 1
    case Fill => 2 + Room(w)
    case Head => 3 + Room(w)
    case Chunks(rest) => 4 + Room(w) + |rest| / HOST_FRAME_LEN
    case PollIn => 5 + Room(w) + chunks
    case PollOut => 6 + Room(w) + chunks
    case _ => 0
  }

  /** The most turns up to the section that finds the transfer in flight completed, itself included. */
  function ToComplete(w: Worker): nat {
    if w.phase.PollOut? then 1 else 1 + ToSubmit(w)
  }

  /** The next submit section will find the endpoint busy or every credit in use. */
  predicate Blocked(w: Worker) {
    match w.phase
    case PollOut => false
    case PollIn => w.output.Some?
    case Chunks(_) => w.output.Some?
    case _ => w.output.Some? || E.InUse(w.credits.used) == E.ECHO_CREDITS
  }

  /** The most turns until accepted frame `n` is delivered. */
  function Wait(s: State, n: nat): nat {
    var submitted := |s.log.submitted|;
    if n < |s.log.delivered| then 0
    else if n < submitted then ToComplete(s.worker)
    else 1 + ToSubmit(s.worker) + Rounds(n - submitted + (if Blocked(s.worker) then 1 else 0), RoundTurns(s.worker))
  }

  /** So many rounds of so many turns. */
  function Rounds(k: nat, turns: nat): nat {
    if k == 0 then 0 else turns + Rounds(k - 1, turns)
  }

  /** The session is open and healthy, and frame `n` has been accepted. */
  ghost predicate Attended(s: State, n: nat) {
    && Inv(s) && s.worker.phase.Healthy() && s.shared.txOpen && n < |s.log.enqueued|
    && (s.worker.phase.Chunks? ==> LeavesCredit(s.worker.credits, s.worker.phase.rest))
    && (s.worker.phase.Submit? && |s.log.submitted| <= n ==> s.worker.pending != [])
  }

  /** One turn of the worker, of this phase, brings frame `n` nearer. */
  ghost predicate Nearer(s: State, s': State, n: nat) {
    Attended(s', n) && Wait(s', n) < Wait(s, n)
  }

  /** A frame neither delivered nor waiting is the one in flight. */
  lemma InFlightOrWaiting(s: State, n: nat)
    requires Attended(s, n) && |s.log.delivered| <= n
    ensures n < |s.log.submitted| ==> s.worker.output.Some? && n == |s.log.submitted| - 1 == |s.log.delivered|
    ensures |s.log.submitted| <= n ==> |s.worker.pending| + |s.shared.channel| > n - |s.log.submitted|
  {
    assert |Frames(s.log.submitted) + s.worker.pending + s.shared.channel| == |s.log.enqueued|;
  }

  /** Nothing was submitted, completed or queued. */
  predicate SameWaiting(s: State, s': State) {
    && s'.worker.pending == s.worker.pending && s'.worker.output == s.worker.output
    && s'.worker.requestSize == s.worker.requestSize && s'.shared.txOpen == s.shared.txOpen
    && s'.log.submitted == s.log.submitted && s'.log.delivered == s.log.delivered
    && s'.log.enqueued == s.log.enqueued
  }

  lemma SoonerSubmit(s: State, s': State, n: nat)
    requires SameWaiting(s, s') && |s.log.delivered| <= n
    requires ToSubmit(s'.worker) < ToSubmit(s.worker) && !s.worker.phase.PollOut?
    requires Blocked(s'.worker) ==> Blocked(s.worker)
    ensures Wait(s', n) < Wait(s, n)
  {
  }

  lemma HeadNearer(s: State, n: nat)
    requires Attended(s, n) && s.worker.phase.Head? && |s.log.delivered| <= n
    ensures Nearer(s, s.(worker := s.worker.(phase := Fill)), n)
  {
    StepKeepsInv(s, WorkerTurn(Device(OutNothing, InNothing)));
  }

  lemma FillNearer(s: State, n: nat)
    requires Attended(s, n) && s.worker.phase.Fill? && |s.log.delivered| <= n
    ensures Nearer(s, FillStep(s), n)
  {
    FillMoves(s);
    FillKeepsInv(s);
    InFlightOrWaiting(s, n);
  }

  lemma SubmitNearer(s: State, n: nat)
    requires Attended(s, n) && s.worker.phase.Submit? && |s.log.delivered| <= n
    ensures Nearer(s, SubmitStep(s), n)
  {
    SubmitKeepsInv(s);
    InFlightOrWaiting(s, n);
    SubmitEither(s);
    if Blocked(s.worker) {
      RoundLost(s, n);
    } else {
      RoundUsed(s, SubmitStep(s), n);
    }
  }

  lemma RoundLost(s: State, n: nat)
    requires s.worker.phase.Submit? && Blocked(s.worker) && |s.log.delivered| <= n
    ensures Wait(s.(worker := s.worker.(phase := PollOut)), n) < Wait(s, n)
  {
  }

  lemma RoundUsed(s: State, s': State, n: nat)
    requires s.worker.phase.Submit? && !Blocked(s.worker) && |s.log.delivered| <= |s.log.submitted| <= n
    requires s'.worker.phase.PollOut? && s.worker.pending != [] && s'.worker.pending == s.worker.pending[1..]
    requires s'.worker.requestSize == s.worker.requestSize
    requires |s'.log.submitted| == |s.log.submitted| + 1 && s'.log.delivered == s.log.delivered
    ensures Wait(s', n) < Wait(s, n)
  {
  }

  /** The submit section sends the oldest waiting frame if the endpoint and a credit are free. */
  lemma SubmitEither(s: State)
    requires Inv(s) && s.worker.phase.Submit?
    ensures
      var s', w := SubmitStep(s), s.worker;
      if w.output.None? && E.InUse(w.credits.used) < E.ECHO_CREDITS && w.pending != [] then
        && s'.worker.phase.PollOut? && s'.worker.pending == w.pending[1..] && s'.worker.requestSize == w.requestSize
        && s'.worker.output.Some? && s'.worker.output.value.frame == w.pending[0]
        && s'.log == s.log.(submitted := s.log.submitted + [s'.worker.output.value], holder := s'.log.holder)
        && s'.shared == s.shared && s'.caller == s.caller
      else
        s' == s.(worker := w.(phase := PollOut))
  {
    if CanSubmit(s.worker) {
      E.AllocateSucceedsBelowLimit(s.worker.credits);
      NextPendingEncodes(s, E.Next(s.worker.credits).value);
    }
  }

  lemma PollOutNearer(s: State, d: Device, n: nat)
    requires Attended(s, n) && s.worker.phase.PollOut? && Answers(s, d) && |s.log.delivered| <= n
    ensures Nearer(s, OutStep(s, d.out), n)
  {
    OutKeepsInv(s, d.out);
    OutTouches(s, d.out);
    OutOutcomes(s, d.out);
    InFlightOrWaiting(s, n);
  }

  lemma PollInNearer(s: State, d: Device, n: nat)
    requires Attended(s, n) && s.worker.phase.PollIn? && Answers(s, d) && |s.log.delivered| <= n
    ensures Nearer(s, InStep(s, d.inp), n)
  {
    InKeepsInv(s, d.inp);
    InAnswered(s, d);
    SoonerSubmit(s, InStep(s, d.inp), n);
  }

  lemma InAnswered(s: State, d: Device)
    requires s.worker.phase.PollIn? && Answers(s, d)
    ensures var s' := InStep(s, d.inp);
      && SameWaiting(s, s') && s'.worker.credits == s.worker.credits && ToSubmit(s'.worker) < ToSubmit(s.worker)
      && (s'.worker.phase.Head? || s'.worker.phase.Chunks?)
      && (s'.worker.phase.Head? ==> E.InUse(s.worker.credits.used) < E.ECHO_CREDITS)
      && (s'.worker.phase.Chunks? ==> LeavesCredit(s.worker.credits, s'.worker.phase.rest))
  {
    if d.inp.InDone? {
      MoreChunks(|d.inp.data|, s.worker.requestSize);
    }
  }

  lemma MoreChunks(a: nat, b: nat)
    requires a <= b
    ensures a / HOST_FRAME_LEN <= b / HOST_FRAME_LEN
  {
  }

  lemma ChunkNearer(s: State, n: nat)
    requires Attended(s, n) && s.worker.phase.Chunks? && |s.log.delivered| <= n
    ensures Nearer(s, ChunkStep(s, s.worker.phase.rest), n)
  {
    ChunkKeepsInv(s);
    ChunkAnswered(s);
    SoonerSubmit(s, ChunkStep(s, s.worker.phase.rest), n);
  }

  lemma ChunkAnswered(s: State)
    requires s.worker.phase.Chunks? && LeavesCredit(s.worker.credits, s.worker.phase.rest)
    ensures var s' := ChunkStep(s, s.worker.phase.rest);
      && SameWaiting(s, s') && ToSubmit(s'.worker) < ToSubmit(s.worker)
      && (s'.worker.phase.Head? || s'.worker.phase.Chunks?)
      && (s'.worker.phase.Head? ==> E.InUse(s'.worker.credits.used) < E.ECHO_CREDITS)
      && (s'.worker.phase.Chunks? ==> LeavesCredit(s'.worker.credits, s'.worker.phase.rest))
  {
  }

  lemma TurnNearer(s: State, d: Device, n: nat)
    requires Attended(s, n) && Answers(s, d) && |s.log.delivered| <= n
    ensures Nearer(s, WorkerStep(s, d), n)
  {
    match s.worker.phase
    case Head => HeadNearer(s, n);
    case Fill => FillNearer(s, n);
    case Submit => SubmitNearer(s, n);
    case PollOut => PollOutNearer(s, d, n);
    case PollIn => PollInNearer(s, d, n);
    case Chunks(_) => ChunkNearer(s, n);
  }

  /** What the caller does in between puts nothing off, unless it drops the bus. */
  lemma CallerNoFurther(s: State, a: Action, n: nat)
    requires Attended(s, n) && CallerStep(s, a).shared.txOpen
    ensures Attended(CallerStep(s, a), n) && Wait(CallerStep(s, a), n) == Wait(s, n)
  {
    CallerKeepsInv(s, a);
    CallerKeepsWork(s, a);
  }

  lemma CallerKeepsWork(s: State, a: Action)
    ensures var s' := CallerStep(s, a);
      && s'.worker == s.worker && s'.log.submitted == s.log.submitted && s'.log.delivered == s.log.delivered
      && |s'.log.enqueued| >= |s.log.enqueued|
  {
  }

  lemma {:induction false} ClosedForGood(s: State, events: seq<Event>)
    requires !s.shared.txOpen
    ensures !Run(s, events).shared.txOpen
    decreases |events|
  {
    if events != [] {
      ClosedForGood(Step(s, events[0]), events[1..]);
    }
  }

  lemma {:induction false} DeliveredForGood(s: State, events: seq<Event>)
    ensures |Run(s, events).log.delivered| >= |s.log.delivered|
    decreases |events|
  {
    if events != [] {
      DeliveredForGood(Step(s, events[0]), events[1..]);
    }
  }

  /**
   As long as the device answers and the bus is not dropped, every frame that
   `send` accepted is delivered within a bounded number of the worker's turns,
   whatever the caller does in between.
   */
  lemma {:induction false} AcceptedIsDelivered(s: State, events: seq<Event>, n: nat)
    requires Attended(s, n) && Answered(s, events)
    requires Run(s, events).shared.txOpen
    requires WorkerTurns(events) >= Wait(s, n)
    ensures |Run(s, events).log.delivered| > n
    decreases |events|
  {
    if n < |s.log.delivered| {
      DeliveredForGood(s, events);
    } else if events != [] {
      var s' := Step(s, events[0]);
      if !s'.shared.txOpen {
        ClosedForGood(s', events[1..]);
      }
      match events[0] {
        case WorkerTurn(d) => TurnNearer(s, d, n);
        case CallerTurn(a) => CallerNoFurther(s, a, n);
      }
      AcceptedIsDelivered(s', events[1..], n);
    }
  }

  // ---------------------------------------------------------------------------
  // In numbers

  lemma {:induction false} RoundsAreProduct(k: nat, turns: nat)
    ensures Rounds(k, turns) == k * turns
  {
    if k > 0 {
      RoundsAreProduct(k - 1, turns);
      OneMore(k - 1, turns);
    }
  }

  lemma OneMore(k: int, turns: int)
    ensures (k + 1) * turns == k * turns + turns
  {
  }

  lemma MoreRounds(k: nat, l: nat, turns: nat)
    requires k <= l
    ensures Rounds(k, turns) <= Rounds(l, turns)
    decreases l
  {
    if k < l {
      MoreRounds(k, l - 1, turns);
    }
  }

  /** At most 512 frames wait, so no frame takes longer than 515 rounds. */
  lemma WaitBound(s: State, n: nat)
    requires Attended(s, n)
    ensures Wait(s, n) <= 515 * RoundTurns(s.worker)
  {
    var turns := RoundTurns(s.worker);
    ToSubmitBound(s);
    RoundsAreProduct(515, turns);
    MoreRounds(2, 515, turns);
    if n >= |s.log.submitted| && n >= |s.log.delivered| {
      InFlightOrWaiting(s, n);
      var k: nat := n - |s.log.submitted| + (if Blocked(s.worker) then 1 else 0);
      MoreRounds(k, 513, turns);
    }
  }

  lemma ToSubmitBound(s: State)
    requires TransferInv(s.worker, s.log.inputRecoveries, s.log.outputRecoveries)
    ensures ToSubmit(s.worker) <= RoundTurns(s.worker)
  {
    if s.worker.phase.Chunks? {
      MoreChunks(|s.worker.phase.rest|, s.worker.requestSize);
    }
  }

  /**
   From any reachable state at the head of the loop: if the device answers from
   there on and the bus is not dropped, each accepted frame has been delivered, as
   it was accepted and in its place, once the worker has taken 515 rounds of turns.
   */
  lemma EveryFrameIsDelivered(requestSize: nat, before: seq<Event>, events: seq<Event>, n: nat)
    requires
      var s := After(requestSize, before);
      && s.worker.phase.Head? && n < |s.log.enqueued|
      && Answered(s, events) && Run(s, events).shared.txOpen
    requires WorkerTurns(events) >= 515 * (262 + requestSize / 20)
    ensures
      var s, s' := After(requestSize, before), Run(After(requestSize, before), events);
      n < |s'.log.delivered| && s'.log.delivered[n] == s.log.enqueued[n]
  {
    var s := After(requestSize, before);
    ReachableInv(requestSize, before);
    if !s.shared.txOpen {
      ClosedForGood(s, events);
    }
    KeptForGood(Initial(requestSize), before);
    KeptForGood(s, events);
    WaitBound(s, n);
    AcceptedIsDelivered(s, events, n);
    RunConcat(Initial(requestSize), before, events);
    TransmitOrder(requestSize, before + events);
  }
}
