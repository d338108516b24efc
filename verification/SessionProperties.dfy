/** What holds of every run of a gs_usb session, whatever the interleaving and the device. */
module SessionProperties {
  import opened MachineInts
  import opened CanFrames
  import opened HostFrames
  import opened GsUsbSession
  import E = EchoCredits
  import R = RxQueue

  function After(requestSize: nat, events: seq<Event>): State {
    Run(Initial(requestSize), events)
  }

  lemma ReachableInv(requestSize: nat, events: seq<Event>)
    ensures Inv(After(requestSize, events))
  {
    InitialInv(requestSize);
    RunKeepsInv(Initial(requestSize), events);
  }

  /**
   Frames leave in exactly the order `send` accepted them, none lost, repeated or
   overtaken: submitted, then pending, then channel is what was enqueued, and what
   the device completed is a prefix of it.
   */
  lemma TransmitOrder(requestSize: nat, events: seq<Event>)
    ensures var s := After(requestSize, events);
      && Frames(s.log.submitted) + s.worker.pending + s.shared.channel == s.log.enqueued
      && |s.worker.pending| <= 256 && |s.shared.channel| <= 256
      && s.log.delivered <= s.log.enqueued
      && (s.worker.phase.Healthy() ==> s.log.delivered + InFlight(s.worker.output) == Frames(s.log.submitted))
  {
    ReachableInv(requestSize, events);
    var s := After(requestSize, events);
    assert s.log.delivered <= Frames(s.log.submitted);
  }

  /** Completions never outnumber acceptances, except for a frame whose `send` has not counted it yet. */
  lemma CounterConservation(requestSize: nat, events: seq<Event>)
    ensures var s := After(requestSize, events);
      && s.shared.txCompleted <= s.shared.txAccepted + (if s.caller.Enqueued? then 1 else 0)
      && (s.worker.phase.Healthy() ==>
            s.shared.txCompleted + (if s.worker.output.Some? then 1 else 0) == |s.log.submitted|)
      && s.shared.rx.received == |s.log.inputs.drained| + |s.shared.rx.frames| + s.shared.rx.dropped
  {
    TransmitOrder(requestSize, events);
    ReachableInv(requestSize, events);
  }

  ghost predicate OwedEcho(s: State, id: nat, k: nat) {
    Outstanding(s.log.submitted, s.log.echoed, k) && s.log.submitted[k].id == id
  }

  /**
   A credit is in use exactly while one submitted frame under that id awaits its
   echo, and never two; so taking a credit below the limit always succeeds.
   */
  lemma CreditOwnership(requestSize: nat, events: seq<Event>)
    ensures var s := After(requestSize, events);
      && (forall id | 0 <= id < E.ECHO_CREDITS :: s.worker.credits.used[id] <==> exists k: nat :: OwedEcho(s, id, k))
      && (forall id: nat, j: nat, k: nat :: OwedEcho(s, id, j) && OwedEcho(s, id, k) ==> j == k && id < E.ECHO_CREDITS)
      && |s.log.submitted| - |s.log.echoed| == E.InUse(s.worker.credits.used) <= 32
      && (s.worker.phase.Submit? ==> !SubmitStep(s).worker.phase.Failing?)
  {
    ReachableInv(requestSize, events);
    var s := After(requestSize, events);
    forall id | 0 <= id < E.ECHO_CREDITS && s.worker.credits.used[id]
      ensures exists k: nat :: OwedEcho(s, id, k)
    {
      assert OwedEcho(s, id, s.log.holder[id]);
    }
    if s.worker.phase.Submit? && s.worker.pending != [] && E.InUse(s.worker.credits.used) < E.ECHO_CREDITS {
      E.AllocateSucceedsBelowLimit(s.worker.credits);
      NextPendingEncodes(s, E.Next(s.worker.credits).value);
    }
  }

  /** Each endpoint is recovered from a halt at most once, and a healthy worker keeps four reads going. */
  lemma RecoveryBounded(requestSize: nat, events: seq<Event>)
    ensures var s := After(requestSize, events);
      && s.log.inputRecoveries <= 1 && s.log.outputRecoveries <= 1
      && (s.worker.phase.Healthy() && !s.worker.phase.Chunks? ==> s.worker.inputsPending == 4)
  {
    ReachableInv(requestSize, events);
  }

  /** The drained frames, in order, are frames of the received log, and nothing newer than a queued frame is missing. */
  lemma ReceiveOrder(requestSize: nat, events: seq<Event>)
    ensures var s := After(requestSize, events);
      R.Refines(s.shared.rx, s.log.inputs)
  {
    ReachableInv(requestSize, events);
  }

  /** One host frame either is queued, or releases its credit and no other, or is refused with nothing changed. */
  lemma InputEffects(s: State, bytes: seq<u8>, next: Phase)
    requires CreditInv(s.worker.credits, s.log.submitted, s.log.echoed, s.log.holder)
    ensures
      var s' := InputStep(s, Decode(bytes), next);
      var accepted := Decode(bytes).Success? &&
        (Decode(bytes).value.0 == RX_ECHO_ID || exists k: nat :: OwedEcho(s, Decode(bytes).value.0, k));
      && (!accepted ==> s' == s.(worker := s.worker.(phase := Failing)))
      && (accepted && Decode(bytes).value.0 == RX_ECHO_ID ==>
            && s'.shared.rx == R.Push(s.shared.rx, Decode(bytes).value.1)
            && s'.log.inputs.log == s.log.inputs.log + [Decode(bytes).value.1]
            && s'.worker.credits == s.worker.credits && s'.log.echoed == s.log.echoed)
      && (accepted && Decode(bytes).value.0 != RX_ECHO_ID ==>
            && s'.shared == s.shared && s'.log.inputs == s.log.inputs
            && (forall id | 0 <= id < E.ECHO_CREDITS :: E.Free(s'.worker.credits, id)
                  <==> id == Decode(bytes).value.0 || E.Free(s.worker.credits, id))
            && s'.worker.credits.cursor == s.worker.credits.cursor
            && |s'.log.echoed| == |s.log.echoed| + 1)
  {
    if Decode(bytes).Success? {
      var id := Decode(bytes).value.0;
      if id in s.log.holder {
        assert OwedEcho(s, id, s.log.holder[id]);
      }
    }
  }

  // ---------------------------------------------------------------------------
  // A completed read

  function ReceivedFirst(bytes: seq<u8>): seq<CanFrame>
    requires |bytes| >= HOST_FRAME_LEN
  {
    var first := Decode(bytes[..HOST_FRAME_LEN]);
    if first.Success? && first.value.0 == RX_ECHO_ID then [first.value.1] else []
  }

  /** The frames received in a read: its host frames under the receive id, in order. */
  function ReceivedIn(bytes: seq<u8>): seq<CanFrame> {
    if |bytes| < HOST_FRAME_LEN then [] else ReceivedFirst(bytes) + ReceivedIn(bytes[HOST_FRAME_LEN..])
  }

  /** The worker's own steps over the host frames it still has. */
  function Processed(s: State): (r: State)
    requires s.worker.phase.Chunks?
    ensures r.worker.phase.Head? || r.worker.phase.Failing?
    decreases |s.worker.phase.rest|
  {
    var s' := ChunkStep(s, s.worker.phase.rest);
    if s'.worker.phase.Chunks? then Processed(s') else s'
  }

  /** Every frame received in a read joins the log, in order, up to a host frame that faults the worker. */
  lemma {:induction false} ReadJoinsLog(s: State)
    requires s.worker.phase.Chunks?
    ensures var s', received := Processed(s), ReceivedIn(s.worker.phase.rest);
      && s.log.inputs.log <= s'.log.inputs.log <= s.log.inputs.log + received
      && (s'.worker.phase.Head? ==>
            s'.log.inputs.log == s.log.inputs.log + received && s'.worker.inputsPending == s.worker.inputsPending + 1)
    decreases |s.worker.phase.rest|
  {
    var rest := s.worker.phase.rest;
    var s' := ChunkStep(s, rest);
    if |rest| >= HOST_FRAME_LEN {
      FirstJoinsLog(s);
      if s'.worker.phase.Chunks? {
        ReadJoinsLog(s');
        Joined(s.log.inputs.log, ReceivedFirst(rest), ReceivedIn(rest[HOST_FRAME_LEN..]), Processed(s').log.inputs.log);
      }
    }
  }

  lemma Joined<T>(log: seq<T>, first: seq<T>, more: seq<T>, after: seq<T>)
    requires log + first <= after <= log + first + more
    ensures log <= after <= log + (first + more)
    ensures after == log + first + more ==> after == log + (first + more)
  {
    assert log + first + more == log + (first + more);
    assert log <= log + first;
  }

  lemma FirstJoinsLog(s: State)
    requires s.worker.phase.Chunks? && |s.worker.phase.rest| >= HOST_FRAME_LEN
    ensures
      var rest := s.worker.phase.rest;
      var s' := ChunkStep(s, rest);
      && s'.worker.inputsPending == s.worker.inputsPending
      && (s'.worker.phase.Chunks? ==>
            s'.worker.phase.rest == rest[HOST_FRAME_LEN..] &&
              s'.log.inputs.log == s.log.inputs.log + ReceivedFirst(rest))
      && (!s'.worker.phase.Chunks? ==> s'.worker.phase.Failing? && s'.log.inputs.log == s.log.inputs.log)
  {
  }

  /** That is a run of the worker's own turns. */
  lemma {:induction false} ProcessedIsRun(s: State) returns (events: seq<Event>)
    requires s.worker.phase.Chunks?
    ensures Run(s, events) == Processed(s)
    ensures forall e | e in events :: e.WorkerTurn?
    decreases |s.worker.phase.rest|
  {
    var turn := WorkerTurn(Device(OutNothing, InNothing));
    var s' := ChunkStep(s, s.worker.phase.rest);
    assert Step(s, turn) == s';
    events := [turn];
    assert Run(s, events) == Run(s', []);
    if s'.worker.phase.Chunks? {
      var more := ProcessedIsRun(s');
      RunConcat(s, events, more);
      events := events + more;
    }
  }

  /**
   A well-formed read of any size the endpoint allows is processed as a whole, unless a
   host frame faults the worker.
   */
  lemma ReadDelivered(s: State, data: seq<u8>)
    requires s.worker.phase.PollIn?
    requires 0 < |data| <= s.worker.requestSize && |data| % HOST_FRAME_LEN == 0
    ensures
      var read := InStep(s, InDone(data));
      && read.worker.phase.Chunks?
      && (Processed(read).worker.phase.Head? ==>
            && Processed(read).log.inputs.log == s.log.inputs.log + ReceivedIn(data)
            && Processed(read).worker.inputsPending == s.worker.inputsPending)
  {
    ReadJoinsLog(InStep(s, InDone(data)));
  }

  // ---------------------------------------------------------------------------
  // Failing closed

  /** The one send that may still be accepted once the error has been recorded. */
  predicate SendInRace(s: State) {
    s.caller.Checked? && !s.worker.phase.Gone? && |s.shared.channel| < TX_CAPACITY
  }

  ghost predicate SameTraffic(s: State, t: State) {
    && t.log.submitted == s.log.submitted
    && t.log.delivered == s.log.delivered
    && t.log.inputs.log == s.log.inputs.log
    && t.shared.terminal == s.shared.terminal
  }

  lemma TerminalStep(s: State, e: Event)
    requires ControlInv(s) && s.shared.terminal
    ensures SameTraffic(s, Step(s, e))
    ensures !s.caller.Draining? ==> !Step(s, e).caller.Draining? && Step(s, e).log.inputs == s.log.inputs
    ensures SendInRace(Step(s, e)) ==> SendInRace(s) && Step(s, e).caller == s.caller
    ensures Step(s, e).log.enqueued == s.log.enqueued
      || (SendInRace(s) && Step(s, e).log.enqueued == s.log.enqueued + [s.caller.frame] && Step(s, e).caller.Enqueued?)
  {
  }

  /**
   Once the error is recorded nothing more is submitted, completed or received,
   nothing is drained unless a drain is already past its check, and at most the
   frame of one send already past its check is accepted.
   */
  lemma {:induction false} TerminalIsFinal(s: State, events: seq<Event>)
    requires Inv(s) && s.shared.terminal
    ensures SameTraffic(s, Run(s, events))
    ensures !s.caller.Draining? ==> Run(s, events).log.inputs == s.log.inputs
    ensures Run(s, events).log.enqueued == s.log.enqueued
      || (SendInRace(s) && Run(s, events).log.enqueued == s.log.enqueued + [s.caller.frame])
    decreases |events|
  {
    if events != [] {
      var s' := Step(s, events[0]);
      StepKeepsInv(s, events[0]);
      TerminalStep(s, events[0]);
      TerminalIsFinal(s', events[1..]);
    }
  }

  /**
   A session whose worker is on its way out can still accept a frame: there is
   room, and a send is past its check or can still get past it.
   */
  predicate MayStillAccept(s: State) {
    && !s.worker.phase.Gone? && |s.shared.channel| < TX_CAPACITY
    && (s.caller.Checked? || (!s.shared.terminal && !s.caller.TxClosed? && !s.caller.Dropped?))
  }

  lemma ClosedStep(s: State, e: Event)
    requires !s.worker.phase.Healthy() && !MayStillAccept(s)
    ensures var s' := Step(s, e);
      !s'.worker.phase.Healthy() && !MayStillAccept(s') && s'.log.enqueued == s.log.enqueued
  {
  }

  lemma {:induction false} ClosedStaysClosed(s: State, events: seq<Event>)
    requires !s.worker.phase.Healthy() && !MayStillAccept(s)
    ensures Run(s, events).log.enqueued == s.log.enqueued
    decreases |events|
  {
    if events != [] {
      ClosedStep(s, events[0]);
      ClosedStaysClosed(Step(s, events[0]), events[1..]);
    }
  }

  function PlainFrame(): CanFrame {
    FrameFields(1, NoFlags, 0, seq(64, _ => 0))
  }

  /** What the caller does to get one frame accepted. */
  function SendFrom(caller: Caller): seq<Event> {
    match caller
    case Checked(_) => [CallerTurn(TrySend)]
    case Idle => [CallerTurn(StartSend(PlainFrame())), CallerTurn(TrySend)]
    case Enqueued => [CallerTurn(CountAccepted), CallerTurn(StartSend(PlainFrame())), CallerTurn(TrySend)]
    case Draining => [CallerTurn(TakeInbound), CallerTurn(StartSend(PlainFrame())), CallerTurn(TrySend)]
    case _ => []
  }

  lemma {:induction false} OpenAccepts(s: State)
    requires MayStillAccept(s)
    ensures |Run(s, SendFrom(s.caller)).log.enqueued| == |s.log.enqueued| + 1
    decreases |SendFrom(s.caller)|
  {
    var events := SendFrom(s.caller);
    var s' := Step(s, events[0]);
    if s.caller.Checked? {
      assert Run(s', events[1..]) == s';
    } else {
      assert events[1..] == SendFrom(s'.caller);
      OpenAccepts(s');
    }
  }

  /**
   A worker that has failed, whether or not it has recorded the error yet, leaves
   a session that still accepts a frame if and only if there is room and a send
   is past its check, or can still get past it because nothing is recorded and
   the bus is not being dropped.
   */
  lemma FailedAcceptsIff(s: State)
    requires !s.worker.phase.Healthy()
    ensures (exists events :: Run(s, events).log.enqueued != s.log.enqueued) <==> MayStillAccept(s)
  {
    if MayStillAccept(s) {
      OpenAccepts(s);
    } else {
      forall events
        ensures Run(s, events).log.enqueued == s.log.enqueued
      {
        ClosedStaysClosed(s, events);
      }
    }
  }

  /** Before the error is recorded: if and only if there is room and the bus is not being dropped. */
  lemma UnrecordedAcceptsIff(s: State)
    requires Inv(s) && s.worker.phase.Failing?
    ensures (exists events :: Run(s, events).log.enqueued != s.log.enqueued) <==>
      |s.shared.channel| < TX_CAPACITY && !s.caller.TxClosed? && !s.caller.Dropped?
  {
    FailedAcceptsIff(s);
  }

  /** Once it is recorded: if and only if a send is in the race. */
  lemma FaultedAcceptsIffRace(s: State)
    requires Inv(s) && s.shared.terminal
    ensures (exists events :: Run(s, events).log.enqueued != s.log.enqueued) <==> SendInRace(s)
  {
    FailedAcceptsIff(s);
  }

  /**
   The race is real: a device that disconnects between the check and the enqueue leads
   into it, and the frame is accepted.
   */
  lemma RaceReachable()
    ensures exists events :: AcceptedAfterFault(events)
  {
    var events := RunIntoRace();
    var s := After(512, events);
    RunAppend(Initial(512), events, CallerTurn(TrySend));
    assert AcceptedAfterFault(events);
  }

  /** The session has faulted, and its next event still accepts a frame. */
  predicate AcceptedAfterFault(events: seq<Event>) {
    var s, s' := After(512, events), After(512, events + [CallerTurn(TrySend)]);
    s.shared.terminal && s.caller.Checked? && s'.log.enqueued == s.log.enqueued + [s.caller.frame]
  }

  lemma RunIntoRace() returns (events: seq<Event>)
    ensures var s := After(512, events); s.shared.terminal && SendInRace(s)
  {
    var frame := PlainFrame();
    var lost := WorkerTurn(Device(OutNothing, InError(Disconnected, false)));
    events := [CallerTurn(StartSend(frame))];
    var s := Step(Initial(512), events[0]);
    RunAppend(Initial(512), [], events[0]);
    assert [] + [events[0]] == events;
    for i := 0 to 6
      invariant After(512, events) == s
      invariant s.caller == Checked(frame) && s.shared.channel == [] && s.worker.pending == []
      invariant s.shared.txOpen && !s.shared.shutdown && s.worker.output.None?
      invariant s.worker.phase == [Head, Fill, Submit, PollOut, PollIn, Failing, Cleaning][i]
      invariant i == 6 ==> s.shared.terminal
    {
      RunAppend(Initial(512), events, lost);
      events := events + [lost];
      s := WorkerStep(s, lost.device);
    }
    assert SendInRace(s);
  }

  // ---------------------------------------------------------------------------
  // Shutting down

  /** How many of its own steps the worker can still take once shutdown has been requested. */
  function Rank(w: Worker): nat {
    var chunks := w.requestSize / HOST_FRAME_LEN;
    match w.phase
    case Gone => 0
    case Cleaning => 1
    case Failing => 2
    case Head => 3
    case Chunks(rest) => 4 + |rest| / HOST_FRAME_LEN
    case PollIn => 5 + chunks
    case PollOut => 6 + chunks
    case Submit => 7 + chunks
    case Fill => 8 + chunks + (if |w.pending| < TX_CAPACITY then TX_CAPACITY - |w.pending| else 0)
  }

  lemma ReadRank(s: State, poll: InPoll)
    requires s.worker.phase.PollIn?
    ensures Rank(InStep(s, poll).worker) < Rank(s.worker)
  {
  }

  lemma ChunkRank(s: State, rest: seq<u8>)
    requires s.worker.phase == Chunks(rest)
    ensures Rank(ChunkStep(s, rest).worker) < Rank(s.worker)
  {
  }

  lemma TransmitRank(s: State)
    ensures s.worker.phase.Fill? ==> Rank(FillStep(s).worker) < Rank(s.worker)
    ensures s.worker.phase.Submit? ==> Rank(SubmitStep(s).worker) < Rank(s.worker)
  {
  }

  lemma OutRank(s: State, poll: OutPoll)
    requires s.worker.phase.PollOut?
    ensures Rank(OutStep(s, poll).worker) < Rank(s.worker)
  {
  }

  lemma WorkerRank(s: State, d: Device)
    requires s.shared.shutdown && !s.worker.phase.Gone?
    ensures Rank(WorkerStep(s, d).worker) < Rank(s.worker)
  {
    match s.worker.phase
    case Fill => TransmitRank(s);
    case Submit => TransmitRank(s);
    case PollOut => OutRank(s, d.out);
    case PollIn => ReadRank(s, d.inp);
    case Chunks(rest) => ChunkRank(s, rest);
    case _ =>
  }

  lemma RankDecreases(s: State, e: Event)
    requires s.shared.shutdown && ControlInv(s)
    ensures Step(s, e).shared.shutdown
    ensures Rank(Step(s, e).worker) <= Rank(s.worker)
    ensures e.WorkerTurn? && !s.worker.phase.Gone? ==> Rank(Step(s, e).worker) < Rank(s.worker)
  {
    if e.WorkerTurn? && !s.worker.phase.Gone? {
      WorkerRank(s, e.device);
    }
  }

  /**
   Once shutdown is requested the worker is gone after at most Rank turns of its
   own, whatever the device does: at most 264 plus the host frames in one read.
   */
  lemma {:induction false} ShutdownIsBounded(s: State, events: seq<Event>)
    requires Inv(s) && s.shared.shutdown
    requires WorkerTurns(events) >= Rank(s.worker)
    ensures Run(s, events).worker.phase.Gone?
    decreases |events|
  {
    if events != [] {
      StepKeepsInv(s, events[0]);
      RankDecreases(s, events[0]);
      ShutdownIsBounded(Step(s, events[0]), events[1..]);
    }
  }

  lemma RankBound(s: State)
    requires Inv(s)
    ensures Rank(s.worker) <= 264 + s.worker.requestSize / 20
  {
  }
}
