/**
 One gs_usb session as interleaved atomic steps.

 A caller thread and a worker thread share a bounded channel, the receive queue,
 the terminal-error cell, the shutdown flag and the counters; the device answers
 the worker's transfers as it likes. Every access to something shared is a step
 of its own. A run is any sequence of events, so what holds of all runs holds
 under every interleaving and every device.
 */
module GsUsbSession {
  import opened Wrappers
  import opened MachineInts
  import opened CanFrames
  import opened HostFrames
  import E = EchoCredits
  import R = RxQueue

  const TX_CAPACITY := 256
  const IN_FLIGHT := 4

  // ---------------------------------------------------------------------------
  // The device

  datatype TransferError = Cancelled | Stall | Disconnected | Fault | InvalidArgument | Unknown

  datatype TransferAction = ExpectedShutdown | RecoverHalt | FaultAction

  function Classify(error: TransferError, shuttingDown: bool, recoveryUsed: bool): TransferAction {
    if error == Cancelled && shuttingDown then ExpectedShutdown
    else if error == Stall && !recoveryUsed then RecoverHalt
    else FaultAction
  }

  /** What polling a transfer finds, and whether clearing a halt would succeed. */
  datatype OutPoll = OutNothing | OutDone(actualLen: nat) | OutError(outError: TransferError, outCleared: bool)
  datatype InPoll = InNothing | InDone(data: seq<u8>) | InError(inError: TransferError, inCleared: bool)
  datatype Device = Device(out: OutPoll, inp: InPoll)

  // ---------------------------------------------------------------------------
  // The state

  /** Where the worker is: the parts of its loop body, then its way out. */
  datatype Phase = Head | Fill | Submit | PollOut | PollIn | Chunks(rest: seq<u8>) | Failing | Cleaning | Gone {
    predicate Healthy() { !Failing? && !Cleaning? && !Gone? }
  }

  datatype Transfer = Transfer(id: u32, frame: CanFrame)

  datatype Worker = Worker(
    phase: Phase,
    pending: seq<CanFrame>,
    credits: E.Credits,
    inputRecovered: bool,
    outputRecovered: bool,
    output: Option<Transfer>,
    inputsPending: int,
    requestSize: nat)

  datatype Shared = Shared(
    channel: seq<CanFrame>,
    rx: R.Fifo<CanFrame>,
    terminal: bool,
    shutdown: bool,
    txOpen: bool,
    txAccepted: nat,
    txCompleted: nat)

  /** Where the caller is inside `send`, `drain_inbound_nonblocking` or drop. */
  datatype Caller = Idle | Checked(frame: CanFrame) | Enqueued | Draining | TxClosed | Dropped

  /** What has happened so far; nothing reads it. */
  datatype Log = Log(
    enqueued: seq<CanFrame>,
    submitted: seq<Transfer>,
    delivered: seq<CanFrame>,
    echoed: set<nat>,
    holder: map<nat, nat>,
    inputs: R.History<CanFrame>,
    inputRecoveries: nat,
    outputRecoveries: nat)

  datatype State = State(worker: Worker, shared: Shared, caller: Caller, log: Log)

  function Initial(requestSize: nat): State {
    State(
      Worker(Head, [], E.NoneAllocated(), false, false, None, IN_FLIGHT, requestSize),
      Shared([], R.Empty(), false, false, true, 0, 0),
      Idle,
      Log([], [], [], {}, map[], R.NoHistory(), 0, 0))
  }

  function Frames(transfers: seq<Transfer>): (r: seq<CanFrame>)
    ensures |r| == |transfers|
    ensures forall i | 0 <= i < |r| :: r[i] == transfers[i].frame
  {
    seq(|transfers|, i requires 0 <= i < |transfers| => transfers[i].frame)
  }

  // ---------------------------------------------------------------------------
  // The worker's steps

  function FillStep(s: State): State {
    var w := s.worker;
    if |w.pending| < TX_CAPACITY && s.shared.channel != [] then
      s.(worker := w.(pending := w.pending + [s.shared.channel[0]]),
         shared := s.shared.(channel := s.shared.channel[1..]))
    else if |w.pending| < TX_CAPACITY && !s.shared.txOpen then
      s.(worker := w.(phase := Cleaning))
    else
      s.(worker := w.(phase := Submit))
  }

  function SubmitStep(s: State): State {
    var w := s.worker;
    if CanSubmit(w) then
      E.AllocateSucceedsBelowLimit(w.credits);
      var id := E.Next(w.credits).value;
      Launch(s.(worker := w.(credits := E.Take(w.credits, id))), id, Encode(id, w.pending[0]).Success?)
    else
      s.(worker := w.(phase := PollOut))
  }

  /** With its credit taken, the frame leaves the queue and is encoded and submitted. */
  function Launch(s: State, id: nat, encoded: bool): State
    requires id < E.ECHO_CREDITS && s.worker.pending != []
  {
    var w := s.worker;
    var transfer := Transfer(id, w.pending[0]);
    if encoded then
      s.(worker := w.(phase := PollOut, pending := w.pending[1..], output := Some(transfer)),
         log := s.log.(submitted := s.log.submitted + [transfer], holder := s.log.holder[id := |s.log.submitted|]))
    else
      s.(worker := w.(phase := Failing, pending := w.pending[1..]))
  }

  function OutStep(s: State, poll: OutPoll): State {
    var w := s.worker;
    if w.output.None? || poll.OutNothing? then
      s.(worker := w.(phase := PollIn))
    else
      var collected := w.(output := None);
      match poll
      case OutDone(len) =>
        if len == HOST_FRAME_LEN then
          s.(worker := collected.(phase := PollIn),
             shared := s.shared.(txCompleted := s.shared.txCompleted + 1),
             log := s.log.(delivered := s.log.delivered + [w.output.value.frame]))
        else
          s.(worker := collected.(phase := Failing))
      case OutError(error, cleared) =>
        if Classify(error, false, w.outputRecovered) == RecoverHalt then
          s.(worker := if cleared then w.(outputRecovered := true, phase := PollIn)
                       else collected.(outputRecovered := true, phase := Failing),
             log := s.log.(outputRecoveries := s.log.outputRecoveries + 1))
        else
          s.(worker := collected.(phase := Failing))
  }

  function InStep(s: State, poll: InPoll): State {
    var w := s.worker;
    match poll
    case InNothing =>
      s.(worker := w.(phase := Head))
    case InDone(data) =>
      // A transfer never returns more than was requested.
      var got := if |data| <= w.requestSize then data else data[..w.requestSize];
      var malformed := |got| == 0 || |got| % HOST_FRAME_LEN != 0;
      s.(worker := w.(inputsPending := w.inputsPending - 1, phase := if malformed then Failing else Chunks(got)))
    case InError(error, cleared) =>
      if Classify(error, false, w.inputRecovered) == RecoverHalt then
        s.(worker := if cleared then w.(inputRecovered := true, inputsPending := IN_FLIGHT, phase := Head)
                     else w.(inputRecovered := true, inputsPending := 0, phase := Failing),
           log := s.log.(inputRecoveries := s.log.inputRecoveries + 1))
      else
        s.(worker := w.(inputsPending := w.inputsPending - 1, phase := Failing))
  }

  /** `process_input` on one decoded host frame: a received frame is queued, an echo releases its credit. */
  function InputStep(s: State, decoded: Result<(u32, CanFrame), ProtocolError>, next: Phase): State {
    var w := s.worker;
    match decoded
    case Failure(_) =>
      s.(worker := w.(phase := Failing))
    case Success((id, frame)) =>
      if id == RX_ECHO_ID then
        s.(worker := w.(phase := next),
           shared := s.shared.(rx := R.Push(s.shared.rx, frame)),
           log := s.log.(inputs := R.Logged(s.log.inputs, frame)))
      else if id >= E.ECHO_CREDITS || !w.credits.used[id] then
        s.(worker := w.(phase := Failing))
      else
        s.(worker := w.(phase := next, credits := E.Release(w.credits, id)),
           log := s.log.(echoed := s.log.echoed + (if id in s.log.holder then {s.log.holder[id]} else {}),
                         holder := s.log.holder - {id}))
  }

  function ChunkStep(s: State, rest: seq<u8>): State {
    if |rest| < HOST_FRAME_LEN then
      s.(worker := s.worker.(phase := Head, inputsPending := s.worker.inputsPending + 1))
    else
      InputStep(s, Decode(rest[..HOST_FRAME_LEN]), Chunks(rest[HOST_FRAME_LEN..]))
  }

  function ExitStep(s: State): State {
    match s.worker.phase
    case Failing => s.(worker := s.worker.(phase := Cleaning), shared := s.shared.(terminal := true))
    case Cleaning => s.(worker := s.worker.(phase := Gone, output := None, inputsPending := 0))
    case _ => s
  }

  function WorkerStep(s: State, d: Device): State {
    var w := s.worker;
    match w.phase
    case Head => s.(worker := w.(phase := if s.shared.shutdown then Cleaning else Fill))
    case Fill => FillStep(s)
    case Submit => SubmitStep(s)
    case PollOut => OutStep(s, d.out)
    case PollIn => InStep(s, d.inp)
    case Chunks(rest) => ChunkStep(s, rest)
    case _ => ExitStep(s)
  }

  // ---------------------------------------------------------------------------
  // The caller's steps

  datatype Action =
    | StartSend(frame: CanFrame)
    | TrySend
    | CountAccepted
    | StartDrain
    | TakeInbound
    | CloseTx
    | RequestShutdown

  /** An action that does not fit where the caller is changes nothing. */
  function CallerStep(s: State, a: Action): State {
    match (a, s.caller)
    case (StartSend(frame), Idle) =>
      if s.shared.terminal || !Encodable(frame) then s else s.(caller := Checked(frame))
    case (TrySend, Checked(frame)) =>
      if s.worker.phase.Gone? || |s.shared.channel| >= TX_CAPACITY then
        s.(caller := Idle)
      else
        s.(caller := Enqueued,
           shared := s.shared.(channel := s.shared.channel + [frame]),
           log := s.log.(enqueued := s.log.enqueued + [frame]))
    case (CountAccepted, Enqueued) =>
      s.(caller := Idle, shared := s.shared.(txAccepted := s.shared.txAccepted + 1))
    case (StartDrain, Idle) =>
      if s.shared.terminal then s else s.(caller := Draining)
    case (TakeInbound, Draining) =>
      s.(caller := Idle,
         shared := s.shared.(rx := R.Drained(s.shared.rx)),
         log := if |s.shared.rx.frames| <= |s.log.inputs.log|
                then s.log.(inputs := R.Taken(s.log.inputs, s.shared.rx.frames)) else s.log)
    case (CloseTx, Idle) =>
      s.(caller := TxClosed, shared := s.shared.(txOpen := false))
    case (RequestShutdown, TxClosed) =>
      s.(caller := Dropped, shared := s.shared.(shutdown := true))
    case _ => s
  }

  datatype Event = WorkerTurn(device: Device) | CallerTurn(action: Action)

  function Step(s: State, e: Event): State {
    match e
    case WorkerTurn(d) => WorkerStep(s, d)
    case CallerTurn(a) => CallerStep(s, a)
  }

  function Run(s: State, events: seq<Event>): State
    decreases |events|
  {
    if events == [] then s else Run(Step(s, events[0]), events[1..])
  }

  lemma {:induction false} RunAppend(s: State, events: seq<Event>, e: Event)
    ensures Run(s, events + [e]) == Step(Run(s, events), e)
    decreases |events|
  {
    if events == [] {
      assert Run(s, [] + [e]) == Run(Step(s, e), []);
    } else {
      assert (events + [e])[0] == events[0] && (events + [e])[1..] == events[1..] + [e];
      RunAppend(Step(s, events[0]), events[1..], e);
    }
  }

  lemma {:induction false} RunConcat(s: State, a: seq<Event>, b: seq<Event>)
    ensures Run(s, a + b) == Run(Run(s, a), b)
    decreases |a|
  {
    if a == [] {
      assert a + b == b;
    } else {
      assert (a + b)[0] == a[0] && (a + b)[1..] == a[1..] + b;
      RunConcat(Step(s, a[0]), a[1..], b);
    }
  }

  /** The request size never changes, and accepted frames stay accepted, in order. */
  lemma {:induction false} KeptForGood(s: State, events: seq<Event>)
    ensures Run(s, events).worker.requestSize == s.worker.requestSize
    ensures s.log.enqueued <= Run(s, events).log.enqueued
    decreases |events|
  {
    if events != [] {
      KeptInStep(s, events[0]);
      KeptForGood(Step(s, events[0]), events[1..]);
    }
  }

  lemma KeptInStep(s: State, e: Event)
    ensures Step(s, e).worker.requestSize == s.worker.requestSize
    ensures s.log.enqueued <= Step(s, e).log.enqueued
  {
  }

  function WorkerTurns(events: seq<Event>): nat {
    if events == [] then 0 else (if events[0].WorkerTurn? then 1 else 0) + WorkerTurns(events[1..])
  }

  lemma {:induction false} WorkerTurnsConcat(a: seq<Event>, b: seq<Event>)
    ensures WorkerTurns(a + b) == WorkerTurns(a) + WorkerTurns(b)
  {
    if a == [] {
      assert a + b == b;
    } else {
      assert (a + b)[0] == a[0] && (a + b)[1..] == a[1..] + b;
      WorkerTurnsConcat(a[1..], b);
    }
  }

  /** The submit section has something to do: the endpoint is free, a frame waits and a credit is free. */
  predicate CanSubmit(w: Worker) {
    w.output.None? && w.pending != [] && E.InUse(w.credits.used) < E.ECHO_CREDITS
  }

  // ---------------------------------------------------------------------------
  // The invariant

  /** Transmit order: what was submitted, what waits in the worker, what waits in the channel. */
  ghost predicate TxInv(submitted: seq<Transfer>, pending: seq<CanFrame>, channel: seq<CanFrame>,
                        enqueued: seq<CanFrame>) {
    && Frames(submitted) + pending + channel == enqueued
    && |pending| <= TX_CAPACITY
    && |channel| <= TX_CAPACITY
    && (forall f | f in enqueued :: Encodable(f))
  }

  function InFlight(output: Option<Transfer>): seq<CanFrame> {
    if output.Some? then [output.value.frame] else []
  }

  /** At most one bulk-OUT transfer is in flight, and completions come in submission order. */
  ghost predicate OutInv(submitted: seq<Transfer>, delivered: seq<CanFrame>, output: Option<Transfer>, healthy: bool) {
    && delivered + InFlight(output) <= Frames(submitted)
    && |submitted| <= |delivered| + 1
    && (healthy ==> delivered + InFlight(output) == Frames(submitted))
  }

  ghost predicate Outstanding(submitted: seq<Transfer>, echoed: set<nat>, k: nat) {
    k < |submitted| && k !in echoed
  }

  /** A credit is in use exactly while one submission under that id has no accepted echo. */
  ghost predicate CreditInv(credits: E.Credits, submitted: seq<Transfer>, echoed: set<nat>, holder: map<nat, nat>) {
    && (forall id | 0 <= id < E.ECHO_CREDITS :: credits.used[id] <==> id in holder)
    && (forall id | id in holder ::
          id < E.ECHO_CREDITS && Outstanding(submitted, echoed, holder[id]) && submitted[holder[id]].id == id)
    && (forall k: nat | Outstanding(submitted, echoed, k) ::
          submitted[k].id in holder && holder[submitted[k].id] == k)
    && (forall k | k in echoed :: k < |submitted|)
    && |echoed| + E.InUse(credits.used) == |submitted|
  }

  ghost predicate CountInv(s: State) {
    && s.shared.txCompleted == |s.log.delivered|
    && s.shared.txAccepted + (if s.caller.Enqueued? then 1 else 0) == |s.log.enqueued|
  }

  /** Each endpoint is recovered at most once, and a healthy worker keeps its reads pending. */
  ghost predicate TransferInv(w: Worker, inputRecoveries: nat, outputRecoveries: nat) {
    && inputRecoveries == (if w.inputRecovered then 1 else 0)
    && outputRecoveries == (if w.outputRecovered then 1 else 0)
    && (w.phase.Healthy() ==> w.inputsPending == if w.phase.Chunks? then IN_FLIGHT - 1 else IN_FLIGHT)
    && (w.phase.Chunks? ==> |w.phase.rest| % HOST_FRAME_LEN == 0 && |w.phase.rest| <= w.requestSize)
  }

  /** The error cell is set only on the way out, and shutdown only after the channel is closed. */
  ghost predicate ControlInv(s: State) {
    && (s.shared.terminal ==> s.worker.phase.Cleaning? || s.worker.phase.Gone?)
    && (s.shared.shutdown <==> s.caller.Dropped?)
    && (s.shared.txOpen <==> !s.caller.TxClosed? && !s.caller.Dropped?)
    && (s.caller.Checked? ==> Encodable(s.caller.frame))
  }

  ghost predicate Inv(s: State) {
    && TxInv(s.log.submitted, s.worker.pending, s.shared.channel, s.log.enqueued)
    && OutInv(s.log.submitted, s.log.delivered, s.worker.output, s.worker.phase.Healthy())
    && CreditInv(s.worker.credits, s.log.submitted, s.log.echoed, s.log.holder)
    && R.Refines(s.shared.rx, s.log.inputs)
    && CountInv(s)
    && TransferInv(s.worker, s.log.inputRecoveries, s.log.outputRecoveries)
    && ControlInv(s)
  }

  lemma InitialInv(requestSize: nat)
    ensures Inv(Initial(requestSize))
  {
    NoCreditsHeld();
    NothingSent();
    R.RefinesInitially<CanFrame>();
  }

  lemma NoCreditsHeld()
    ensures CreditInv(E.NoneAllocated(), [], {}, map[])
  {
    NoneInUse(E.ECHO_CREDITS);
  }

  lemma NothingSent()
    ensures TxInv([], [], [], []) && OutInv([], [], None, true)
  {
  }

  lemma {:induction false} NoneInUse(n: nat)
    ensures E.InUse(seq(n, _ => false)) == 0
  {
    if n > 0 {
      NoneInUse(n - 1);
      assert seq(n, _ => false)[..n - 1] == seq(n - 1, _ => false);
    }
  }

  /**
   The fill takes the oldest frame of the channel while there is one and room for
   it, and then goes on to submit, or ends the session once the channel is empty
   and closed. Nothing else changes and no frame is lost.
   */
  lemma FillMoves(s: State)
    requires s.worker.phase.Fill?
    ensures
      var s', w, channel := FillStep(s), s.worker, s.shared.channel;
      var room := |w.pending| < TX_CAPACITY;
      && s'.worker.pending + s'.shared.channel == w.pending + channel
      && s' == s.(worker := w.(phase := s'.worker.phase, pending := s'.worker.pending),
                  shared := s.shared.(channel := s'.shared.channel))
      && |s'.worker.pending| == |w.pending| + (if room && channel != [] then 1 else 0)
      && (s'.worker.phase.Fill? <==> room && channel != [])
      && (s'.worker.phase.Cleaning? <==> room && channel == [] && !s.shared.txOpen)
      && (s'.worker.phase.Submit? <==> !room || (channel == [] && s.shared.txOpen))
  {
  }

  lemma FillKeepsInv(s: State)
    requires Inv(s) && s.worker.phase.Fill?
    ensures Inv(FillStep(s))
  {
    var w, channel := s.worker, s.shared.channel;
    if |w.pending| < TX_CAPACITY && channel != [] {
      TakeKeepsOrder(s.log.submitted, w.pending, channel, s.log.enqueued);
    }
  }

  lemma TakeKeepsOrder(submitted: seq<Transfer>, pending: seq<CanFrame>, channel: seq<CanFrame>,
                       enqueued: seq<CanFrame>)
    requires TxInv(submitted, pending, channel, enqueued) && channel != [] && |pending| < TX_CAPACITY
    ensures TxInv(submitted, pending + [channel[0]], channel[1..], enqueued)
  {
    assert channel == [channel[0]] + channel[1..];
  }

  /** Every frame `send` accepted can be encoded under any credit, so submitting never fails. */
  lemma NextPendingEncodes(s: State, id: u32)
    requires Inv(s) && s.worker.pending != []
    ensures Encode(id, s.worker.pending[0]).Success?
  {
    var frame := s.worker.pending[0];
    assert (Frames(s.log.submitted) + s.worker.pending + s.shared.channel)[|s.log.submitted|] == frame;
    EncodeSucceedsExactlyOn(id, frame);
  }

  lemma SubmitKeepsCredits(credits: E.Credits, submitted: seq<Transfer>, echoed: set<nat>, holder: map<nat, nat>,
                           t: Transfer)
    requires CreditInv(credits, submitted, echoed, holder) && E.Free(credits, t.id)
    ensures CreditInv(E.Take(credits, t.id), submitted + [t], echoed, holder[t.id := |submitted|])
  {
    E.InUseUpdate(credits.used, t.id, true);
  }

  lemma SubmitKeepsOrder(s: State, t: Transfer)
    requires Inv(s) && s.worker.output.None? && s.worker.phase.Healthy()
    requires s.worker.pending != [] && t.frame == s.worker.pending[0]
    ensures TxInv(s.log.submitted + [t], s.worker.pending[1..], s.shared.channel, s.log.enqueued)
    ensures OutInv(s.log.submitted + [t], s.log.delivered, Some(t), true)
  {
    assert Frames(s.log.submitted + [t]) == Frames(s.log.submitted) + [t.frame];
    assert s.worker.pending == [t.frame] + s.worker.pending[1..];
  }

  lemma SubmitKeepsInv(s: State)
    requires Inv(s) && s.worker.phase.Submit?
    ensures Inv(SubmitStep(s))
  {
    var w := s.worker;
    if CanSubmit(w) {
      E.AllocateSucceedsBelowLimit(w.credits);
      var id := E.Next(w.credits).value;
      var t := Transfer(id, w.pending[0]);
      NextPendingEncodes(s, id);
      SubmitKeepsCredits(w.credits, s.log.submitted, s.log.echoed, s.log.holder, t);
      SubmitKeepsOrder(s, t);
    }
  }

  /** What a step on a bulk endpoint leaves alone. */
  ghost predicate SameQueues(s: State, s': State) {
    && s'.log == s.log.(
         delivered := s'.log.delivered,
         inputRecoveries := s'.log.inputRecoveries,
         outputRecoveries := s'.log.outputRecoveries)
    && s'.shared == s.shared.(txCompleted := s'.shared.txCompleted)
    && s'.caller == s.caller
    && s'.worker.pending == s.worker.pending && s'.worker.credits == s.worker.credits
  }

  lemma OutTouches(s: State, poll: OutPoll)
    requires s.worker.phase.PollOut? && s.shared.txCompleted == |s.log.delivered|
    requires TransferInv(s.worker, s.log.inputRecoveries, s.log.outputRecoveries)
    ensures var s' := OutStep(s, poll);
      && SameQueues(s, s')
      && s'.shared.txCompleted == |s'.log.delivered|
      && TransferInv(s'.worker, s'.log.inputRecoveries, s'.log.outputRecoveries)
  {
  }

  /** The frame in flight stays there, is delivered, or is given up by a worker that fails. */
  lemma OutDelivers(s: State, poll: OutPoll)
    requires s.worker.phase.PollOut?
    ensures var s', output := OutStep(s, poll), s.worker.output;
      || (s'.worker.output == output && s'.log.delivered == s.log.delivered)
      || (s'.worker.output.None? && s'.log.delivered == s.log.delivered + InFlight(output))
      || (s'.worker.output.None? && s'.log.delivered == s.log.delivered && !s'.worker.phase.Healthy())
  {
  }

  /** A transfer that is in flight when its endpoint is polled ends in exactly one way for each answer. */
  lemma OutOutcomes(s: State, poll: OutPoll)
    requires s.worker.phase.PollOut?
    ensures
      var s', w := OutStep(s, poll), s.worker;
      && (w.output.None? || poll.OutNothing? ==> s' == s.(worker := w.(phase := PollIn)))
      && (w.output.Some? && poll == OutDone(20) ==>
            && s'.worker == w.(phase := PollIn, output := None)
            && s'.log.delivered == s.log.delivered + [w.output.value.frame]
            && s'.shared.txCompleted == s.shared.txCompleted + 1)
      && (w.output.Some? && poll == OutError(Stall, true) && !w.outputRecovered ==>
            s'.worker == w.(phase := PollIn, outputRecovered := true) && s'.log.delivered == s.log.delivered)
      && (w.output.Some? && !poll.OutNothing? && poll != OutDone(20)
          && !(poll == OutError(Stall, true) && !w.outputRecovered) ==>
            s'.worker.phase.Failing? && s'.worker.output.None? && s'.log.delivered == s.log.delivered)
  {
  }

  lemma OutKeepsOrder(submitted: seq<Transfer>, delivered: seq<CanFrame>, output: Option<Transfer>)
    requires OutInv(submitted, delivered, output, true)
    ensures OutInv(submitted, delivered, output, false)
    ensures OutInv(submitted, delivered + InFlight(output), None, true)
    ensures OutInv(submitted, delivered + InFlight(output), None, false)
    ensures OutInv(submitted, delivered, None, false)
  {
  }

  lemma OutKeepsInv(s: State, poll: OutPoll)
    requires Inv(s) && s.worker.phase.PollOut?
    ensures Inv(OutStep(s, poll))
  {
    OutTouches(s, poll);
    OutDelivers(s, poll);
    OutKeepsOrder(s.log.submitted, s.log.delivered, s.worker.output);
  }

  lemma InTouches(s: State, poll: InPoll)
    requires s.worker.phase.PollIn?
    requires TransferInv(s.worker, s.log.inputRecoveries, s.log.outputRecoveries)
    ensures var s' := InStep(s, poll);
      && SameQueues(s, s')
      && s'.worker.output == s.worker.output
      && s'.log.delivered == s.log.delivered
      && s'.shared == s.shared
      && TransferInv(s'.worker, s'.log.inputRecoveries, s'.log.outputRecoveries)
  {
  }

  /** A read that is polled ends in exactly one way for each answer. */
  lemma InOutcomes(s: State, poll: InPoll)
    requires s.worker.phase.PollIn?
    ensures
      var s', w := InStep(s, poll), s.worker;
      && (poll.InNothing? ==> s' == s.(worker := w.(phase := Head)))
      && (poll.InDone? && |poll.data| <= w.requestSize ==>
            && s'.worker.inputsPending == w.inputsPending - 1
            && s'.worker.phase == if 0 < |poll.data| && |poll.data| % 20 == 0 then Chunks(poll.data) else Failing)
      && (poll == InError(Stall, true) && !w.inputRecovered ==>
            s'.worker == w.(phase := Head, inputRecovered := true, inputsPending := 4))
      && (poll.InError? && !(poll == InError(Stall, true) && !w.inputRecovered) ==> s'.worker.phase.Failing?)
  {
  }

  lemma InKeepsInv(s: State, poll: InPoll)
    requires Inv(s) && s.worker.phase.PollIn?
    ensures Inv(InStep(s, poll))
  {
    InTouches(s, poll);
    OutKeepsOrder(s.log.submitted, s.log.delivered, s.worker.output);
  }

  lemma ReleaseKeepsCredits(credits: E.Credits, submitted: seq<Transfer>, echoed: set<nat>, holder: map<nat, nat>,
                            id: nat)
    requires CreditInv(credits, submitted, echoed, holder) && id in holder
    ensures CreditInv(E.Release(credits, id), submitted, echoed + {holder[id]}, holder - {id})
  {
    E.InUseUpdate(credits.used, id, false);
  }

  lemma InputKeepsInv(s: State, decoded: Result<(u32, CanFrame), ProtocolError>, next: Phase)
    requires Inv(s) && s.worker.phase.Chunks?
    requires next.Chunks? && |next.rest| % HOST_FRAME_LEN == 0 && |next.rest| <= s.worker.requestSize
    ensures Inv(InputStep(s, decoded, next))
  {
    OutKeepsOrder(s.log.submitted, s.log.delivered, s.worker.output);
    if decoded.Success? {
      var (id, frame) := decoded.value;
      if id == RX_ECHO_ID {
        R.PushRefines(s.shared.rx, s.log.inputs, frame);
      } else if id in s.log.holder {
        ReleaseKeepsCredits(s.worker.credits, s.log.submitted, s.log.echoed, s.log.holder, id);
      }
    }
  }

  lemma ChunkKeepsInv(s: State)
    requires Inv(s) && s.worker.phase.Chunks?
    ensures Inv(ChunkStep(s, s.worker.phase.rest))
  {
    var rest := s.worker.phase.rest;
    if |rest| >= HOST_FRAME_LEN {
      InputKeepsInv(s, Decode(rest[..HOST_FRAME_LEN]), Chunks(rest[HOST_FRAME_LEN..]));
    }
  }

  /** A worker that has failed records it and cleans up; one that cleans up is then gone. */
  lemma ExitOutcomes(s: State)
    requires !s.worker.phase.Healthy()
    ensures
      var s' := ExitStep(s);
      && (s.worker.phase.Failing? ==> s'.worker.phase.Cleaning? && s'.shared == s.shared.(terminal := true))
      && (s.worker.phase.Cleaning? ==> s'.worker.phase.Gone? && s'.shared == s.shared && s'.worker.output.None?)
      && (s.worker.phase.Gone? ==> s' == s)
      && s'.log == s.log && s'.caller == s.caller
  {
  }

  lemma ExitKeepsInv(s: State)
    requires Inv(s) && !s.worker.phase.Healthy()
    ensures Inv(ExitStep(s))
  {
  }

  lemma CallerKeepsInv(s: State, a: Action)
    requires Inv(s)
    ensures Inv(CallerStep(s, a))
  {
    match a
    case TrySend =>
      if s.caller.Checked? && |s.shared.channel| < TX_CAPACITY {
        EnqueueKeepsOrder(s.log.submitted, s.worker.pending, s.shared.channel, s.log.enqueued, s.caller.frame);
      }
    case TakeInbound => R.DrainRefines(s.shared.rx, s.log.inputs);
    case _ =>
  }

  /** When `send` and the drain go ahead, what a drain takes, and what a drop closes. */
  lemma CallerOutcomes(s: State, frame: CanFrame)
    ensures s.caller.Idle? ==>
      && CallerStep(s, StartSend(frame)) == (if s.shared.terminal || !Encodable(frame) then s
                                             else s.(caller := Checked(frame)))
      && CallerStep(s, StartDrain) == (if s.shared.terminal then s else s.(caller := Draining))
      && CallerStep(s, CloseTx) == s.(caller := TxClosed, shared := s.shared.(txOpen := false))
    ensures s.caller.TxClosed? ==>
      CallerStep(s, RequestShutdown) == s.(caller := Dropped, shared := s.shared.(shutdown := true))
    ensures s.caller.Draining? && R.Refines(s.shared.rx, s.log.inputs) ==>
      var s' := CallerStep(s, TakeInbound);
      && s'.caller.Idle? && s'.shared == s.shared.(rx := s.shared.rx.(frames := []))
      && s'.log.inputs.drained == s.log.inputs.drained + s.shared.rx.frames
      && s'.worker == s.worker
  {
  }

  lemma EnqueueKeepsOrder(submitted: seq<Transfer>, pending: seq<CanFrame>, channel: seq<CanFrame>,
                          enqueued: seq<CanFrame>, frame: CanFrame)
    requires TxInv(submitted, pending, channel, enqueued) && |channel| < TX_CAPACITY && Encodable(frame)
    ensures TxInv(submitted, pending, channel + [frame], enqueued + [frame])
  {
  }

  lemma StepKeepsInv(s: State, e: Event)
    requires Inv(s)
    ensures Inv(Step(s, e))
  {
    match e
    case CallerTurn(a) => CallerKeepsInv(s, a);
    case WorkerTurn(d) =>
      match s.worker.phase
      case Head =>
      case Fill => FillKeepsInv(s);
      case Submit => SubmitKeepsInv(s);
      case PollOut => OutKeepsInv(s, d.out);
      case PollIn => InKeepsInv(s, d.inp);
      case Chunks(_) => ChunkKeepsInv(s);
      case _ => ExitKeepsInv(s);
  }

  lemma {:induction false} RunKeepsInv(s: State, events: seq<Event>)
    requires Inv(s)
    ensures Inv(Run(s, events))
    decreases |events|
  {
    if events != [] {
      StepKeepsInv(s, events[0]);
      RunKeepsInv(Step(s, events[0]), events[1..]);
    }
  }
}
