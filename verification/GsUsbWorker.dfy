/**
 The session as the two threads run it: one object whose fields the worker and
 the caller update in place. Each method is one atomic section and performs one
 step of GsUsbSession; RunSession and Send string sections together with the
 other thread free to act in between, and are runs of that state machine.
 */
module GsUsbWorker {
  import opened Wrappers
  import opened CanFrames
  import opened HostFrames
  import opened GsUsbSession
  import E = EchoCredits
  import R = RxQueue

  class Session {
    const requestSize: nat
    const echoes: E.EchoTable
    const rx: R.Queue<CanFrame>
    const statistics: R.Counters

    // Owned by the worker.
    var phase: Phase
    var pending: seq<CanFrame>
    var inputRecovered: bool
    var outputRecovered: bool
    var output: Option<Transfer>
    var inputsPending: int

    // Shared.
    var channel: seq<CanFrame>
    var terminal: bool
    var shutdown: bool
    var txOpen: bool

    // Owned by the caller.
    var caller: Caller

    ghost var log: Log

    ghost function Repr(): set<object> {
      {this, echoes, echoes.used, rx, statistics}
    }

    ghost predicate Valid()
      reads Repr()
    {
      echoes.Valid() && rx.statistics == statistics
    }

    ghost function View(): State
      reads Repr()
      requires Valid()
    {
      State(
        Worker(phase, pending, echoes.View(), inputRecovered, outputRecovered, output, inputsPending, requestSize),
        Shared(channel, rx.View(), terminal, shutdown, txOpen, statistics.txAccepted, statistics.txCompleted),
        caller,
        log)
    }

    constructor (requestSize: nat)
      ensures Valid() && View() == Initial(requestSize)
      ensures fresh(Repr())
    {
      this.requestSize := requestSize;
      echoes := new E.EchoTable();
      var counters := new R.Counters();
      statistics := counters;
      rx := new R.Queue(counters);
      phase, pending, inputRecovered, outputRecovered, output, inputsPending := Head, [], false, false, None, IN_FLIGHT;
      channel, terminal, shutdown, txOpen := [], false, false, true;
      caller := Idle;
      log := Initial(0).log;
    }

    // -------------------------------------------------------------------------
    // Sections of the worker loop

    method CheckShutdown()
      requires Valid() && phase.Head?
      modifies this`phase
      ensures Valid() && View() == WorkerStep(old(View()), Quiet)
    {
      phase := if shutdown then Cleaning else Fill;
    }

    method TakeFromChannel()
      requires Valid() && phase.Fill?
      modifies this
      ensures Valid() && View() == FillStep(old(View()))
    {
      if |pending| >= TX_CAPACITY {
        phase := Submit;
      } else if channel != [] {
        pending, channel := pending + [channel[0]], channel[1..];
      } else {
        phase := if txOpen then Submit else Cleaning;
      }
    }

    method SubmitNext()
      requires Valid() && phase.Submit?
      modifies this, echoes, echoes.used
      ensures Valid() && View() == SubmitStep(old(View()))
    {
      var inUse := echoes.CountInUse();
      if output.None? && pending != [] && inUse < E.ECHO_CREDITS {
        E.AllocateSucceedsBelowLimit(echoes.View());
        var id := echoes.Allocate();
        assert echoes.View() == E.Take(old(echoes.View()), id.value);
        LaunchNext(id.value);
      } else {
        phase := PollOut;
      }
    }

    method LaunchNext(id: nat)
      requires Valid() && pending != [] && id < E.ECHO_CREDITS
      modifies this
      ensures Valid() && View() == Launch(old(View()), id, Encode(id, old(pending[0])).Success?)
    {
      var frame := pending[0];
      pending := pending[1..];
      var encoded := EncodeHostFrame(id, frame);
      if encoded.Failure? {
        phase := Failing;
        return;
      }
      output := Some(Transfer(id, frame));
      log := log.(submitted := log.submitted + [output.value], holder := log.holder[id := |log.submitted|]);
      phase := PollOut;
    }

    method PollOutput(poll: OutPoll)
      requires Valid() && phase.PollOut?
      modifies this, statistics`txCompleted
      ensures Valid() && View() == OutStep(old(View()), poll)
    {
      if output.None? || poll.OutNothing? {
        phase := PollIn;
        return;
      }
      match poll {
        case OutDone(len) =>
          if len == HOST_FRAME_LEN {
            statistics.txCompleted := statistics.txCompleted + 1;
            log := log.(delivered := log.delivered + [output.value.frame]);
            phase := PollIn;
          } else {
            phase := Failing;
          }
          output := None;
        case OutError(error, cleared) =>
          if Classify(error, false, outputRecovered) == RecoverHalt {
            outputRecovered := true;
            log := log.(outputRecoveries := log.outputRecoveries + 1);
            if cleared {
              phase := PollIn; // the same buffer is submitted again
            } else {
              output := None;
              phase := Failing;
            }
          } else {
            output := None;
            phase := Failing;
          }
      }
    }

    method PollInput(poll: InPoll)
      requires Valid() && phase.PollIn?
      modifies this
      ensures Valid() && View() == InStep(old(View()), poll)
    {
      match poll {
        case InNothing =>
          phase := Head;
        case InDone(data) =>
          var got := if |data| <= requestSize then data else data[..requestSize];
          inputsPending := inputsPending - 1;
          phase := if |got| == 0 || |got| % HOST_FRAME_LEN != 0 then Failing else Chunks(got);
        case InError(error, cleared) =>
          if Classify(error, false, inputRecovered) == RecoverHalt {
            inputRecovered := true;
            log := log.(inputRecoveries := log.inputRecoveries + 1);
            inputsPending := if cleared then IN_FLIGHT else 0;
            phase := if cleared then Head else Failing;
          } else {
            inputsPending := inputsPending - 1;
            phase := Failing;
          }
      }
    }

    method ProcessChunk()
      requires Valid() && phase.Chunks?
      modifies this, echoes.used, rx, statistics`rxReceived, statistics`rxDropped
      ensures Valid() && View() == ChunkStep(old(View()), old(phase.rest))
    {
      var rest := phase.rest;
      if |rest| < HOST_FRAME_LEN {
        inputsPending := inputsPending + 1;
        phase := Head;
        return;
      }
      var decoded := Decode(rest[..HOST_FRAME_LEN]);
      var next := Chunks(rest[HOST_FRAME_LEN..]);
      match decoded {
        case Failure(_) =>
          phase := Failing;
        case Success((id, frame)) =>
          if id == RX_ECHO_ID {
            rx.PushBack(frame);
            log := log.(inputs := R.Logged(log.inputs, frame));
            phase := next;
          } else {
            var released := echoes.ReleaseId(id);
            if released {
              log := log.(echoed := log.echoed + (if id in log.holder then {log.holder[id]} else {}),
                holder := log.holder - {id});
              phase := next;
            } else {
              phase := Failing;
            }
          }
      }
    }

    method RecordAndClean()
      requires Valid() && !phase.Healthy()
      modifies this
      ensures Valid() && View() == ExitStep(old(View()))
    {
      match phase {
        case Failing =>
          terminal := true;
          phase := Cleaning;
        case Cleaning =>
          output := None;
          inputsPending := 0;
          phase := Gone;
        case _ =>
      }
    }

    /** One turn of the worker, wherever it is in its loop. */
    method WorkerSection(d: Device)
      requires Valid()
      modifies Repr()
      ensures Valid() && View() == WorkerStep(old(View()), d)
    {
      match phase {
        case Head => CheckShutdown();
        case Fill => TakeFromChannel();
        case Submit => SubmitNext();
        case PollOut => PollOutput(d.out);
        case PollIn => PollInput(d.inp);
        case Chunks(_) => ProcessChunk();
        case _ => RecordAndClean();
      }
    }

    // -------------------------------------------------------------------------
    // Sections of the caller

    method CallerSection(a: Action)
      requires Valid()
      modifies this, rx, statistics`txAccepted
      ensures Valid() && View() == CallerStep(old(View()), a)
    {
      match (a, caller) {
        case (StartSend(frame), Idle) =>
          if !terminal && Encodable(frame) {
            caller := Checked(frame);
          }
        case (TrySend, Checked(frame)) =>
          if phase.Gone? || |channel| >= TX_CAPACITY {
            caller := Idle;
          } else {
            channel := channel + [frame];
            log := log.(enqueued := log.enqueued + [frame]);
            caller := Enqueued;
          }
        case (CountAccepted, Enqueued) =>
          statistics.txAccepted := statistics.txAccepted + 1;
          caller := Idle;
        case (StartDrain, Idle) =>
          if !terminal {
            caller := Draining;
          }
        case (TakeInbound, Draining) =>
          var frames := rx.Drain();
          log := if |frames| <= |log.inputs.log| then log.(inputs := R.Taken(log.inputs, frames)) else log;
          caller := Idle;
        case (CloseTx, Idle) =>
          txOpen := false;
          caller := TxClosed;
        case (RequestShutdown, TxClosed) =>
          shutdown := true;
          caller := Dropped;
        case _ =>
      }
    }

    // -------------------------------------------------------------------------
    // Whole methods, with the other thread acting in between

    method CallerActs() returns (ghost events: seq<Event>)
      requires Valid()
      modifies this, rx, statistics`txAccepted
      ensures Valid() && View() == Run(old(View()), events)
      ensures WorkerTurns(events) == 0 && SameWork(old(View()), View())
    {
      events := [];
      var turns: nat :| turns >= 0;
      for i := 0 to turns
        invariant Valid() && View() == Run(old(View()), events)
        invariant WorkerTurns(events) == 0 && SameWork(old(View()), View())
      {
        var a: Action := *;
        RunAppend(old(View()), events, CallerTurn(a));
        WorkerTurnsConcat(events, [CallerTurn(a)]);
        CallerLeavesWorker(View(), a);
        CallerSection(a);
        events := events + [CallerTurn(a)];
      }
    }

    method WorkerActs() returns (ghost events: seq<Event>)
      requires Valid()
      modifies Repr()
      ensures Valid() && View() == Run(old(View()), events)
      ensures caller == old(caller) && log.enqueued == old(log.enqueued)
      ensures statistics.txAccepted == old(statistics.txAccepted)
    {
      events := [];
      var turns: nat :| turns >= 0;
      for i := 0 to turns
        invariant Valid() && View() == Run(old(View()), events)
        invariant caller == old(caller) && log.enqueued == old(log.enqueued)
        invariant statistics.txAccepted == old(statistics.txAccepted)
      {
        var d: Device := *;
        RunAppend(old(View()), events, WorkerTurn(d));
        WorkerLeavesCaller(View(), d);
        WorkerSection(d);
        events := events + [WorkerTurn(d)];
      }
    }

    /** The caller acts, then the worker takes one turn, which submits a frame exactly when it can. */
    method Turn(d: Device) returns (ghost events: seq<Event>)
      requires Valid() && Inv(View())
      modifies Repr()
      ensures Valid()
      ensures Ran(old(View()), events, View(), 1, Submissions(old(View()).worker), Completions(old(View()).worker))
      ensures Follows(old(phase), phase)
      ensures old(phase).Fill? && phase.Fill? ==> |pending| == old(|pending|) + 1 <= TX_CAPACITY
      ensures old(phase).Head? || old(phase).Fill? ==> Prepares(old(View()), View())
      ensures old(phase).Fill? && phase.Submit? ==> TakenUp(View())
    {
      ghost var before := View();
      events := CallerActs();
      ghost var s := View();
      RunKeepsInv(before, events);
      TurnRan(before, events, s, d);
      WorkerSection(d);
      PhaseFollows(s, d);
      FillPrepares(before, events, s, d);
      events := events + [WorkerTurn(d)];
    }

    /** The inner loop that moves the channel into the worker's own queue. */
    method FillPending() returns (ghost events: seq<Event>)
      requires Valid() && Inv(View()) && phase.Fill?
      modifies Repr()
      ensures Valid() && Ran(old(View()), events, View(), 1, 0, 0)
      ensures phase.Submit? || phase.Cleaning?
      ensures Prepares(old(View()), View()) && (phase.Submit? ==> TakenUp(View()))
    {
      events := Turn(Quiet);
      while phase.Fill?
        invariant Valid() && Ran(old(View()), events, View(), 1, 0, 0)
        invariant phase.Fill? || phase.Submit? || phase.Cleaning?
        invariant Prepares(old(View()), View()) && (phase.Submit? ==> TakenUp(View()))
        decreases phase.Fill?, TX_CAPACITY - |pending|
      {
        ghost var middle := View();
        ghost var more := Turn(Quiet);
        RanTwice(old(View()), events, middle, 1, 0, 0, more, View(), 1, 0, 0);
        events := events + more;
      }
    }

    /** The inner loop over the host frames of one completed read. */
    method ProcessChunks() returns (ghost events: seq<Event>)
      requires Valid() && Inv(View()) && phase.Chunks?
      modifies Repr()
      ensures Valid() && Ran(old(View()), events, View(), 1, 0, 0)
      ensures phase.Head? || phase.Failing?
    {
      events := Turn(Quiet);
      while phase.Chunks?
        invariant Valid() && Ran(old(View()), events, View(), 1, 0, 0)
        invariant phase.Chunks? || phase.Head? || phase.Failing?
        decreases if phase.Chunks? then 1 + |phase.rest| else 0
      {
        ghost var middle := View();
        ghost var more := Turn(Quiet);
        RanTwice(old(View()), events, middle, 1, 0, 0, more, View(), 1, 0, 0);
        events := events + more;
      }
    }

    /**
     One iteration of the worker loop: shutdown check, fill, submit, poll out,
     poll in, process. It takes at least one turn, and at least five to get back
     to the head. It submits at most one frame: the section at `at` submits one
     exactly when it can, and an iteration that ends before it submits none. It
     completes at most one.
     */
    method Round(d: Device) returns (ghost events: seq<Event>, ghost at: Option<nat>)
      requires Valid() && Inv(View()) && phase.Head?
      modifies Repr()
      ensures Valid() && (phase.Head? || !phase.Healthy())
      ensures Ran(old(View()), events, View(), if phase.Head? then 5 else 1, SubmittedAt(old(View()), events, at), 1)
      ensures phase.Head? ==> at.Some?
      ensures at.Some? ==> at.value <= |events| && ReadyToSubmit(old(View()), Run(old(View()), events[..at.value]))
      ensures at.Some? ==> Serves(old(View()), View())
    {
      at := None;
      events := FirstPart(d);
      if phase.Submit? {
        ghost var middle, early := View(), events;
        at := Some(|early|);
        ghost var more := SecondPart(d);
        RoundJoined(old(View()), early, middle, more, View(), if phase.Head? then 3 else 1);
        events := early + more;
      }
    }

    /** The shutdown check and the fill. */
    method FirstPart(d: Device) returns (ghost events: seq<Event>)
      requires Valid() && Inv(View()) && phase.Head?
      modifies Repr()
      ensures Valid() && (phase.Submit? || phase.Cleaning?)
      ensures Ran(old(View()), events, View(), if phase.Submit? then 2 else 1, 0, 0)
      ensures Prepares(old(View()), View()) && (phase.Submit? ==> TakenUp(View()))
    {
      events := Turn(d);
      if phase.Fill? {
        ghost var middle := View();
        ghost var more := FillPending();
        RanTwice(old(View()), events, middle, 1, 0, 0, more, View(), 1, 0, 0);
        events := events + more;
      }
    }

    /** Submit, poll out, poll in and process. */
    method SecondPart(d: Device) returns (ghost events: seq<Event>)
      requires Valid() && Inv(View()) && phase.Submit?
      modifies Repr()
      ensures Valid() && (phase.Head? || !phase.Healthy())
      ensures Ran(old(View()), events, View(), if phase.Head? then 3 else 1, Submissions(old(View()).worker), 1)
    {
      events := Turn(d);
      if phase.PollOut? {
        ghost var middle := View();
        ghost var more := Polling(d);
        RanTwice(old(View()), events, middle, 1, Submissions(old(View()).worker), 0, more, View(),
                 if phase.Head? then 2 else 1, 0, 1);
        events := events + more;
      }
    }

    /** Poll out, poll in and process. */
    method Polling(d: Device) returns (ghost events: seq<Event>)
      requires Valid() && Inv(View()) && phase.PollOut?
      modifies Repr()
      ensures Valid() && (phase.Head? || !phase.Healthy())
      ensures Ran(old(View()), events, View(), if phase.Head? then 2 else 1, 0, 1)
    {
      events := Turn(d);
      if phase.PollIn? {
        ghost var middle := View();
        ghost var more := Reading(d);
        RanTwice(old(View()), events, middle, 1, 0, 1, more, View(), 1, 0, 0);
        events := events + more;
      }
    }

    /** Poll in and process. */
    method Reading(d: Device) returns (ghost events: seq<Event>)
      requires Valid() && Inv(View()) && phase.PollIn?
      modifies Repr()
      ensures Valid() && (phase.Head? || phase.Failing?) && Ran(old(View()), events, View(), 1, 0, 0)
    {
      events := Turn(d);
      if phase.Chunks? {
        ghost var middle := View();
        ghost var more := ProcessChunks();
        RanTwice(old(View()), events, middle, 1, 0, 0, more, View(), 1, 0, 0);
        events := events + more;
      }
    }

    /**
     The worker loop, observed for `rounds` iterations or until it ends, against
     any device and any caller: a run of the state machine in which every
     iteration takes its turns and submits and completes at most one frame, and
     the oldest one waiting whenever it finds the endpoint and a credit free.
     */
    method RunSession(rounds: nat) returns (ghost events: seq<Event>, ghost submitted: nat, ghost heads: seq<nat>)
      requires Valid() && Inv(View()) && phase.Head?
      modifies Repr()
      ensures Valid() && (phase.Head? || !phase.Healthy())
      ensures submitted <= rounds
      ensures Ran(old(View()), events, View(), if phase.Head? then 5 * rounds else 1, submitted, rounds)
      ensures Iterates(old(View()), events, heads)
      ensures phase.Head? ==> |heads| == rounds + 1 && heads[rounds] == |events|
    {
      events, submitted, heads := [], 0, [0];
      for round := 0 to rounds
        invariant Valid() && phase.Head? && submitted <= round
        invariant Observed(old(View()), events, View(), round, submitted, heads)
      {
        ghost var more, sent := NextRound(old(View()), events, round, submitted, heads);
        events, submitted := events + more, submitted + sent;
        if !phase.Head? {
          RanLess(old(View()), events, View(), 1, 1, submitted, round + 1, rounds);
          return;
        }
        heads := heads + [|events|];
      }
    }

    method NextRound(ghost s: State, ghost events: seq<Event>, ghost round: nat, ghost submitted: nat,
                     ghost heads: seq<nat>) returns (ghost more: seq<Event>, ghost sent: nat)
      requires Valid() && phase.Head? && Observed(s, events, View(), round, submitted, heads)
      modifies Repr()
      ensures Valid() && (phase.Head? || !phase.Healthy()) && sent <= 1
      ensures Ran(s, events + more, View(), 1, submitted + sent, round + 1) && Iterates(s, events + more, heads)
      ensures phase.Head? ==>
        Observed(s, events + more, View(), round + 1, submitted + sent, heads + [|events + more|])
    {
      ghost var middle := View();
      var device: Device := *;
      ghost var at;
      more, at := Round(device);
      sent := SubmittedAt(middle, more, at);
      RanTwice(s, events, middle, 5 * round, submitted, round, more, View(), if phase.Head? then 5 else 1, sent, 1);
      RanLess(s, events + more, View(), 5 * round + (if phase.Head? then 5 else 1), 1, submitted + sent, round + 1,
              round + 1);
      OneMoreHead(s, events, heads, more, phase.Head?);
    }

    /**
     `send`, with the worker free to run between its check, its enqueue and its
     count. It reports success exactly when it enqueued the frame.
     */
    method Send(frame: CanFrame) returns (ok: bool, ghost events: seq<Event>)
      requires Valid() && caller.Idle?
      modifies Repr()
      ensures Valid() && View() == Run(old(View()), events)
      ensures caller.Idle?
      ensures log.enqueued == if ok then old(log.enqueued) + [frame] else old(log.enqueued)
      ensures ok ==> Encodable(frame) && statistics.txAccepted == old(statistics.txAccepted) + 1
      ensures !ok ==> statistics.txAccepted == old(statistics.txAccepted)
      ensures old(terminal) ==> !ok
      ensures !ok && !old(terminal) && Encodable(frame) ==> Refused(old(View()), events)
    {
      RunAppend(View(), [], CallerTurn(StartSend(frame)));
      CallerSection(StartSend(frame));
      events := [] + [CallerTurn(StartSend(frame))];
      ok := false;
      if !caller.Idle? {
        ghost var more;
        ok, more := Enqueue(frame);
        if !ok {
          RefusedLater(old(View()), events, more);
        }
        RunConcat(old(View()), events, more);
        events := events + more;
        if ok {
          more := Count();
          RunConcat(old(View()), events, more);
          events := events + more;
        }
      }
    }

    /** From the check to the enqueue. */
    method Enqueue(frame: CanFrame) returns (ok: bool, ghost events: seq<Event>)
      requires Valid() && caller == Checked(frame)
      modifies Repr()
      ensures Valid() && View() == Run(old(View()), events)
      ensures caller == if ok then Enqueued else Idle
      ensures log.enqueued == if ok then old(log.enqueued) + [frame] else old(log.enqueued)
      ensures statistics.txAccepted == old(statistics.txAccepted)
      ensures !ok ==> Refused(old(View()), events)
    {
      events := WorkerActs();
      RunAppend(old(View()), events, CallerTurn(TrySend));
      ghost var before, worker := View(), events;
      CallerSection(TrySend);
      events := events + [CallerTurn(TrySend)];
      ok := caller.Enqueued?;
      assert events[..|worker|] == worker;
      assert !ok ==> Refuses(before) && RefusedAt(old(View()), events, |worker|);
    }

    /** From the enqueue to the count. */
    method Count() returns (ghost events: seq<Event>)
      requires Valid() && caller.Enqueued?
      modifies Repr()
      ensures Valid() && View() == Run(old(View()), events)
      ensures caller.Idle? && log.enqueued == old(log.enqueued)
      ensures statistics.txAccepted == old(statistics.txAccepted) + 1
    {
      events := WorkerActs();
      RunAppend(old(View()), events, CallerTurn(CountAccepted));
      CallerSection(CountAccepted);
      events := events + [CallerTurn(CountAccepted)];
    }
  }

  // ---------------------------------------------------------------------------
  // What a stretch of a run did

  /**
   A run from `s` to `s'` with at least so many turns of the worker, exactly so
   many frames submitted and at most so many completed.
   */
  ghost predicate Ran(s: State, events: seq<Event>, s': State, turns: nat, submitted: nat, completed: nat) {
    && s' == Run(s, events) && Inv(s')
    && WorkerTurns(events) >= turns
    && |s'.log.submitted| == |s.log.submitted| + submitted
    && |s.log.delivered| <= |s'.log.delivered| <= |s.log.delivered| + completed
  }

  lemma RanTwice(s: State, first: seq<Event>, s': State, turns: nat, submitted: nat, completed: nat,
                 more: seq<Event>, s'': State, turns': nat, submitted': nat, completed': nat)
    requires Ran(s, first, s', turns, submitted, completed)
    requires Ran(s', more, s'', turns', submitted', completed')
    ensures Ran(s, first + more, s'', turns + turns', submitted + submitted', completed + completed')
    ensures Ran(s, first + more, s'', turns, submitted + submitted', completed + completed')
  {
    RunConcat(s, first, more);
    WorkerTurnsConcat(first, more);
  }

  lemma RanLess(s: State, events: seq<Event>, s': State, turns: nat, turns': nat, submitted: nat, completed: nat,
                completed': nat)
    requires Ran(s, events, s', turns, submitted, completed) && turns' <= turns && completed <= completed'
    ensures Ran(s, events, s', turns', submitted, completed')
  {
  }

  /** How many frames the worker's next turn submits. */
  function Submissions(w: Worker): nat {
    if w.phase.Submit? && CanSubmit(w) then 1 else 0
  }

  /** How many frames the worker's next turn can find completed. */
  function Completions(w: Worker): nat {
    if w.phase.PollOut? then 1 else 0
  }

  /** How many frames the submit section reached after `at` events submits. */
  function SubmittedAt(s: State, events: seq<Event>, at: Option<nat>): nat {
    if at.Some? && at.value <= |events| then Submissions(Run(s, events[..at.value]).worker) else 0
  }

  predicate SameWork(s: State, t: State) {
    t.worker == s.worker && t.log.submitted == s.log.submitted && t.log.delivered == s.log.delivered
  }

  lemma CallerLeavesWorker(s: State, a: Action)
    ensures SameWork(s, CallerStep(s, a))
  {
  }

  lemma WorkerDoes(s: State, d: Device)
    requires Inv(s)
    ensures var s' := WorkerStep(s, d);
      && |s'.log.submitted| == |s.log.submitted| + Submissions(s.worker)
      && |s.log.delivered| <= |s'.log.delivered| <= |s.log.delivered| + Completions(s.worker)
  {
    if s.worker.phase.Submit? && CanSubmit(s.worker) {
      E.AllocateSucceedsBelowLimit(s.worker.credits);
      NextPendingEncodes(s, E.Next(s.worker.credits).value);
    }
  }

  lemma TurnRan(before: State, events: seq<Event>, s: State, d: Device)
    requires s == Run(before, events) && Inv(s) && WorkerTurns(events) == 0 && SameWork(before, s)
    ensures Ran(before, events + [WorkerTurn(d)], WorkerStep(s, d), 1, Submissions(before.worker),
      Completions(before.worker))
  {
    RunAppend(before, events, WorkerTurn(d));
    WorkerTurnsConcat(events, [WorkerTurn(d)]);
    StepKeepsInv(s, WorkerTurn(d));
    WorkerDoes(s, d);
  }

  /** Nothing was submitted, the endpoint and the credits are as they were, and what was accepted still is. */
  predicate Prepares(s: State, t: State) {
    && t.worker.output == s.worker.output && t.worker.credits == s.worker.credits
    && t.log.submitted == s.log.submitted && s.log.enqueued <= t.log.enqueued
  }

  /** The worker has taken all it can from the channel. */
  predicate TakenUp(s: State) {
    |s.worker.pending| == TX_CAPACITY || s.shared.channel == []
  }

  predicate ReadyToSubmit(s: State, t: State) {
    t.worker.phase.Submit? && Prepares(s, t) && TakenUp(t)
  }

  /** The endpoint and a credit are free, and an accepted frame has not been submitted. */
  predicate MustSubmit(s: State) {
    s.worker.output.None? && E.InUse(s.worker.credits.used) < E.ECHO_CREDITS && |s.log.submitted| < |s.log.enqueued|
  }

  /** If it must, the iteration from `s` to `t` submits the oldest frame waiting. */
  predicate Serves(s: State, t: State) {
    MustSubmit(s) ==>
      && |t.log.submitted| == |s.log.submitted| + 1
      && Frames(t.log.submitted) == Frames(s.log.submitted) + [s.log.enqueued[|s.log.submitted|]]
  }

  /** The points of a run at which its iterations began. */
  ghost predicate Iterates(s: State, events: seq<Event>, heads: seq<nat>) {
    && heads != [] && heads[0] == 0
    && (forall i | 0 <= i < |heads| :: heads[i] <= |events| && Run(s, events[..heads[i]]).worker.phase.Head?)
    && (forall i | 0 <= i < |heads| - 1 :: ServedFrom(s, events, heads, i))
  }

  ghost predicate ServedFrom(s: State, events: seq<Event>, heads: seq<nat>, i: nat)
    requires i + 1 < |heads| && heads[i] <= |events| && heads[i + 1] <= |events|
  {
    Serves(Run(s, events[..heads[i]]), Run(s, events[..heads[i + 1]]))
  }

  /** So many whole iterations, the last of which just ended. */
  ghost predicate Observed(s: State, events: seq<Event>, s': State, rounds: nat, submitted: nat, heads: seq<nat>) {
    && Ran(s, events, s', 5 * rounds, submitted, rounds)
    && Iterates(s, events, heads) && |heads| == rounds + 1 && heads[rounds] == |events|
  }

  lemma OneMoreHead(s: State, events: seq<Event>, heads: seq<nat>, more: seq<Event>, whole: bool)
    requires Iterates(s, events, heads) && heads[|heads| - 1] == |events|
    requires whole ==> Run(s, events + more).worker.phase.Head? && Serves(Run(s, events), Run(s, events + more))
    ensures Iterates(s, events + more, heads)
    ensures whole ==> Iterates(s, events + more, heads + [|events + more|])
  {
    var all, heads' := events + more, heads + [|events + more|];
    assert forall k | 0 <= k <= |events| :: all[..k] == events[..k];
    assert events[..|events|] == events && all[..|all|] == all;
    forall i: nat | i < |heads| - 1
      ensures ServedFrom(s, all, heads, i) && ServedFrom(s, all, heads', i)
    {
      assert ServedFrom(s, events, heads, i);
    }
    if whole {
      assert ServedFrom(s, all, heads', |heads| - 1);
    }
  }

  lemma FillPrepares(before: State, events: seq<Event>, s: State, d: Device)
    requires s == Run(before, events) && Inv(s) && WorkerTurns(events) == 0 && SameWork(before, s)
    ensures s.log.enqueued <= WorkerStep(s, d).log.enqueued
    ensures s.worker.phase.Head? || s.worker.phase.Fill? ==> Prepares(before, WorkerStep(s, d))
    ensures s.worker.phase.Fill? && WorkerStep(s, d).worker.phase.Submit? ==> TakenUp(WorkerStep(s, d))
  {
    KeptForGood(before, events);
    WorkerLeavesCaller(s, d);
    if s.worker.phase.Fill? {
      FillMoves(s);
    }
  }

  /** From a prepared submit section on, the oldest frame not yet submitted goes out. */
  lemma OldestIsSubmitted(s: State, middle: State, more: seq<Event>, s': State)
    requires Inv(s) && MustSubmit(s) && ReadyToSubmit(s, middle) && Inv(middle)
    requires Ran(middle, more, s', 0, Submissions(middle.worker), 1)
    ensures Serves(s, s')
  {
    WaitsInWorker(middle);
    KeptForGood(middle, more);
    SubmittedAreAccepted(s);
    SubmittedAreAccepted(s');
    OneLonger(s.log.enqueued, s'.log.enqueued, |s.log.submitted|);
  }

  lemma OneLonger<T>(accepted: seq<T>, accepted': seq<T>, n: nat)
    requires n < |accepted| && accepted <= accepted'
    ensures accepted'[..n + 1] == accepted[..n] + [accepted[n]]
  {
  }

  lemma WaitsInWorker(s: State)
    requires Inv(s) && TakenUp(s) && |s.log.submitted| < |s.log.enqueued|
    ensures s.worker.pending != []
  {
    assert |Frames(s.log.submitted) + s.worker.pending + s.shared.channel| == |s.log.enqueued|;
  }

  /** The two parts of an iteration, before and from the submit section on, make one. */
  lemma RoundJoined(s: State, early: seq<Event>, middle: State, more: seq<Event>, s': State, turns: nat)
    requires Inv(s) && Ran(s, early, middle, 2, 0, 0) && ReadyToSubmit(s, middle)
    requires Ran(middle, more, s', turns, Submissions(middle.worker), 1)
    ensures
      var events := early + more;
      && Ran(s, events, s', 2 + turns, SubmittedAt(s, events, Some(|early|)), 1)
      && Ran(s, events, s', 1, SubmittedAt(s, events, Some(|early|)), 1)
      && events[..|early|] == early && ReadyToSubmit(s, Run(s, events[..|early|]))
      && Serves(s, s')
  {
    assert (early + more)[..|early|] == early;
    RanTwice(s, early, middle, 2, 0, 0, more, s', turns, Submissions(middle.worker), 1);
    RanLess(s, early + more, s', 2, 1, Submissions(middle.worker), 1, 1);
    RanLess(middle, more, s', turns, 0, Submissions(middle.worker), 1, 1);
    if MustSubmit(s) {
      OldestIsSubmitted(s, middle, more, s');
    }
  }

  /** What was submitted is what was accepted, as far as it goes. */
  lemma SubmittedAreAccepted(s: State)
    requires Inv(s)
    ensures Frames(s.log.submitted) == s.log.enqueued[..|s.log.submitted|]
  {
  }

  /** The channel takes no frame: the worker has gone or there are 256 in it. */
  predicate Refuses(s: State) {
    s.worker.phase.Gone? || |s.shared.channel| >= 256
  }

  ghost predicate RefusedAt(s: State, events: seq<Event>, k: nat) {
    k <= |events| && Refuses(Run(s, events[..k]))
  }

  /** At some point of the run the channel took no frame. */
  ghost predicate Refused(s: State, events: seq<Event>) {
    exists k: nat :: RefusedAt(s, events, k)
  }

  lemma RefusedLater(s: State, first: seq<Event>, more: seq<Event>)
    requires Refused(Run(s, first), more)
    ensures Refused(s, first + more)
  {
    var k: nat :| RefusedAt(Run(s, first), more, k);
    RunConcat(s, first, more[..k]);
    assert (first + more)[..|first| + k] == first + more[..k];
    assert RefusedAt(s, first + more, |first| + k);
  }

  /** The order of the worker loop's parts. */
  predicate Follows(p: Phase, q: Phase) {
    match p
    case Head => q.Fill? || q.Cleaning?
    case Fill => q.Fill? || q.Submit? || q.Cleaning?
    case Submit => q.PollOut? || q.Failing?
    case PollOut => q.PollIn? || q.Failing?
    case PollIn => q.Head? || q.Failing? || q.Chunks?
    case Chunks(rest) => q.Head? || q.Failing? || (q.Chunks? && |q.rest| < |rest|)
    case Failing => q.Cleaning?
    case _ => q.Gone?
  }

  lemma WorkerLeavesCaller(s: State, d: Device)
    ensures var s' := WorkerStep(s, d);
      && s'.caller == s.caller
      && s'.log.enqueued == s.log.enqueued
      && s'.shared.txAccepted == s.shared.txAccepted
  {
  }

  lemma PhaseFollows(s: State, d: Device)
    ensures Follows(s.worker.phase, WorkerStep(s, d).worker.phase)
    ensures s.worker.phase.Fill? && WorkerStep(s, d).worker.phase.Fill? ==>
      |WorkerStep(s, d).worker.pending| == |s.worker.pending| + 1 <= TX_CAPACITY
  {
  }

  /** A turn in which the device says nothing. */
  const Quiet := Device(OutNothing, InNothing)
}
