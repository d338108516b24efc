/** Buses of Damiao motors: what the mode read-back of a tick makes of their frames. */
module DamiaoBus {
  import opened Wrappers
  import opened MachineInts
  import opened CanFrames
  import opened Motors
  import opened Wires
  import opened Dispatch
  import opened Replays
  import opened Evidence
  import BitPack
  import D = DamiaoCodec

  // ---------------------------------------------------------------------------
  // The codec

  /** What the control-mode register holds for a mode. */
  function Register(mode: Mode): u32 {
    match mode
    case MitMode => 1
    case PosVelMode => 2
    case VelMode => 3
    case PosForceMode => 4
  }

  function Special(motor: MotorRef, trailing: u8): CanFrame {
    Classical(motor.sendId, [0xFF, 0xFF, 0xFF, 0xFF, 0xFF, 0xFF, 0xFF, trailing]).value
  }

  function Param(motor: MotorRef, command: u8, rid: u8, value: u32): CanFrame {
    Classical(D.PARAM_ID, D.ParamPayload(motor.sendId, command, rid, value)).value
  }

  /** The frame of each intent; those of control commands are left to `control`. */
  function EncodedIntent(motor: MotorRef, intent: Intent, control: (MotorRef, Command) -> Result<CanFrame, ()>):
    Result<Option<CanFrame>, ()>
  {
    match intent
    case Enable => Success(Some(Special(motor, 0xFC)))
    case Disable => Success(Some(Special(motor, 0xFD)))
    case Refresh => Success(Some(Param(motor, 0xCC, 0, 0)))
    case SetMode(mode) => Success(Some(Param(motor, D.CMD_WRITE, D.RID_CTRL_MODE, Register(mode))))
    case QueryMode => Success(Some(Param(motor, D.CMD_READ, D.RID_CTRL_MODE, 0)))
    case Control(command) =>
      (match control(motor, command)
       case Success(frame) => Success(Some(frame))
       case Failure(_) => Failure(()))
  }

  /** The decoding of a frame; a panic ends the tick as a failure does. */
  function DecodedEvent(frame: CanFrame, fdBus: bool): Result<Option<Event>, ()> {
    match D.DecodeState(frame, fdBus)
    case Panic => Failure(())
    case Ignored => Success(None)
    case State(e) => Success(Some(State(e.motorId, e.q, e.dq, e.tau, e.tMos, e.tRotor)))
  }

  /** A bus with this codec. */
  function Damiao(fdBus: bool, control: (MotorRef, Command) -> Result<CanFrame, ()>,
                  routes: map<u32, MotorKey>): BusView {
    BusView(Codec(true, (motor: MotorRef, intent: Intent) => EncodedIntent(motor, intent, control),
                  (frame: CanFrame) => DecodedEvent(frame, fdBus),
                  (frame: CanFrame, motor: MotorRef) => Success(D.DecodeModeReadback(frame, motor.sendId))), routes)
  }

  ghost predicate IsDamiao(view: BusView) {
    exists fdBus, control :: view == Damiao(fdBus, control, view.routes)
  }

  /** The value a parameter frame carries. */
  function Carried(frame: CanFrame): int
    requires frame.len == 8
  {
    var p: seq<int> := Payload(frame);
    p[4] + 0x100 * p[5] + 0x1_0000 * p[6] + 0x100_0000 * p[7]
  }

  /** A write of this mode, byte by byte, on the parameter identifier. */
  predicate WritesMode(frame: CanFrame, motor: MotorRef, mode: u8) {
    && frame.id == 0x7FF && frame.len == 8 && frame.flags == NoFlags
    && Payload(frame) == [motor.sendId % 0x100, motor.sendId / 0x100 % 0x100, 0x55, 10, mode, 0, 0, 0]
  }

  predicate Refreshes(frame: CanFrame, motor: MotorRef) {
    && frame.id == 0x7FF && frame.len == 8 && frame.flags == NoFlags
    && Payload(frame) == [motor.sendId % 0x100, motor.sendId / 0x100 % 0x100, 0xCC, 0, 0, 0, 0, 0]
  }

  predicate Queries(frame: CanFrame, motor: MotorRef) {
    && frame.id == 0x7FF && frame.len == 8 && frame.flags == NoFlags
    && Payload(frame) == [motor.sendId % 0x100, motor.sendId / 0x100 % 0x100, 0x33, 10, 0, 0, 0, 0]
  }

  /** A frame on the motor's own identifier with this last byte. */
  predicate Specially(frame: CanFrame, motor: MotorRef, trailing: u8) {
    && frame.id == motor.sendId && frame.len == 8 && frame.flags == NoFlags
    && Payload(frame) == [0xFF, 0xFF, 0xFF, 0xFF, 0xFF, 0xFF, 0xFF, trailing]
  }

  /** What goes out to switch a motor, and to ask for its state. */
  lemma SwitchFrames(view: BusView, motor: MotorRef)
    requires IsDamiao(view)
    ensures view.codec.isDamiao
    ensures var refresh := view.codec.encode(motor, Refresh);
      refresh.Success? && refresh.value.Some? && Refreshes(refresh.value.value, motor)
    ensures var on := view.codec.encode(motor, Enable);
      on.Success? && on.value.Some? && Specially(on.value.value, motor, 0xFC)
    ensures var off := view.codec.encode(motor, Disable);
      off.Success? && off.value.Some? && Specially(off.value.value, motor, 0xFD)
  {
  }

  /** What goes out to set and to query the mode: the modes are numbered 1 to 4. */
  lemma ModeFrames(view: BusView, motor: MotorRef)
    requires IsDamiao(view)
    ensures forall m: Mode ::
      view.codec.encode(motor, SetMode(m)).Success? && view.codec.encode(motor, SetMode(m)).value.Some?
    ensures WritesMode(view.codec.encode(motor, SetMode(MitMode)).value.value, motor, 1)
    ensures WritesMode(view.codec.encode(motor, SetMode(PosVelMode)).value.value, motor, 2)
    ensures WritesMode(view.codec.encode(motor, SetMode(VelMode)).value.value, motor, 3)
    ensures WritesMode(view.codec.encode(motor, SetMode(PosForceMode)).value.value, motor, 4)
    ensures view.codec.encode(motor, QueryMode).Success? && view.codec.encode(motor, QueryMode).value.Some?
    ensures Queries(view.codec.encode(motor, QueryMode).value.value, motor)
  {
  }

  /** A motor's answer to the mode query. */
  function ModeReply(motor: MotorRef, mode: u32): CanFrame {
    Classical(motor.recvId, D.ParamPayload(motor.sendId, D.CMD_READ, D.RID_CTRL_MODE, mode)).value
  }

  lemma ReplyAnswers(view: BusView, motor: MotorRef, mode: u32)
    requires IsDamiao(view) && motor.sendId < 0x1_0000
    ensures ModeReply(motor, mode).id == motor.recvId
    ensures view.codec.decodeMode(ModeReply(motor, mode), motor) == Success(Some(mode))
  {
    D.ModeReadbackRoundTrip(motor.sendId, motor.recvId, mode);
  }

  /** A state reply is no answer to the mode query unless its third byte is the read command's. */
  lemma StateIsNoAnswer(view: BusView, motor: MotorRef, c: BitPack.StateCodes)
    requires IsDamiao(view) && BitPack.ValidState(c) && c.q % 0x100 != D.CMD_READ
    ensures var frame := D.StateFrame(motor.recvId, c);
      && frame.id == motor.recvId
      && view.codec.decodeMode(frame, motor) == Success(None)
      && view.codec.decode(frame).Success?
  {
    assert Payload(D.StateFrame(motor.recvId, c)) == BitPack.PackState(c);
  }

  /**
   A motor that answers the mode query and then reports its state in the same
   tick is not verified; in the other order it is.
   */
  lemma StateHidesReadback(views: seq<BusView>, bus: nat, motor: MotorRef, mode: u32, c: BitPack.StateCodes)
    requires bus < |views| && IsDamiao(views[bus]) && motor.sendId < 0x1_0000
    requires BitPack.ValidState(c) && c.q % 0x100 != D.CMD_READ
    ensures
      var reply, state := Received(bus, ModeReply(motor, mode)), Received(bus, D.StateFrame(motor.recvId, c));
      && ModeOf(views, motor, [reply]) == Some(mode)
      && ModeOf(views, motor, [reply, state]) == None
      && ModeOf(views, motor, [state, reply]) == Some(mode)
  {
    var reply, state := Received(bus, ModeReply(motor, mode)), Received(bus, D.StateFrame(motor.recvId, c));
    ReplyAnswers(views[bus], motor, mode);
    StateIsNoAnswer(views[bus], motor, c);
    OneFrame(views, motor, reply);
    OneFrame(views, motor, state);
    TwoFrames(views, motor, reply, state);
    TwoFrames(views, motor, state, reply);
  }

  /** An answer from a motor of the same ids on another bus is believed, although the motor's own bus said nothing. */
  lemma ForeignReadback(views: seq<BusView>, home: nat, other: nat, motor: MotorRef, mode: u32)
    requires home != other < |views| && IsDamiao(views[other]) && motor.sendId < 0x1_0000
    ensures
      var obs := [Received(other, ModeReply(motor, mode))];
      && ModeOf(views, motor, obs) == Some(mode)
      && FromBus(obs, home) == [] && ModeOf(views, motor, FromBus(obs, home)) == None
  {
    var reply := Received(other, ModeReply(motor, mode));
    ReplyAnswers(views[other], motor, mode);
    OneFrame(views, motor, reply);
    assert [reply][..0] == [];
  }

  /** The mode a tick that reads these frames reports, if it succeeds. */
  function ModeOf(views: seq<BusView>, motor: MotorRef, obs: seq<Observation>): Option<u32> {
    var r := Collect(views, Some(motor), obs);
    if r.Success? then r.value.mode else None
  }

  lemma OneFrame(views: seq<BusView>, motor: MotorRef, o: Observation)
    ensures Collect(views, Some(motor), [o]) == Observe(views, Some(motor), o, Scan(None, []))
  {
    CollectLast(views, Some(motor), [], o);
    assert [] + [o] == [o];
  }

  lemma TwoFrames(views: seq<BusView>, motor: MotorRef, first: Observation, second: Observation)
    requires Collect(views, Some(motor), [first]).Success?
    ensures Collect(views, Some(motor), [first, second])
         == Observe(views, Some(motor), second, Collect(views, Some(motor), [first]).value)
  {
    CollectLast(views, Some(motor), [first], second);
    assert [first] + [second] == [first, second];
  }

  /** One whole tick that looks for the motor's mode, finds a bus ready and drains just this frame from it. */
  function TickOf(before: seq<Observation>, target: Target, bus: nat, frame: CanFrame): seq<Observation> {
    before + [TickBegan(Some(target))] + [Polled([bus]), Drained(bus), Received(bus, frame)] + [TickEnded]
  }

  lemma DrainOfOne(views: seq<BusView>, motor: MotorRef, bus: nat, frame: CanFrame)
    ensures Collect(views, Some(motor), [Polled([bus]), Drained(bus), Received(bus, frame)])
         == Observe(views, Some(motor), Received(bus, frame), Scan(None, []))
  {
    OneFrame(views, motor, Polled([bus]));
    TwoFrames(views, motor, Polled([bus]), Drained(bus));
    CollectLast(views, Some(motor), [Polled([bus]), Drained(bus)], Received(bus, frame));
    assert [Polled([bus]), Drained(bus)] + [Received(bus, frame)]
        == [Polled([bus]), Drained(bus), Received(bus, frame)];
  }

  /**
   A tick that drains just a motor's answer verifies the motor if and only if the
   answer is what a write of PosForce carries; no other mode's write carries that.
   */
  lemma VerifiedIffPosForce(views: seq<BusView>, bus: nat, t: Target, mode: u32, before: seq<Observation>)
    requires bus < |views| && IsDamiao(views[bus]) && t.ref.sendId < 0x1_0000
    ensures
      var after := TickOf(before, t, bus, ModeReply(t.ref, mode));
      var written := views[bus].codec.encode(t.ref, SetMode(PosForceMode));
      && written.Success? && written.value.Some? && written.value.value.len == 8
      && (Verified(views, t, after, |before|, |after|) <==> mode == Carried(written.value.value))
    ensures forall m: Mode ::
      var other := views[bus].codec.encode(t.ref, SetMode(m));
      && other.Success? && other.value.Some? && other.value.value.len == 8
      && (Carried(other.value.value) == 4 <==> m == PosForceMode)
  {
    var reply := ModeReply(t.ref, mode);
    ReplyAnswers(views[bus], t.ref, mode);
    DrainOfOne(views, t.ref, bus, reply);
    ModeFrames(views[bus], t.ref);
    TickVerifies(views, before, Some(t), [Polled([bus]), Drained(bus), Received(bus, reply)], true,
                 TickOf(before, t, bus, reply));
  }

  /** The physical state a reply carries. */
  predicate Shows(cache: Cache, c: BitPack.StateCodes) {
    && cache.position == BitPack.UintToFloat(c.q, -12.5, 12.5, 16)
    && cache.velocity == BitPack.UintToFloat(c.dq, -10.0, 10.0, 12)
    && cache.torque == BitPack.UintToFloat(c.tau, -28.0, 28.0, 12)
    && cache.tMos == c.tMos && cache.tRotor == c.tRotor
  }

  /** After a tick the cache of a motor shows what its last state reply that the decoder did not drop carried. */
  lemma CacheShowsLastReply(views: seq<BusView>, target: Option<MotorRef>, obs: seq<Observation>, bus: nat,
                            recvId: u32, c: BitPack.StateCodes, k: nat, before: Cache)
    requires bus < |views| && IsDamiao(views[bus]) && recvId in views[bus].routes
    requires BitPack.ValidState(c) && recvId != 0x7FF && (recvId != 0 || c.idLow != 0)
    requires c.q % 0x100 != 0x33 && c.q % 0x100 != 0x55
    requires k < |obs| && obs[k] == Received(bus, D.StateFrame(recvId, c))
    requires forall l | k < l < |obs| && obs[l].Received? && obs[l].bus < |views| ::
      !BringsState(views[obs[l].bus], target, obs[l].frame, views[bus].routes[recvId])
    ensures Shows(AppliedAll(before, EventsIn(views, target, obs, views[bus].routes[recvId])), c)
  {
    var e := BroughtState(views[bus], target, recvId, c);
    ShowsLastState(views, target, obs, views[bus].routes[recvId], before, k, e);
  }

  /** A state reply that the decoder does not drop brings its motor what it carries. */
  lemma BroughtState(view: BusView, target: Option<MotorRef>, recvId: u32, c: BitPack.StateCodes) returns (e: Event)
    requires IsDamiao(view) && recvId in view.routes
    requires BitPack.ValidState(c) && recvId != 0x7FF && (recvId != 0 || c.idLow != 0)
    requires c.q % 0x100 != 0x33 && c.q % 0x100 != 0x55
    ensures e.State? && EventFor(view, target, D.StateFrame(recvId, c), view.routes[recvId]) == [e]
    ensures
      && e.q == BitPack.UintToFloat(c.q, -12.5, 12.5, 16)
      && e.dq == BitPack.UintToFloat(c.dq, -10.0, 10.0, 12)
      && e.tau == BitPack.UintToFloat(c.tau, -28.0, 28.0, 12)
      && e.tMos == c.tMos && e.tRotor == c.tRotor
  {
    var fdBus, control :| view == Damiao(fdBus, control, view.routes);
    D.StateReplyDecodes(recvId, c, fdBus);
    var frame := D.StateFrame(recvId, c);
    if target.Some? && frame.id == target.value.recvId {
      StateIsNoAnswer(view, target.value, c);
    }
    e := view.codec.decode(frame).value.value;
  }

  /** Such buses, motors and states exist. */
  lemma ReadbackExamples()
    ensures exists views: seq<BusView>, motor: MotorRef, c: BitPack.StateCodes ::
      && |views| == 2 && IsDamiao(views[0]) && IsDamiao(views[1]) && motor.sendId < 0x1_0000
      && BitPack.ValidState(c) && c.q % 0x100 != D.CMD_READ
      && ModeOf(views, motor, [Received(0, ModeReply(motor, 4)), Received(0, D.StateFrame(motor.recvId, c))]) == None
      && ModeOf(views, motor, [Received(1, ModeReply(motor, 4))]) == Some(4)
  {
    var view := Damiao(false, (_, _) => Failure(()), map[]);
    var views, motor := [view, view], MotorRef(0x01, 0x11);
    var c := BitPack.StateCodes(1, 0, 0x8000, 0x800, 0x800, 30, 30);
    assert IsDamiao(view);
    StateHidesReadback(views, 0, motor, 4, c);
    ForeignReadback(views, 0, 1, motor, 4);
  }
}
