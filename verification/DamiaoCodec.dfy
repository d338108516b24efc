/** The Damiao motor codec: MIT commands, state replies and control-mode read-back. */
module DamiaoCodec {
  import opened Wrappers
  import opened MachineInts
  import opened CanFrames
  import opened BitPack
  import opened RealArithmetic

  const PARAM_ID: u32 := 0x7ff
  const CMD_READ: u8 := 0x33
  const CMD_WRITE: u8 := 0x55
  const RID_CTRL_MODE: u8 := 10

  datatype Limits = Limits(pMax: real, vMax: real, tMax: real) {
    predicate Positive() { pMax > 0.0 && vMax > 0.0 && tMax > 0.0 }
  }

  /** The limits every state reply is decoded with. */
  const DM4340 := Limits(12.5, 10.0, 28.0)

  datatype MitCommand = MitCommand(kp: real, kd: real, q: real, dq: real, tau: real)

  datatype CodecError = UnknownMotorType | OutOfRange(field: string) | FrameConstruction

  function CheckRange(field: string, x: real, magnitude: real): Option<CodecError> {
    if Abs(x) > magnitude then Some(OutOfRange(field)) else None
  }

  function CheckUnsigned(field: string, x: real, max: real): Option<CodecError> {
    if !(0.0 <= x <= max) then Some(OutOfRange(field)) else None
  }

  function PackMit(c: MitCommand, lim: Limits): (p: seq<u8>)
    requires lim.Positive()
    ensures |p| == 8
  {
    CodesFit(c, lim);
    PackCodes(CodesOf(c, lim))
  }

  function CodesOf(c: MitCommand, lim: Limits): MitCodes
    requires lim.Positive()
  {
    MitCodes(
      FloatToUint(c.q, -lim.pMax, lim.pMax, 16),
      FloatToUint(c.dq, -lim.vMax, lim.vMax, 12),
      FloatToUint(c.kp, 0.0, 500.0, 12),
      FloatToUint(c.kd, 0.0, 5.0, 12),
      FloatToUint(c.tau, -lim.tMax, lim.tMax, 12))
  }

  lemma CodesFit(c: MitCommand, lim: Limits)
    requires lim.Positive()
    ensures ValidCodes(CodesOf(c, lim))
  {
    CodeOfPosition(c.dq, -lim.vMax, lim.vMax, 12);
    CodeOfPosition(c.kp, 0.0, 500.0, 12);
    CodeOfPosition(c.kd, 0.0, 5.0, 12);
    CodeOfPosition(c.tau, -lim.tMax, lim.tMax, 12);
  }

  predicate InLimits(c: MitCommand, lim: Limits) {
    && -lim.pMax <= c.q <= lim.pMax && -lim.vMax <= c.dq <= lim.vMax && -lim.tMax <= c.tau <= lim.tMax
    && 0.0 <= c.kp <= 500.0 && 0.0 <= c.kd <= 5.0
  }

  /** The first range check that fails, in the order the encoder makes them. */
  function FirstViolation(c: MitCommand, lim: Limits): (r: Option<CodecError>)
    ensures r.None? <==> InLimits(c, lim)
  {
    var q, dq, tau := CheckRange("q", c.q, lim.pMax), CheckRange("dq", c.dq, lim.vMax),
      CheckRange("tau", c.tau, lim.tMax);
    var kp, kd := CheckUnsigned("kp", c.kp, 500.0), CheckUnsigned("kd", c.kd, 5.0);
    if q.Some? then q else if dq.Some? then dq else if tau.Some? then tau else if kp.Some? then kp else kd
  }

  /** The MIT arm of the command encoder; `limits` is None for a motor type the codec does not know. */
  function EncodeMit(sendId: u32, limits: Option<Limits>, c: MitCommand): (r: Result<CanFrame, CodecError>)
    requires limits.Some? ==> limits.value.Positive()
  {
    if limits.None? then
      Failure(UnknownMotorType)
    else
      match FirstViolation(c, limits.value)
      case Some(error) => Failure(error)
      case None => (
        match Classical(sendId, PackMit(c, limits.value))
        case Success(frame) => Success(frame)
        case Failure(_) => Failure(FrameConstruction))
  }

  /** Each field, read back from the payload, is within half a step of the requested value. */
  predicate Recoverable(p: seq<u8>, c: MitCommand, lim: Limits)
    requires |p| == 8 && lim.Positive()
  {
    var u := UnpackCodes(p);
    && Close(u.q, c.q, -lim.pMax, lim.pMax, 16)
    && Close(u.dq, c.dq, -lim.vMax, lim.vMax, 12)
    && Close(u.kp, c.kp, 0.0, 500.0, 12)
    && Close(u.kd, c.kd, 0.0, 5.0, 12)
    && Close(u.tau, c.tau, -lim.tMax, lim.tMax, 12)
  }

  predicate Close(u: u16, x: real, lo: real, hi: real, bits: nat)
    requires Width(bits) && lo < hi
  {
    2.0 * (Levels(bits) as real) * Abs(UintToFloat(u, lo, hi, bits) - x) <= hi - lo
  }

  lemma CodeClose(x: real, lo: real, hi: real, bits: nat)
    requires Width(bits) && lo < hi && lo <= x <= hi
    ensures Close(FloatToUint(x, lo, hi, bits), x, lo, hi, bits)
  {
    ValueRoundTrip(x, lo, hi, bits);
  }

  lemma PackedIsRecoverable(c: MitCommand, lim: Limits)
    requires lim.Positive() && InLimits(c, lim)
    ensures Recoverable(PackMit(c, lim), c, lim)
  {
    CodesFit(c, lim);
    PackUnpack(CodesOf(c, lim));
    CodeClose(c.q, -lim.pMax, lim.pMax, 16);
    CodeClose(c.dq, -lim.vMax, lim.vMax, 12);
    CodeClose(c.kp, 0.0, 500.0, 12);
    CodeClose(c.kd, 0.0, 5.0, 12);
    CodeClose(c.tau, -lim.tMax, lim.tMax, 12);
  }

  /** A command is accepted exactly when every field is within its limits, and then every field can be recovered. */
  lemma MitRoundTrip(sendId: u32, lim: Limits, c: MitCommand)
    requires lim.Positive()
    ensures
      var r := EncodeMit(sendId, Some(lim), c);
      && (r.Success? <==> InLimits(c, lim))
      && (r.Success? ==>
            && r.value.id == sendId && r.value.len == 8 && r.value.flags == NoFlags
            && Recoverable(Payload(r.value), c, lim))
  {
    if InLimits(c, lim) {
      PackedIsRecoverable(c, lim);
    }
    Accepted(sendId, lim, c);
  }

  lemma Accepted(sendId: u32, lim: Limits, c: MitCommand)
    requires lim.Positive()
    ensures
      var r := EncodeMit(sendId, Some(lim), c);
      && (r.Success? <==> InLimits(c, lim))
      && (r.Success? ==> r.value == Classical(sendId, PackMit(c, lim)).value)
  {
  }

  // ---------------------------------------------------------------------------
  // Decoding

  datatype StateEvent = StateEvent(motorId: u32, q: real, dq: real, tau: real, tMos: u8, tRotor: u8)

  /** Panic is the source indexing a payload it has not measured yet. */
  datatype Decoded = Panic | Ignored | State(event: StateEvent)

  function StateOf(id: u32, payload: seq<u8>): StateEvent
    requires |payload| == 8
  {
    var c := UnpackState(payload);
    StateEvent(
      id,
      UintToFloat(c.q, -DM4340.pMax, DM4340.pMax, 16),
      UintToFloat(c.dq, -DM4340.vMax, DM4340.vMax, 12),
      UintToFloat(c.tau, -DM4340.tMax, DM4340.tMax, 12),
      c.tMos,
      c.tRotor)
  }

  function DecodeState(frame: CanFrame, fdBus: bool): Decoded {
    if frame.flags.fdFormat && !fdBus then Ignored
    else if frame.flags.remoteRequest then Ignored
    else if frame.id == PARAM_ID then Ignored
    else if !(3 <= frame.len <= 64) then Panic
    else if Payload(frame)[2] == CMD_READ || Payload(frame)[2] == CMD_WRITE then Ignored
    else if frame.len != 8 then Ignored
    else if Payload(frame)[0] % 0x10 == 0 && frame.id == 0 then Ignored
    else State(StateOf(frame.id, Payload(frame)))
  }

  /** The frames the decoder looks into. */
  predicate Inspected(frame: CanFrame, fdBus: bool) {
    && !(frame.flags.fdFormat && !fdBus) && !frame.flags.remoteRequest && frame.id != 0x7FF
  }

  /** Decoding panics exactly on the inspected frames that carry fewer than three bytes, or claim more than fit. */
  lemma DecodePanicsOnShortFrames(frame: CanFrame, fdBus: bool)
    ensures DecodeState(frame, fdBus).Panic? <==> Inspected(frame, fdBus) && (frame.len < 3 || frame.len > 64)
  {
  }

  /** An empty data frame on any other identifier is such a frame. */
  lemma ShortFramePanics()
    ensures DecodeState(Classical(0x11, []).value, false).Panic?
  {
  }

  /** A motor's reply to its own id, as a classical frame. */
  function StateFrame(recvId: u32, c: StateCodes): CanFrame
    requires ValidState(c)
  {
    Classical(recvId, PackState(c)).value
  }

  /**
   A state reply is decoded to what the motor packed, except that one whose
   position code ends in 0x33 or 0x55 is taken for parameter traffic and lost.
   */
  lemma StateReplyDecodes(recvId: u32, c: StateCodes, fdBus: bool)
    requires ValidState(c) && recvId != 0x7FF && (recvId != 0 || c.idLow != 0)
    ensures var d := DecodeState(StateFrame(recvId, c), fdBus);
      && (d.State? <==> c.q % 0x100 != 0x33 && c.q % 0x100 != 0x55)
      && (d.State? ==> d.event == StateEvent(
            recvId,
            UintToFloat(c.q, -12.5, 12.5, 16),
            UintToFloat(c.dq, -10.0, 10.0, 12),
            UintToFloat(c.tau, -28.0, 28.0, 12),
            c.tMos, c.tRotor))
  {
    StatePackUnpack(c);
    assert Payload(StateFrame(recvId, c)) == PackState(c);
  }

  /** A motor at a real position whose code ends in 0x33 is one whose feedback is lost. */
  lemma LostFeedbackExample()
    ensures exists c: StateCodes :: ValidState(c) && c.q == 0x8033 && DecodeState(StateFrame(0x11, c), false).Ignored?
  {
    var c := StateCodes(1, 0, 0x8033, 0x800, 0x800, 30, 30);
    StateReplyDecodes(0x11, c, false);
    assert DecodeState(StateFrame(0x11, c), false).Ignored?;
  }

  // ---------------------------------------------------------------------------
  // The control-mode register

  /** The parameter query and write frames; only the low sixteen bits of the send id travel. */
  function ParamPayload(sendId: u32, command: u8, rid: u8, value: u32): (p: seq<u8>)
    ensures |p| == 8
  {
    [sendId % 0x100, sendId / 0x100 % 0x100, command, rid] + ToLe(value)
  }

  function DecodeModeReadback(frame: CanFrame, sendId: u32): Option<u32> {
    if frame.len != 8 then None
    else
      var p := Payload(frame);
      var low: int, high: int := p[0], p[1];
      if low + 0x100 * high != sendId || p[2] != CMD_READ || p[3] != RID_CTRL_MODE then None
      else Some(FromLe(p, 4))
  }

  /** A motor's reply to the query decodes to its mode exactly when its send id fits sixteen bits. */
  lemma ModeReadbackRoundTrip(sendId: u32, recvId: u32, mode: u32)
    ensures
      var reply := Classical(recvId, ParamPayload(sendId, CMD_READ, RID_CTRL_MODE, mode)).value;
      DecodeModeReadback(reply, sendId) == (if sendId < 0x1_0000 then Some(mode) else None)
  {
    var p := ParamPayload(sendId, CMD_READ, RID_CTRL_MODE, mode);
    assert p[4..8] == ToLe(mode);
    assert FromLe(p, 4) == FromLe(ToLe(mode), 0);
    FromLeToLe(mode);
  }

  /** Exactly the eight-byte replies of this motor to a read of register 10 are read as the mode they carry. */
  lemma ReadbackIff(frame: CanFrame, sendId: u32, mode: u32)
    ensures DecodeModeReadback(frame, sendId) == Some(mode) <==>
      && frame.len == 8 && sendId < 0x1_0000
      && var p: seq<int> := Payload(frame);
         && p[0] == sendId % 0x100 && p[1] == sendId / 0x100 && p[2] == 0x33 && p[3] == 10
         && mode == p[4] + 0x100 * p[5] + 0x1_0000 * p[6] + 0x100_0000 * p[7]
  {
  }

  /** A write acknowledgement is never read as a mode, nor as a state. */
  lemma WriteAckIsInert(sendId: u32, recvId: u32, rid: u8, value: u32, fdBus: bool)
    ensures
      var ack := Classical(recvId, ParamPayload(sendId, CMD_WRITE, rid, value)).value;
      DecodeModeReadback(ack, sendId).None? && DecodeState(ack, fdBus).Ignored?
  {
  }
}
