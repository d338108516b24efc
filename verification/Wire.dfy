/**
 Buses as the robot sees them: a codec and a transport that are arbitrary, and
 one log, in order, of every frame sent and received on any bus.
 */
module Wires {
  import opened Wrappers
  import opened MachineInts
  import opened CanFrames
  import opened Motors
  import Opening

  datatype Command =
    | Mit(kp: real, kd: real, q: real, dq: real, tau: real)
    | PosVel(q: real, dq: real)
    | Vel(dq: real)
    | PosForce(q: real, dq: real, iPu: real)

  datatype Mode = MitMode | PosVelMode | VelMode | PosForceMode

  /** What a frame is sent for. */
  datatype Intent =
    | Enable
    | Disable
    | Control(command: Command)
    | Refresh
    | SetMode(mode: Mode)
    | QueryMode

  /** The motor whose mode read-back a tick looks for. */
  datatype Target = Target(motor: MotorKey, ref: MotorRef)

  /**
   An entry of the log. Polled is what the poller found ready. Drained marks the
   moment a bus is drained, before what it yields; TickBegan and TickEnded
   enclose what one tick that succeeds saw.
   */
  datatype Observation =
    | Sent(motor: MotorKey, intent: Intent, frame: CanFrame)
    | Polled(ready: seq<nat>)
    | Drained(bus: nat)
    | Received(bus: nat, frame: CanFrame)
    | TickBegan(target: Option<Target>)
    | TickEnded

  /** A frame that a transport would not take. */
  datatype Refusal = Refusal(motor: MotorKey, intent: Intent)

  datatype Error =
    | TransportError
    | CodecError
    | NotConnected
    | LengthMismatch(expected: nat, got: nat)
    | IdCollision(bus: nat, recvId: u32, existing: MotorKey, attempted: MotorKey)
    | OpeningFailure(cause: Opening.OpeningError)
    | ModeNotVerified(group: nat)
    | NoFreshFeedback(group: nat)

  /** Any vendor: the frame each intent needs, or none for an intent it does not support, and what frames mean. */
  datatype Codec = Codec(
    isDamiao: bool,
    encode: (MotorRef, Intent) -> Result<Option<CanFrame>, ()>,
    decode: CanFrame -> Result<Option<Event>, ()>,
    decodeMode: (CanFrame, MotorRef) -> Result<Option<u32>, ()>)

  // ---------------------------------------------------------------------------
  // The enabled flag as the log tells it

  predicate Switches(o: Observation, motor: MotorKey) {
    o.Sent? && o.motor == motor && (o.intent.Enable? || o.intent.Disable?)
  }

  /** Whether the last enable or disable frame sent to the motor was an enable. */
  function LastSwitch(trace: seq<Observation>, motor: MotorKey): bool {
    if trace == [] then false
    else if Switches(trace[|trace| - 1], motor) then trace[|trace| - 1].intent.Enable?
    else LastSwitch(trace[..|trace| - 1], motor)
  }

  predicate Inert(o: Observation) {
    !o.Sent? || !(o.intent.Enable? || o.intent.Disable?)
  }

  lemma {:induction false} OthersKeepSwitch(trace: seq<Observation>, tail: seq<Observation>, motor: MotorKey)
    requires forall o | o in tail :: !Switches(o, motor)
    ensures LastSwitch(trace + tail, motor) == LastSwitch(trace, motor)
  {
    if tail == [] {
      assert trace + tail == trace;
    } else {
      var front := tail[..|tail| - 1];
      OthersKeepSwitch(trace, front, motor);
      assert (trace + tail)[..|trace + tail| - 1] == trace + front;
      assert tail[|tail| - 1] in tail;
    }
  }

  function SwitchIntent(on: bool): Intent {
    if on then Enable else Disable
  }

  function Repeated(n: nat, intent: Intent): (r: seq<Intent>)
    ensures |r| == n
    ensures forall i | 0 <= i < n :: r[i] == intent
  {
    seq(n, _ => intent)
  }

  /** The first `|tail|` motors of a group, in order, each sent `intent`. */
  predicate IsBatch(tail: seq<Observation>, group: nat, intents: seq<Intent>) {
    && |tail| <= |intents|
    && forall j | 0 <= j < |tail| ::
        tail[j].Sent? && tail[j].motor == MotorKey(group, j) && tail[j].intent == intents[j]
  }

  // ---------------------------------------------------------------------------
  // Objects

  class Wire {
    ghost var trace: seq<Observation>
    ghost var refused: seq<Refusal>
    /** How often polling or draining failed. */
    ghost var lost: nat

    constructor ()
      ensures trace == [] && refused == [] && lost == 0
    {
      trace, refused, lost := [], [], 0;
    }

    /** The poller over all buses may fail, or find any of them ready. */
    method Poll() returns (ready: Option<seq<nat>>)
      modifies this
      ensures trace == old(trace) + if ready.Some? then [Polled(ready.value)] else []
      ensures refused == old(refused) && lost == old(lost) + if ready.Some? then 0 else 1
    {
      var ok: bool := *;
      if !ok {
        lost := lost + 1;
        return None;
      }
      var found: seq<nat> := *;
      trace := trace + [Polled(found)];
      ready := Some(found);
    }
  }

  function Arrivals(bus: nat, frames: seq<CanFrame>): (r: seq<Observation>)
    ensures |r| == |frames|
    ensures forall i | 0 <= i < |r| :: r[i] == Received(bus, frames[i])
  {
    seq(|frames|, i requires 0 <= i < |frames| => Received(bus, frames[i]))
  }

  lemma ArrivalsSplit(bus: nat, frames: seq<CanFrame>, i: nat)
    requires i < |frames|
    ensures Arrivals(bus, frames[..i + 1]) == Arrivals(bus, frames[..i]) + [Received(bus, frames[i])]
    ensures Arrivals(bus, frames) == Arrivals(bus, frames[..i + 1]) + Arrivals(bus, frames[i + 1..])
  {
  }

  class Bus {
    const index: nat
    const codec: Codec
    const hasFd: bool
    const wire: Wire
    var routes: map<u32, MotorKey>

    constructor (index: nat, codec: Codec, hasFd: bool, wire: Wire)
      ensures this.index == index && this.codec == codec && this.hasFd == hasFd && this.wire == wire
      ensures routes == map[]
    {
      this.index, this.codec, this.hasFd, this.wire := index, codec, hasFd, wire;
      routes := map[];
    }

    /** Any send may fail, and then nothing went out. */
    method Send(motor: MotorKey, intent: Intent, frame: CanFrame) returns (ok: bool)
      modifies wire
      ensures wire.trace == old(wire.trace) + if ok then [Sent(motor, intent, frame)] else []
      ensures wire.refused == old(wire.refused) + if ok then [] else [Refusal(motor, intent)]
      ensures wire.lost == old(wire.lost)
    {
      ok := *;
      if ok {
        wire.trace := wire.trace + [Sent(motor, intent, frame)];
      } else {
        wire.refused := wire.refused + [Refusal(motor, intent)];
      }
    }

    /** Any drain may fail, or return any frames. */
    method Drain() returns (r: Result<seq<CanFrame>, Error>)
      modifies wire
      ensures wire.trace == old(wire.trace) + if r.Success? then [Drained(index)] + Arrivals(index, r.value) else []
      ensures r.Failure? ==> r.error == TransportError
      ensures wire.refused == old(wire.refused)
      ensures wire.lost == old(wire.lost) + if r.Success? then 0 else 1
    {
      var ok: bool := *;
      if !ok {
        wire.lost := wire.lost + 1;
        return Failure(TransportError);
      }
      var frames: seq<CanFrame> := *;
      wire.trace := wire.trace + ([Drained(index)] + Arrivals(index, frames));
      r := Success(frames);
    }
  }
}
