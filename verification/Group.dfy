/** Motor groups: batches of frames to motors that share a bus, and the gripper's opening control. */
module Groups {
  import opened Wrappers
  import opened CanFrames
  import opened Motors
  import opened Wires
  import Opening

  datatype Kind = Arm | Gripper | Generic

  class Group {
    const index: nat
    const kind: Kind
    const bus: Bus
    const motors: seq<Motor>
    /** Opening control, if the group was given it, for good; only the calibration comes and goes. */
    const spec: Option<Opening.Spec>
    var opening: Option<Opening.Control>

    constructor (index: nat, kind: Kind, bus: Bus, motors: seq<Motor>, spec: Option<Opening.Spec>)
      requires forall i | 0 <= i < |motors| :: motors[i].key == MotorKey(index, i)
      requires kind.Gripper? ==> |motors| == 1
      requires spec.Some? ==> kind.Gripper?
      ensures Valid()
      ensures this.index == index && this.kind == kind && this.bus == bus && this.motors == motors && this.spec == spec
      ensures opening == Uncalibrated()
    {
      this.index, this.kind, this.bus, this.motors, this.spec := index, kind, bus, motors, spec;
      opening := if spec.None? then None else Some(Opening.Control(spec.value, None));
    }

    function Uncalibrated(): Option<Opening.Control> {
      if spec.None? then None else Some(Opening.Control(spec.value, None))
    }

    ghost predicate Valid()
      reads this
    {
      && (forall i | 0 <= i < |motors| :: motors[i].key == MotorKey(index, i))
      && (kind.Gripper? ==> |motors| == 1)
      && (spec.Some? ==> kind.Gripper?)
      && Opening.Cleared(opening) == Uncalibrated()
      && Opening.Sound(opening)
    }

    // -------------------------------------------------------------------------
    // Sending

    function Encoding(i: nat, intent: Intent): Result<Option<CanFrame>, ()>
      requires i < |motors|
    {
      bus.codec.encode(motors[i].Ref(), intent)
    }

    predicate Encodes(i: nat, intent: Intent)
      requires i < |motors|
    {
      Encoding(i, intent).Success? && Encoding(i, intent).value.Some?
    }

    /** The log entry of the codec's frame for this motor and intent. */
    function Outgoing(i: nat, intent: Intent): Observation
      requires i < |motors| && Encodes(i, intent)
    {
      Sent(MotorKey(index, i), intent, Encoding(i, intent).value.value)
    }

    /** Why nothing went out: the codec has no frame, or the transport refused it, which only adds to the refusals. */
    ghost predicate Thwarted(i: nat, intent: Intent, refused: seq<Refusal>)
      reads bus.wire
      requires i < |motors|
    {
      || (!Encodes(i, intent) && bus.wire.refused == refused)
      || (Encodes(i, intent) && bus.wire.refused == refused + [Refusal(MotorKey(index, i), intent)])
    }

    /** Encodes and sends one frame. The value tells whether there was a frame to send. */
    method SendTo(i: nat, intent: Intent) returns (r: Result<bool, Error>)
      requires Valid() && i < |motors|
      modifies bus.wire
      ensures r == Failure(CodecError) <==> Encoding(i, intent).Failure?
      ensures r == Success(false) <==> Encoding(i, intent) == Success(None)
      ensures r == Success(true) || r == Failure(TransportError) <==> Encodes(i, intent)
      ensures bus.wire.trace == old(bus.wire.trace) + if r == Success(true) then [Outgoing(i, intent)] else []
      ensures r == Success(true) ==>
        var encoded := bus.codec.encode(MotorRef(motors[i].sendId, motors[i].recvId), intent);
        && encoded.Success? && encoded.value.Some?
        && bus.wire.trace == old(bus.wire.trace) + [Sent(MotorKey(index, i), intent, encoded.value.value)]
      ensures if r == Success(true) then bus.wire.refused == old(bus.wire.refused)
              else Thwarted(i, intent, old(bus.wire.refused))
    {
      var encoded := Encoding(i, intent);
      if encoded.Failure? {
        return Failure(CodecError);
      }
      if encoded.value.None? {
        return Success(false);
      }
      var ok := bus.Send(motors[i].key, intent, encoded.value.value);
      r := if ok then Success(true) else Failure(TransportError);
    }

    /** The log grew by the codec's frames for these intents, to the first motors in order. */
    ghost predicate SentInOrder(before: seq<Observation>, after: seq<Observation>, intents: seq<Intent>)
      requires |intents| <= |motors|
    {
      && before <= after && |after| == |before| + |intents|
      && forall j | 0 <= j < |intents| :: Encodes(j, intents[j]) && after[|before| + j] == Outgoing(j, intents[j])
    }

    /**
     Enables or disables the motors in order, stopping at the first that fails.
     Exactly the motors whose frame went out have their flag changed.
     */
    method SwitchAll(on: bool) returns (r: Result<(), Error>, ghost sent: nat)
      requires Valid()
      modifies bus.wire, motors
      ensures sent <= |motors| && (r.Success? <==> sent == |motors|)
      ensures SentInOrder(old(bus.wire.trace), bus.wire.trace, Repeated(sent, SwitchIntent(on)))
      ensures forall i | 0 <= i < |motors| ::
        motors[i].View() == if i < sent then old(motors[i].View()).(isEnabled := on) else old(motors[i].View())
      ensures r.Success? ==> bus.wire.refused == old(bus.wire.refused)
      ensures r.Failure? ==> !r.error.ModeNotVerified? && Thwarted(sent, SwitchIntent(on), old(bus.wire.refused))
    {
      var intent := SwitchIntent(on);
      for i := 0 to |motors|
        invariant SentInOrder(old(bus.wire.trace), bus.wire.trace, Repeated(i, intent))
        invariant bus.wire.refused == old(bus.wire.refused)
        invariant forall k | 0 <= k < |motors| ::
          motors[k].View() == if k < i then old(motors[k].View()).(isEnabled := on) else old(motors[k].View())
      {
        var result := SendTo(i, intent);
        // These intents are not optional: a codec without a frame for them has failed.
        if result.Failure? || !result.value {
          return Failure(if result.Failure? then result.error else CodecError), i;
        }
        assert SentInOrder(old(bus.wire.trace), bus.wire.trace, Repeated(i, intent) + [intent]);
        assert Repeated(i, intent) + [intent] == Repeated(i + 1, intent);
        assert forall k | 0 <= k < |motors| && k != i :: motors[k].key != motors[i].key;
        motors[i].SetEnabled(on);
      }
      r, sent := Success(()), |motors|;
    }

    lemma SentIsBatch(before: seq<Observation>, after: seq<Observation>, intents: seq<Intent>)
      requires |intents| <= |motors| && SentInOrder(before, after, intents)
      ensures IsBatch(after[|before|..], index, intents)
    {
      forall j | 0 <= j < |intents|
        ensures after[|before|..][j] == Outgoing(j, intents[j])
      {
        assert after[|before| + j] == Outgoing(j, intents[j]);
      }
    }

    /** One command per motor, in order: nothing on a length mismatch, otherwise up to the first failure. */
    method BatchSend(commands: seq<Command>) returns (r: Result<(), Error>, ghost sent: nat)
      requires Valid()
      modifies bus.wire
      ensures sent <= |commands| && (r.Success? <==> |commands| == |motors| && sent == |commands|)
      ensures |commands| != |motors| ==>
        r == Failure(LengthMismatch(|motors|, |commands|)) && bus.wire.trace == old(bus.wire.trace)
      ensures |commands| == |motors| ==> SentInOrder(old(bus.wire.trace), bus.wire.trace, Controls(commands[..sent]))
    {
      if |commands| != |motors| {
        return Failure(LengthMismatch(|motors|, |commands|)), 0;
      }
      for i := 0 to |commands|
        invariant SentInOrder(old(bus.wire.trace), bus.wire.trace, Controls(commands[..i]))
      {
        var result := SendTo(i, Control(commands[i]));
        if result.Failure? || !result.value {
          return Failure(if result.Failure? then result.error else CodecError), i;
        }
      }
      assert commands[..|commands|] == commands;
      r, sent := Success(()), |commands|;
    }

    lemma BatchIsSilent(before: seq<Observation>, after: seq<Observation>, commands: seq<Command>)
      requires |commands| <= |motors| && SentInOrder(before, after, Controls(commands))
      ensures forall i | |before| <= i < |after| :: after[i].Sent? && Inert(after[i])
    {
      forall i | |before| <= i < |after|
        ensures after[i].Sent? && Inert(after[i])
      {
        assert after[|before| + (i - |before|)] == Outgoing(i - |before|, Controls(commands)[i - |before|]);
      }
    }

    /** One frame for each of the first `n` motors that supports the intent, in order. */
    function Queries(n: nat, intent: Intent): (r: seq<Observation>)
      requires n <= |motors|
      ensures forall o | o in r :: o.Sent? && o.motor.group == index && o.intent == intent
    {
      if n == 0 then [] else Queries(n - 1, intent) + if Encodes(n - 1, intent) then [Outgoing(n - 1, intent)] else []
    }

    /** A frame nobody moves on, refresh or mode write, to each motor that supports it, up to the first failure. */
    method QueryAll(intent: Intent) returns (r: Result<(), Error>, ghost reached: nat)
      requires Valid()
      modifies bus.wire
      ensures reached <= |motors| && (r.Success? <==> reached == |motors|)
      ensures bus.wire.trace == old(bus.wire.trace) + Queries(reached, intent)
      ensures OnlySent(old(bus.wire.trace), bus.wire.trace, index, intent)
      ensures r.Failure? ==> !r.error.ModeNotVerified?
      ensures old(bus.wire.refused) <= bus.wire.refused && (r.Success? ==> bus.wire.refused == old(bus.wire.refused))
    {
      for i := 0 to |motors|
        invariant bus.wire.trace == old(bus.wire.trace) + Queries(i, intent)
        invariant bus.wire.refused == old(bus.wire.refused)
      {
        var result := SendTo(i, intent);
        if result.Failure? {
          OnlyQueries(old(bus.wire.trace), i, intent);
          return Failure(result.error), i;
        }
      }
      OnlyQueries(old(bus.wire.trace), |motors|, intent);
      r, reached := Success(()), |motors|;
    }

    lemma {:induction false} QueriesPrefix(k: nat, n: nat, intent: Intent)
      requires k <= n <= |motors|
      ensures Queries(k, intent) <= Queries(n, intent)
    {
      if k < n {
        QueriesPrefix(k, n - 1, intent);
      }
    }

    lemma OnlyQueries(trace: seq<Observation>, n: nat, intent: Intent)
      requires n <= |motors|
      ensures OnlySent(trace, trace + Queries(n, intent), index, intent)
    {
      var after := trace + Queries(n, intent);
      forall i | |trace| <= i < |after|
        ensures after[i].Sent? && after[i].motor.group == index && after[i].intent == intent
      {
        assert after[i] in Queries(n, intent);
      }
    }

    // -------------------------------------------------------------------------
    // The gripper's opening

    function PosForceIntent(q: real, current: real): Intent {
      Control(PosForce(q, Opening.DEFAULT_VELOCITY, current))
    }

    /** The log grew by one PosForce frame to the gripper's motor on success, and not at all otherwise. */
    ghost predicate Pushed(before: seq<Observation>, after: seq<Observation>, q: real, current: real, ok: bool)
      requires |motors| == 1
    {
      if ok then Encodes(0, PosForceIntent(q, current)) && after == before + [Outgoing(0, PosForceIntent(q, current))]
      else after == before
    }

    /** A PosForce command to the gripper's motor. */
    method PosForceTo(q: real, current: real) returns (r: Result<(), Error>)
      requires Valid() && kind.Gripper?
      modifies bus.wire
      ensures Pushed(old(bus.wire.trace), bus.wire.trace, q, current, r.Success?)
      ensures r.Failure? ==> !r.error.ModeNotVerified?
      ensures old(bus.wire.refused) <= bus.wire.refused && (r.Success? ==> bus.wire.refused == old(bus.wire.refused))
    {
      var result := SendTo(0, PosForceIntent(q, current));
      r := if result.Failure? then Failure(result.error)
           else if !result.value then Failure(CodecError)
           else Success(());
    }

    /** Moves to a normalized opening on the calibrated stroke. */
    method SetOpening(opening: real, current: Option<real>) returns (r: Result<(), Error>)
      requires Valid() && kind.Gripper?
      modifies bus.wire
      ensures
        var position, amps := Opening.PositionOf(this.opening, opening), Opening.CurrentFor(this.opening, current);
        if position.Success? && amps.Success? then
          Pushed(old(bus.wire.trace), bus.wire.trace, position.value, amps.value, r.Success?)
        else
          && r == Failure(OpeningFailure(if position.Failure? then position.error else amps.error))
          && bus.wire.trace == old(bus.wire.trace)
    {
      var position := Opening.PositionOf(this.opening, opening);
      if position.Failure? {
        return Failure(OpeningFailure(position.error));
      }
      var amps := Opening.CurrentFor(this.opening, current);
      if amps.Failure? {
        return Failure(OpeningFailure(amps.error));
      }
      r := PosForceTo(position.value, amps.value);
    }

    /** A calibration step: towards `q` with the gripper's own current. */
    method CalibrationCommand(q: real) returns (r: Result<(), Error>)
      requires Valid() && spec.Some?
      modifies bus.wire
      ensures
        var amps := Opening.CalibrationCurrent(spec.value);
        if amps.Success? then Pushed(old(bus.wire.trace), bus.wire.trace, q, amps.value, r.Success?)
        else r.Failure? && bus.wire.trace == old(bus.wire.trace)
      ensures r.Failure? ==> !r.error.ModeNotVerified?
      ensures old(bus.wire.refused) <= bus.wire.refused && (r.Success? ==> bus.wire.refused == old(bus.wire.refused))
    {
      var amps := Opening.CurrentFor(opening, None);
      if amps.Failure? {
        return Failure(OpeningFailure(amps.error));
      }
      r := PosForceTo(q, amps.value);
    }

    method ClearCalibration()
      requires Valid()
      modifies this
      ensures Valid() && opening == Opening.Cleared(old(opening))
    {
      opening := Opening.Cleared(opening);
    }

    method SetCalibration(closed: real, open: real) returns (r: Result<(), Error>)
      requires Valid()
      modifies this
      ensures Valid()
      ensures match Opening.Calibrated(old(opening), closed, open)
        case Success(o) => r.Success? && opening == o
        case Failure(e) => r == Failure(OpeningFailure(e)) && opening == old(opening)
    {
      match Opening.Calibrated(opening, closed, open) {
        case Success(o) =>
          opening := o;
          r := Success(());
        case Failure(e) =>
          r := Failure(OpeningFailure(e));
      }
    }
  }

  function Controls(commands: seq<Command>): (r: seq<Intent>)
    ensures |r| == |commands|
    ensures forall i | 0 <= i < |r| :: r[i] == Control(commands[i])
  {
    seq(|commands|, i requires 0 <= i < |commands| => Control(commands[i]))
  }

  /** All that was added to the log is frames of one intent sent to one group. */
  ghost predicate OnlySent(before: seq<Observation>, after: seq<Observation>, group: nat, intent: Intent) {
    && before <= after
    && forall i | |before| <= i < |after| ::
        after[i].Sent? && after[i].motor.group == group && after[i].intent == intent
  }
}
