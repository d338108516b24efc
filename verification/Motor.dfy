/** Per-motor state cache. */
module Motors {
  import opened Wrappers
  import opened MachineInts

  /** A motor's place: its group, in insertion order, and its index in the group. */
  datatype MotorKey = MotorKey(group: nat, index: nat)

  /** The identity a codec is given. */
  datatype MotorRef = MotorRef(sendId: u32, recvId: u32)

  /** A decoded inbound message; `motorId` is the identifier it is routed by. */
  datatype Event =
    | State(motorId: u32, q: real, dq: real, tau: real, tMos: int, tRotor: int)
    | ParamReply(motorId: u32)
    | Fault(motorId: u32, code: u16)

  datatype Cache = Cache(
    position: real,
    velocity: real,
    torque: real,
    tMos: int,
    tRotor: int,
    isEnabled: bool,
    fault: Option<u16>,
    sequence: u64)

  const Fresh := Cache(0.0, 0.0, 0.0, 0, 0, false, None, 0)

  const U64_LIMIT := 0x1_0000_0000_0000_0000

  function Applied(c: Cache, e: Event): Cache {
    match e
    case State(_, q, dq, tau, tMos, tRotor) =>
      Cache(q, dq, tau, tMos, tRotor, c.isEnabled, None, (c.sequence + 1) % U64_LIMIT)
    case Fault(_, code) => c.(fault := Some(code))
    case ParamReply(_) => c
  }

  function AppliedAll(c: Cache, events: seq<Event>): Cache {
    if events == [] then c else Applied(AppliedAll(c, events[..|events| - 1]), events[|events| - 1])
  }

  lemma AppliedLast(c: Cache, events: seq<Event>, e: Event)
    ensures AppliedAll(c, events + [e]) == Applied(AppliedAll(c, events), e)
  {
    assert (events + [e])[..|events|] == events;
  }

  function StateCount(events: seq<Event>): nat {
    if events == [] then 0
    else StateCount(events[..|events| - 1]) + (if events[|events| - 1].State? then 1 else 0)
  }

  lemma StateCountMore(events: seq<Event>, more: seq<Event>)
    requires |more| <= 1
    ensures StateCount(events + more) == StateCount(events) + (if more != [] && more[0].State? then 1 else 0)
  {
    if more == [] {
      assert events + more == events;
    } else {
      assert (events + more)[..|events|] == events;
    }
  }

  /** A counter of 64 bits after `n` increments. */
  function Grown(sequence: u64, n: nat): u64 {
    (sequence + n) % U64_LIMIT
  }

  /** The last event that touches what `touches` selects, if any. */
  function LastWhere(events: seq<Event>, touches: Event -> bool): (r: Option<Event>)
    ensures r.Some? ==> touches(r.value)
  {
    if events == [] then None
    else if touches(events[|events| - 1]) then Some(events[|events| - 1])
    else LastWhere(events[..|events| - 1], touches)
  }

  /**
   The last state, the fault reported since it if any, and a sequence grown by
   the number of states modulo 2^64; the enabled flag is not an event's to change.
   */
  predicate Summarizes(c: Cache, events: seq<Event>, after: Cache) {
    var state := LastWhere(events, (e: Event) => e.State?);
    && after.isEnabled == c.isEnabled
    && after.sequence == Grown(c.sequence, StateCount(events))
    && after.fault == FaultAfter(c, LastWhere(events, (e: Event) => !e.ParamReply?))
    && (state.Some? ==> Measured(after, state.value))
    && (state.None? ==> SameMeasurements(c, after))
  }

  function FaultAfter(c: Cache, report: Option<Event>): Option<u16> {
    match report
    case None => c.fault
    case Some(Fault(_, code)) => Some(code)
    case _ => None
  }

  /** The measurements of this state event, each in its place. */
  predicate Measured(c: Cache, e: Event)
    requires e.State?
  {
    c.position == e.q && c.velocity == e.dq && c.torque == e.tau && c.tMos == e.tMos && c.tRotor == e.tRotor
  }

  predicate SameMeasurements(c: Cache, after: Cache) {
    && after.position == c.position && after.velocity == c.velocity && after.torque == c.torque
    && after.tMos == c.tMos && after.tRotor == c.tRotor
  }

  lemma {:induction false} CacheAfterEvents(c: Cache, events: seq<Event>)
    ensures Summarizes(c, events, AppliedAll(c, events))
  {
    if events != [] {
      CacheAfterEvents(c, events[..|events| - 1]);
    }
  }

  lemma SequenceAfterEvents(c: Cache, events: seq<Event>)
    ensures AppliedAll(c, events).sequence == Grown(c.sequence, StateCount(events))
  {
    CacheAfterEvents(c, events);
  }

  class Motor {
    const key: MotorKey
    const sendId: u32
    const recvId: u32
    var position: real
    var velocity: real
    var torque: real
    var tMos: int
    var tRotor: int
    var isEnabled: bool
    var fault: Option<u16>
    var sequence: u64

    constructor (key: MotorKey, sendId: u32, recvId: u32)
      ensures this.key == key && this.sendId == sendId && this.recvId == recvId
      ensures View() == Fresh
      ensures position == velocity == torque == 0.0 && tMos == tRotor == 0
      ensures !isEnabled && fault.None? && sequence == 0
    {
      this.key, this.sendId, this.recvId := key, sendId, recvId;
      position, velocity, torque, tMos, tRotor := 0.0, 0.0, 0.0, 0, 0;
      isEnabled, fault, sequence := false, None, 0;
    }

    function Ref(): MotorRef {
      MotorRef(sendId, recvId)
    }

    function View(): Cache
      reads this
    {
      Cache(position, velocity, torque, tMos, tRotor, isEnabled, fault, sequence)
    }

    method ApplyEvent(e: Event)
      modifies this
      ensures View() == Applied(old(View()), e)
      ensures e.State? ==> Measured(View(), e)
    {
      match e {
        case State(_, q, dq, tau, mos, rotor) =>
          position, velocity, torque, tMos, tRotor := q, dq, tau, mos, rotor;
          fault := None;
          sequence := (sequence + 1) % U64_LIMIT;
        case Fault(_, code) =>
          fault := Some(code);
        case ParamReply(_) =>
      }
    }

    method SetEnabled(on: bool)
      modifies this
      ensures View() == old(View()).(isEnabled := on)
    {
      isEnabled := on;
    }
  }
}
