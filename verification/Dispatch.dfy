/** What a tick makes of the frames it drains, as a function of those frames. */
module Dispatch {
  import opened Wrappers
  import opened MachineInts
  import opened CanFrames
  import opened Motors
  import opened Wires

  datatype BusView = BusView(codec: Codec, routes: map<u32, MotorKey>)

  datatype Delivery = Delivery(to: MotorKey, event: Event)

  /** The mode read back so far, and the events to hand to motors, in arrival order. */
  datatype Scan = Scan(mode: Option<u32>, deliveries: seq<Delivery>)

  function Routed(view: BusView, frame: CanFrame, scan: Scan): Result<Scan, Error> {
    match view.codec.decode(frame)
    case Failure(_) => Failure(CodecError)
    case Success(None) => Success(scan)
    case Success(Some(event)) =>
      if event.motorId in view.routes then
        Success(scan.(deliveries := scan.deliveries + [Delivery(view.routes[event.motorId], event)]))
      else
        Success(scan)
  }

  predicate OnTarget(target: Option<MotorRef>, frame: CanFrame) {
    target.Some? && frame.id == target.value.recvId
  }

  /** A frame on the target's identifier sets the mode, to none if it is no read-back, before it is decoded as usual. */
  function ScanFrame(view: BusView, target: Option<MotorRef>, frame: CanFrame, scan: Scan): Result<Scan, Error> {
    if OnTarget(target, frame) then
      match view.codec.decodeMode(frame, target.value)
      case Failure(_) => Failure(CodecError)
      case Success(None) => Routed(view, frame, scan.(mode := None))
      case Success(Some(mode)) => Success(scan.(mode := Some(mode)))
    else
      Routed(view, frame, scan)
  }

  /** One entry of the log; frames sent say nothing. */
  function Observe(views: seq<BusView>, target: Option<MotorRef>, o: Observation, scan: Scan): Result<Scan, Error> {
    if o.Received? && o.bus < |views| then ScanFrame(views[o.bus], target, o.frame, scan) else Success(scan)
  }

  /** Every entry of the log, in order, up to the first failure. */
  function Collect(views: seq<BusView>, target: Option<MotorRef>, obs: seq<Observation>): (r: Result<Scan, Error>) {
    if obs == [] then
      Success(Scan(None, []))
    else
      var before := Collect(views, target, obs[..|obs| - 1]);
      if before.Failure? then before else Observe(views, target, obs[|obs| - 1], before.value)
  }

  function For(deliveries: seq<Delivery>, motor: MotorKey): (events: seq<Event>)
    ensures |events| <= |deliveries|
  {
    if deliveries == [] then []
    else
      var rest, last := For(deliveries[..|deliveries| - 1], motor), deliveries[|deliveries| - 1];
      if last.to == motor then rest + [last.event] else rest
  }

  /** A motor's cache once the deliveries meant for it have been applied in order. */
  function After(c: Cache, deliveries: seq<Delivery>, motor: MotorKey): Cache {
    if deliveries == [] then c
    else
      var before, last := After(c, deliveries[..|deliveries| - 1], motor), deliveries[|deliveries| - 1];
      if last.to == motor then Applied(before, last.event) else before
  }

  lemma {:induction false} AfterIsApplied(c: Cache, deliveries: seq<Delivery>, motor: MotorKey)
    ensures After(c, deliveries, motor) == AppliedAll(c, For(deliveries, motor))
  {
    if deliveries != [] {
      var n := |deliveries| - 1;
      AfterIsApplied(c, deliveries[..n], motor);
      AppliedLast(c, For(deliveries[..n], motor), deliveries[n].event);
    }
  }

  lemma {:induction false} AfterKeepsFlag(c: Cache, deliveries: seq<Delivery>, motor: MotorKey)
    ensures After(c, deliveries, motor).isEnabled == c.isEnabled
  {
    if deliveries != [] {
      AfterKeepsFlag(c, deliveries[..|deliveries| - 1], motor);
    }
  }

  lemma AfterNext(c: Cache, deliveries: seq<Delivery>, k: nat, motor: MotorKey)
    requires k < |deliveries|
    ensures After(c, deliveries[..k + 1], motor) == (
      if deliveries[k].to == motor then Applied(After(c, deliveries[..k], motor), deliveries[k].event)
      else After(c, deliveries[..k], motor))
  {
    assert deliveries[..k + 1][..k] == deliveries[..k];
  }

  /** The decoding loop over one drain. */
  method ScanFrames(ghost views: seq<BusView>, ghost b: nat, view: BusView, target: Option<MotorRef>,
                    frames: seq<CanFrame>, scan: Scan, ghost before: seq<Observation>) returns (r: Result<Scan, Error>)
    requires b < |views| && views[b] == view && Collect(views, target, before) == Success(scan)
    ensures Collect(views, target, before + Arrivals(b, frames)) == r
    ensures r.Failure? ==> r.error == CodecError
  {
    var acc := scan;
    ScanStarts(views, target, before, b, frames, scan);
    for i := 0 to |frames|
      invariant Scanned(views, target, before, b, frames, i, acc)
    {
      FrameCollected(views, target, before, b, frames, i, acc);
      var next := ScanFrame(view, target, frames[i], acc);
      if next.Failure? {
        return next;
      }
      acc := next.value;
    }
    ScanEnds(views, target, before, b, frames, acc);
    r := Success(acc);
  }

  /** The first `i` frames of a drain have been collected to `acc`. */
  ghost predicate Scanned(views: seq<BusView>, target: Option<MotorRef>, before: seq<Observation>, b: nat,
                          frames: seq<CanFrame>, i: nat, acc: Scan)
    requires i <= |frames|
  {
    Collect(views, target, before + Arrivals(b, frames[..i])) == Success(acc)
  }

  lemma ScanStarts(views: seq<BusView>, target: Option<MotorRef>, before: seq<Observation>, b: nat,
                   frames: seq<CanFrame>, acc: Scan)
    requires Collect(views, target, before) == Success(acc)
    ensures Scanned(views, target, before, b, frames, 0, acc)
  {
    assert before + Arrivals(b, frames[..0]) == before;
  }

  lemma ScanEnds(views: seq<BusView>, target: Option<MotorRef>, before: seq<Observation>, b: nat,
                 frames: seq<CanFrame>, acc: Scan)
    requires Scanned(views, target, before, b, frames, |frames|, acc)
    ensures Collect(views, target, before + Arrivals(b, frames)) == Success(acc)
  {
    assert frames[..|frames|] == frames;
  }

  lemma FrameCollected(views: seq<BusView>, target: Option<MotorRef>, before: seq<Observation>,
                       b: nat, frames: seq<CanFrame>, i: nat, acc: Scan)
    requires b < |views| && i < |frames|
    requires Scanned(views, target, before, b, frames, i, acc)
    ensures var next := ScanFrame(views[b], target, frames[i], acc);
      && (next.Success? ==> Scanned(views, target, before, b, frames, i + 1, next.value))
      && (next.Failure? ==> Collect(views, target, before + Arrivals(b, frames)) == next)
  {
    FrameSplits(before, b, frames, i);
    CollectedNext(views, target, before + Arrivals(b, frames[..i]), Received(b, frames[i]),
      Arrivals(b, frames[i + 1..]));
  }

  lemma FrameSplits(before: seq<Observation>, b: nat, frames: seq<CanFrame>, i: nat)
    requires i < |frames|
    ensures before + Arrivals(b, frames[..i + 1]) == before + Arrivals(b, frames[..i]) + [Received(b, frames[i])]
    ensures before + Arrivals(b, frames) ==
      before + Arrivals(b, frames[..i]) + [Received(b, frames[i])] + Arrivals(b, frames[i + 1..])
  {
    ArrivalsSplit(b, frames, i);
    Associate(before, Arrivals(b, frames[..i]), [Received(b, frames[i])]);
    Associate(before, Arrivals(b, frames[..i + 1]), Arrivals(b, frames[i + 1..]));
  }

  lemma Associate<T>(a: seq<T>, b: seq<T>, c: seq<T>)
    ensures a + (b + c) == a + b + c
  {
  }

  lemma CollectedNext(views: seq<BusView>, target: Option<MotorRef>, done: seq<Observation>, o: Observation,
                      more: seq<Observation>)
    requires Collect(views, target, done).Success?
    ensures var next := Observe(views, target, o, Collect(views, target, done).value);
      && Collect(views, target, done + [o]) == next
      && (next.Failure? ==> Collect(views, target, done + [o] + more) == next)
  {
    CollectLast(views, target, done, o);
    if Collect(views, target, done + [o]).Failure? {
      FailureSticks(views, target, done + [o], more);
    }
  }

  lemma {:induction false} FailureSticks(views: seq<BusView>, target: Option<MotorRef>, obs: seq<Observation>,
                                         more: seq<Observation>)
    requires Collect(views, target, obs).Failure?
    ensures Collect(views, target, obs + more) == Collect(views, target, obs)
  {
    if more == [] {
      assert obs + more == obs;
    } else {
      var n := |more| - 1;
      FailureSticks(views, target, obs, more[..n]);
      assert obs + more == obs + more[..n] + [more[n]];
      CollectLast(views, target, obs + more[..n], more[n]);
    }
  }

  // ---------------------------------------------------------------------------
  // Frame at a time

  type Caches = map<MotorKey, Cache>

  function Handed(caches: Caches, d: Delivery): Caches {
    if d.to in caches then caches[d.to := Applied(caches[d.to], d.event)] else caches
  }

  function ObserveNow(views: seq<BusView>, target: Option<MotorRef>, o: Observation, caches: Caches): Caches {
    var scan := Observe(views, target, o, Scan(None, []));
    if scan.Success? && scan.value.deliveries != [] then Handed(caches, scan.value.deliveries[0]) else caches
  }

  /** The robot that decodes one frame and updates its motor before it looks at the next. */
  function OneByOne(views: seq<BusView>, target: Option<MotorRef>, obs: seq<Observation>, caches: Caches): Caches {
    if obs == [] then
      caches
    else
      ObserveNow(views, target, obs[|obs| - 1], OneByOne(views, target, obs[..|obs| - 1], caches))
  }

  lemma ObserveEitherWay(views: seq<BusView>, target: Option<MotorRef>, o: Observation, before: Scan,
                         caches: Caches, motor: MotorKey, initial: Cache)
    requires Observe(views, target, o, before).Success?
    requires motor in caches && caches[motor] == AppliedAll(initial, For(before.deliveries, motor))
    ensures
      var caches' := ObserveNow(views, target, o, caches);
      && caches'.Keys == caches.Keys
      && caches'[motor] == AppliedAll(initial, For(Observe(views, target, o, before).value.deliveries, motor))
  {
    ObserveAdds(views, target, o, before);
    HandOver(before.deliveries, Observe(views, target, o, Scan(None, [])).value.deliveries, caches, motor, initial);
  }

  lemma HandOver(before: seq<Delivery>, more: seq<Delivery>, caches: Caches, motor: MotorKey, initial: Cache)
    requires |more| <= 1 && motor in caches && caches[motor] == AppliedAll(initial, For(before, motor))
    ensures
      var caches' := if more != [] then Handed(caches, more[0]) else caches;
      && caches'.Keys == caches.Keys
      && caches'[motor] == AppliedAll(initial, For(before + more, motor))
  {
    if more == [] {
      assert before + more == before;
    } else {
      assert more == [more[0]];
      ForLast(before, more[0], motor);
      AppliedLast(initial, For(before, motor), more[0].event);
    }
  }

  lemma ObserveAdds(views: seq<BusView>, target: Option<MotorRef>, o: Observation, before: Scan)
    ensures
      var alone, after := Observe(views, target, o, Scan(None, [])), Observe(views, target, o, before);
      && alone.Success? == after.Success?
      && (alone.Success? ==>
            && |alone.value.deliveries| <= 1
            && after.value.deliveries == before.deliveries + alone.value.deliveries
            && (alone.value.deliveries != [] ==>
                  o.Received? && o.bus < |views| && alone.value.deliveries[0].to in views[o.bus].routes.Values))
  {
    if o.Received? && o.bus < |views| {
      AddsAtMostOne(views[o.bus], target, o.frame, before);
    }
  }

  lemma {:induction false} OneByOneAppliesInOrder(views: seq<BusView>, target: Option<MotorRef>, obs: seq<Observation>,
                                                  caches: Caches, motor: MotorKey)
    requires Collect(views, target, obs).Success? && motor in caches
    ensures
      var caches' := OneByOne(views, target, obs, caches);
      && caches'.Keys == caches.Keys
      && caches'[motor] == AppliedAll(caches[motor], For(Collect(views, target, obs).value.deliveries, motor))
  {
    if obs != [] {
      var front := obs[..|obs| - 1];
      OneByOneAppliesInOrder(views, target, front, caches, motor);
      ObserveEitherWay(views, target, obs[|obs| - 1], Collect(views, target, front).value,
                       OneByOne(views, target, front, caches), motor, caches[motor]);
    }
  }

  /** Handing over the collected events afterwards is the same as handing each over as its frame is decoded. */
  lemma {:induction false} BatchEqualsOneByOne(views: seq<BusView>, target: Option<MotorRef>, obs: seq<Observation>,
                                               caches: Caches, motor: MotorKey)
    requires Collect(views, target, obs).Success? && motor in caches
    ensures
      var caches' := OneByOne(views, target, obs, caches);
      && caches'.Keys == caches.Keys
      && caches'[motor] == After(caches[motor], Collect(views, target, obs).value.deliveries, motor)
  {
    OneByOneAppliesInOrder(views, target, obs, caches, motor);
    AfterIsApplied(caches[motor], Collect(views, target, obs).value.deliveries, motor);
  }

  /** One frame adds at most one delivery, the same whatever was collected before it. */
  lemma AddsAtMostOne(view: BusView, target: Option<MotorRef>, frame: CanFrame, before: Scan)
    ensures
      var alone, after := ScanFrame(view, target, frame, Scan(None, [])), ScanFrame(view, target, frame, before);
      && alone.Success? == after.Success?
      && (alone.Success? ==>
            && |alone.value.deliveries| <= 1
            && after.value.deliveries == before.deliveries + alone.value.deliveries)
      && (alone.Success? && alone.value.deliveries != [] ==> alone.value.deliveries[0].to in view.routes.Values)
  {
  }

  lemma ForLast(deliveries: seq<Delivery>, d: Delivery, motor: MotorKey)
    ensures For(deliveries + [d], motor) ==
      if d.to == motor then For(deliveries, motor) + [d.event] else For(deliveries, motor)
  {
    assert (deliveries + [d])[..|deliveries|] == deliveries;
  }

  // ---------------------------------------------------------------------------
  // Where events go, from the codec and the routing table alone

  /** The frame answers the query for the target's mode, and is not decoded any further. */
  predicate TakenAsMode(view: BusView, target: Option<MotorRef>, frame: CanFrame) {
    && target.Some? && frame.id == target.value.recvId
    && view.codec.decodeMode(frame, target.value).Success? && view.codec.decodeMode(frame, target.value).value.Some?
  }

  /** What the frame brings the motor: the event it decodes to, if the table routes that to the motor. */
  function EventFor(view: BusView, target: Option<MotorRef>, frame: CanFrame, motor: MotorKey): seq<Event> {
    match view.codec.decode(frame)
    case Success(Some(e)) =>
      if !TakenAsMode(view, target, frame) && e.motorId in view.routes && view.routes[e.motorId] == motor then [e]
      else []
    case _ => []
  }

  /** What a part of the log brings the motor, in order. */
  function EventsIn(views: seq<BusView>, target: Option<MotorRef>, obs: seq<Observation>, motor: MotorKey): seq<Event> {
    if obs == [] then []
    else
      var o := obs[|obs| - 1];
      EventsIn(views, target, obs[..|obs| - 1], motor)
      + if o.Received? && o.bus < |views| then EventFor(views[o.bus], target, o.frame, motor) else []
  }

  /** The codec makes something of the frame, if only that it is nothing. */
  predicate Decodes(view: BusView, target: Option<MotorRef>, frame: CanFrame) {
    || TakenAsMode(view, target, frame)
    || (view.codec.decode(frame).Success?
        && (OnTarget(target, frame) ==> view.codec.decodeMode(frame, target.value).Success?))
  }

  lemma FrameReaches(view: BusView, target: Option<MotorRef>, frame: CanFrame, before: Scan, motor: MotorKey)
    ensures var r := ScanFrame(view, target, frame, before);
      && (r.Success? <==> Decodes(view, target, frame))
      && (r.Success? ==>
            For(r.value.deliveries, motor) == For(before.deliveries, motor) + EventFor(view, target, frame, motor))
  {
    var r := ScanFrame(view, target, frame, before);
    if r.Success? && r.value.deliveries != before.deliveries {
      var e := view.codec.decode(frame).value.value;
      ForLast(before.deliveries, Delivery(view.routes[e.motorId], e), motor);
    }
  }

  /** What is collected for a motor is what the frames bring it; collecting fails only on an undecodable one. */
  lemma {:induction false} EventsReach(views: seq<BusView>, target: Option<MotorRef>, obs: seq<Observation>,
                                       motor: MotorKey)
    ensures Collect(views, target, obs).Success? <==>
      forall o | o in obs :: o.Received? && o.bus < |views| ==> Decodes(views[o.bus], target, o.frame)
    ensures Collect(views, target, obs).Success? ==>
      For(Collect(views, target, obs).value.deliveries, motor) == EventsIn(views, target, obs, motor)
  {
    if obs != [] {
      var front, o := obs[..|obs| - 1], obs[|obs| - 1];
      EventsReach(views, target, front, motor);
      assert forall x | x in obs :: x in front || x == o;
      if o.Received? && o.bus < |views| && Collect(views, target, front).Success? {
        FrameReaches(views[o.bus], target, o.frame, Collect(views, target, front).value, motor);
      }
    }
  }

  /** A cache after the deliveries of a part of the log: what its frames bring the motor, applied in order. */
  lemma AfterIsEvents(views: seq<BusView>, target: Option<MotorRef>, obs: seq<Observation>, motor: MotorKey, c: Cache)
    requires Collect(views, target, obs).Success?
    ensures After(c, Collect(views, target, obs).value.deliveries, motor)
         == AppliedAll(c, EventsIn(views, target, obs, motor))
  {
    AfterIsApplied(c, Collect(views, target, obs).value.deliveries, motor);
    EventsReach(views, target, obs, motor);
  }

  /** After a part of the log the cache shows the last state its frames brought the motor. */
  lemma {:induction false} ShowsLastState(views: seq<BusView>, target: Option<MotorRef>, obs: seq<Observation>,
                                          motor: MotorKey, c: Cache, k: nat, e: Event)
    requires k < |obs| && obs[k].Received? && obs[k].bus < |views| && e.State?
    requires EventFor(views[obs[k].bus], target, obs[k].frame, motor) == [e]
    requires forall l | k < l < |obs| && obs[l].Received? && obs[l].bus < |views| ::
      !BringsState(views[obs[l].bus], target, obs[l].frame, motor)
    ensures Measured(AppliedAll(c, EventsIn(views, target, obs, motor)), e)
  {
    var front, o := obs[..|obs| - 1], obs[|obs| - 1];
    var before := EventsIn(views, target, front, motor);
    var more := if o.Received? && o.bus < |views| then EventFor(views[o.bus], target, o.frame, motor) else [];
    assert EventsIn(views, target, obs, motor) == before + more;
    if k < |front| {
      ShowsLastState(views, target, front, motor, c, k, e);
    }
    if more == [] {
      assert before + more == before;
    } else {
      AppliedLast(c, before, more[0]);
    }
  }

  /** How many of the frames bring the motor a state. */
  function StatesIn(views: seq<BusView>, target: Option<MotorRef>, obs: seq<Observation>, motor: MotorKey): nat {
    if obs == [] then 0
    else
      var o := obs[|obs| - 1];
      StatesIn(views, target, obs[..|obs| - 1], motor)
      + if o.Received? && o.bus < |views| && BringsState(views[o.bus], target, o.frame, motor) then 1 else 0
  }

  predicate BringsState(view: BusView, target: Option<MotorRef>, frame: CanFrame, motor: MotorKey) {
    match view.codec.decode(frame)
    case Success(Some(State(id, _, _, _, _, _))) =>
      !TakenAsMode(view, target, frame) && id in view.routes && view.routes[id] == motor
    case _ => false
  }

  lemma {:induction false} StatesAreCounted(views: seq<BusView>, target: Option<MotorRef>, obs: seq<Observation>,
                                            motor: MotorKey)
    ensures StateCount(EventsIn(views, target, obs, motor)) == StatesIn(views, target, obs, motor)
  {
    if obs != [] {
      var front, o := obs[..|obs| - 1], obs[|obs| - 1];
      StatesAreCounted(views, target, front, motor);
      var more := if o.Received? && o.bus < |views| then EventFor(views[o.bus], target, o.frame, motor) else [];
      StateCountMore(EventsIn(views, target, front, motor), more);
      if o.Received? && o.bus < |views| {
        BroughtStateCounts(views[o.bus], target, o.frame, motor);
      }
    }
  }

  lemma BroughtStateCounts(view: BusView, target: Option<MotorRef>, frame: CanFrame, motor: MotorKey)
    ensures var more := EventFor(view, target, frame, motor);
      BringsState(view, target, frame, motor) <==> more != [] && more[0].State?
  {
  }

  /** Some bus's table routes to the motor. */
  predicate RoutedTo(views: seq<BusView>, motor: MotorKey) {
    exists b :: 0 <= b < |views| && motor in views[b].routes.Values
  }

  lemma {:induction false} DeliveriesAreRouted(views: seq<BusView>, target: Option<MotorRef>, obs: seq<Observation>)
    requires Collect(views, target, obs).Success?
    ensures forall d | d in Collect(views, target, obs).value.deliveries :: RoutedTo(views, d.to)
  {
    if obs != [] {
      var front, o := obs[..|obs| - 1], obs[|obs| - 1];
      DeliveriesAreRouted(views, target, front);
      var before := Collect(views, target, front).value;
      var more := Observe(views, target, o, Scan(None, [])).value.deliveries;
      ObserveAdds(views, target, o, before);
      StillRouted(views, before.deliveries, more, o);
    }
  }

  lemma StillRouted(views: seq<BusView>, before: seq<Delivery>, more: seq<Delivery>, o: Observation)
    requires forall d | d in before :: RoutedTo(views, d.to)
    requires |more| <= 1
    requires more != [] ==> o.Received? && o.bus < |views| && more[0].to in views[o.bus].routes.Values
    ensures forall d | d in before + more :: RoutedTo(views, d.to)
  {
  }

  /** The frames of one bus, in order. */
  function FromBus(obs: seq<Observation>, bus: nat): (r: seq<Observation>)
    ensures forall o | o in r :: IsFrom(o, bus)
  {
    if obs == [] then []
    else
      var o := obs[|obs| - 1];
      FromBus(obs[..|obs| - 1], bus) + if IsFrom(o, bus) then [o] else []
  }

  /**
   A motor that only one bus routes to gets exactly the events that bus alone
   would have given it: the frames of other buses change nothing.
   */
  lemma {:induction false} BusIsolation(views: seq<BusView>, target: Option<MotorRef>, obs: seq<Observation>, bus: nat,
                                        motor: MotorKey)
    requires Collect(views, target, obs).Success?
    requires forall b | 0 <= b < |views| && b != bus :: motor !in views[b].routes.Values
    ensures Collect(views, target, FromBus(obs, bus)).Success?
    ensures For(Collect(views, target, obs).value.deliveries, motor)
         == For(Collect(views, target, FromBus(obs, bus)).value.deliveries, motor)
         == EventsIn(views, target, FromBus(obs, bus), motor)
  {
    EventsReach(views, target, FromBus(obs, bus), motor);
    if obs != [] {
      var front, o := obs[..|obs| - 1], obs[|obs| - 1];
      BusIsolation(views, target, front, bus, motor);
      var own := Collect(views, target, FromBus(front, bus)).value;
      IsolationStep(views, target, o, bus, motor, Collect(views, target, front).value, own);
      if IsFrom(o, bus) {
        CollectLast(views, target, FromBus(front, bus), o);
      } else {
        assert FromBus(obs, bus) == FromBus(front, bus);
      }
    }
  }

  predicate IsFrom(o: Observation, bus: nat) {
    o.Received? && o.bus == bus
  }

  /** So its cache is what that bus's frames bring it, and its sequence grows by the states among them. */
  lemma OwnEvents(views: seq<BusView>, target: Option<MotorRef>, obs: seq<Observation>, bus: nat, motor: MotorKey,
                  c: Cache)
    requires Collect(views, target, obs).Success?
    requires forall b | 0 <= b < |views| && b != bus :: motor !in views[b].routes.Values
    ensures
      var own, after := FromBus(obs, bus), After(c, Collect(views, target, obs).value.deliveries, motor);
      && after == AppliedAll(c, EventsIn(views, target, own, motor))
      && after.sequence == Grown(c.sequence, StatesIn(views, target, own, motor))
  {
    BusIsolation(views, target, obs, bus, motor);
    AfterIsApplied(c, Collect(views, target, obs).value.deliveries, motor);
    SequenceAfterEvents(c, EventsIn(views, target, FromBus(obs, bus), motor));
    StatesAreCounted(views, target, FromBus(obs, bus), motor);
  }

  lemma IsolationStep(views: seq<BusView>, target: Option<MotorRef>, o: Observation, bus: nat, motor: MotorKey,
                      all: Scan, own: Scan)
    requires forall b | 0 <= b < |views| && b != bus :: motor !in views[b].routes.Values
    requires For(all.deliveries, motor) == For(own.deliveries, motor)
    requires Observe(views, target, o, all).Success?
    ensures
      var own' := if IsFrom(o, bus) then Observe(views, target, o, own) else Success(own);
      && own'.Success?
      && For(Observe(views, target, o, all).value.deliveries, motor) == For(own'.value.deliveries, motor)
  {
    var more := Observe(views, target, o, Scan(None, [])).value.deliveries;
    ObserveAdds(views, target, o, all);
    if IsFrom(o, bus) {
      ObserveAdds(views, target, o, own);
      ForBoth(all.deliveries, own.deliveries, more, motor);
    } else {
      ForOthers(all.deliveries, more, motor);
    }
  }

  lemma ForBoth(a: seq<Delivery>, b: seq<Delivery>, more: seq<Delivery>, motor: MotorKey)
    requires For(a, motor) == For(b, motor) && |more| <= 1
    ensures For(a + more, motor) == For(b + more, motor)
  {
    if more == [] {
      assert a + more == a && b + more == b;
    } else {
      assert more == [more[0]];
      ForLast(a, more[0], motor);
      ForLast(b, more[0], motor);
    }
  }

  lemma ForOthers(before: seq<Delivery>, more: seq<Delivery>, motor: MotorKey)
    requires |more| <= 1 && (more != [] ==> more[0].to != motor)
    ensures For(before + more, motor) == For(before, motor)
  {
    if more == [] {
      assert before + more == before;
    } else {
      assert more == [more[0]];
      ForLast(before, more[0], motor);
    }
  }

  // ---------------------------------------------------------------------------
  // The mode read back

  /** The frame answers the query: on the target's identifier, on any bus, decoded by that bus's codec. */
  predicate Answers(views: seq<BusView>, target: MotorRef, o: Observation, mode: Option<u32>) {
    && o.Received? && o.bus < |views| && o.frame.id == target.recvId
    && views[o.bus].codec.decodeMode(o.frame, target) == Success(mode)
  }

  predicate Concerns(views: seq<BusView>, target: MotorRef, o: Observation) {
    o.Received? && o.bus < |views| && o.frame.id == target.recvId
  }

  /** The last frame on the target's identifier, from any bus. */
  function LastOn(views: seq<BusView>, target: MotorRef, obs: seq<Observation>): (r: Option<nat>)
    ensures r.Some? ==> r.value < |obs| && Concerns(views, target, obs[r.value])
    ensures forall k | (if r.Some? then r.value else -1) < k < |obs| :: !Concerns(views, target, obs[k])
  {
    if obs == [] then None
    else if Concerns(views, target, obs[|obs| - 1]) then Some(|obs| - 1)
    else LastOn(views, target, obs[..|obs| - 1])
  }

  /** The reported mode is what the last frame on the target's identifier says, and none without such a frame. */
  lemma {:induction false} ModeIsLastAnswer(views: seq<BusView>, target: MotorRef, obs: seq<Observation>)
    requires Collect(views, Some(target), obs).Success?
    ensures
      var mode, last := Collect(views, Some(target), obs).value.mode, LastOn(views, target, obs);
      if last.Some? then Answers(views, target, obs[last.value], mode) else mode == None
  {
    if obs != [] {
      ModeIsLastAnswer(views, target, obs[..|obs| - 1]);
    }
  }

  /** This entry is a frame of the bus, it answers with the mode, and no later frame answers otherwise. */
  predicate Supplies(views: seq<BusView>, target: MotorRef, obs: seq<Observation>, bus: nat, mode: Option<u32>, j: nat)
    requires j < |obs|
  {
    && Answers(views, target, obs[j], mode) && obs[j].bus == bus
    && forall k | j < k < |obs| :: !Concerns(views, target, obs[k])
  }

  /** A reported mode was supplied by a bus if and only if the last frame on the target's identifier came from it. */
  lemma {:induction false} ModeFromBusIff(views: seq<BusView>, target: MotorRef, obs: seq<Observation>, bus: nat)
    requires Collect(views, Some(target), obs).Success? && Collect(views, Some(target), obs).value.mode.Some?
    ensures LastOn(views, target, obs).Some?
    ensures
      var mode := Collect(views, Some(target), obs).value.mode;
      (exists j :: 0 <= j < |obs| && Supplies(views, target, obs, bus, mode, j))
        <==> obs[LastOn(views, target, obs).value].bus == bus
  {
    ModeIsLastAnswer(views, target, obs);
    var mode, last := Collect(views, Some(target), obs).value.mode, LastOn(views, target, obs).value;
    if obs[last].bus == bus {
      assert Supplies(views, target, obs, bus, mode, last);
    }
  }

  lemma CollectLast(views: seq<BusView>, target: Option<MotorRef>, obs: seq<Observation>, o: Observation)
    ensures Collect(views, target, obs + [o]) ==
      (var before := Collect(views, target, obs);
       if before.Failure? then before else Observe(views, target, o, before.value))
  {
    assert (obs + [o])[..|obs|] == obs;
  }
}
