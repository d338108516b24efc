/** The robot: named buses and groups, their lifecycle, and the control tick. */
module Robots {
  import opened Wrappers
  import opened MachineInts
  import opened Motors
  import opened Wires
  import opened Groups
  import opened Dispatch
  import opened Replays
  import opened Topology
  import opened Evidence
  import Opening

  class Robot {
    const wire: Wire
    const buses: seq<Bus>
    const groups: seq<Group>
    var connected: bool
    var tokens: set<nat>
    /** What the codecs and routing tables of the buses are. */
    ghost var views: seq<BusView>

    constructor (wire: Wire, buses: seq<Bus>, groups: seq<Group>)
      requires WellBuilt(wire, buses, groups)
      requires forall g | 0 <= g < |groups| :: groups[g].Valid()
      ensures Valid() && !connected
      ensures this.wire == wire && this.buses == buses && this.groups == groups
      ensures wire.trace == [] && (forall m | IsMotor(groups, m) :: At(groups, m).View() == Fresh) ==> FollowsLog()
    {
      this.wire, this.buses, this.groups := wire, buses, groups;
      connected, tokens := false, {};
      views := seq(|buses|, b requires 0 <= b < |buses| reads buses => BusView(buses[b].codec, buses[b].routes));
    }

    // -------------------------------------------------------------------------
    // Shape

    ghost predicate Valid()
      reads this, buses, groups
    {
      && WellBuilt(wire, buses, groups)
      && (forall g | 0 <= g < |groups| :: groups[g].Valid())
      && |views| == |buses|
      && (forall b | 0 <= b < |buses| :: views[b] == BusView(buses[b].codec, buses[b].routes))
      && (connected ==> forall b | 0 <= b < |buses| :: IsTable(groups, b, buses[b].routes))
    }

    /** All motors, as a modifies clause needs them. */
    ghost function AllMotors(): set<Motor> {
      set g: nat, i: nat | g < |groups| && i < |groups[g].motors| :: groups[g].motors[i]
    }

    ghost function CacheOf(motor: MotorKey): Cache
      reads AllMotors()
      requires IsMotor(groups, motor)
    {
      At(groups, motor).View()
    }

    /**
     Every motor's cache is what the log says it is, and only a connected robot
     has ticked.
     */
    ghost predicate FollowsLog()
      reads this, wire, AllMotors()
    {
      && (forall m | IsMotor(groups, m) :: CacheOf(m) == Replay(views, wire.trace, m))
      && (!connected ==> forall o | o in wire.trace :: !o.TickEnded?)
    }

    /** Every motor is flagged enabled exactly when the last enable or disable frame sent to it was an enable. */
    ghost predicate FlagsMatch()
      reads wire, AllMotors()
    {
      forall m | IsMotor(groups, m) :: CacheOf(m).isEnabled == LastSwitch(wire.trace, m)
    }

    lemma FlagsFollowLog()
      requires FollowsLog()
      ensures FlagsMatch()
    {
      forall m | IsMotor(groups, m)
        ensures CacheOf(m).isEnabled == LastSwitch(wire.trace, m)
      {
        FlagIsLastSwitch(views, wire.trace, m);
      }
    }

    // -------------------------------------------------------------------------
    // Connecting

    /** Rebuilds one bus's routing table from nothing. */
    method RouteBus(b: nat) returns (collision: Option<Error>)
      requires WellBuilt(wire, buses, groups) && b < |buses|
      modifies buses[b]
      ensures collision.None? ==> IsTable(groups, b, buses[b].routes)
      ensures collision.Some? ==>
        && IsCollision(groups, b, collision.value)
        && IsTableUpTo(groups, b, buses[b].routes, collision.value.attempted.group, collision.value.attempted.index)
    {
      var routes: map<u32, MotorKey> := map[];
      for g := 0 to |groups|
        invariant IsTableUpTo(groups, b, routes, g, 0)
      {
        if groups[g].bus.index == b {
          for i := 0 to |groups[g].motors|
            invariant IsTableUpTo(groups, b, routes, g, i)
          {
            var id := groups[g].motors[i].recvId;
            if id in routes {
              buses[b].routes := routes;
              return Some(IdCollision(b, id, routes[id], MotorKey(g, i)));
            }
            routes := routes[id := MotorKey(g, i)];
          }
        }
      }
      buses[b].routes := routes;
      collision := None;
    }

    /** Before the first tick the caches do not depend on the routing tables. */
    lemma RoutesDoNotMatter(before: seq<BusView>)
      requires forall o | o in wire.trace :: !o.TickEnded?
      requires forall m | IsMotor(groups, m) :: CacheOf(m) == Replay(before, wire.trace, m)
      ensures FollowsLog()
    {
      forall m | IsMotor(groups, m)
        ensures CacheOf(m) == Replay(views, wire.trace, m)
      {
        ReplayWithoutTicks(before, views, wire.trace, m);
      }
    }

    method RouteAnew(b: nat) returns (collision: Option<Error>)
      requires Valid() && !connected && b < |buses|
      modifies this`views, buses[b]
      ensures Valid()
      ensures collision.None? ==> IsTable(groups, b, buses[b].routes)
      ensures collision.Some? ==> IsCollision(groups, b, collision.value)
    {
      collision := RouteBus(b);
      views := views[b := BusView(buses[b].codec, buses[b].routes)];
    }

    /** Builds every bus's table, whatever order the buses come in, up to the first collision. */
    method RouteAll() returns (collision: Option<Error>)
      requires Valid() && !connected
      modifies this`views, buses
      ensures Valid()
      ensures collision.None? ==> forall b | 0 <= b < |buses| :: IsTable(groups, b, buses[b].routes)
      ensures collision.Some? ==>
        && collision.value.IdCollision? && collision.value.bus < |buses|
        && IsCollision(groups, collision.value.bus, collision.value)
    {
      var left := set bus | bus in buses;
      while left != {}
        invariant forall bus | bus in left :: bus in buses
        invariant Valid()
        invariant forall b | 0 <= b < |buses| && buses[b] !in left :: IsTable(groups, b, buses[b].routes)
      {
        var bus :| bus in left;
        collision := RouteAnew(bus.index);
        if collision.Some? {
          return;
        }
        left := left - {bus};
      }
      collision := None;
    }

    /** Builds every bus's table, then registers the buses that can be polled. The poller may fail. */
    method Connect() returns (r: Result<(), Error>)
      requires Valid() && FollowsLog()
      modifies this, buses, wire`lost
      ensures Valid() && FollowsLog()
      ensures old(connected) ==> r == Success(()) && connected
      ensures wire.lost == old(wire.lost) + if r.Failure? && !r.error.IdCollision? then 1 else 0
      ensures !old(connected) ==> (r.Failure? && r.error.IdCollision? <==> Collides(groups, |buses|))
      ensures !old(connected) && r.Failure? && r.error.IdCollision? ==> IsCollision(groups, r.error.bus, r.error)
      ensures r.Success? <==> connected
      ensures connected && !old(connected) ==> tokens == set b | 0 <= b < |buses| && buses[b].hasFd
    {
      if connected {
        return Success(());
      }
      ghost var before := views;
      var collision := RouteAll();
      RoutesDoNotMatter(before);
      if collision.Some? {
        return Failure(collision.value);
      }
      TablesExcludeCollisions(groups, buses);
      var polling: bool := *;
      if !polling {
        wire.lost := wire.lost + 1;
        return Failure(TransportError);
      }
      tokens := set b | 0 <= b < |buses| && buses[b].hasFd;
      connected := true;
      r := Success(());
    }

    // -------------------------------------------------------------------------
    // Ticking

    /** Drains one bus and decodes what came, going on from what was collected since `start`. */
    method DrainBus(b: nat, target: Option<MotorRef>, scan: Scan, ghost start: nat) returns (r: Result<Scan, Error>)
      requires Valid() && b < |buses|
      requires start <= |wire.trace| && Collect(views, target, wire.trace[start..]) == Success(scan)
      modifies wire
      ensures Adds(old(wire.trace), wire.trace, Inbound)
      ensures r.Success? ==> Collect(views, target, wire.trace[start..]) == r
      ensures r.Success? ==> Drained(b) in wire.trace[|old(wire.trace)|..]
      ensures r.Failure? ==> !r.error.ModeNotVerified?
      ensures wire.refused == old(wire.refused) && wire.lost >= old(wire.lost)
      ensures r.Failure? ==> wire.lost > old(wire.lost) || Collect(views, target, wire.trace[start..]).Failure?
    {
      var frames := buses[b].Drain();
      if frames.Failure? {
        return Failure(frames.error);
      }
      ghost var before := old(wire.trace)[start..];
      ghost var marked := before + [Drained(b)];
      CollectLast(views, target, before, Drained(b));
      DrainInLog(old(wire.trace), start, b, frames.value, wire.trace);
      r := ScanFrames(views, b, BusView(buses[b].codec, buses[b].routes), target, frames.value, scan, marked);
    }

    /**
     One tick: drains the buses the poller finds ready and every bus that cannot
     be polled, decodes the frames in arrival order, and then hands the events
     over. If anything fails no motor changes, and the log shows no tick ending.
     Each motor gets what the frames of its own bus alone would have given it.
     */
    method TickInternal(target: Option<Target>) returns (r: Result<Option<u32>, Error>, ghost read: seq<Observation>)
      requires Valid()
      modifies wire, AllMotors()
      ensures !connected ==> r == Failure(NotConnected) && wire.trace == old(wire.trace)
      ensures forall o | o in read :: Inbound(o)
      ensures connected ==>
        wire.trace == old(wire.trace) + [TickBegan(target)] + read + if r.Success? then [TickEnded] else []
      ensures r.Success? ==>
        var scan := Collect(views, RefIn(target), read);
        && scan.Success? && r.value == scan.value.mode
        && (forall m | IsMotor(groups, m) :: CacheOf(m) == After(old(CacheOf(m)), scan.value.deliveries, m))
      ensures r.Success? ==> DrainsPolled(read)
      ensures r.Success? ==>
        forall m | IsMotor(groups, m) :: HasOwnEvents(RefIn(target), read, m, old(CacheOf(m)), CacheOf(m))
      ensures r.Failure? ==> !r.error.ModeNotVerified? && forall m | IsMotor(groups, m) :: CacheOf(m) == old(CacheOf(m))
      ensures connected && r.Failure? ==> wire.lost > old(wire.lost) || Undecodable(RefIn(target), read)
      ensures wire.refused == old(wire.refused)
    {
      read := [];
      if !connected {
        return Failure(NotConnected), read;
      }
      wire.trace := wire.trace + [TickBegan(target)];
      r, read := PollAndRead(RefIn(target));
    }

    /** Asks the poller, and reads every bus it found ready and every bus it does not watch. */
    method PollAndRead(target: Option<MotorRef>) returns (r: Result<Option<u32>, Error>, ghost read: seq<Observation>)
      requires Valid() && connected
      modifies wire, AllMotors()
      ensures forall o | o in read :: Inbound(o)
      ensures wire.trace == old(wire.trace) + read + if r.Success? then [TickEnded] else []
      ensures r.Success? ==>
        var scan := Collect(views, target, read);
        && scan.Success? && r.value == scan.value.mode
        && (forall m | IsMotor(groups, m) :: CacheOf(m) == After(old(CacheOf(m)), scan.value.deliveries, m))
      ensures r.Success? ==> DrainsPolled(read)
      ensures r.Success? ==> forall m | IsMotor(groups, m) :: HasOwnEvents(target, read, m, old(CacheOf(m)), CacheOf(m))
      ensures r.Failure? ==> !r.error.ModeNotVerified? && forall m | IsMotor(groups, m) :: CacheOf(m) == old(CacheOf(m))
      ensures r.Failure? ==> wire.lost > old(wire.lost) || Undecodable(target, read)
      ensures wire.refused == old(wire.refused)
    {
      var ready := wire.Poll();
      if ready.None? {
        return Failure(TransportError), [];
      }
      var readable := Watched(ready.value) + Unwatched(|buses|);
      r, read := ReadAndDeliver(ready.value, readable, target);
      if r.Success? {
        assert forall b: nat | b < |buses| && (b in ready.value || b !in tokens) :: b in readable;
      }
    }

    /** One of these frames decodes to nothing its codec knows. */
    ghost predicate Undecodable(target: Option<MotorRef>, read: seq<Observation>)
      reads this
    {
      exists o | o in read :: o.Received? && o.bus < |views| && !Decodes(views[o.bus], target, o.frame)
    }

    /** First the poller answered; then every bus it found ready, and every bus without a token, was drained. */
    ghost predicate DrainsPolled(read: seq<Observation>)
      reads this
    {
      && read != [] && read[0].Polled?
      && forall b: nat | b < |buses| && (b in read[0].ready || b !in tokens) :: Drained(b) in read
    }

    /** Collects what the readable buses yield after the poll, and delivers it if nothing failed. */
    method ReadAndDeliver(ghost ready: seq<nat>, readable: seq<nat>, target: Option<MotorRef>)
      returns (r: Result<Option<u32>, Error>, ghost read: seq<Observation>)
      requires Valid() && connected && forall b | b in readable :: b < |buses|
      requires wire.trace != [] && wire.trace[|wire.trace| - 1] == Polled(ready)
      modifies wire, AllMotors()
      ensures read != [] && read[0] == Polled(ready) && forall o | o in read :: Inbound(o)
      ensures wire.trace == old(wire.trace) + read[1..] + if r.Success? then [TickEnded] else []
      ensures r.Success? ==>
        var scan := Collect(views, target, read);
        && scan.Success? && r.value == scan.value.mode
        && (forall b | b in readable :: Drained(b) in read)
        && (forall m | IsMotor(groups, m) :: CacheOf(m) == After(old(CacheOf(m)), scan.value.deliveries, m))
      ensures r.Success? ==> forall m | IsMotor(groups, m) :: HasOwnEvents(target, read, m, old(CacheOf(m)), CacheOf(m))
      ensures r.Failure? ==> !r.error.ModeNotVerified? && forall m | IsMotor(groups, m) :: CacheOf(m) == old(CacheOf(m))
      ensures r.Failure? ==> wire.lost > old(wire.lost) || Undecodable(target, read)
      ensures wire.refused == old(wire.refused)
    {
      var collected;
      collected, read := CollectFrames(ready, readable, target);
      if collected.Failure? {
        return Failure(collected.error), read;
      }
      AllRouted(target, read);
      wire.trace := wire.trace + [TickEnded];
      OwnBusesOnly(target, read);
      DeliverAll(collected.value.deliveries);
      r := Success(collected.value.mode);
    }

    /**
     The motor has applied, in order, exactly the events that the frames of its
     own bus decode to and that bus's table routes to it.
     */
    ghost predicate HasOwnEvents(target: Option<MotorRef>, read: seq<Observation>, m: MotorKey, before: Cache,
                                 after: Cache)
      requires IsMotor(groups, m)
      reads this
    {
      var own := FromBus(read, groups[m.group].bus.index);
      && after == AppliedAll(before, EventsIn(views, target, own, m))
      && after.sequence == Grown(before.sequence, StatesIn(views, target, own, m))
    }

    /** The buses behind the tokens the poller reports. */
    function Watched(ready: seq<nat>): (r: seq<nat>)
      reads this
      ensures forall b: nat :: b in r <==> b in ready && b in tokens && b < |buses|
    {
      if ready == [] then []
      else
        var b := ready[|ready| - 1];
        Watched(ready[..|ready| - 1]) + if b in tokens && b < |buses| then [b] else []
    }

    /** Those of the first `n` buses that have no token, in order. */
    function Unwatched(n: nat): (r: seq<nat>)
      requires n <= |buses|
      reads this
      ensures forall b: nat :: b in r <==> b < n && b !in tokens
    {
      if n == 0 then [] else Unwatched(n - 1) + if n - 1 in tokens then [] else [n - 1]
    }

    /** Drains the readable buses in order, up to the first failure. */
    method CollectFrames(ghost ready: seq<nat>, readable: seq<nat>, target: Option<MotorRef>)
      returns (r: Result<Scan, Error>, ghost read: seq<Observation>)
      requires Valid() && forall b | b in readable :: b < |buses|
      requires wire.trace != [] && wire.trace[|wire.trace| - 1] == Polled(ready)
      modifies wire
      ensures read != [] && read[0] == Polled(ready) && forall o | o in read :: Inbound(o)
      ensures wire.trace == old(wire.trace) + read[1..]
      ensures r.Success? ==> Collect(views, target, read) == r
      ensures r.Success? ==> forall b | b in readable :: Drained(b) in read
      ensures r.Failure? ==> !r.error.ModeNotVerified?
      ensures r.Failure? ==> wire.lost > old(wire.lost) || Undecodable(target, read)
      ensures wire.refused == old(wire.refused) && wire.lost >= old(wire.lost)
    {
      var scan := Scan(None, []);
      ghost var start := |wire.trace| - 1;
      CollectLast(views, target, [], Polled(ready));
      assert wire.trace[start..] == [] + [Polled(ready)];
      for k := 0 to |readable|
        invariant Adds(old(wire.trace), wire.trace, Inbound)
        invariant Collect(views, target, wire.trace[start..]) == Success(scan)
        invariant forall j | 0 <= j < k :: Drained(readable[j]) in wire.trace[start..]
        invariant wire.refused == old(wire.refused) && wire.lost >= old(wire.lost)
      {
        ghost var before := wire.trace;
        assert readable[k] in readable;
        r := DrainBus(readable[k], target, scan, start);
        if r.Failure? {
          read := wire.trace[start..];
          LogFrom(old(wire.trace), wire.trace, ready);
          EventsReach(views, target, read, MotorKey(0, 0));
          return;
        }
        scan := r.value;
        assert before[start..] <= wire.trace[start..];
        LaterIsIncluded(Drained(readable[k]), wire.trace, start, |before|);
      }
      read := wire.trace[start..];
      LogFrom(old(wire.trace), wire.trace, ready);
      r := Success(scan);
    }

    lemma AllRouted(target: Option<MotorRef>, obs: seq<Observation>)
      requires Valid() && connected
      requires Collect(views, target, obs).Success?
      ensures forall d | d in Collect(views, target, obs).value.deliveries :: IsMotor(groups, d.to)
    {
      DeliveriesAreRouted(views, target, obs);
      forall d | d in Collect(views, target, obs).value.deliveries
        ensures IsMotor(groups, d.to)
      {
        assert RoutedTo(views, d.to);
        var b :| 0 <= b < |views| && d.to in views[b].routes.Values;
        assert IsTable(groups, b, buses[b].routes);
      }
    }

    /** A bus's frames change only motors of groups on that bus: each motor's events are those of its own bus. */
    lemma OwnBusOnly(target: Option<MotorRef>, obs: seq<Observation>, m: MotorKey, c: Cache)
      requires Valid() && connected && IsMotor(groups, m)
      requires Collect(views, target, obs).Success?
      ensures HasOwnEvents(target, obs, m, c, After(c, Collect(views, target, obs).value.deliveries, m))
    {
      var home := groups[m.group].bus.index;
      forall b | 0 <= b < |buses| && b != home
        ensures m !in views[b].routes.Values
      {
        assert IsTable(groups, b, buses[b].routes);
      }
      OwnEvents(views, target, obs, home, m, c);
    }

    lemma OwnBusesOnly(target: Option<MotorRef>, obs: seq<Observation>)
      requires Valid() && connected && Collect(views, target, obs).Success?
      ensures forall m | IsMotor(groups, m) ::
        HasOwnEvents(target, obs, m, CacheOf(m), After(CacheOf(m), Collect(views, target, obs).value.deliveries, m))
    {
      forall m | IsMotor(groups, m)
        ensures HasOwnEvents(target, obs, m, CacheOf(m),
          After(CacheOf(m), Collect(views, target, obs).value.deliveries, m))
      {
        OwnBusOnly(target, obs, m, CacheOf(m));
      }
    }

    method Deliver(d: Delivery)
      requires Valid() && IsMotor(groups, d.to)
      modifies At(groups, d.to)
      ensures forall m | IsMotor(groups, m) ::
        CacheOf(m) == if d.to == m then Applied(old(CacheOf(m)), d.event) else old(CacheOf(m))
    {
      assert forall m | IsMotor(groups, m) :: At(groups, m).key == m;
      At(groups, d.to).ApplyEvent(d.event);
    }

    method DeliverAll(deliveries: seq<Delivery>)
      requires Valid()
      requires forall d | d in deliveries :: IsMotor(groups, d.to)
      modifies AllMotors()
      ensures forall m | IsMotor(groups, m) :: CacheOf(m) == After(old(CacheOf(m)), deliveries, m)
    {
      for k := 0 to |deliveries|
        invariant forall m | IsMotor(groups, m) :: CacheOf(m) == After(old(CacheOf(m)), deliveries[..k], m)
      {
        assert deliveries[k] in deliveries;
        Deliver(deliveries[k]);
        forall m | IsMotor(groups, m)
          ensures CacheOf(m) == After(old(CacheOf(m)), deliveries[..k + 1], m)
        {
          AfterNext(old(CacheOf(m)), deliveries, k, m);
        }
      }
      assert deliveries[..|deliveries|] == deliveries;
    }

    /** Since then no tick failed and nothing sent was refused. */
    ghost predicate NothingFailed(trace: seq<Observation>, refused: seq<Refusal>)
      reads wire
    {
      FailedTicks(wire.trace) == FailedTicks(trace) && wire.refused == refused
    }

    /** A tick keeps the caches in step with the log, and verifies its target exactly when it reports PosForce. */
    method Tick(target: Option<Target>) returns (r: Result<Option<u32>, Error>)
      requires Valid() && FollowsLog()
      modifies wire, AllMotors()
      ensures FollowsLog() && Adds(old(wire.trace), wire.trace, Unsent)
      ensures !connected ==> r == Failure(NotConnected) && wire.trace == old(wire.trace)
      ensures r.Failure? ==> !r.error.ModeNotVerified?
      ensures forall t: Target :: Verified(views, t, wire.trace, |old(wire.trace)|, |wire.trace|) <==>
        r == Success(Some(POS_FORCE_MODE)) && target == Some(t)
      ensures forall t: Target :: AnsweredLast(views, t, wire.trace, |old(wire.trace)|)
      ensures r.Failure? || r.value.None? ==>
        forall t: Target :: Unanswered(views, t, wire.trace, |old(wire.trace)|, |wire.trace|)
      ensures wire.refused == old(wire.refused)
      ensures connected ==> TickAdds(old(wire.trace), target, r.Success?, wire.trace)
      ensures r.Failure? ==> forall m | IsMotor(groups, m) :: CacheOf(m) == old(CacheOf(m))
    {
      ghost var read;
      r, read := TickInternal(target);
      if connected {
        TickVerifies(views, old(wire.trace), target, read, r.Success?, wire.trace);
        TickAdded(old(wire.trace), target, read, r.Success?, wire.trace);
        forall m | IsMotor(groups, m)
          ensures CacheOf(m) == Replay(views, wire.trace, m)
        {
          if r.Success? {
            ReplayTick(views, old(wire.trace), target, read, m);
          } else {
            ReplayKept(views, old(wire.trace), [TickBegan(target)] + read, m);
            assert wire.trace == old(wire.trace) + ([TickBegan(target)] + read);
          }
        }
      }
    }

    // -------------------------------------------------------------------------
    // Switching motors on and off

    /**
     Disables every motor, the last group first, up to the first failure; the groups
     below `reached` are not touched.
     */
    method Disable() returns (r: Result<(), Error>, ghost reached: nat)
      requires Valid() && FollowsLog()
      modifies wire, AllMotors()
      ensures FollowsLog()
      ensures !connected ==> r == Success(()) && wire.trace == old(wire.trace)
      ensures connected ==> reached <= |groups| && (r.Success? ==> reached == 0)
      ensures connected ==> forall m | IsMotor(groups, m) && m.group < reached :: CacheOf(m) == old(CacheOf(m))
      ensures connected ==> OffFrom(if r.Success? then 0 else reached + 1)
      ensures DisabledDownTo(old(wire.trace), wire.trace, 0)
    {
      reached := |groups|;
      if !connected {
        return Success(()), reached;
      }
      var g := |groups|;
      while g > 0
        invariant 0 <= g <= |groups| && FollowsLog() && DisabledDownTo(old(wire.trace), wire.trace, g)
        invariant forall m | IsMotor(groups, m) && m.group < g :: CacheOf(m) == old(CacheOf(m))
        invariant OffFrom(g)
      {
        g := g - 1;
        ghost var before := wire.trace;
        ghost var sent;
        r, sent := SwitchGroup(g, false);
        OneGroupLower(old(wire.trace), before, wire.trace, g);
        if r.Failure? {
          return r, g;
        }
      }
      r, reached := Success(()), 0;
    }

    /** No motor of a group from `g` on is flagged enabled. */
    ghost predicate OffFrom(g: nat)
      reads this, AllMotors()
    {
      forall m | IsMotor(groups, m) && g <= m.group :: !CacheOf(m).isEnabled
    }

    method SwitchGroup(g: nat, on: bool) returns (r: Result<(), Error>, ghost sent: nat)
      requires Valid() && FollowsLog() && g < |groups|
      modifies wire, groups[g].motors
      ensures FollowsLog()
      ensures Adds(old(wire.trace), wire.trace, Switching(g, on))
      ensures sent <= |groups[g].motors| && |wire.trace| == |old(wire.trace)| + sent
      ensures r.Success? <==> sent == |groups[g].motors|
      ensures forall m | IsMotor(groups, m) && m.group != g :: CacheOf(m) == old(CacheOf(m))
      ensures r.Success? ==> forall m | IsMotor(groups, m) && m.group == g :: CacheOf(m).isEnabled == on
      ensures r.Failure? ==>
        && !r.error.ModeNotVerified? && sent < |groups[g].motors|
        && groups[g].Thwarted(sent, SwitchIntent(on), old(wire.refused))
      ensures old(wire.refused) <= wire.refused
    {
      r, sent := groups[g].SwitchAll(on);
      ghost var intents := Repeated(sent, SwitchIntent(on));
      groups[g].SentIsBatch(old(wire.trace), wire.trace, intents);
      SwitchesInOrder(views, old(wire.trace), wire.trace, g, sent, on);
      forall m | IsMotor(groups, m)
        ensures CacheOf(m) == Switched(old(CacheOf(m)), m.group == g && m.index < sent, on)
      {
        assert At(groups, m).key == m;
      }
    }

    // -------------------------------------------------------------------------
    // Verifying modes

    /** A gripper with opening control on a damiao bus. */
    predicate NeedsVerifying(g: nat) {
      g < |groups| && groups[g].spec.Some? && groups[g].bus.codec.isDamiao && |groups[g].motors| == 1
    }

    function TargetOf(g: nat): Target
      requires g < |groups| && |groups[g].motors| == 1
    {
      Target(MotorKey(g, 0), groups[g].motors[0].Ref())
    }

    /** Asks for the mode register; an unsupported query sends nothing. */
    method Query(g: nat) returns (r: Result<bool, Error>)
      requires Valid() && FollowsLog() && NeedsVerifying(g)
      modifies wire
      ensures FollowsLog() && Adds(old(wire.trace), wire.trace, Probing)
      ensures forall t: Target :: Unanswered(views, t, wire.trace, |old(wire.trace)|, |wire.trace|)
      ensures old(wire.refused) <= wire.refused
      ensures r == Success(true) <==> wire.trace != old(wire.trace)
      ensures r == Success(true) ==>
        && |wire.trace| == |old(wire.trace)| + 1 && AsksMode(wire.trace[|old(wire.trace)|], MotorKey(g, 0))
        && groups[g].Encodes(0, QueryMode)
      ensures r == Success(false) ==> !groups[g].Encodes(0, QueryMode)
    {
      r := groups[g].SendTo(0, QueryMode);
      SilentTail(views, old(wire.trace), wire.trace);
    }

    /**
     Asks for the mode until a tick reports one, before every tick, and gives up
     at any point. The first mode reported ends it: it succeeds exactly when that
     is PosForce.
     */
    method VerifyMode(g: nat) returns (r: Result<(), Error>)
      requires Valid() && FollowsLog() && NeedsVerifying(g)
      modifies wire, AllMotors()
      ensures FollowsLog() && Adds(old(wire.trace), wire.trace, Probing)
      ensures forall t: Target :: Verified(views, t, wire.trace, |old(wire.trace)|, |wire.trace|) <==>
        r.Success? && t == TargetOf(g)
      ensures forall t: Target :: AnsweredLast(views, t, wire.trace, |old(wire.trace)|)
      ensures AskedFirst(MotorKey(g, 0), wire.trace, |old(wire.trace)|)
      ensures old(wire.refused) <= wire.refused
    {
      var sent := Query(g);
      UnansweredIsUnverified(views, wire.trace, |old(wire.trace)|);
      if sent.Failure? || !sent.value {
        return Failure(if sent.Failure? then sent.error else ModeNotVerified(g));
      }
      AskedAgain(MotorKey(g, 0), old(wire.trace), |old(wire.trace)|, wire.trace);
      var polls: nat :| polls >= 0;
      for k := 0 to polls
        invariant FollowsLog() && Adds(old(wire.trace), wire.trace, Probing)
        invariant forall t: Target :: Unanswered(views, t, wire.trace, |old(wire.trace)|, |wire.trace|)
        invariant groups[g].Encodes(0, QueryMode) && JustAsked(MotorKey(g, 0), wire.trace, |old(wire.trace)|)
        invariant old(wire.refused) <= wire.refused
      {
        ghost var before := wire.trace;
        var mode, sentAgain := PollMode(g, |old(wire.trace)|);
        AddsTwice(old(wire.trace), before, wire.trace, Probing);
        if mode.Failure? {
          return Failure(mode.error);
        }
        if mode.value.Some? {
          return if mode.value.value == POS_FORCE_MODE then Success(()) else Failure(ModeNotVerified(g));
        }
        if sentAgain.Failure? {
          UnansweredIsUnverified(views, wire.trace, |old(wire.trace)|);
          return Failure(sentAgain.error);
        }
      }
      UnansweredIsUnverified(views, wire.trace, |old(wire.trace)|);
      r := Failure(ModeNotVerified(g));
    }

    /** One tick for the mode, and the query again if no mode was reported. */
    method PollMode(g: nat, ghost start: nat) returns (mode: Result<Option<u32>, Error>, again: Result<bool, Error>)
      requires Valid() && FollowsLog() && NeedsVerifying(g) && start <= |wire.trace|
      requires forall t: Target :: Unanswered(views, t, wire.trace, start, |wire.trace|)
      requires groups[g].Encodes(0, QueryMode) && JustAsked(MotorKey(g, 0), wire.trace, start)
      modifies wire, AllMotors()
      ensures FollowsLog() && Adds(old(wire.trace), wire.trace, Probing)
      ensures forall t: Target :: Verified(views, t, wire.trace, start, |wire.trace|) <==>
        mode == Success(Some(POS_FORCE_MODE)) && t == TargetOf(g)
      ensures forall t: Target :: AnsweredLast(views, t, wire.trace, start)
      ensures mode.Failure? || mode.value.None? ==>
        forall t: Target :: Unanswered(views, t, wire.trace, start, |wire.trace|)
      ensures AskedFirst(MotorKey(g, 0), wire.trace, start)
      ensures mode == Success(None) && again.Success? ==> JustAsked(MotorKey(g, 0), wire.trace, start)
      ensures old(wire.refused) <= wire.refused
    {
      UnansweredIsUnverified(views, wire.trace, start);
      mode := Tick(Some(TargetOf(g)));
      again := Success(false);
      if connected {
        TickAsked(MotorKey(g, 0), old(wire.trace), start, Some(TargetOf(g)), mode.Success?, wire.trace);
      }
      AllVerifiedInParts(views, start, old(wire.trace), wire.trace);
      UnansweredInParts(views, start, old(wire.trace), wire.trace);
      if mode == Success(None) {
        ghost var before := wire.trace;
        again := AskAgain(g, start);
        AddsTwice(old(wire.trace), before, wire.trace, Probing);
      }
    }

    method AskAgain(g: nat, ghost start: nat) returns (again: Result<bool, Error>)
      requires Valid() && FollowsLog() && NeedsVerifying(g) && start <= |wire.trace|
      requires forall t: Target :: Unanswered(views, t, wire.trace, start, |wire.trace|)
      requires groups[g].Encodes(0, QueryMode) && AskedFirst(MotorKey(g, 0), wire.trace, start)
      modifies wire
      ensures FollowsLog() && Adds(old(wire.trace), wire.trace, Probing)
      ensures forall t: Target :: Unanswered(views, t, wire.trace, start, |wire.trace|)
      ensures forall t: Target ::
        !Verified(views, t, wire.trace, start, |wire.trace|) && AnsweredLast(views, t, wire.trace, start)
      ensures AskedFirst(MotorKey(g, 0), wire.trace, start)
      ensures again.Success? ==> JustAsked(MotorKey(g, 0), wire.trace, start)
      ensures old(wire.refused) <= wire.refused
    {
      again := Query(g);
      UnansweredInParts(views, start, old(wire.trace), wire.trace);
      UnansweredIsUnverified(views, wire.trace, start);
      if again.Success? {
        assert again.value;
        AskedAgain(MotorKey(g, 0), old(wire.trace), start, wire.trace);
      }
    }

    function ModeWrites(g: nat): seq<Observation>
      requires g < |groups|
    {
      groups[g].Queries(|groups[g].motors|, SetMode(PosForceMode))
    }

    /** Writes PosForce to the mode registers of a group, without waiting for an answer. */
    method SetPosForceMode(g: nat) returns (r: Result<(), Error>)
      requires Valid() && FollowsLog() && g < |groups|
      modifies wire
      ensures FollowsLog() && Adds(old(wire.trace), wire.trace, Only(g, SetMode(PosForceMode)))
      ensures r.Success? ==> wire.trace == old(wire.trace) + ModeWrites(g)
      ensures old(wire.trace) <= wire.trace <= old(wire.trace) + ModeWrites(g)
      ensures r.Failure? ==> !r.error.ModeNotVerified?
      ensures forall t: Target :: !Verified(views, t, wire.trace, |old(wire.trace)|, |wire.trace|)
      ensures old(wire.refused) <= wire.refused
    {
      ghost var reached;
      r, reached := groups[g].QueryAll(SetMode(PosForceMode));
      groups[g].QueriesPrefix(reached, |groups[g].motors|, SetMode(PosForceMode));
      SilentTail(views, old(wire.trace), wire.trace);
    }

    method SetAndVerify(g: nat) returns (r: Result<(), Error>)
      requires Valid() && FollowsLog() && NeedsVerifying(g)
      modifies wire, AllMotors()
      ensures FollowsLog() && Adds(old(wire.trace), wire.trace, Probing)
      ensures forall t: Target :: Verified(views, t, wire.trace, |old(wire.trace)|, |wire.trace|) <==>
        r.Success? && t == TargetOf(g)
      ensures r.Success? ==>
        && old(wire.trace) + ModeWrites(g) <= wire.trace
        && Verified(views, TargetOf(g), wire.trace, |old(wire.trace)| + |ModeWrites(g)|, |wire.trace|)
      ensures old(wire.refused) <= wire.refused
    {
      r := SetPosForceMode(g);
      if r.Success? {
        ghost var before := wire.trace;
        r := VerifyMode(g);
        AddsTwice(old(wire.trace), before, wire.trace, Probing);
        AllVerifiedInParts(views, |old(wire.trace)|, before, wire.trace);
      }
    }

    /** The gripper's mode was written, and then a tick reported it as PosForce. */
    ghost predicate Confirmed(g: nat, trace: seq<Observation>, start: nat, end: nat)
      requires g < |groups| && |groups[g].motors| == 1
      reads this
    {
      exists k: nat :: ConfirmedFrom(g, trace, start, end, k)
    }

    ghost predicate ConfirmedFrom(g: nat, trace: seq<Observation>, start: nat, end: nat, k: nat)
      requires g < |groups| && |groups[g].motors| == 1
      reads this
    {
      && start <= k <= |trace| && trace[..k] + ModeWrites(g) <= trace
      && Verified(views, TargetOf(g), trace, k + |ModeWrites(g)|, end)
    }

    ghost predicate VerifiedBelow(n: nat, trace: seq<Observation>, start: nat, end: nat)
      reads this
    {
      forall g: nat | g < n && NeedsVerifying(g) :: Confirmed(g, trace, start, end)
    }

    ghost predicate AllVerified(trace: seq<Observation>, start: nat, end: nat)
      reads this
    {
      VerifiedBelow(|groups|, trace, start, end)
    }

    lemma StillConfirmed(g: nat, trace: seq<Observation>, start: nat, trace': seq<Observation>, end': nat)
      requires g < |groups| && |groups[g].motors| == 1
      requires Confirmed(g, trace, start, |trace|) && trace <= trace' && |trace| <= end'
      ensures Confirmed(g, trace', start, end')
    {
      var k: nat :| ConfirmedFrom(g, trace, start, |trace|, k);
      VerifiedInParts(views, TargetOf(g), k + |ModeWrites(g)|, trace, trace');
      assert trace'[..k] == trace[..k];
      assert ConfirmedFrom(g, trace', start, end', k);
    }

    lemma StillVerified(n: nat, trace: seq<Observation>, start: nat, trace': seq<Observation>, end': nat)
      requires start <= |trace| && n <= |groups| && VerifiedBelow(n, trace, start, |trace|)
      requires trace <= trace' && |trace| <= end'
      ensures VerifiedBelow(n, trace', start, end')
    {
      forall g: nat | g < n && NeedsVerifying(g)
        ensures Confirmed(g, trace', start, end')
      {
        StillConfirmed(g, trace, start, trace', end');
      }
    }

    /** A gripper that no tick verified is not confirmed. */
    lemma UnverifiedIsUnconfirmed(g: nat, trace: seq<Observation>, start: nat)
      requires NeedsVerifying(g) && !Verified(views, TargetOf(g), trace, start, |trace|)
      ensures !Confirmed(g, trace, start, |trace|)
    {
      forall k: nat | start <= k
        ensures !ConfirmedFrom(g, trace, start, |trace|, k)
      {
        VerifiedEarlier(views, TargetOf(g), trace, start, k + |ModeWrites(g)|, |trace|);
      }
    }

    lemma NowConfirmed(g: nat, start: nat, before: seq<Observation>, after: seq<Observation>)
      requires g < |groups| && |groups[g].motors| == 1
      requires start <= |before| && before + ModeWrites(g) <= after
      requires Verified(views, TargetOf(g), after, |before| + |ModeWrites(g)|, |after|)
      ensures Confirmed(g, after, start, |after|)
    {
      assert after[..|before|] == before;
      assert ConfirmedFrom(g, after, start, |after|, |before|);
    }

    /**
     Sets and reads back the mode of every gripper that needs it, before anything
     is enabled. It succeeds exactly when the log shows every one verified.
     */
    method VerifyAll() returns (r: Result<(), Error>)
      requires Valid() && FollowsLog()
      modifies wire, AllMotors()
      ensures FollowsLog() && Adds(old(wire.trace), wire.trace, Probing)
      ensures r.Success? <==> AllVerified(wire.trace, |old(wire.trace)|, |wire.trace|)
      ensures old(wire.refused) <= wire.refused
    {
      for g := 0 to |groups|
        invariant old(wire.refused) <= wire.refused
        invariant FollowsLog() && Adds(old(wire.trace), wire.trace, Probing)
        invariant VerifiedBelow(g, wire.trace, |old(wire.trace)|, |wire.trace|)
        invariant forall t: Target | g <= t.motor.group ::
          !Verified(views, t, wire.trace, |old(wire.trace)|, |wire.trace|)
      {
        if groups[g].spec.Some? && groups[g].bus.codec.isDamiao {
          ghost var before := wire.trace;
          r := SetAndVerify(g);
          AddsTwice(old(wire.trace), before, wire.trace, Probing);
          AllVerifiedInParts(views, |old(wire.trace)|, before, wire.trace);
          if r.Failure? {
            UnverifiedIsUnconfirmed(g, wire.trace, |old(wire.trace)|);
            return;
          }
          StillVerified(g, before, |old(wire.trace)|, wire.trace, |wire.trace|);
          NowConfirmed(g, |old(wire.trace)|, before, wire.trace);
        }
      }
      r := Success(());
    }

    // -------------------------------------------------------------------------
    // Calibrating

    function Jaw(g: nat): Motor
      requires g < |groups| && |groups[g].motors| == 1
    {
      groups[g].motors[0]
    }

    lemma JawFollowsLog(g: nat)
      requires Valid() && FollowsLog() && g < |groups| && groups[g].spec.Some?
      ensures Jaw(g).position == PositionIn(views, wire.trace, g) && Jaw(g).sequence == SequenceIn(views, wire.trace, g)
    {
      assert IsMotor(groups, MotorKey(g, 0));
    }

    /** Asks for the gripper's state until its motor has reported one. */
    method RefreshFeedback(g: nat) returns (r: Result<(), Error>)
      requires Valid() && FollowsLog() && g < |groups| && groups[g].spec.Some?
      modifies wire, AllMotors()
      ensures FollowsLog() && Adds(old(wire.trace), wire.trace, Only(g, Refresh))
      ensures r.Success? ==> SequenceIn(views, wire.trace, g) != SequenceIn(views, old(wire.trace), g)
      ensures r.Failure? ==> SequenceIn(views, wire.trace, g) == SequenceIn(views, old(wire.trace), g)
      ensures r.Success? ==> NothingFailed(old(wire.trace), old(wire.refused))
      ensures r.Failure? ==> !r.error.ModeNotVerified?
      ensures old(wire.refused) <= wire.refused
    {
      JawFollowsLog(g);
      var initial := Jaw(g).sequence;
      var polls: nat :| polls >= 0;
      for k := 0 to polls
        invariant FollowsLog() && Adds(old(wire.trace), wire.trace, Only(g, Refresh))
        invariant Jaw(g).sequence == initial && NothingFailed(old(wire.trace), old(wire.refused))
      {
        r := RefreshAndTick(g);
        if r.Failure? {
          JawFollowsLog(g);
          return;
        }
        if Jaw(g).sequence != initial {
          JawFollowsLog(g);
          return Success(());
        }
      }
      JawFollowsLog(g);
      r := Failure(NoFreshFeedback(g));
    }

    method RefreshAndTick(g: nat) returns (r: Result<(), Error>)
      requires Valid() && FollowsLog() && g < |groups|
      modifies wire, AllMotors()
      ensures FollowsLog() && Adds(old(wire.trace), wire.trace, Only(g, Refresh))
      ensures r.Failure? ==> !r.error.ModeNotVerified? && forall m | IsMotor(groups, m) :: CacheOf(m) == old(CacheOf(m))
      ensures r.Success? ==> NothingFailed(old(wire.trace), old(wire.refused))
      ensures old(wire.refused) <= wire.refused
    {
      ghost var reached;
      r, reached := groups[g].QueryAll(Refresh);
      SilentTail(views, old(wire.trace), wire.trace);
      if r.Success? {
        ghost var before := wire.trace;
        var mode := Tick(None);
        r := if mode.Failure? then Failure(mode.error) else Success(());
        if r.Success? {
          TickFails(before, None, true, wire.trace);
        }
      }
    }

    /** Pushes the gripper towards one target for as long as the dwell lasts, and reports where it got to. */
    method CalibrateEndpoint(g: nat, start: real, direction: real) returns (r: Result<real, Error>)
      requires Valid() && FollowsLog() && g < |groups| && groups[g].spec.Some?
      requires start == Jaw(g).position
      modifies wire, AllMotors()
      ensures FollowsLog()
      ensures start == PositionIn(views, old(wire.trace), g)
      ensures Adds(old(wire.trace), wire.trace, Driving(g, groups[g].spec.value, Ahead(start, direction)))
      ensures r.Success? ==> r.value == Jaw(g).position == PositionIn(views, wire.trace, g)
      ensures r.Success? ==> NothingFailed(old(wire.trace), old(wire.refused))
      ensures r.Failure? ==> !r.error.ModeNotVerified?
      ensures old(wire.refused) <= wire.refused
    {
      JawFollowsLog(g);
      var target := Ahead(start, direction);
      var measured := start;
      var ticks: nat :| ticks >= 0;
      for k := 0 to ticks
        invariant FollowsLog() && Adds(old(wire.trace), wire.trace, Driving(g, groups[g].spec.value, target))
        invariant measured == Jaw(g).position
        invariant NothingFailed(old(wire.trace), old(wire.refused))
      {
        var done := PushAndTick(g, target);
        if done.Failure? {
          return Failure(done.error);
        }
        measured := Jaw(g).position;
      }
      JawFollowsLog(g);
      r := Success(measured);
    }

    method PushAndTick(g: nat, target: real) returns (r: Result<(), Error>)
      requires Valid() && FollowsLog() && g < |groups| && groups[g].spec.Some?
      modifies wire, AllMotors()
      ensures FollowsLog() && Adds(old(wire.trace), wire.trace, Driving(g, groups[g].spec.value, target))
      ensures r.Success? ==> NothingFailed(old(wire.trace), old(wire.refused))
      ensures r.Failure? ==> !r.error.ModeNotVerified?
      ensures old(wire.refused) <= wire.refused
    {
      r := groups[g].CalibrationCommand(target);
      SilentTail(views, old(wire.trace), wire.trace);
      if r.Success? {
        ghost var before := wire.trace;
        var mode := Tick(None);
        r := if mode.Failure? then Failure(mode.error) else Success(());
        if r.Success? {
          TickFails(before, None, true, wire.trace);
        }
      }
    }

    /** Closes, then opens, and reports where the log puts the motor after each. */
    method CloseAndOpen(g: nat) returns (r: Result<Opening.Calibration, Error>, ghost shut: seq<Observation>)
      requires Valid() && FollowsLog() && g < |groups| && groups[g].spec.Some?
      modifies wire, AllMotors()
      ensures FollowsLog()
      ensures ThereAndBack(views, g, groups[g].spec.value, old(wire.trace), shut, wire.trace)
      ensures r.Success? ==> r.value == MeasuredAs(views, g, groups[g].spec.value, shut, wire.trace).calibration.value
      ensures r.Success? ==> NothingFailed(old(wire.trace), old(wire.refused))
      ensures r.Failure? ==> !r.error.ModeNotVerified?
      ensures old(wire.refused) <= wire.refused
    {
      var sign := Opening.Sign(groups[g].spec.value.direction);
      var start := Jaw(g).position;
      var closed := CalibrateEndpoint(g, start, -sign);
      shut := wire.trace;
      if closed.Failure? {
        StrokeAsRun(views, g, groups[g].spec.value, old(wire.trace), shut, shut, start, PositionIn(views, shut, g));
        return Failure(closed.error), shut;
      }
      var open := CalibrateEndpoint(g, closed.value, sign);
      StrokeAsRun(views, g, groups[g].spec.value, old(wire.trace), shut, wire.trace, start, closed.value);
      r := if open.Failure? then Failure(open.error) else Success(Opening.Calibration(closed.value, open.value));
    }

    /** Measures a stroke from fresh feedback. */
    method MeasureStroke(g: nat) returns (r: Result<Opening.Calibration, Error>, ghost refreshed: seq<Observation>,
                                          ghost shut: seq<Observation>)
      requires Valid() && FollowsLog() && g < |groups| && groups[g].spec.Some?
      modifies wire, AllMotors()
      ensures FollowsLog()
      ensures Stroke(views, g, groups[g].spec.value, old(wire.trace), refreshed, shut, wire.trace)
      ensures r.Success? ==> SequenceIn(views, refreshed, g) != SequenceIn(views, old(wire.trace), g)
      ensures r.Success? ==> r.value == MeasuredAs(views, g, groups[g].spec.value, shut, wire.trace).calibration.value
      ensures r.Success? ==> NothingFailed(old(wire.trace), old(wire.refused))
      ensures r.Failure? ==> !r.error.ModeNotVerified?
      ensures old(wire.refused) <= wire.refused
    {
      var asked := RefreshFeedback(g);
      refreshed, shut := wire.trace, wire.trace;
      if asked.Failure? {
        return Failure(asked.error), refreshed, shut;
      }
      r, shut := CloseAndOpen(g);
    }

    /**
     Measures a gripper's stroke and keeps it, unless it is too short; a failure leaves
     the gripper without a calibration.
     */
    method CalibrateOpening(g: nat) returns (r: Result<(), Error>)
      requires Valid() && FollowsLog() && g < |groups| && groups[g].spec.Some?
      modifies wire, AllMotors(), groups[g]
      ensures Valid() && FollowsLog()
      ensures HasStroke(views, g, groups[g].spec.value, old(wire.trace), wire.trace)
      ensures r.Failure? ==> groups[g].opening == groups[g].Uncalibrated() && !r.error.ModeNotVerified?
      ensures r.Success? ==>
        JustMeasured(views, g, groups[g].spec.value, groups[g].opening, old(wire.trace), wire.trace)
      ensures old(wire.refused) <= wire.refused
    {
      groups[g].ClearCalibration();
      ghost var spec, refreshed, shut := groups[g].spec.value, wire.trace, wire.trace;
      var measured;
      measured, refreshed, shut := MeasureStroke(g);
      if measured.Failure? {
        return Failure(measured.error);
      }
      r := Remember(g, measured.value);
      if r.Success? {
        assert groups[g].opening == Some(MeasuredAs(views, g, spec, shut, wire.trace));
      }
    }

    /** Keeps a measured stroke, unless it is too short. */
    method Remember(g: nat, measured: Opening.Calibration) returns (r: Result<(), Error>)
      requires Valid() && FollowsLog() && g < |groups| && groups[g].spec.Some?
      modifies groups[g]
      ensures Valid() && FollowsLog()
      ensures r.Failure? ==> groups[g].opening == old(groups[g].opening) && !r.error.ModeNotVerified?
      ensures r.Success? ==> groups[g].opening == Some(Opening.Control(groups[g].spec.value, Some(measured)))
    {
      r := groups[g].SetCalibration(measured.closed, measured.open);
    }

    // -------------------------------------------------------------------------
    // Enabling everything

    function Openings(): (r: seq<Option<Opening.Control>>)
      reads groups
      ensures |r| == |groups|
      ensures forall g | 0 <= g < |r| :: r[g] == groups[g].opening
    {
      seq(|groups|, g requires 0 <= g < |groups| reads groups => groups[g].opening)
    }

    /** The group's motors were last sent an enable. */
    ghost predicate SwitchedOn(g: nat, trace: seq<Observation>)
      requires g < |groups|
    {
      forall i | 0 <= i < |groups[g].motors| :: LastSwitch(trace, MotorKey(g, i))
    }

    ghost predicate SameSwitches(g: nat, before: seq<Observation>, after: seq<Observation>)
      requires g < |groups|
    {
      forall i | 0 <= i < |groups[g].motors| :: LastSwitch(after, MotorKey(g, i)) == LastSwitch(before, MotorKey(g, i))
    }

    lemma OthersSame(g: nat, before: seq<Observation>, after: seq<Observation>)
      requires g < |groups| && Adds(before, after, To(g))
      ensures forall h | 0 <= h < |groups| && h != g :: SameSwitches(h, before, after)
    {
      OtherGroupsKeepSwitches(g, before, after);
      forall h: nat | h < |groups| && h != g
        ensures SameSwitches(h, before, after)
      {
        assert forall i | 0 <= i < |groups[h].motors| :: MotorKey(h, i).group != g;
      }
    }

    /** The mode writes that come before a group is enabled. */
    function Writes(g: nat): (r: seq<Observation>)
      requires g < |groups|
    {
      if groups[g].spec.Some? && !groups[g].bus.codec.isDamiao then ModeWrites(g) else []
    }

    /** One group was enabled, or failed to be: what was sent, and what became of its opening control. */
    ghost predicate RunOf(g: nat, ok: bool, opening: Option<Opening.Control>, opening': Option<Opening.Control>,
                          before: seq<Observation>, after: seq<Observation>)
      requires g < |groups|
      reads this
    {
      GroupRun(views, g, |groups[g].motors|, groups[g].spec, Writes(g), ok, opening, opening', before, after)
    }

    lemma WritesWrite(g: nat)
      requires g < |groups| && groups[g].index == g
      ensures WriteMode(g, Writes(g))
    {
    }

    /** The gripper is disabled, or the codec has no frame for that, or the transport has refused it since. */
    ghost predicate CutOff(g: nat, refused: seq<Refusal>)
      requires g < |groups| && |groups[g].motors| == 1
      reads this, wire
    {
      || !LastSwitch(wire.trace, MotorKey(g, 0))
      || !groups[g].Encodes(0, Wires.Disable)
      || (refused < wire.refused && wire.refused[|wire.refused| - 1] == Refusal(MotorKey(g, 0), Wires.Disable))
    }

    /** A gripper that was enabled since point `start` of the log is cut off again. */
    ghost predicate Released(g: nat, start: nat, refused: seq<Refusal>)
      requires g < |groups| && (groups[g].spec.Some? ==> |groups[g].motors| == 1)
      reads this, wire
    {
      groups[g].spec.Some? && EnabledSince(g, wire.trace, start) ==> CutOff(g, refused)
    }

    /**
     Calibrates an enabled gripper; on failure drops the calibration and tries to
     disable the gripper again.
     */
    method CalibrateOrDisable(g: nat) returns (r: Result<(), Error>, ghost stroked: seq<Observation>)
      requires Valid() && FollowsLog() && g < |groups| && groups[g].spec.Some? && SwitchedOn(g, wire.trace)
      modifies wire, AllMotors(), groups[g]
      ensures Valid() && FollowsLog() && old(wire.trace) <= stroked <= wire.trace
      ensures r.Success? ==> stroked == wire.trace && SwitchedOn(g, wire.trace)
      ensures r.Success? ==>
        JustMeasured(views, g, groups[g].spec.value, groups[g].opening, old(wire.trace), wire.trace)
      ensures r.Failure? ==>
        && groups[g].opening == groups[g].Uncalibrated() && !r.error.ModeNotVerified?
        && HasStroke(views, g, groups[g].spec.value, old(wire.trace), stroked)
        && Adds(stroked, wire.trace, Switching(g, false))
      ensures r.Failure? ==> CutOff(g, old(wire.refused))
      ensures old(wire.refused) <= wire.refused
    {
      r := CalibrateOpening(g);
      stroked := wire.trace;
      StrokeIsInert(views, g, groups[g].spec.value, old(wire.trace), wire.trace);
      InertTail(old(wire.trace), wire.trace);
      if r.Failure? {
        LetGo(g);
      }
    }

    /** Drops a gripper's calibration and tries to disable it, whatever comes of that. */
    method LetGo(g: nat)
      requires Valid() && FollowsLog() && g < |groups| && groups[g].spec.Some?
      modifies wire, groups[g].motors, groups[g]
      ensures Valid() && FollowsLog() && groups[g].opening == groups[g].Uncalibrated()
      ensures Adds(old(wire.trace), wire.trace, Switching(g, false))
      ensures !LastSwitch(wire.trace, MotorKey(g, 0)) || groups[g].Thwarted(0, Wires.Disable, old(wire.refused))
      ensures old(wire.refused) <= wire.refused
    {
      groups[g].ClearCalibration();
      TryDisable(g);
    }

    method TryDisable(g: nat)
      requires Valid() && FollowsLog() && g < |groups| && groups[g].spec.Some?
      modifies wire, groups[g].motors
      ensures FollowsLog() && Adds(old(wire.trace), wire.trace, Switching(g, false))
      ensures !LastSwitch(wire.trace, MotorKey(g, 0)) || groups[g].Thwarted(0, Wires.Disable, old(wire.refused))
      ensures old(wire.refused) <= wire.refused
    {
      ghost var sent;
      var ignored;
      ignored, sent := SwitchGroup(g, false);
      assert IsMotor(groups, MotorKey(g, 0));
      FlagOf(MotorKey(g, 0));
    }

    lemma FlagOf(m: MotorKey)
      requires FollowsLog() && IsMotor(groups, m)
      ensures CacheOf(m).isEnabled == LastSwitch(wire.trace, m)
    {
      FlagIsLastSwitch(views, wire.trace, m);
    }

    /** Enables a group's motors, after writing the mode of a gripper whose mode cannot be read back. */
    method SwitchOn(g: nat) returns (r: Result<(), Error>, ghost moded: seq<Observation>)
      requires Valid() && FollowsLog() && g < |groups|
      modifies wire, AllMotors()
      ensures FollowsLog()
      ensures SwitchingOn(g, |groups[g].motors|, Writes(g), old(wire.trace), moded, wire.trace)
      ensures r.Success? <==> |wire.trace| == |moded| + |groups[g].motors|
      ensures r.Success? ==> SwitchedOn(g, wire.trace)
      ensures r.Failure? ==> !r.error.ModeNotVerified?
      ensures old(wire.refused) <= wire.refused
    {
      moded := wire.trace;
      if groups[g].spec.Some? && !groups[g].bus.codec.isDamiao {
        r := SetPosForceMode(g);
        moded := wire.trace;
        if r.Failure? {
          return;
        }
      }
      ghost var sent;
      r, sent := SwitchGroup(g, true);
      if r.Success? {
        NowSwitchedOn(g);
      }
    }

    lemma NowSwitchedOn(g: nat)
      requires FollowsLog() && g < |groups|
      requires forall m | IsMotor(groups, m) && m.group == g :: CacheOf(m).isEnabled
      ensures SwitchedOn(g, wire.trace)
    {
      FlagsFollowLog();
      assert forall i | 0 <= i < |groups[g].motors| :: IsMotor(groups, MotorKey(g, i));
    }

    /** Enables one group, and calibrates it if it has opening control. */
    method EnableGroup(g: nat) returns (r: Result<(), Error>)
      requires Valid() && FollowsLog() && g < |groups|
      modifies wire, AllMotors(), groups[g]
      ensures Valid() && FollowsLog()
      ensures RunOf(g, r.Success?, old(groups[g].opening), groups[g].opening, old(wire.trace), wire.trace)
      ensures r.Success? ==> SwitchedOn(g, wire.trace)
      ensures r.Failure? ==> !r.error.ModeNotVerified? && Released(g, |old(wire.trace)|, old(wire.refused))
      ensures old(wire.refused) <= wire.refused
    {
      ghost var moded;
      r, moded := SwitchOn(g);
      ghost var enabled, stroked := wire.trace, wire.trace;
      if r.Success? && groups[g].spec.Some? {
        r, stroked := CalibrateOrDisable(g);
      } else if r.Failure? && groups[g].spec.Some? {
        WritesWrite(g);
        NothingSwitchedOn(g, |groups[g].motors|, Writes(g), old(wire.trace), moded, wire.trace);
      }
      assert RunInPhases(views, g, |groups[g].motors|, groups[g].spec, Writes(g), r.Success?,
                         old(groups[g].opening), groups[g].opening,
                         old(wire.trace), moded, enabled, stroked, wire.trace);
    }

    /** Anything but probing was sent only once every gripper that needs it had been verified. */
    ghost predicate VerifiedFirst(before: seq<Observation>, after: seq<Observation>)
      reads this
    {
      forall i | |before| <= i < |after| && !Probing(after[i]) :: AllVerified(after, |before|, i)
    }

    lemma VerifiedBeforeTheRest(before: seq<Observation>, verified: seq<Observation>, after: seq<Observation>)
      requires Adds(before, verified, Probing) && AllVerified(verified, |before|, |verified|) && verified <= after
      ensures VerifiedFirst(before, after) && AllVerified(after, |before|, |after|)
    {
      forall i | |verified| <= i <= |after|
        ensures AllVerified(after, |before|, i)
      {
        StillVerified(|groups|, verified, |before|, after, i);
      }
    }

    static predicate Ascending(points: seq<nat>) {
      forall i, j | 0 <= i <= j < |points| :: points[i] <= points[j]
    }

    /**
     Groups enabled one after the other, from point to point of the log: all but
     possibly the last succeeded, and nothing came between them or after them.
     */
    ghost predicate Chain(reached: nat, points: seq<nat>, openings: seq<Option<Opening.Control>>,
                          openings': seq<Option<Opening.Control>>, trace: seq<Observation>)
      requires |groups| == |openings| == |openings'|
      reads this
    {
      && 0 < |points| <= |groups| + 1 && reached <= |points| - 1 <= reached + 1
      && Ascending(points) && points[|points| - 1] == |trace|
      && (forall g | 0 <= g < |points| - 1 :: LinkOf(g, g < reached, points, openings[g], openings'[g], trace))
      && (forall g | |points| - 1 <= g < |groups| :: openings'[g] == openings[g])
    }

    ghost predicate LinkOf(g: nat, ok: bool, points: seq<nat>, opening: Option<Opening.Control>,
                           opening': Option<Opening.Control>, trace: seq<Observation>)
      requires g < |groups| && g + 1 < |points|
      reads this
    {
      && points[g] <= points[g + 1] <= |trace|
      && RunOf(g, ok, opening, opening', trace[..points[g]], trace[..points[g + 1]])
    }

    lemma OneMoreLink(g: nat, ok: bool, points: seq<nat>, openings: seq<Option<Opening.Control>>,
                      openings': seq<Option<Opening.Control>>, openings'': seq<Option<Opening.Control>>,
                      trace: seq<Observation>, trace': seq<Observation>)
      requires g < |groups| == |openings| == |openings'| == |openings''|
      requires Chain(g, points, openings, openings', trace) && |points| == g + 1
      requires RunOf(g, ok, openings'[g], openings''[g], trace, trace') && trace <= trace'
      requires forall h | 0 <= h < |groups| && h != g :: openings''[h] == openings'[h]
      ensures Chain(if ok then g + 1 else g, points + [|trace'|], openings, openings'', trace')
    {
      var points' := points + [|trace'|];
      forall h: nat | h < g
        ensures LinkOf(h, true, points', openings[h], openings''[h], trace')
      {
        assert LinkOf(h, true, points, openings[h], openings'[h], trace);
        assert trace'[..points[h]] == trace[..points[h]] && trace'[..points[h + 1]] == trace[..points[h + 1]];
      }
      assert trace'[..points'[g]] == trace && trace'[..points'[g + 1]] == trace';
      assert LinkOf(g, ok, points', openings[g], openings''[g], trace');
    }

    /** The groups before `reached` are switched on and the others keep their last switch, but for one that failed. */
    ghost predicate Switches(reached: nat, touched: nat, trace: seq<Observation>, trace': seq<Observation>) {
      && reached <= |groups|
      && (forall g | 0 <= g < reached :: SwitchedOn(g, trace'))
      && (forall g | touched <= g < |groups| :: SameSwitches(g, trace, trace'))
    }

    lemma OneMoreSwitched(g: nat, ok: bool, start: seq<Observation>, trace: seq<Observation>, trace': seq<Observation>)
      requires g < |groups| && Switches(g, g, start, trace)
      requires Adds(trace, trace', To(g)) && (ok ==> SwitchedOn(g, trace'))
      ensures Switches(if ok then g + 1 else g, g + 1, start, trace')
    {
      OthersSame(g, trace, trace');
      forall h | 0 <= h < |groups| && h != g
        ensures SwitchedOn(h, trace) ==> SwitchedOn(h, trace')
        ensures SameSwitches(h, start, trace) ==> SameSwitches(h, start, trace')
      {
        assert SameSwitches(h, trace, trace');
      }
    }

    /** A chain since `start`, with what it made of the switches. */
    ghost predicate Progress(reached: nat, points: seq<nat>, openings: seq<Option<Opening.Control>>,
                             openings': seq<Option<Opening.Control>>, start: seq<Observation>, trace: seq<Observation>)
      requires |groups| == |openings| == |openings'|
      reads this
    {
      && Chain(reached, points, openings, openings', trace)
      && points[0] == |start| && start <= trace
      && Switches(reached, reached + 1, start, trace)
    }

    lemma OneMoreGroup(g: nat, ok: bool, points: seq<nat>, openings: seq<Option<Opening.Control>>,
                       openings': seq<Option<Opening.Control>>, openings'': seq<Option<Opening.Control>>,
                       start: seq<Observation>, trace: seq<Observation>, trace': seq<Observation>)
      requires Valid() && g < |groups| == |openings| == |openings'| == |openings''| && |points| == g + 1
      requires Progress(g, points, openings, openings', start, trace) && Switches(g, g, start, trace)
      requires RunOf(g, ok, openings'[g], openings''[g], trace, trace') && (ok ==> SwitchedOn(g, trace'))
      requires forall h | 0 <= h < |groups| && h != g :: openings''[h] == openings'[h]
      ensures Progress(if ok then g + 1 else g, points + [|trace'|], openings, openings'', start, trace')
      ensures ok ==> Switches(g + 1, g + 1, start, trace')
    {
      RunStays(g, ok, openings'[g], openings''[g], trace, trace');
      OneMoreSwitched(g, ok, start, trace, trace');
      OneMoreLink(g, ok, points, openings, openings', openings'', trace, trace');
    }

    /** Adds one group to the chain. */
    method EnableNext(g: nat, ghost points: seq<nat>, ghost openings: seq<Option<Opening.Control>>,
                      ghost start: seq<Observation>) returns (r: Result<(), Error>)
      requires Valid() && FollowsLog() && g < |groups| == |openings| && |points| == g + 1
      requires Progress(g, points, openings, Openings(), start, wire.trace) && Switches(g, g, start, wire.trace)
      modifies wire, AllMotors(), groups
      ensures Valid() && FollowsLog()
      ensures
        Progress(if r.Success? then g + 1 else g, points + [|wire.trace|], openings, Openings(), start, wire.trace)
      ensures r.Success? ==> Switches(g + 1, g + 1, start, wire.trace)
      ensures r.Failure? ==> !r.error.ModeNotVerified? && Released(g, points[g], old(wire.refused))
      ensures old(wire.refused) <= wire.refused
    {
      ghost var before, openings' := wire.trace, Openings();
      r := EnableGroup(g);
      OneMoreGroup(g, r.Success?, points, openings, openings', Openings(), start, before, wire.trace);
    }

    /** Enables the groups in order, up to the first failure. */
    method EnableInOrder() returns (r: Result<(), Error>, ghost reached: nat, ghost points: seq<nat>)
      requires Valid() && FollowsLog()
      modifies wire, AllMotors(), groups
      ensures Valid() && FollowsLog()
      ensures Progress(reached, points, old(Openings()), Openings(), old(wire.trace), wire.trace)
      ensures if r.Success? then reached == |groups| else reached < |groups| && |points| == reached + 2
      ensures r.Failure? ==> !r.error.ModeNotVerified? && Released(reached, points[reached], old(wire.refused))
    {
      points := [|wire.trace|];
      NothingEnabled(Openings(), wire.trace, wire.trace);
      for g := 0 to |groups|
        invariant Valid() && FollowsLog()
        invariant Progress(g, points, old(Openings()), Openings(), old(wire.trace), wire.trace)
        invariant |points| == g + 1 && Switches(g, g, old(wire.trace), wire.trace)
        invariant old(wire.refused) <= wire.refused
      {
        r := EnableNext(g, points, old(Openings()), old(wire.trace));
        points := points + [|wire.trace|];
        if r.Failure? {
          return r, g, points;
        }
      }
      r, reached := Success(()), |groups|;
    }

    /** What a failure leaves, and what a success brings, as far as the opening control goes. */
    lemma RunStays(g: nat, ok: bool, opening: Option<Opening.Control>, opening': Option<Opening.Control>,
                   before: seq<Observation>, after: seq<Observation>)
      requires Valid() && g < |groups| && RunOf(g, ok, opening, opening', before, after)
      ensures Adds(before, after, To(g))
      ensures !ok ==> opening' == opening || opening' == groups[g].Uncalibrated()
      ensures ok && groups[g].spec.Some? ==> opening'.Some? && opening'.value.calibration.Some?
    {
      WritesWrite(g);
      RunStaysInGroup(views, g, |groups[g].motors|, groups[g].spec, Writes(g), ok, opening, opening', before, after);
    }

    /**
     Probing, then a chain of group runs to the end of the log. Nothing but
     probing before every gripper was verified, and no command but those of
     calibration; the groups before `reached` end up switched on and calibrated,
     the one at `reached` with its old calibration or none, and those after it
     are as they were.
     */
    ghost predicate EnabledInTurn(reached: nat, points: seq<nat>, openings: seq<Option<Opening.Control>>,
                                  openings': seq<Option<Opening.Control>>, before: seq<Observation>,
                                  after: seq<Observation>)
      requires |groups| == |openings| == |openings'|
      reads this
    {
      && Chain(reached, points, openings, openings', after)
      && |before| <= points[0] <= |after| && Adds(before, after[..points[0]], Probing)
      && VerifiedFirst(before, after) && OnlyCalibrates(before, after)
      && Switches(reached, reached + 1, before, after)
      && (forall g | 0 <= g < reached && groups[g].spec.Some? ::
          openings'[g].Some? && openings'[g].value.calibration.Some?)
      && (reached < |groups| ==>
            openings'[reached] == openings[reached] || openings'[reached] == groups[reached].Uncalibrated())
    }

    /**
     Verifies every gripper, then enables the groups in order. If verification
     fails, which the log shows, nothing but probing was sent and no calibration
     changed. On a later failure the groups before `reached` stay enabled, and a
     gripper at `reached` that had been enabled is cut off again.
     */
    method Enable() returns (r: Result<(), Error>, ghost reached: nat, ghost points: seq<nat>)
      requires Valid() && FollowsLog()
      modifies wire, AllMotors(), groups
      ensures Valid() && FollowsLog() && old(wire.trace) <= wire.trace
      ensures !connected ==> r == Failure(NotConnected) && wire.trace == old(wire.trace)
      ensures r.Failure? && r.error.ModeNotVerified? ==> !AllVerified(wire.trace, |old(wire.trace)|, |wire.trace|)
      ensures !AllVerified(wire.trace, |old(wire.trace)|, |wire.trace|) ==>
        r.Failure? && Adds(old(wire.trace), wire.trace, Probing) && Openings() == old(Openings())
      ensures EnabledInTurn(reached, points, old(Openings()), Openings(), old(wire.trace), wire.trace)
      ensures r.Success? ==> reached == |groups|
      ensures r.Failure? && reached < |points| - 1 ==> Released(reached, points[reached], old(wire.refused))
    {
      reached, points := 0, [|wire.trace|];
      if !connected {
        NothingEnabled(Openings(), wire.trace, wire.trace);
        return Failure(NotConnected), reached, points;
      }
      r := VerifyAll();
      points := [|wire.trace|];
      if r.Failure? {
        NothingEnabled(Openings(), old(wire.trace), wire.trace);
        return;
      }
      r, reached, points := EnableVerified(old(wire.trace), old(Openings()), old(wire.refused));
    }

    /** Enables the groups in order, after a verification since `start`. */
    method EnableVerified(ghost start: seq<Observation>, ghost openings: seq<Option<Opening.Control>>,
                          ghost refused: seq<Refusal>)
      returns (r: Result<(), Error>, ghost reached: nat, ghost points: seq<nat>)
      requires Valid() && FollowsLog() && Openings() == openings && refused <= wire.refused
      requires Adds(start, wire.trace, Probing) && AllVerified(wire.trace, |start|, |wire.trace|)
      modifies wire, AllMotors(), groups
      ensures Valid() && FollowsLog() && AllVerified(wire.trace, |start|, |wire.trace|)
      ensures EnabledInTurn(reached, points, openings, Openings(), start, wire.trace)
      ensures r.Success? ==> reached == |groups|
      ensures r.Failure? ==> !r.error.ModeNotVerified?
      ensures r.Failure? && reached < |points| - 1 ==> Released(reached, points[reached], refused)
    {
      ghost var verified := wire.trace;
      r, reached, points := EnableInOrder();
      ChainSince(reached, points, openings, Openings(), start, verified, wire.trace);
    }

    lemma ChainSince(reached: nat, points: seq<nat>, openings: seq<Option<Opening.Control>>,
                     openings': seq<Option<Opening.Control>>, before: seq<Observation>, verified: seq<Observation>,
                     after: seq<Observation>)
      requires Valid() && |groups| == |openings| == |openings'|
      requires Progress(reached, points, openings, openings', verified, after)
      requires Adds(before, verified, Probing) && AllVerified(verified, |before|, |verified|)
      ensures EnabledInTurn(reached, points, openings, openings', before, after)
      ensures AllVerified(after, |before|, |after|)
    {
      assert after[..points[0]] == verified;
      VerifiedBeforeTheRest(before, verified, after);
      SwitchesSince(reached, before, verified, after);
      ChainOpenings(reached, points, openings, openings', after);
      ChainCalibrates(reached, points, openings, openings', before, after);
    }

    lemma NothingEnabled(openings: seq<Option<Opening.Control>>, before: seq<Observation>, after: seq<Observation>)
      requires |groups| == |openings| && Adds(before, after, Probing)
      ensures EnabledInTurn(0, [|after|], openings, openings, before, after)
      ensures Switches(0, 0, before, after)
    {
      assert after[..|after|] == after;
      InertTail(before, after);
    }

    lemma SwitchesSince(reached: nat, before: seq<Observation>, verified: seq<Observation>, after: seq<Observation>)
      requires Adds(before, verified, Probing) && Switches(reached, reached + 1, verified, after)
      ensures Switches(reached, reached + 1, before, after)
    {
      InertTail(before, verified);
      forall h | reached + 1 <= h < |groups|
        ensures SameSwitches(h, before, after)
      {
        assert SameSwitches(h, verified, after);
      }
    }

    lemma ChainOpenings(reached: nat, points: seq<nat>, openings: seq<Option<Opening.Control>>,
                        openings': seq<Option<Opening.Control>>, trace: seq<Observation>)
      requires Valid() && |groups| == |openings| == |openings'|
      requires Chain(reached, points, openings, openings', trace)
      ensures forall g | 0 <= g < reached && groups[g].spec.Some? ::
        openings'[g].Some? && openings'[g].value.calibration.Some?
      ensures reached < |groups| ==>
        openings'[reached] == openings[reached] || openings'[reached] == groups[reached].Uncalibrated()
    {
      forall g: nat | g < |points| - 1
        ensures g < reached && groups[g].spec.Some? ==> openings'[g].Some? && openings'[g].value.calibration.Some?
        ensures g >= reached ==> openings'[g] == openings[g] || openings'[g] == groups[g].Uncalibrated()
      {
        assert LinkOf(g, g < reached, points, openings[g], openings'[g], trace);
        RunStays(g, g < reached, openings[g], openings'[g], trace[..points[g]], trace[..points[g + 1]]);
      }
    }

    /** The entry is a calibration command to group `g`, a gripper with opening control. */
    ghost predicate CommandOf(g: nat, trace: seq<Observation>, start: nat, i: nat)
      requires i < |trace|
      reads this
    {
      g < |groups| && groups[g].spec.Some? && Pushes(views, g, groups[g].spec.value, trace, start, i)
    }

    /** Every command sent is a calibration command to a gripper with opening control. */
    ghost predicate OnlyCalibrates(before: seq<Observation>, after: seq<Observation>)
      reads this
    {
      forall i | |before| <= i < |after| && after[i].Sent? && after[i].intent.Control? ::
        exists g: nat :: CommandOf(g, after, |before|, i)
    }

    lemma ChainCalibrates(reached: nat, points: seq<nat>, openings: seq<Option<Opening.Control>>,
                          openings': seq<Option<Opening.Control>>, before: seq<Observation>, after: seq<Observation>)
      requires Valid() && |groups| == |openings| == |openings'|
      requires Chain(reached, points, openings, openings', after)
      requires |before| <= points[0] <= |after| && Adds(before, after[..points[0]], Probing)
      ensures OnlyCalibrates(before, after)
    {
      assert forall k | |before| <= k < points[0] :: after[..points[0]][k] == after[k];
      forall i | |before| <= i < |after| && after[i].Sent? && after[i].intent.Control?
        ensures exists g: nat :: CommandOf(g, after, |before|, i)
      {
        var g := LinkAt(points, i);
        assert LinkOf(g, g < reached, points, openings[g], openings'[g], after);
        WritesWrite(g);
        RunPushes(views, g, |groups[g].motors|, groups[g].spec, Writes(g), g < reached, openings[g], openings'[g],
                  after[..points[g]], after[..points[g + 1]], i);
        PushesKept(views, g, groups[g].spec.value, after[..points[g + 1]], points[g], i, after, |before|);
        assert CommandOf(g, after, |before|, i);
      }
    }

    /** The stretch between two points that an entry of the log belongs to. */
    static lemma {:induction false} LinkAt(points: seq<nat>, i: nat) returns (g: nat)
      requires |points| > 0 && Ascending(points) && points[0] <= i < points[|points| - 1]
      ensures g + 1 < |points| && points[g] <= i < points[g + 1]
      decreases |points|
    {
      g := |points| - 2;
      if i < points[g] {
        g := LinkAt(points[..g + 1], i);
      }
    }

    // -------------------------------------------------------------------------
    // Any run of calls

    /** Sends a frame nobody moves on to every motor that supports it, group by group. */
    method Broadcast(intent: Intent) returns (r: Result<(), Error>)
      requires Valid() && FollowsLog() && !intent.Enable? && !intent.Disable?
      modifies wire
      ensures FollowsLog()
      ensures !connected ==> r == Failure(NotConnected) && wire.trace == old(wire.trace)
      ensures Adds(old(wire.trace), wire.trace, (o: Observation) => o.Sent? && o.intent == intent)
    {
      if !connected {
        return Failure(NotConnected);
      }
      for g := 0 to |groups|
        invariant FollowsLog()
        invariant Adds(old(wire.trace), wire.trace, (o: Observation) => o.Sent? && o.intent == intent)
      {
        ghost var before := wire.trace;
        ghost var reached;
        r, reached := groups[g].QueryAll(intent);
        SilentTail(views, before, wire.trace);
        if r.Failure? {
          return;
        }
      }
      r := Success(());
    }

    method Command(g: nat, commands: seq<Command>) returns (r: Result<(), Error>)
      requires Valid() && FollowsLog() && g < |groups|
      modifies wire
      ensures FollowsLog()
    {
      ghost var sent;
      r, sent := groups[g].BatchSend(commands);
      if |commands| == |groups[g].motors| {
        groups[g].BatchIsSilent(old(wire.trace), wire.trace, commands[..sent]);
      }
      SilentTail(views, old(wire.trace), wire.trace);
    }

    method MoveTo(g: nat, opening: real, current: Option<real>) returns (r: Result<(), Error>)
      requires Valid() && FollowsLog() && g < |groups| && groups[g].kind.Gripper?
      modifies wire
      ensures FollowsLog()
    {
      r := groups[g].SetOpening(opening, current);
      SilentTail(views, old(wire.trace), wire.trace);
    }

    /** One call to the robot or to one of its groups, whatever comes of it. */
    method Act(call: Call)
      requires Valid() && FollowsLog()
      modifies this, wire, buses, groups, AllMotors()
      ensures Valid() && FollowsLog()
    {
      match call {
        case CallConnect => var r := Connect();
        case CallEnable => ghost var reached, points; var r; r, reached, points := Enable();
        case CallDisable => ghost var reached; var r; r, reached := Disable();
        case CallTick => var r := Tick(None);
        case CallRefresh => var r := Broadcast(Refresh);
        case CallSetMode(mode) => var r := Broadcast(SetMode(mode));
        case CallSwitch(g, on) => if g < |groups| { ghost var sent; var r; r, sent := SwitchGroup(g, on); }
        case CallBatch(g, commands) => if g < |groups| { var r := Command(g, commands); }
        case CallOpening(g, opening, current) =>
          if g < |groups| && groups[g].kind.Gripper? { var r := MoveTo(g, opening, current); }
      }
    }

    /**
     Any run of calls: every cache stays what the log says it is, the flags match
     the log, every stored calibration stays wide enough, and the routing tables
     stay right.
     */
    method Run(calls: seq<Call>)
      requires Valid() && FollowsLog()
      modifies this, wire, buses, groups, AllMotors()
      ensures Valid() && FollowsLog() && FlagsMatch()
      ensures forall g | 0 <= g < |groups| :: Opening.Sound(groups[g].opening)
    {
      for k := 0 to |calls|
        invariant Valid() && FollowsLog()
      {
        Act(calls[k]);
      }
      FlagsFollowLog();
    }
  }

  /** Only disable frames, to groups from `lowest` up, the last groups first. */
  ghost predicate DisabledDownTo(before: seq<Observation>, after: seq<Observation>, lowest: nat) {
    && before <= after
    && (forall i | |before| <= i < |after| ::
        after[i].Sent? && after[i].intent == Disable && lowest <= after[i].motor.group)
    && (forall i, j | |before| <= i < j < |after| :: after[i].motor.group >= after[j].motor.group)
  }

  lemma OneGroupLower(start: seq<Observation>, before: seq<Observation>, after: seq<Observation>, g: nat)
    requires DisabledDownTo(start, before, g + 1) && Adds(before, after, Switching(g, false))
    ensures DisabledDownTo(start, after, g) && DisabledDownTo(start, after, 0)
  {
    forall i | |start| <= i < |after|
      ensures after[i].Sent? && after[i].intent == Disable && g <= after[i].motor.group
      ensures i >= |before| ==> after[i].motor.group == g
    {
      assert i < |before| ==> after[i] == before[i];
    }
    forall i, j | |start| <= i < j < |after|
      ensures after[i].motor.group >= after[j].motor.group
    {
      assert j < |before| ==> after[i] == before[i] && after[j] == before[j];
    }
  }

  /** What a user can call, in any order. */
  datatype Call =
    | CallConnect
    | CallEnable
    | CallDisable
    | CallTick
    | CallRefresh
    | CallSetMode(mode: Mode)
    | CallSwitch(group: nat, on: bool)
    | CallBatch(batch: nat, commands: seq<Command>)
    | CallOpening(gripper: nat, opening: real, current: Option<real>)
}
