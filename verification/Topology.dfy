/** The shape of a built robot, and the routing tables it calls for. */
module Topology {
  import opened MachineInts
  import opened Motors
  import opened Wires
  import opened Groups

  /** Buses and motors know their places, groups use the robot's buses, and all share one wire. */
  ghost predicate WellBuilt(wire: Wire, buses: seq<Bus>, groups: seq<Group>) {
    && (forall b | 0 <= b < |buses| :: buses[b].index == b && buses[b].wire == wire)
    && (forall g | 0 <= g < |groups| ::
          && groups[g].index == g
          && groups[g].bus.index < |buses|
          && groups[g].bus == buses[groups[g].bus.index]
          && forall i | 0 <= i < |groups[g].motors| :: groups[g].motors[i].key == MotorKey(g, i))
  }

  predicate IsMotor(groups: seq<Group>, motor: MotorKey) {
    motor.group < |groups| && motor.index < |groups[motor.group].motors|
  }

  function At(groups: seq<Group>, motor: MotorKey): Motor
    requires IsMotor(groups, motor)
  {
    groups[motor.group].motors[motor.index]
  }

  predicate OnBus(groups: seq<Group>, b: nat, motor: MotorKey) {
    IsMotor(groups, motor) && groups[motor.group].bus.index == b
  }

  predicate Earlier(motor: MotorKey, g: nat, i: nat) {
    motor.group < g || (motor.group == g && motor.index < i)
  }

  /**
   The table routes exactly the receive identifiers of the bus's motors that come before
   (g, i), each to its motor.
   */
  ghost predicate IsTableUpTo(groups: seq<Group>, b: nat, routes: map<u32, MotorKey>, g: nat, i: nat) {
    && (forall m: MotorKey | OnBus(groups, b, m) && Earlier(m, g, i) ::
          At(groups, m).recvId in routes && routes[At(groups, m).recvId] == m)
    && (forall id | id in routes ::
        OnBus(groups, b, routes[id]) && Earlier(routes[id], g, i) && At(groups, routes[id]).recvId == id)
  }

  /** A bijection between the receive identifiers of the bus's motors and the motors. */
  ghost predicate IsTable(groups: seq<Group>, b: nat, routes: map<u32, MotorKey>) {
    IsTableUpTo(groups, b, routes, |groups|, 0)
  }

  ghost predicate Clash(groups: seq<Group>, b: nat, m: MotorKey, n: MotorKey) {
    OnBus(groups, b, m) && OnBus(groups, b, n) && m != n && At(groups, m).recvId == At(groups, n).recvId
  }

  ghost predicate Collides(groups: seq<Group>, busCount: nat) {
    exists b: nat, m: MotorKey, n: MotorKey :: b < busCount && Clash(groups, b, m, n)
  }

  /** The error names two motors of the bus that share the identifier it names, the earlier one first. */
  ghost predicate IsCollision(groups: seq<Group>, b: nat, e: Error) {
    && e.IdCollision? && e.bus == b
    && Clash(groups, b, e.existing, e.attempted) && At(groups, e.existing).recvId == e.recvId
    && Earlier(e.existing, e.attempted.group, e.attempted.index)
  }

  lemma NoClash(groups: seq<Group>, b: nat, routes: map<u32, MotorKey>, m: MotorKey, n: MotorKey)
    requires IsTable(groups, b, routes)
    ensures !Clash(groups, b, m, n)
  {
  }

  lemma TablesExcludeCollisions(groups: seq<Group>, buses: seq<Bus>)
    requires forall b | 0 <= b < |buses| :: IsTable(groups, b, buses[b].routes)
    ensures !Collides(groups, |buses|)
  {
    forall b: nat, m: MotorKey, n: MotorKey | b < |buses| && Clash(groups, b, m, n)
      ensures false
    {
      NoClash(groups, b, buses[b].routes, m, n);
    }
  }
}
