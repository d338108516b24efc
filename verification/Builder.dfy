/** Building a robot from declared buses and groups. */
module Builder {
  import opened Wrappers
  import opened MachineInts
  import opened Motors
  import opened Wires
  import opened Groups
  import opened Topology
  import opened Robots
  import Opening

  datatype BusSpec = BusSpec(name: string, codec: Codec, supports: nat -> bool, hasFd: bool)

  datatype MotorSpec = MotorSpec(motorType: nat, sendId: u32, recvId: u32)

  datatype GroupSpec = GroupSpec(
    name: string,
    busName: string,
    kind: Kind,
    motors: seq<MotorSpec>,
    opening: Option<Opening.Spec>)

  datatype BuildError =
    | ImproperName(name: string)
    | DuplicateBus(name: string)
    | DuplicateGroup(name: string)
    | UnknownBus(name: string)
    | MotorNotSupported(motorType: nat)
    | GripperRequiresOneMotor(got: nat)
    | OpeningWithoutGripper(name: string)
    | BadCurrent(current: real)

  // ---------------------------------------------------------------------------
  // What is wrong with a declaration, in the order it is looked for

  predicate BusNameTaken(buses: seq<BusSpec>, name: string) {
    exists k :: 0 <= k < |buses| && buses[k].name == name
  }

  predicate GroupNameTaken(groups: seq<GroupSpec>, name: string) {
    exists k :: 0 <= k < |groups| && groups[k].name == name
  }

  /** What is wrong with bus `k`, given those declared before it. */
  function BusProblem(proper: string -> bool, buses: seq<BusSpec>, k: nat): Option<BuildError>
    requires k < |buses|
  {
    if !proper(buses[k].name) then Some(ImproperName(buses[k].name))
    else if BusNameTaken(buses[..k], buses[k].name) then Some(DuplicateBus(buses[k].name))
    else None
  }

  function FirstUnsupported(motors: seq<MotorSpec>, supports: nat -> bool): (r: Option<nat>)
    ensures r.None? <==> forall m | m in motors :: supports(m.motorType)
    ensures r.Some? ==> !supports(r.value) && exists m :: m in motors && m.motorType == r.value
  {
    if motors == [] then None
    else if !supports(motors[0].motorType) then Some(motors[0].motorType)
    else FirstUnsupported(motors[1..], supports)
  }

  function CurrentProblem(current: Option<real>): Option<BuildError> {
    if current.Some? && !(0.0 < current.value <= 1.0) then Some(BadCurrent(current.value)) else None
  }

  function ShapeProblem(group: GroupSpec): Option<BuildError> {
    if group.kind.Gripper? && |group.motors| != 1 then Some(GripperRequiresOneMotor(|group.motors|))
    else if group.opening.Some? && !group.kind.Gripper? then Some(OpeningWithoutGripper(group.name))
    else if group.opening.Some? then CurrentProblem(group.opening.value.defaultCurrent)
    else None
  }

  /** What is wrong with group `k` on the bus found for it. */
  function GroupProblem(proper: string -> bool, groups: seq<GroupSpec>, k: nat,
                        bus: Option<BusSpec>): Option<BuildError>
    requires k < |groups|
  {
    var group := groups[k];
    if !proper(group.name) then Some(ImproperName(group.name))
    else if GroupNameTaken(groups[..k], group.name) then Some(DuplicateGroup(group.name))
    else if bus.None? then Some(UnknownBus(group.busName))
    else
      var unsupported := FirstUnsupported(group.motors, bus.value.supports);
      if unsupported.Some? then Some(MotorNotSupported(unsupported.value)) else ShapeProblem(group)
  }

  /** The bus of a name; names are distinct by the time groups are looked at. */
  function Named(buses: seq<BusSpec>, name: string): (r: Option<nat>)
    ensures r.Some? ==> r.value < |buses| && buses[r.value].name == name
    ensures r.None? ==> !BusNameTaken(buses, name)
  {
    if buses == [] then None
    else if buses[|buses| - 1].name == name then Some(|buses| - 1)
    else Named(buses[..|buses| - 1], name)
  }

  function BusOf(buses: seq<BusSpec>, name: string): Option<BusSpec> {
    match Named(buses, name)
    case None => None
    case Some(b) => Some(buses[b])
  }

  ghost predicate BusesFine(proper: string -> bool, buses: seq<BusSpec>, n: nat)
    requires n <= |buses|
  {
    forall k | 0 <= k < n :: BusProblem(proper, buses, k).None?
  }

  ghost predicate GroupsFine(proper: string -> bool, buses: seq<BusSpec>, groups: seq<GroupSpec>, n: nat)
    requires n <= |groups|
  {
    forall k | 0 <= k < n :: GroupProblem(proper, groups, k, BusOf(buses, groups[k].busName)).None?
  }

  /** The error is that of the first bad bus, or without one of the first bad group. */
  ghost predicate IsFirstProblem(proper: string -> bool, buses: seq<BusSpec>, groups: seq<GroupSpec>, e: BuildError) {
    || (exists k :: 0 <= k < |buses| && BusesFine(proper, buses, k) && BusProblem(proper, buses, k) == Some(e))
    || (BusesFine(proper, buses, |buses|) &&
        exists k :: 0 <= k < |groups| && GroupsFine(proper, buses, groups, k)
                    && GroupProblem(proper, groups, k, BusOf(buses, groups[k].busName)) == Some(e))
  }

  // ---------------------------------------------------------------------------
  // What a sound declaration is

  ghost predicate SoundBuses(proper: string -> bool, buses: seq<BusSpec>) {
    && (forall b | 0 <= b < |buses| :: proper(buses[b].name))
    && (forall a, b | 0 <= a < b < |buses| :: buses[a].name != buses[b].name)
  }

  /** The group's motors are all supported on some bus of the name it gives. */
  ghost predicate Carried(buses: seq<BusSpec>, group: GroupSpec, b: nat) {
    && b < |buses| && buses[b].name == group.busName
    && forall m | m in group.motors :: buses[b].supports(m.motorType)
  }

  predicate WellShaped(group: GroupSpec) {
    && (group.kind.Gripper? ==> |group.motors| == 1)
    && (group.opening.Some? ==> group.kind.Gripper?)
    && (group.opening.Some? && group.opening.value.defaultCurrent.Some? ==>
          0.0 < group.opening.value.defaultCurrent.value <= 1.0)
  }

  ghost predicate SoundGroups(proper: string -> bool, buses: seq<BusSpec>, groups: seq<GroupSpec>) {
    && (forall g | 0 <= g < |groups| :: proper(groups[g].name) && WellShaped(groups[g]))
    && (forall g, h | 0 <= g < h < |groups| :: groups[g].name != groups[h].name)
    && (forall g | 0 <= g < |groups| :: HasBus(buses, groups[g]))
  }

  ghost predicate HasBus(buses: seq<BusSpec>, group: GroupSpec) {
    exists b: nat :: Carried(buses, group, b)
  }

  lemma FineBuses(proper: string -> bool, buses: seq<BusSpec>)
    ensures BusesFine(proper, buses, |buses|) <==> SoundBuses(proper, buses)
  {
    forall k | 0 <= k < |buses|
      ensures BusProblem(proper, buses, k).None? <==>
        proper(buses[k].name) && forall a | 0 <= a < k :: buses[a].name != buses[k].name
    {
      assert forall a | 0 <= a < k :: buses[..k][a] == buses[a];
    }
  }

  /** A declaration is fine bus by bus and group by group exactly if it is sound. */
  lemma FineIffSound(proper: string -> bool, buses: seq<BusSpec>, groups: seq<GroupSpec>)
    ensures BusesFine(proper, buses, |buses|) && GroupsFine(proper, buses, groups, |groups|) <==>
      SoundBuses(proper, buses) && SoundGroups(proper, buses, groups)
  {
    FineBuses(proper, buses);
    if SoundBuses(proper, buses) {
      FineNames(proper, buses, groups);
      forall g | 0 <= g < |groups|
        ensures BusAndShapeFine(buses, groups[g]) <==> WellShaped(groups[g]) && HasBus(buses, groups[g])
      {
        FineBusAndShape(proper, buses, groups[g]);
      }
    }
  }

  predicate BusAndShapeFine(buses: seq<BusSpec>, group: GroupSpec) {
    var bus := BusOf(buses, group.busName);
    bus.Some? && FirstUnsupported(group.motors, bus.value.supports).None? && ShapeProblem(group).None?
  }

  lemma FineBusAndShape(proper: string -> bool, buses: seq<BusSpec>, group: GroupSpec)
    requires SoundBuses(proper, buses)
    ensures BusAndShapeFine(buses, group) <==> WellShaped(group) && HasBus(buses, group)
  {
    if BusAndShapeFine(buses, group) {
      assert Carried(buses, group, Named(buses, group.busName).value);
    }
    if b: nat :| Carried(buses, group, b) {
      assert Named(buses, group.busName) == Some(b);
    }
  }

  lemma FineNames(proper: string -> bool, buses: seq<BusSpec>, groups: seq<GroupSpec>)
    ensures GroupsFine(proper, buses, groups, |groups|) <==>
      && (forall g | 0 <= g < |groups| :: proper(groups[g].name) && BusAndShapeFine(buses, groups[g]))
      && (forall g, h | 0 <= g < h < |groups| :: groups[g].name != groups[h].name)
  {
    forall k | 0 <= k < |groups|
      ensures GroupProblem(proper, groups, k, BusOf(buses, groups[k].busName)).None? <==>
        && proper(groups[k].name) && BusAndShapeFine(buses, groups[k])
        && forall g | 0 <= g < k :: groups[g].name != groups[k].name
    {
      assert forall g | 0 <= g < k :: groups[..k][g] == groups[g];
    }
  }

  /** What each error says of the declaration it is reported for. */
  ghost predicate Blames(proper: string -> bool, buses: seq<BusSpec>, groups: seq<GroupSpec>, e: BuildError) {
    match e
    case ImproperName(name) =>
      !proper(name) && (BusNameTaken(buses, name) || GroupNameTaken(groups, name))
    case DuplicateBus(name) =>
      exists a, b | 0 <= a < b < |buses| :: buses[a].name == buses[b].name == name
    case DuplicateGroup(name) =>
      exists g, h | 0 <= g < h < |groups| :: groups[g].name == groups[h].name == name
    case UnknownBus(name) =>
      !BusNameTaken(buses, name) && exists g | 0 <= g < |groups| :: groups[g].busName == name
    case MotorNotSupported(motorType) =>
      exists g, b | 0 <= g < |groups| && 0 <= b < |buses| :: Unsupported(buses[b], groups[g], motorType)
    case GripperRequiresOneMotor(got) =>
      got != 1 && exists g | 0 <= g < |groups| :: groups[g].kind.Gripper? && |groups[g].motors| == got
    case OpeningWithoutGripper(name) =>
      exists g | 0 <= g < |groups| :: groups[g].name == name && groups[g].opening.Some? && !groups[g].kind.Gripper?
    case BadCurrent(current) =>
      !(0.0 < current <= 1.0) && exists g | 0 <= g < |groups| :: HasCurrent(groups[g], current)
  }

  predicate HasCurrent(group: GroupSpec, current: real) {
    group.opening.Some? && group.opening.value.defaultCurrent == Some(current)
  }

  predicate Unsupported(bus: BusSpec, group: GroupSpec, motorType: nat) {
    && bus.name == group.busName && !bus.supports(motorType)
    && exists m :: m in group.motors && m.motorType == motorType
  }

  /** The reported problem is there. */
  lemma ProblemIsThere(proper: string -> bool, buses: seq<BusSpec>, groups: seq<GroupSpec>, e: BuildError)
    requires IsFirstProblem(proper, buses, groups, e)
    ensures Blames(proper, buses, groups, e)
  {
    if k :| 0 <= k < |buses| && BusesFine(proper, buses, k) && BusProblem(proper, buses, k) == Some(e) {
      BusBlamed(proper, buses, groups, k, e);
    } else {
      var k :| 0 <= k < |groups| && GroupsFine(proper, buses, groups, k)
               && GroupProblem(proper, groups, k, BusOf(buses, groups[k].busName)) == Some(e);
      GroupBlamed(proper, buses, groups, k, e);
    }
  }

  lemma BusBlamed(proper: string -> bool, buses: seq<BusSpec>, groups: seq<GroupSpec>, k: nat, e: BuildError)
    requires k < |buses| && BusProblem(proper, buses, k) == Some(e)
    ensures Blames(proper, buses, groups, e)
  {
    if e.DuplicateBus? {
      var j :| 0 <= j < k && buses[..k][j].name == buses[k].name;
      assert buses[j].name == buses[k].name;
    }
  }

  lemma GroupBlamed(proper: string -> bool, buses: seq<BusSpec>, groups: seq<GroupSpec>, k: nat, e: BuildError)
    requires k < |groups| && GroupProblem(proper, groups, k, BusOf(buses, groups[k].busName)) == Some(e)
    ensures Blames(proper, buses, groups, e)
  {
    if e.DuplicateGroup? {
      var j :| 0 <= j < k && groups[..k][j].name == groups[k].name;
      assert groups[j].name == groups[k].name;
    } else if e.MotorNotSupported? {
      var b := Named(buses, groups[k].busName).value;
      assert Unsupported(buses[b], groups[k], e.motorType);
    }
  }

  // ---------------------------------------------------------------------------
  // Building

  /**
   A built group is what was declared: its bus, its motors' identifiers in order, with
   nothing seen or calibrated yet.
   */
  ghost predicate Built(buses: seq<BusSpec>, spec: GroupSpec, group: Group)
    reads group, group.motors
  {
    && Named(buses, spec.busName) == Some(group.bus.index)
    && group.kind == spec.kind
    && |group.motors| == |spec.motors|
    && (forall i | 0 <= i < |group.motors| ::
          group.motors[i].sendId == spec.motors[i].sendId && group.motors[i].recvId == spec.motors[i].recvId
          && group.motors[i].View() == Fresh)
    && group.spec == spec.opening && group.opening == group.Uncalibrated()
  }

  method MakeMotors(g: nat, specs: seq<MotorSpec>) returns (motors: seq<Motor>)
    ensures |motors| == |specs|
    ensures forall i | 0 <= i < |motors| :: (
      && motors[i].key == MotorKey(g, i) && motors[i].View() == Fresh
      && motors[i].sendId == specs[i].sendId && motors[i].recvId == specs[i].recvId)
  {
    motors := [];
    for k := 0 to |specs|
      invariant |motors| == k
      invariant forall i | 0 <= i < |motors| :: (
        && motors[i].key == MotorKey(g, i) && motors[i].View() == Fresh
        && motors[i].sendId == specs[i].sendId && motors[i].recvId == specs[i].recvId)
    {
      var motor := new Motor(MotorKey(g, k), specs[k].sendId, specs[k].recvId);
      motors := motors + [motor];
    }
  }

  method MakeBuses(proper: string -> bool, specs: seq<BusSpec>, wire: Wire) returns (r: Result<seq<Bus>, BuildError>)
    ensures r.Success? <==> BusesFine(proper, specs, |specs|)
    ensures r.Success? ==>
      && |r.value| == |specs|
      && forall b | 0 <= b < |r.value| ::
           && r.value[b].index == b && r.value[b].wire == wire
           && r.value[b].codec == specs[b].codec && r.value[b].hasFd == specs[b].hasFd
    ensures r.Failure? ==> exists k ::
      0 <= k < |specs| && BusesFine(proper, specs, k) && BusProblem(proper, specs, k) == Some(r.error)
  {
    var buses: seq<Bus> := [];
    for k := 0 to |specs|
      invariant |buses| == k && BusesFine(proper, specs, k)
      invariant forall b | 0 <= b < |buses| ::
        && buses[b].index == b && buses[b].wire == wire
        && buses[b].codec == specs[b].codec && buses[b].hasFd == specs[b].hasFd
    {
      var problem := BusProblem(proper, specs, k);
      if problem.Some? {
        return Failure(problem.value);
      }
      var bus := new Bus(k, specs[k].codec, specs[k].hasFd, wire);
      buses := buses + [bus];
    }
    r := Success(buses);
  }

  method MakeGroup(g: nat, spec: GroupSpec, busSpecs: seq<BusSpec>, buses: seq<Bus>) returns (group: Group)
    requires ShapeProblem(spec).None? && Named(busSpecs, spec.busName).Some? && |buses| == |busSpecs|
    requires forall b | 0 <= b < |buses| :: buses[b].index == b
    ensures group.Valid() && Built(busSpecs, spec, group)
    ensures group.index == g && group.bus.index < |buses| && group.bus == buses[group.bus.index]
    ensures forall i | 0 <= i < |group.motors| :: group.motors[i].key == MotorKey(g, i)
  {
    var motors := MakeMotors(g, spec.motors);
    group := new Group(g, spec.kind, buses[Named(busSpecs, spec.busName).value], motors, spec.opening);
  }

  method MakeGroups(proper: string -> bool, specs: seq<GroupSpec>, busSpecs: seq<BusSpec>, buses: seq<Bus>, wire: Wire)
    returns (r: Result<seq<Group>, BuildError>)
    requires |buses| == |busSpecs|
    requires forall b | 0 <= b < |buses| :: buses[b].index == b && buses[b].wire == wire
    ensures r.Success? <==> GroupsFine(proper, busSpecs, specs, |specs|)
    ensures r.Success? ==> |r.value| == |specs| && WellBuilt(wire, buses, r.value)
    ensures r.Success? ==> forall g | 0 <= g < |specs| :: r.value[g].Valid() && Built(busSpecs, specs[g], r.value[g])
    ensures r.Failure? ==> exists k :: (
      && 0 <= k < |specs| && GroupsFine(proper, busSpecs, specs, k)
      && GroupProblem(proper, specs, k, BusOf(busSpecs, specs[k].busName)) == Some(r.error))
  {
    var groups: seq<Group> := [];
    for g := 0 to |specs|
      invariant |groups| == g && GroupsFine(proper, busSpecs, specs, g)
      invariant WellBuilt(wire, buses, groups)
      invariant forall h | 0 <= h < g :: groups[h].Valid() && Built(busSpecs, specs[h], groups[h])
    {
      var problem := GroupProblem(proper, specs, g, BusOf(busSpecs, specs[g].busName));
      if problem.Some? {
        return Failure(problem.value);
      }
      var group := MakeGroup(g, specs[g], busSpecs, buses);
      groups := groups + [group];
    }
    r := Success(groups);
  }

  /**
   Builds exactly the declarations nothing is wrong with, and reports the first
   problem of the others. A built robot meets everything its methods rely on.
   */
  method Build(proper: string -> bool, busSpecs: seq<BusSpec>, groupSpecs: seq<GroupSpec>)
    returns (r: Result<Robot, BuildError>)
    ensures r.Success? <==>
      SoundBuses(proper, busSpecs) && SoundGroups(proper, busSpecs, groupSpecs)
    ensures r.Failure? ==>
      IsFirstProblem(proper, busSpecs, groupSpecs, r.error) && Blames(proper, busSpecs, groupSpecs, r.error)
    ensures r.Success? ==>
      && r.value.Valid() && !r.value.connected && r.value.FollowsLog()
      && |r.value.buses| == |busSpecs| && |r.value.groups| == |groupSpecs|
      && (forall b | 0 <= b < |busSpecs| :: r.value.buses[b].codec == busSpecs[b].codec)
      && (forall g | 0 <= g < |groupSpecs| :: Built(busSpecs, groupSpecs[g], r.value.groups[g]))
  {
    FineIffSound(proper, busSpecs, groupSpecs);
    var wire := new Wire();
    var buses := MakeBuses(proper, busSpecs, wire);
    if buses.Failure? {
      ProblemIsThere(proper, busSpecs, groupSpecs, buses.error);
      return Failure(buses.error);
    }
    var groups := MakeGroups(proper, groupSpecs, busSpecs, buses.value, wire);
    if groups.Failure? {
      ProblemIsThere(proper, busSpecs, groupSpecs, groups.error);
      return Failure(groups.error);
    }
    assert forall m | IsMotor(groups.value, m) :: At(groups.value, m).View() == Fresh;
    var robot := new Robot(wire, buses.value, groups.value);
    r := Success(robot);
  }
}
