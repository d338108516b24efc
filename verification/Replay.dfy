/** The log as an account of the motors: every cache is what the log says it is. */
module Replays {
  import opened Wrappers
  import opened MachineInts
  import opened Motors
  import opened Wires
  import opened Dispatch

  function RefIn(target: Option<Target>): Option<MotorRef> {
    if target.None? then None else Some(target.value.ref)
  }

  /** What a tick that has begun and not ended has read so far. */
  datatype Reading = Reading(target: Option<Target>, scan: Result<Scan, Error>)

  function Blank(target: Option<Target>): Reading {
    Reading(target, Success(Scan(None, [])))
  }

  function NextReading(views: seq<BusView>, r: Reading, o: Observation): Reading {
    match o
    case TickBegan(target) => Blank(target)
    case TickEnded => Blank(None)
    case _ => if r.scan.Success? then r.(scan := Observe(views, RefIn(r.target), o, r.scan.value)) else r
  }

  function ReadingOf(views: seq<BusView>, trace: seq<Observation>): Reading {
    if trace == [] then Blank(None)
    else NextReading(views, ReadingOf(views, trace[..|trace| - 1]), trace[|trace| - 1])
  }

  /**
   A motor's cache as the log tells it: a tick that ended has handed over what
   it read, and an enable or disable frame that went out has set the flag.
   */
  function Replay(views: seq<BusView>, trace: seq<Observation>, motor: MotorKey): Cache {
    if trace == [] then Fresh
    else
      var before, o := Replay(views, trace[..|trace| - 1], motor), trace[|trace| - 1];
      if o.TickEnded? then
        var scan := ReadingOf(views, trace[..|trace| - 1]).scan;
        if scan.Success? then After(before, scan.value.deliveries, motor) else before
      else if Switches(o, motor) then before.(isEnabled := o.intent.Enable?)
      else before
  }

  // ---------------------------------------------------------------------------
  // What parts of the log do

  predicate Inbound(o: Observation) {
    o.Polled? || o.Drained? || o.Received?
  }

  /** An entry that leaves the motor's cache alone. */
  predicate Leaves(o: Observation, motor: MotorKey) {
    !o.TickEnded? && !Switches(o, motor)
  }

  lemma {:induction false} ReplayKept(views: seq<BusView>, trace: seq<Observation>, tail: seq<Observation>,
                                      motor: MotorKey)
    requires forall o | o in tail :: Leaves(o, motor)
    ensures Replay(views, trace + tail, motor) == Replay(views, trace, motor)
  {
    if tail == [] {
      assert trace + tail == trace;
    } else {
      var front := tail[..|tail| - 1];
      ReplayKept(views, trace, front, motor);
      assert (trace + tail)[..|trace + tail| - 1] == trace + front;
      assert tail[|tail| - 1] in tail;
    }
  }

  lemma {:induction false} ReadingOfTick(views: seq<BusView>, trace: seq<Observation>, target: Option<Target>,
                                         tail: seq<Observation>)
    requires forall o | o in tail :: Inbound(o)
    ensures ReadingOf(views, trace + [TickBegan(target)] + tail) == Reading(target, Collect(views, RefIn(target), tail))
  {
    var start := trace + [TickBegan(target)];
    if tail == [] {
      assert start + tail == start && start[..|trace|] == trace;
    } else {
      var front := tail[..|tail| - 1];
      ReadingOfTick(views, trace, target, front);
      assert (start + tail)[..|start + tail| - 1] == start + front;
      assert tail[|tail| - 1] in tail;
    }
  }

  /** A whole tick hands over what its frames were collected to. */
  lemma ReplayTick(views: seq<BusView>, trace: seq<Observation>, target: Option<Target>, tail: seq<Observation>,
                   motor: MotorKey)
    requires forall o | o in tail :: Inbound(o)
    requires Collect(views, RefIn(target), tail).Success?
    ensures Replay(views, trace + [TickBegan(target)] + tail + [TickEnded], motor)
         == After(Replay(views, trace, motor), Collect(views, RefIn(target), tail).value.deliveries, motor)
  {
    var seen := trace + [TickBegan(target)] + tail;
    ReadingOfTick(views, trace, target, tail);
    ReplayKept(views, trace, [TickBegan(target)] + tail, motor);
    assert trace + ([TickBegan(target)] + tail) == seen;
    assert (seen + [TickEnded])[..|seen|] == seen;
  }

  /** So every motor applies what the frames bring it, by codec and table, in order. */
  lemma ReplayEvents(views: seq<BusView>, trace: seq<Observation>, target: Option<Target>, tail: seq<Observation>,
                     motor: MotorKey)
    requires forall o | o in tail :: Inbound(o)
    requires Collect(views, RefIn(target), tail).Success?
    ensures Replay(views, trace + [TickBegan(target)] + tail + [TickEnded], motor)
         == AppliedAll(Replay(views, trace, motor), EventsIn(views, RefIn(target), tail, motor))
  {
    ReplayTick(views, trace, target, tail, motor);
    AfterIsEvents(views, RefIn(target), tail, motor, Replay(views, trace, motor));
  }

  /** The flag is the last switch sent: no inbound frame sets it. */
  lemma {:induction false} FlagIsLastSwitch(views: seq<BusView>, trace: seq<Observation>, motor: MotorKey)
    ensures Replay(views, trace, motor).isEnabled == LastSwitch(trace, motor)
  {
    if trace != [] {
      var front := trace[..|trace| - 1];
      FlagIsLastSwitch(views, front, motor);
      var scan := ReadingOf(views, front).scan;
      if scan.Success? {
        AfterKeepsFlag(Replay(views, front, motor), scan.value.deliveries, motor);
      }
    }
  }

  /** Without a tick the routing tables do not matter. */
  lemma {:induction false} ReplayWithoutTicks(v: seq<BusView>, w: seq<BusView>, trace: seq<Observation>,
                                              motor: MotorKey)
    requires forall o | o in trace :: !o.TickEnded?
    ensures Replay(v, trace, motor) == Replay(w, trace, motor)
  {
    if trace != [] {
      var front := trace[..|trace| - 1];
      assert forall o | o in front :: o in trace;
      ReplayWithoutTicks(v, w, front, motor);
    }
  }

  lemma {:induction false} ReplayBatch(views: seq<BusView>, trace: seq<Observation>, tail: seq<Observation>,
                                       group: nat, on: bool, motor: MotorKey)
    requires IsBatch(tail, group, Repeated(|tail|, SwitchIntent(on)))
    ensures
      var before := Replay(views, trace, motor);
      Replay(views, trace + tail, motor) ==
        if motor.group == group && motor.index < |tail| then before.(isEnabled := on) else before
  {
    if tail == [] {
      assert trace + tail == trace;
    } else {
      var front := tail[..|tail| - 1];
      ReplayBatch(views, trace, front, group, on, motor);
      assert (trace + tail)[..|trace + tail| - 1] == trace + front;
    }
  }

  // ---------------------------------------------------------------------------
  // What a tick reports

  const POS_FORCE_MODE: u32 := 4

  /** The mode reported by a tick that looked for this motor's and ended at this entry, if there is one. */
  function ModeReported(views: seq<BusView>, target: Target, trace: seq<Observation>, j: nat): Option<u32>
    requires j < |trace|
  {
    var r := ReadingOf(views, trace[..j]);
    if trace[j].TickEnded? && r.target == Some(target) && r.scan.Success? then r.scan.value.mode else None
  }

  /** The frame says PosForce, and no later frame up to the end says anything else under the identifier. */
  predicate IsAnswer(views: seq<BusView>, ref: MotorRef, trace: seq<Observation>, k: nat, end: nat, mode: u32)
    requires k < end <= |trace|
  {
    && Answers(views, ref, trace[k], Some(mode))
    && forall l | k < l < end :: !trace[l].TickBegan? && !Concerns(views, ref, trace[l])
  }

  /** The mode a reading holds is the answer of the last frame under the target's identifier since the tick began. */
  lemma {:induction false} ReadingIsLastAnswer(views: seq<BusView>, trace: seq<Observation>)
    requires var r := ReadingOf(views, trace); r.target.Some? && r.scan.Success? && r.scan.value.mode.Some?
    ensures var r := ReadingOf(views, trace);
      exists k :: 0 <= k < |trace| && IsAnswer(views, r.target.value.ref, trace, k, |trace|, r.scan.value.mode.value)
  {
    if trace != [] {
      var n := |trace| - 1;
      var front, o, r := trace[..n], trace[n], ReadingOf(views, trace);
      var ref := r.target.value.ref;
      if Concerns(views, ref, o) {
        assert IsAnswer(views, ref, trace, n, |trace|, r.scan.value.mode.value);
      } else {
        ModeUnlessConcerned(views, Some(ref), o, ReadingOf(views, front).scan.value);
        ReadingIsLastAnswer(views, front);
        var k :| 0 <= k < n && IsAnswer(views, ref, front, k, n, r.scan.value.mode.value);
        assert IsAnswer(views, ref, trace, k, |trace|, r.scan.value.mode.value);
      }
    }
  }

  lemma ModeUnlessConcerned(views: seq<BusView>, target: Option<MotorRef>, o: Observation, scan: Scan)
    requires Observe(views, target, o, scan).Success?
    requires target.Some? ==> !Concerns(views, target.value, o)
    ensures Observe(views, target, o, scan).value.mode == scan.mode
  {
  }

  /** A report rests on a frame received in the tick, the last under the motor's identifier. */
  lemma ReportRestsOnFrame(views: seq<BusView>, target: Target, trace: seq<Observation>, j: nat)
    requires j < |trace| && ModeReported(views, target, trace, j).Some?
    ensures exists k ::
      0 <= k < j && IsAnswer(views, target.ref, trace, k, j, ModeReported(views, target, trace, j).value)
  {
    var mode := ModeReported(views, target, trace, j).value;
    ReadingIsLastAnswer(views, trace[..j]);
    var k :| 0 <= k < j && IsAnswer(views, target.ref, trace[..j], k, j, mode);
    assert IsAnswer(views, target.ref, trace, k, j, mode);
  }

  /** What a tick adds to the log reports a mode only at its end, if it is whole and looks for the motor. */
  lemma TickReports(views: seq<BusView>, trace: seq<Observation>, target: Option<Target>, tail: seq<Observation>,
                    ended: bool, after: seq<Observation>, t: Target, j: nat)
    requires forall o | o in tail :: Inbound(o)
    requires after == trace + [TickBegan(target)] + tail + if ended then [TickEnded] else []
    requires |trace| <= j < |after|
    ensures ModeReported(views, t, after, j) ==
      var r := Collect(views, RefIn(target), tail);
      if ended && j == |after| - 1 && target == Some(t) && r.Success? then r.value.mode else None
  {
    if ended && j == |after| - 1 {
      assert after[..j] == trace + [TickBegan(target)] + tail;
      ReadingOfTick(views, trace, target, tail);
    } else if j > |trace| {
      assert after[j] == tail[j - |trace| - 1];
      assert after[j] in tail;
    }
  }
}
