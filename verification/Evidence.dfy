/** What the log shows of verifying, calibrating and enabling. */
module Evidence {
  import opened Wrappers
  import opened MachineInts
  import opened CanFrames
  import opened Motors
  import opened Wires
  import opened Dispatch
  import opened Replays
  import Opening

  /** The log only grew, and only by entries `allowed` accepts. */
  ghost predicate Adds(before: seq<Observation>, after: seq<Observation>, allowed: Observation -> bool) {
    && before <= after
    && forall i | |before| <= i < |after| :: allowed(after[i])
  }

  lemma AddsTwice(first: seq<Observation>, second: seq<Observation>, third: seq<Observation>,
                  allowed: Observation -> bool)
    requires Adds(first, second, allowed) && Adds(second, third, allowed)
    ensures Adds(first, third, allowed)
  {
  }

  lemma LaterIsIncluded(o: Observation, trace: seq<Observation>, start: nat, later: nat)
    requires start <= later <= |trace| && o in trace[later..]
    ensures o in trace[start..]
  {
    var i :| 0 <= i < |trace| - later && trace[later..][i] == o;
    assert trace[start..][later - start + i] == o;
  }

  /** The log from the poll on, when only frames were received since. */
  lemma LogFrom(before: seq<Observation>, after: seq<Observation>, ready: seq<nat>)
    requires before != [] && before[|before| - 1] == Polled(ready) && Adds(before, after, Inbound)
    ensures var read := after[|before| - 1..];
      && read != [] && read[0] == Polled(ready) && after == before + read[1..]
      && forall o | o in read :: Inbound(o)
  {
    var read := after[|before| - 1..];
    forall o | o in read
      ensures Inbound(o)
    {
      var i :| 0 <= i < |read| && read[i] == o;
      assert o == after[|before| - 1 + i];
    }
  }

  lemma DrainInLog(before: seq<Observation>, start: nat, b: nat, frames: seq<CanFrame>, after: seq<Observation>)
    requires start <= |before| && after == before + ([Drained(b)] + Arrivals(b, frames))
    ensures after[start..] == before[start..] + [Drained(b)] + Arrivals(b, frames)
    ensures Drained(b) in after[|before|..]
    ensures Adds(before, after, Inbound)
  {
    assert after[|before|..][0] == Drained(b);
    forall i | |before| <= i < |after|
      ensures Inbound(after[i])
    {
      assert after[i] == ([Drained(b)] + Arrivals(b, frames))[i - |before|];
    }
  }

  predicate Unsent(o: Observation) {
    !o.Sent?
  }

  /** Frames that switch no motor, outside of any tick. */
  predicate Silent(o: Observation) {
    o.Sent? && Inert(o)
  }

  lemma InertTail(before: seq<Observation>, after: seq<Observation>)
    requires Adds(before, after, Inert)
    ensures forall m: MotorKey :: LastSwitch(after, m) == LastSwitch(before, m)
  {
    forall m: MotorKey
      ensures LastSwitch(after, m) == LastSwitch(before, m)
    {
      assert after == before + after[|before|..];
      OthersKeepSwitch(before, after[|before|..], m);
    }
  }

  // ---------------------------------------------------------------------------
  // Verified modes

  /** Between two points of the log a tick that looked for the motor's mode reported PosForce. */
  ghost predicate Verified(views: seq<BusView>, target: Target, trace: seq<Observation>, start: nat, end: nat) {
    exists j :: start <= j < end && j < |trace| && ModeReported(views, target, trace, j) == Some(POS_FORCE_MODE)
  }

  /** Between two points of the log no tick that looked for the motor's mode reported any. */
  ghost predicate Unanswered(views: seq<BusView>, target: Target, trace: seq<Observation>, start: nat, end: nat) {
    forall j | start <= j < end && j < |trace| :: ModeReported(views, target, trace, j).None?
  }

  /** Since `start` such a tick reported a mode, if ever, with the last entry of the log. */
  ghost predicate AnsweredLast(views: seq<BusView>, target: Target, trace: seq<Observation>, start: nat) {
    forall j | start <= j < |trace| - 1 :: ModeReported(views, target, trace, j).None?
  }

  lemma ReportsKept(views: seq<BusView>, target: Target, trace: seq<Observation>, trace': seq<Observation>, j: nat)
    requires trace <= trace' && j < |trace|
    ensures ModeReported(views, target, trace', j) == ModeReported(views, target, trace, j)
  {
    assert trace'[..j] == trace[..j];
  }

  lemma VerifiedInParts(views: seq<BusView>, target: Target, start: nat, trace: seq<Observation>,
                        trace': seq<Observation>)
    requires start <= |trace| && trace <= trace'
    ensures Verified(views, target, trace', start, |trace'|) <==>
      Verified(views, target, trace, start, |trace|) || Verified(views, target, trace', |trace|, |trace'|)
    ensures Verified(views, target, trace, start, |trace|) ==>
      forall i | |trace| <= i :: Verified(views, target, trace', start, i)
  {
    forall j: nat | j < |trace|
      ensures ModeReported(views, target, trace', j) == ModeReported(views, target, trace, j)
    {
      ReportsKept(views, target, trace, trace', j);
    }
    if j :| start <= j < |trace| && ModeReported(views, target, trace, j) == Some(POS_FORCE_MODE) {
      assert ModeReported(views, target, trace', j) == Some(POS_FORCE_MODE);
    }
  }

  lemma VerifiedEarlier(views: seq<BusView>, target: Target, trace: seq<Observation>, start: nat, later: nat, end: nat)
    requires start <= later
    ensures Verified(views, target, trace, later, end) ==> Verified(views, target, trace, start, end)
  {
  }

  lemma AllVerifiedInParts(views: seq<BusView>, start: nat, trace: seq<Observation>, trace': seq<Observation>)
    requires start <= |trace| && trace <= trace'
    ensures forall t: Target :: Verified(views, t, trace', start, |trace'|) <==>
      Verified(views, t, trace, start, |trace|) || Verified(views, t, trace', |trace|, |trace'|)
  {
    forall t: Target
      ensures Verified(views, t, trace', start, |trace'|) <==>
        Verified(views, t, trace, start, |trace|) || Verified(views, t, trace', |trace|, |trace'|)
    {
      VerifiedInParts(views, t, start, trace, trace');
    }
  }

  lemma UnansweredInParts(views: seq<BusView>, start: nat, trace: seq<Observation>, trace': seq<Observation>)
    requires start <= |trace| && trace <= trace'
    requires forall t: Target :: Unanswered(views, t, trace, start, |trace|)
    ensures (forall t: Target :: Unanswered(views, t, trace', |trace|, |trace'|)) ==>
      forall t: Target :: Unanswered(views, t, trace', start, |trace'|)
    ensures (forall t: Target :: AnsweredLast(views, t, trace', |trace|)) ==>
      forall t: Target :: AnsweredLast(views, t, trace', start)
  {
    forall t: Target, j: nat | start <= j < |trace|
      ensures ModeReported(views, t, trace', j).None?
    {
      assert Unanswered(views, t, trace, start, |trace|);
      ReportsKept(views, t, trace, trace', j);
    }
    if forall t: Target :: Unanswered(views, t, trace', |trace|, |trace'|) {
      forall t: Target
        ensures Unanswered(views, t, trace', start, |trace'|)
      {
        assert Unanswered(views, t, trace', |trace|, |trace'|);
      }
    }
    if forall t: Target :: AnsweredLast(views, t, trace', |trace|) {
      forall t: Target
        ensures AnsweredLast(views, t, trace', start)
      {
        assert AnsweredLast(views, t, trace', |trace|);
      }
    }
  }

  /** A log part without a reported mode verifies nothing. */
  lemma UnansweredIsUnverified(views: seq<BusView>, trace: seq<Observation>, start: nat)
    requires forall t: Target :: Unanswered(views, t, trace, start, |trace|)
    ensures forall t: Target :: !Verified(views, t, trace, start, |trace|) && AnsweredLast(views, t, trace, start)
  {
    forall t: Target
      ensures !Verified(views, t, trace, start, |trace|) && AnsweredLast(views, t, trace, start)
    {
      assert Unanswered(views, t, trace, start, |trace|);
    }
  }

  /** Frames sent outside of ticks change no cache and verify nothing, unless they switch a motor. */
  lemma SilentTail(views: seq<BusView>, before: seq<Observation>, after: seq<Observation>)
    requires Adds(before, after, Silent)
    ensures forall m: MotorKey :: Replay(views, after, m) == Replay(views, before, m)
    ensures forall t: Target :: Unanswered(views, t, after, |before|, |after|)
    ensures forall t: Target :: !Verified(views, t, after, |before|, |after|)
    ensures forall o | o in after :: o.TickEnded? ==> o in before
    ensures FailedTicks(after) == FailedTicks(before)
  {
    assert forall j | |before| <= j < |after| :: Silent(after[j]);
    assert after == before + after[|before|..];
    FailedTicksKept(before, after[|before|..]);
    forall m: MotorKey
      ensures Replay(views, after, m) == Replay(views, before, m)
    {
      assert after == before + after[|before|..];
      ReplayKept(views, before, after[|before|..], m);
    }
  }

  /** What one tick verifies: its target, if it ended and reported PosForce; and it reports nothing before its end. */
  lemma TickVerifies(views: seq<BusView>, before: seq<Observation>, target: Option<Target>, tail: seq<Observation>,
                     ended: bool, after: seq<Observation>)
    requires forall o | o in tail :: Inbound(o)
    requires after == before + [TickBegan(target)] + tail + if ended then [TickEnded] else []
    ensures forall t: Target :: Verified(views, t, after, |before|, |after|) <==>
      var r := Collect(views, RefIn(target), tail);
      ended && target == Some(t) && r.Success? && r.value.mode == Some(POS_FORCE_MODE)
    ensures forall t: Target :: AnsweredLast(views, t, after, |before|)
    ensures Reported(views, target, tail, ended).None? ==>
      forall t: Target :: Unanswered(views, t, after, |before|, |after|)
    ensures Adds(before, after, Unsent)
  {
    forall i | |before| <= i < |after|
      ensures Unsent(after[i])
    {
      assert |before| < i < |before| + 1 + |tail| ==> after[i] == tail[i - |before| - 1] && after[i] in tail;
    }
    forall t: Target, j: nat | |before| <= j < |after|
      ensures ModeReported(views, t, after, j) ==
        if j == |after| - 1 && target == Some(t) then Reported(views, target, tail, ended) else None
    {
      TickReports(views, before, target, tail, ended, after, t, j);
    }
    if ended && target.Some? {
      assert ModeReported(views, target.value, after, |after| - 1) == Reported(views, target, tail, ended);
    }
  }

  /** The mode a tick reports. */
  function Reported(views: seq<BusView>, target: Option<Target>, tail: seq<Observation>, ended: bool): Option<u32> {
    var r := Collect(views, RefIn(target), tail);
    if ended && r.Success? then r.value.mode else None
  }

  // ---------------------------------------------------------------------------
  // What failed, and what was asked

  /** How many ticks began and did not end. */
  function FailedTicks(trace: seq<Observation>): int {
    if trace == [] then 0
    else
      var o := trace[|trace| - 1];
      FailedTicks(trace[..|trace| - 1]) + if o.TickBegan? then 1 else if o.TickEnded? then -1 else 0
  }

  lemma {:induction false} FailedTicksKept(trace: seq<Observation>, tail: seq<Observation>)
    requires forall o | o in tail :: !o.TickBegan? && !o.TickEnded?
    ensures FailedTicks(trace + tail) == FailedTicks(trace)
  {
    if tail == [] {
      assert trace + tail == trace;
    } else {
      var front := tail[..|tail| - 1];
      FailedTicksKept(trace, front);
      assert (trace + tail)[..|trace + tail| - 1] == trace + front;
      assert tail[|tail| - 1] in tail;
    }
  }

  /** The log grew by one tick, whole or broken off. */
  ghost predicate TickAdds(before: seq<Observation>, target: Option<Target>, ended: bool, after: seq<Observation>) {
    exists tail: seq<Observation> ::
      && (forall o | o in tail :: Inbound(o))
      && after == before + [TickBegan(target)] + tail + if ended then [TickEnded] else []
  }

  lemma TickAdded(before: seq<Observation>, target: Option<Target>, tail: seq<Observation>, ended: bool,
                  after: seq<Observation>)
    requires forall o | o in tail :: Inbound(o)
    requires after == before + [TickBegan(target)] + tail + if ended then [TickEnded] else []
    ensures TickAdds(before, target, ended, after)
  {
  }

  lemma TickFails(before: seq<Observation>, target: Option<Target>, ended: bool, after: seq<Observation>)
    requires TickAdds(before, target, ended, after)
    ensures FailedTicks(after) == FailedTicks(before) + if ended then 0 else 1
  {
    var tail: seq<Observation> :|
      && (forall o | o in tail :: Inbound(o))
      && after == before + [TickBegan(target)] + tail + if ended then [TickEnded] else [];
    var begun := before + [TickBegan(target)];
    assert begun[..|before|] == before;
    FailedTicksKept(begun, tail);
    if ended {
      assert after[..|after| - 1] == begun + tail;
    } else {
      assert after == begun + tail;
    }
  }

  predicate AsksMode(o: Observation, motor: MotorKey) {
    o.Sent? && o.motor == motor && o.intent == QueryMode
  }

  /** Every tick since `start` began right after the motor was asked for its mode. */
  predicate AskedFirst(motor: MotorKey, trace: seq<Observation>, start: nat) {
    forall j | start <= j < |trace| && trace[j].TickBegan? :: start < j && AsksMode(trace[j - 1], motor)
  }

  /** The log since `start` ends with such a question, and each tick before it began right after one. */
  predicate JustAsked(motor: MotorKey, trace: seq<Observation>, start: nat) {
    start < |trace| && AsksMode(trace[|trace| - 1], motor) && AskedFirst(motor, trace, start)
  }

  lemma TickAsked(motor: MotorKey, before: seq<Observation>, start: nat, target: Option<Target>,
                  ended: bool, after: seq<Observation>)
    requires JustAsked(motor, before, start) && TickAdds(before, target, ended, after)
    ensures AskedFirst(motor, after, start)
  {
    var tail: seq<Observation> :|
      && (forall o | o in tail :: Inbound(o))
      && after == before + [TickBegan(target)] + tail + if ended then [TickEnded] else [];
    forall j | |before| < j < |after|
      ensures !after[j].TickBegan?
    {
      assert j < |before| + 1 + |tail| ==> after[j] == tail[j - |before| - 1] && after[j] in tail;
    }
  }

  lemma AskedAgain(motor: MotorKey, before: seq<Observation>, start: nat, after: seq<Observation>)
    requires start <= |before| && before <= after && |after| == |before| + 1
    requires AskedFirst(motor, before, start) && AsksMode(after[|before|], motor)
    ensures JustAsked(motor, after, start)
  {
  }

  // ---------------------------------------------------------------------------
  // What may be sent

  /** What verification may put on the wire. */
  predicate Probing(o: Observation) {
    !o.Sent? || o.intent == SetMode(PosForceMode) || o.intent == QueryMode
  }

  /** Nothing sent but this intent, and that to this group. */
  function Only(group: nat, intent: Intent): Observation -> bool {
    (o: Observation) => o.Sent? ==> o.motor.group == group && o.intent == intent
  }

  /** Enable, or disable, frames to this group. */
  function Switching(group: nat, on: bool): Observation -> bool {
    (o: Observation) => o.Sent? && o.motor.group == group && o.intent == SwitchIntent(on)
  }

  function To(group: nat): Observation -> bool {
    (o: Observation) => o.Sent? ==> o.motor.group == group
  }

  /** Nothing sent but PosForce commands to this gripper, to one target with the gripper's own current. */
  function Driving(group: nat, spec: Opening.Spec, target: real): Observation -> bool {
    (o: Observation) => o.Sent? ==>
      var amps := Opening.CalibrationCurrent(spec);
      && o.motor == MotorKey(group, 0) && amps.Success?
      && o.intent == Control(PosForce(target, Opening.DEFAULT_VELOCITY, amps.value))
  }

  function Switched(c: Cache, reached: bool, on: bool): Cache {
    if reached then c.(isEnabled := on) else c
  }

  lemma SwitchesInOrder(views: seq<BusView>, before: seq<Observation>, after: seq<Observation>, group: nat, sent: nat,
                        on: bool)
    requires before <= after && |after| == |before| + sent
    requires IsBatch(after[|before|..], group, Repeated(sent, SwitchIntent(on)))
    ensures Adds(before, after, Switching(group, on))
    ensures forall m: MotorKey :: (
      Replay(views, after, m) == Switched(Replay(views, before, m), m.group == group && m.index < sent, on))
  {
    var tail := after[|before|..];
    assert after == before + tail;
    forall m: MotorKey
      ensures Replay(views, after, m) == Switched(Replay(views, before, m), m.group == group && m.index < sent, on)
    {
      ReplayBatch(views, before, tail, group, on, m);
    }
    forall i | |before| <= i < |after|
      ensures Switching(group, on)(after[i])
    {
      assert after[i] == tail[i - |before|];
    }
  }

  lemma OtherGroupsKeepSwitches(group: nat, before: seq<Observation>, after: seq<Observation>)
    requires Adds(before, after, To(group))
    ensures forall m: MotorKey | m.group != group :: LastSwitch(after, m) == LastSwitch(before, m)
  {
    forall m: MotorKey | m.group != group
      ensures LastSwitch(after, m) == LastSwitch(before, m)
    {
      assert after == before + after[|before|..];
      OthersKeepSwitch(before, after[|before|..], m);
    }
  }

  // ---------------------------------------------------------------------------
  // Calibration

  /** Where the gripper's motor was at a point of the log. */
  function PositionIn(views: seq<BusView>, trace: seq<Observation>, group: nat): real {
    Replay(views, trace, MotorKey(group, 0)).position
  }

  function Travel(spec: Opening.Spec): real {
    Opening.Sign(spec.direction) * Opening.CALIBRATION_TRAVEL
  }

  /** Opening is four radians towards higher positions or towards lower ones, as the gripper is built. */
  lemma TravelOf(spec: Opening.Spec)
    ensures Travel(spec) == if spec.direction.IncreasingPosition? then 4.0 else -4.0
  {
  }

  /**
   Refreshes; then commands to one target, a fixed travel towards closed from
   where the motor was then; then commands to one target, the same travel
   towards open from where the motor was after closing.
   */
  ghost predicate Stroke(views: seq<BusView>, group: nat, spec: Opening.Spec, before: seq<Observation>,
                         refreshed: seq<Observation>, shut: seq<Observation>, after: seq<Observation>) {
    Adds(before, refreshed, Only(group, Refresh)) && ThereAndBack(views, group, spec, refreshed, shut, after)
  }

  ghost predicate ThereAndBack(views: seq<BusView>, group: nat, spec: Opening.Spec, refreshed: seq<Observation>,
                               shut: seq<Observation>, after: seq<Observation>) {
    && Adds(refreshed, shut, Driving(group, spec, PositionIn(views, refreshed, group) - Travel(spec)))
    && Adds(shut, after, Driving(group, spec, PositionIn(views, shut, group) + Travel(spec)))
  }

  /** The two phases as they are run: each from the motor's position, along the sign of the opening direction. */
  lemma StrokeAsRun(views: seq<BusView>, group: nat, spec: Opening.Spec, refreshed: seq<Observation>,
                    shut: seq<Observation>, after: seq<Observation>, start: real, closed: real)
    requires start == PositionIn(views, refreshed, group) && closed == PositionIn(views, shut, group)
    requires Adds(refreshed, shut, Driving(group, spec, Ahead(start, -Opening.Sign(spec.direction))))
    requires Adds(shut, after, Driving(group, spec, Ahead(closed, Opening.Sign(spec.direction))))
    ensures ThereAndBack(views, group, spec, refreshed, shut, after)
  {
    assert Ahead(start, -Opening.Sign(spec.direction)) == start - Travel(spec);
  }

  /** The target of a calibration phase. */
  function Ahead(start: real, direction: real): real {
    start + direction * Opening.CALIBRATION_TRAVEL
  }

  ghost predicate HasStroke(views: seq<BusView>, group: nat, spec: Opening.Spec, before: seq<Observation>,
                            after: seq<Observation>) {
    exists refreshed, shut :: Stroke(views, group, spec, before, refreshed, shut, after)
  }

  /** What a stroke measured: where the motor was after closing, and after opening. */
  function MeasuredAs(views: seq<BusView>, group: nat, spec: Opening.Spec, shut: seq<Observation>,
                      after: seq<Observation>):
      Opening.Control {
    Opening.Control(spec, Some(Opening.Calibration(PositionIn(views, shut, group), PositionIn(views, after, group))))
  }

  /** How often the motor had reported its state at a point of the log, modulo 2^64. */
  function SequenceIn(views: seq<BusView>, trace: seq<Observation>, group: nat): u64 {
    Replay(views, trace, MotorKey(group, 0)).sequence
  }

  /**
   The control holds what a stroke that just ended measured, one that began with
   fresh feedback from the motor and in which no tick failed.
   */
  ghost predicate JustMeasured(views: seq<BusView>, group: nat, spec: Opening.Spec, control: Option<Opening.Control>,
                               before: seq<Observation>, after: seq<Observation>) {
    exists refreshed, shut ::
      && Stroke(views, group, spec, before, refreshed, shut, after)
      && SequenceIn(views, refreshed, group) != SequenceIn(views, before, group)
      && FailedTicks(after) == FailedTicks(before)
      && control == Some(MeasuredAs(views, group, spec, shut, after))
  }

  lemma StrokeIsInert(views: seq<BusView>, group: nat, spec: Opening.Spec, before: seq<Observation>,
                      after: seq<Observation>)
    requires HasStroke(views, group, spec, before, after)
    ensures Adds(before, after, To(group)) && Adds(before, after, Inert)
  {
  }

  // ---------------------------------------------------------------------------
  // Enabling one group

  /**
   Enabling a group, from its log and its opening control: the mode writes where
   the mode cannot be read back; enables, to all motors if it gets that far; and
   then, for opening control, a stroke, which either succeeds and is kept, or
   leaves no calibration and is followed by disables. Nothing else is sent, and
   a failure before the stroke leaves the calibration as it was.
   */
  ghost predicate GroupRun(views: seq<BusView>, group: nat, size: nat, spec: Option<Opening.Spec>,
                           writes: seq<Observation>, ok: bool, opening: Option<Opening.Control>,
                           opening': Option<Opening.Control>, before: seq<Observation>, after: seq<Observation>) {
    exists moded, enabled, stroked ::
      RunInPhases(views, group, size, spec, writes, ok, opening, opening', before, moded, enabled, stroked, after)
  }

  ghost predicate RunInPhases(views: seq<BusView>, group: nat, size: nat, spec: Option<Opening.Spec>,
                              writes: seq<Observation>, ok: bool, opening: Option<Opening.Control>,
                              opening': Option<Opening.Control>, before: seq<Observation>, moded: seq<Observation>,
                              enabled: seq<Observation>, stroked: seq<Observation>, after: seq<Observation>) {
    && SwitchingOn(group, size, writes, before, moded, enabled)
    && enabled <= stroked <= after
    && if |enabled| < |moded| + size then
         !ok && opening' == opening && enabled == after
       else if spec.None? then
         ok && opening' == opening && enabled == after
       else if ok then
         JustMeasured(views, group, spec.value, opening', enabled, after)
       else
         && opening' == Some(Opening.Control(spec.value, None))
         && HasStroke(views, group, spec.value, enabled, stroked)
         && Adds(stroked, after, Switching(group, false))
  }

  /** Mode writes, and once all are out, at most one enable for each motor. */
  ghost predicate SwitchingOn(group: nat, size: nat, writes: seq<Observation>,
                              before: seq<Observation>, moded: seq<Observation>, enabled: seq<Observation>) {
    && before <= moded <= before + writes
    && Adds(moded, enabled, Switching(group, true))
    && |enabled| <= |moded| + size
    && (moded == before + writes || (enabled == moded && size > 0))
  }

  /** All these are mode writes to the group. */
  predicate WriteMode(group: nat, writes: seq<Observation>) {
    forall o | o in writes :: o.Sent? && o.motor.group == group && o.intent == SetMode(PosForceMode)
  }

  lemma SwitchingOnStays(group: nat, size: nat, writes: seq<Observation>,
                         before: seq<Observation>, moded: seq<Observation>, enabled: seq<Observation>)
    requires SwitchingOn(group, size, writes, before, moded, enabled) && WriteMode(group, writes)
    ensures Adds(before, enabled, To(group))
    ensures forall k | |before| <= k < |enabled| :: enabled[k].Sent? && !enabled[k].intent.Control?
  {
    forall k | |before| <= k < |moded|
      ensures moded[k] in writes
    {
      assert moded[k] == (before + writes)[k] == writes[k - |before|];
    }
    assert forall k | |before| <= k < |enabled| :: k < |moded| ==> enabled[k] == moded[k];
  }

  /** The log enables a gripper's motor at or after `start`. */
  ghost predicate EnabledSince(group: nat, trace: seq<Observation>, start: nat) {
    exists i | start <= i < |trace| ::
      trace[i].Sent? && trace[i].motor == MotorKey(group, 0) && trace[i].intent == Enable
  }

  /** Switching on a group of one motor sends nothing but mode writes if it fails. */
  lemma NothingSwitchedOn(group: nat, size: nat, writes: seq<Observation>,
                          before: seq<Observation>, moded: seq<Observation>, enabled: seq<Observation>)
    requires SwitchingOn(group, size, writes, before, moded, enabled) && WriteMode(group, writes)
    requires size <= 1 && |enabled| < |moded| + size
    ensures !EnabledSince(group, enabled, |before|)
  {
    forall k | |before| <= k < |enabled|
      ensures enabled[k].intent == SetMode(PosForceMode)
    {
      assert enabled[k] == (before + writes)[k] == writes[k - |before|];
      assert enabled[k] in writes;
    }
  }

  lemma RunStaysInGroup(views: seq<BusView>, group: nat, size: nat, spec: Option<Opening.Spec>,
                        writes: seq<Observation>, ok: bool, opening: Option<Opening.Control>,
                        opening': Option<Opening.Control>, before: seq<Observation>, after: seq<Observation>)
    requires GroupRun(views, group, size, spec, writes, ok, opening, opening', before, after)
    requires WriteMode(group, writes)
    ensures Adds(before, after, To(group))
    ensures !ok ==> opening' == opening || (spec.Some? && opening' == Some(Opening.Control(spec.value, None)))
    ensures ok && spec.Some? && size > 0 ==> opening'.Some? && opening'.value.calibration.Some?
    ensures spec.None? ==> opening' == opening
  {
    var moded: seq<Observation>, enabled: seq<Observation>, stroked: seq<Observation> :|
      RunInPhases(views, group, size, spec, writes, ok, opening, opening', before, moded, enabled, stroked, after);
    SwitchingOnStays(group, size, writes, before, moded, enabled);
    if |enabled| == |moded| + size && spec.Some? {
      if ok {
        StrokeIsInert(views, group, spec.value, enabled, after);
        AddsTwice(before, enabled, after, To(group));
      } else {
        StrokeIsInert(views, group, spec.value, enabled, stroked);
        AddsTwice(enabled, stroked, after, To(group));
        AddsTwice(before, enabled, after, To(group));
      }
    }
  }

  /**
   A calibration command: the fixed travel either way from where the motor was at point
   `k`, with a current in (0, 1].
   */
  ghost predicate IsPush(views: seq<BusView>, group: nat, spec: Opening.Spec, trace: seq<Observation>, k: nat,
                         o: Observation)
    requires k <= |trace|
  {
    var amps, from := Opening.CalibrationCurrent(spec), PositionIn(views, trace[..k], group);
    && o.Sent? && o.motor == MotorKey(group, 0) && amps.Success? && 0.0 < amps.value <= 1.0
    && (|| o.intent == Control(PosForce(from - 4.0, 10.0, amps.value))
        || o.intent == Control(PosForce(from + 4.0, 10.0, amps.value)))
  }

  /** The command at entry `i` is a calibration command from where the gripper was at a point since `start`. */
  ghost predicate Pushes(views: seq<BusView>, group: nat, spec: Opening.Spec, trace: seq<Observation>, start: nat,
                         i: nat)
    requires i < |trace|
  {
    exists k :: start <= k <= i && IsPush(views, group, spec, trace, k, trace[i])
  }

  lemma StrokePushes(views: seq<BusView>, group: nat, spec: Opening.Spec, before: seq<Observation>,
                     after: seq<Observation>, i: nat)
    requires HasStroke(views, group, spec, before, after)
    requires |before| <= i < |after| && after[i].Sent? && after[i].intent.Control?
    ensures Pushes(views, group, spec, after, |before|, i)
  {
    var refreshed, shut :| Stroke(views, group, spec, before, refreshed, shut, after);
    if i < |shut| {
      assert shut[i] == after[i] && after[..|refreshed|] == refreshed;
      assert IsPush(views, group, spec, after, |refreshed|, after[i]);
    } else {
      assert after[..|shut|] == shut;
      assert IsPush(views, group, spec, after, |shut|, after[i]);
    }
  }

  lemma PushesKept(views: seq<BusView>, group: nat, spec: Opening.Spec, trace: seq<Observation>, start: nat, i: nat,
                   trace': seq<Observation>, start': nat)
    requires i < |trace| && trace <= trace' && start' <= start && Pushes(views, group, spec, trace, start, i)
    ensures Pushes(views, group, spec, trace', start', i)
  {
    var k :| start <= k <= i && IsPush(views, group, spec, trace, k, trace[i]);
    assert trace'[..k] == trace[..k];
    assert IsPush(views, group, spec, trace', k, trace'[i]);
  }

  /** While a group is enabled, the only commands are the calibration commands of its opening control. */
  lemma RunPushes(views: seq<BusView>, group: nat, size: nat, spec: Option<Opening.Spec>, writes: seq<Observation>,
                  ok: bool, opening: Option<Opening.Control>, opening': Option<Opening.Control>,
                  before: seq<Observation>, after: seq<Observation>, i: nat)
    requires GroupRun(views, group, size, spec, writes, ok, opening, opening', before, after)
    requires WriteMode(group, writes)
    requires |before| <= i < |after| && after[i].Sent? && after[i].intent.Control?
    ensures spec.Some? && Pushes(views, group, spec.value, after, |before|, i)
  {
    var moded: seq<Observation>, enabled: seq<Observation>, stroked: seq<Observation> :|
      RunInPhases(views, group, size, spec, writes, ok, opening, opening', before, moded, enabled, stroked, after);
    SwitchingOnStays(group, size, writes, before, moded, enabled);
    assert forall k | |before| <= k < |enabled| :: enabled[k] == after[k];
    assert |enabled| <= i;
    var end := if ok then after else stroked;
    assert spec.Some? && i < |end| && end[i] == after[i];
    StrokePushes(views, group, spec.value, enabled, end, i);
    PushesKept(views, group, spec.value, end, |enabled|, i, after, |before|);
  }
}
