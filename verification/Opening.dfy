/** Normalized gripper opening: 0 is closed and 1 is open, on a calibrated stroke. */
module Opening {
  import opened RealArithmetic
  import opened Wrappers

  const CALIBRATION_TRAVEL := 4.0
  const CALIBRATION_MIN_SPAN := 0.1
  const DEFAULT_CURRENT := 0.15
  const DEFAULT_VELOCITY := 10.0

  datatype Direction = IncreasingPosition | DecreasingPosition

  function Sign(d: Direction): real {
    if d.IncreasingPosition? then 1.0 else -1.0
  }

  datatype Spec = Spec(direction: Direction, defaultCurrent: Option<real>)

  datatype Calibration = Calibration(closed: real, open: real)

  datatype Control = Control(spec: Spec, calibration: Option<Calibration>)

  datatype OpeningError = OutOfRange | CurrentOutOfRange | CalibrationRequired | CalibrationFailed

  predicate WideEnough(c: Calibration) {
    Abs(c.open - c.closed) >= CALIBRATION_MIN_SPAN
  }

  /** What every stored calibration satisfies. */
  predicate Sound(control: Option<Control>) {
    control.Some? && control.value.calibration.Some? ==> WideEnough(control.value.calibration.value)
  }

  function Cleared(control: Option<Control>): (r: Option<Control>)
    ensures Sound(r)
  {
    match control
    case None => None
    case Some(c) => Some(c.(calibration := None))
  }

  /** Accepts a measured stroke, or refuses one that is too short and keeps what was there. */
  function Calibrated(control: Option<Control>, closed: real, open: real): (r: Result<Option<Control>, OpeningError>)
    ensures r.Success? <==> open - closed >= 0.1 || closed - open >= 0.1
    ensures r.Success? ==> Sound(r.value) && r.value.Some? == control.Some?
    ensures r.Success? && control.Some? ==>
      r.value == Some(Control(control.value.spec, Some(Calibration(closed, open))))
  {
    if Abs(open - closed) < CALIBRATION_MIN_SPAN then
      Failure(CalibrationFailed)
    else match control
      case None => Success(None)
      case Some(c) => Success(Some(c.(calibration := Some(Calibration(closed, open)))))
  }

  function Clamp01(x: real): real {
    if x < 0.0 then 0.0 else if x > 1.0 then 1.0 else x
  }

  /** The normalized opening at a motor position. */
  function OpeningAt(control: Option<Control>, position: real): (r: Result<real, OpeningError>)
    requires Sound(control)
    ensures r.Success? ==> 0.0 <= r.value <= 1.0
  {
    if control.None? || control.value.calibration.None? then
      Failure(CalibrationRequired)
    else
      var c := control.value.calibration.value;
      Success(Clamp01((position - c.closed) / (c.open - c.closed)))
  }

  /** The point a fraction of the way along a stroke. */
  function Along(start: real, span: real, fraction: real): real {
    start + fraction * span
  }

  /** The motor position of a normalized opening. */
  function PositionOf(control: Option<Control>, opening: real): (r: Result<real, OpeningError>)
    ensures r == Failure(OutOfRange) <==> opening < 0.0 || opening > 1.0
    ensures r == Failure(CalibrationRequired) <==>
      0.0 <= opening <= 1.0 && (control.None? || control.value.calibration.None?)
    ensures r.Failure? ==> r.error.OutOfRange? || r.error.CalibrationRequired?
  {
    if !(0.0 <= opening <= 1.0) then
      Failure(OutOfRange)
    else if control.None? || control.value.calibration.None? then
      Failure(CalibrationRequired)
    else
      var c := control.value.calibration.value;
      Success(Along(c.closed, c.open - c.closed, opening))
  }

  /** The result is this current if it is allowed, and an error otherwise. */
  predicate Uses(r: Result<real, OpeningError>, current: real) {
    r == if 0.0 < current <= 1.0 then Success(current) else Failure(CurrentOutOfRange)
  }

  /** The current a command uses: the caller's, else the configured one, else 0.15. */
  function CurrentFor(control: Option<Control>, current: Option<real>): (r: Result<real, OpeningError>)
    ensures r.Success? ==> 0.0 < r.value <= 1.0
    ensures Uses(r, match current
                    case Some(own) => own
                    case None => if control.Some? && control.value.spec.defaultCurrent.Some?
                                 then control.value.spec.defaultCurrent.value else 0.15)
  {
    var configured := if control.Some? then control.value.spec.defaultCurrent else None;
    var i := if current.Some? then current.value else if configured.Some? then configured.value else DEFAULT_CURRENT;
    if 0.0 < i <= 1.0 then Success(i) else Failure(CurrentOutOfRange)
  }

  /** The current of calibration commands. */
  function CalibrationCurrent(spec: Spec): (r: Result<real, OpeningError>)
    ensures r.Success? ==> 0.0 < r.value <= 1.0
  {
    CurrentFor(Some(Control(spec, None)), None)
  }

  predicate Between(x: real, a: real, b: real) {
    a <= x <= b || b <= x <= a
  }

  /** Positioning an opening and reading it back gives the opening, whichever way the gripper opens. */
  lemma OpeningRoundTrip(c: Control, opening: real)
    requires c.calibration.Some? && WideEnough(c.calibration.value)
    requires 0.0 <= opening <= 1.0
    ensures OpeningAt(Some(c), PositionOf(Some(c), opening).value) == Success(opening)
    ensures Between(PositionOf(Some(c), opening).value, c.calibration.value.closed, c.calibration.value.open)
  {
    AlongThenBack(c.calibration.value.closed, c.calibration.value.open - c.calibration.value.closed, opening);
  }

  /** Closed is 0 and open is 1. */
  lemma OpeningEnds(c: Control)
    requires c.calibration.Some?
    ensures PositionOf(Some(c), 0.0) == Success(c.calibration.value.closed)
    ensures PositionOf(Some(c), 1.0) == Success(c.calibration.value.open)
  {
  }

  lemma AlongThenBack(start: real, span: real, fraction: real)
    requires span != 0.0 && 0.0 <= fraction <= 1.0
    ensures (Along(start, span, fraction) - start) / span == fraction
    ensures Between(Along(start, span, fraction), start, start + span)
  {
    Portion(fraction, span);
    QuotientIs(Along(start, span, fraction) - start, fraction, span);
  }

  /** On the calibrated stroke, reading an opening and positioning it gives the position back. */
  lemma PositionRoundTrip(c: Control, position: real)
    requires c.calibration.Some? && WideEnough(c.calibration.value)
    requires Between(position, c.calibration.value.closed, c.calibration.value.open)
    ensures PositionOf(Some(c), OpeningAt(Some(c), position).value) == Success(position)
  {
    var closed, open := c.calibration.value.closed, c.calibration.value.open;
    FractionBounds(position - closed, open - closed);
    BackThenAlong(closed, open - closed, position);
  }

  lemma BackThenAlong(start: real, span: real, position: real)
    requires span != 0.0
    ensures Along(start, span, (position - start) / span) == position
  {
    QuotientTimes(position - start, span);
  }

  lemma FractionBounds(x: real, span: real)
    requires span != 0.0 && Between(x, 0.0, span)
    ensures 0.0 <= x / span <= 1.0
  {
    DivideSelf(span);
    DivideMonotone(0.0, x, span);
    DivideMonotone(x, span, span);
  }

  /** Off the stroke the opening saturates at the nearer end. */
  lemma OpeningSaturates(c: Control, position: real)
    requires c.calibration.Some? && WideEnough(c.calibration.value)
    ensures
      var cal := c.calibration.value;
      && ((if cal.open > cal.closed then position <= cal.closed else position >= cal.closed) ==>
            OpeningAt(Some(c), position) == Success(0.0))
      && ((if cal.open > cal.closed then position >= cal.open else position <= cal.open) ==>
            OpeningAt(Some(c), position) == Success(1.0))
  {
    var cal := c.calibration.value;
    Saturates(position - cal.closed, cal.open - cal.closed);
  }

  lemma Saturates(x: real, span: real)
    requires span != 0.0
    ensures (if span > 0.0 then x <= 0.0 else x >= 0.0) ==> Clamp01(x / span) == 0.0
    ensures (if span > 0.0 then x >= span else x <= span) ==> Clamp01(x / span) == 1.0
  {
    DivideSelf(span);
    if span > 0.0 {
      if x <= 0.0 { DivideMonotone(x, 0.0, span); }
      if x >= span { DivideMonotone(span, x, span); }
    } else {
      if x >= 0.0 { DivideMonotone(x, 0.0, span); }
      if x <= span { DivideMonotone(span, x, span); }
    }
  }

  /** The opening never decreases in the direction from closed to open. */
  lemma OpeningMonotone(c: Control, p: real, q: real)
    requires c.calibration.Some? && WideEnough(c.calibration.value)
    requires if c.calibration.value.open > c.calibration.value.closed then p <= q else p >= q
    ensures OpeningAt(Some(c), p).value <= OpeningAt(Some(c), q).value
  {
    var closed, span := c.calibration.value.closed, c.calibration.value.open - c.calibration.value.closed;
    DivideMonotone(p - closed, q - closed, span);
  }
}
