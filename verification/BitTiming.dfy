/**
 Nominal bit-timing selection from the capabilities an adapter reports.

 A nominal bit time is one synchronisation quantum, `tseg1` quanta before the
 sample point and `tseg2` after it (section 10 of Part B of the Bosch CAN
 Specification 2.0). The search runs in u32 arithmetic that wraps, as the
 release build of the source does.
 */
module BitTiming {
  import opened Wrappers
  import opened MachineInts

  datatype Constraints = Constraints(
    clockHz: u32,
    tseg1Min: u32, tseg1Max: u32,
    tseg2Min: u32, tseg2Max: u32,
    sjwMax: u32,
    brpMin: u32, brpMax: u32, brpIncrement: u32)

  datatype Timing = Timing(propSeg: u32, phaseSeg1: u32, phaseSeg2: u32, sjw: u32, brp: u32) {
    function Tseg1(): int { propSeg + phaseSeg1 }
  }

  datatype TimingError = InvalidConstraints | Unreachable

  predicate ValidConstraints(c: Constraints, bitrate: u32) {
    && bitrate != 0 && c.clockHz != 0
    && c.tseg1Min != 0 && c.tseg1Min <= c.tseg1Max
    && c.tseg2Min != 0 && c.tseg2Min <= c.tseg2Max
    && c.sjwMax != 0
    && c.brpMin != 0 && c.brpMin <= c.brpMax && c.brpIncrement != 0
  }

  /** Constraints are refused when something that must be positive is not, or a range is empty. */
  lemma ValidIffInhabited(c: Constraints, bitrate: u32)
    ensures ValidConstraints(c, bitrate) <==>
      && bitrate > 0 && c.clockHz > 0 && c.sjwMax > 0 && c.brpIncrement > 0
      && c.tseg1Min > 0 && c.tseg2Min > 0 && c.brpMin > 0
      && Inhabited(c.tseg1Min, c.tseg1Max) && Inhabited(c.tseg2Min, c.tseg2Max) && Inhabited(c.brpMin, c.brpMax)
  {
    assert Within(c.tseg1Min, c.tseg1Min, c.tseg1Max) <==> c.tseg1Min <= c.tseg1Max;
    assert Within(c.tseg2Min, c.tseg2Min, c.tseg2Max) <==> c.tseg2Min <= c.tseg2Max;
    assert Within(c.brpMin, c.brpMin, c.brpMax) <==> c.brpMin <= c.brpMax;
  }

  predicate Within(x: int, lo: int, hi: int) {
    lo <= x <= hi
  }

  ghost predicate Inhabited(lo: int, hi: int) {
    exists x :: Within(x, lo, hi)
  }

  // ---------------------------------------------------------------------------
  // What a timing should be

  function GridPoint(c: Constraints, k: nat): int {
    c.brpMin + k * c.brpIncrement
  }

  ghost predicate OnGrid(c: Constraints, brp: int) {
    c.brpMin <= brp <= c.brpMax && exists k: nat :: GridPoint(c, k) == brp
  }

  /** The reported ranges admit this split of the bit time, with at least two quanta before the sample point. */
  predicate InRanges(c: Constraints, tseg1: int, tseg2: int) {
    && c.tseg1Min <= tseg1 <= c.tseg1Max && 2 <= tseg1
    && c.tseg2Min <= tseg2 <= c.tseg2Max
  }

  /** The prescaler and the quanta after the sample point produce the bitrate exactly. */
  ghost predicate Feasible(c: Constraints, bitrate: u32, brp: int, tseg2: int) {
    && OnGrid(c, brp)
    && exists tseg1 :: InRanges(c, tseg1, tseg2) && brp * bitrate * (1 + tseg1 + tseg2) == c.clockHz
  }

  // ---------------------------------------------------------------------------
  // What the search considers

  function Wrap(x: int): (r: u32) {
    x % U32_LIMIT
  }

  /** The quanta in a bit, or 0 when the prescaler does not divide the clock. */
  function Quanta(c: Constraints, bitrate: u32, brp: u32): (q: u32)
    ensures q <= c.clockHz
  {
    MulMonotone(0, brp, bitrate);
    MulMonotone(brp, U32_LIMIT, bitrate);
    var denominator: u64 := brp * bitrate;
    if denominator > 0 && c.clockHz % denominator == 0 then
      QuotientAtMost(c.clockHz, denominator);
      c.clockHz / denominator
    else
      0
  }

  lemma QuotientAtMost(a: nat, b: int)
    requires b > 0
    ensures 0 <= a / b <= a
  {
    MulMonotone(1, b, a / b);
  }

  lemma MulMonotone(x: int, y: int, factor: int)
    requires factor >= 0
    ensures x <= y ==> x * factor <= y * factor
  {
    if x <= y {
      assert (y - x) * factor >= 0;
    }
  }

  /** `checked_sub(1 + tseg2)`, with the wrapping sum. */
  predicate Considered(c: Constraints, quanta: u32, tseg2: u32) {
    && quanta > 0
    && c.tseg2Min <= tseg2 <= c.tseg2Max
    && Wrap(1 + tseg2) <= quanta
    && InRanges(c, quanta - Wrap(1 + tseg2), tseg2)
  }

  datatype Key = Key(sampleError: int, antiQuanta: int, brp: int, tseg2: int) {
    predicate Less(that: Key) {
      || sampleError < that.sampleError
      || (sampleError == that.sampleError && antiQuanta < that.antiQuanta)
      || (sampleError == that.sampleError && antiQuanta == that.antiQuanta && brp < that.brp)
      || (sampleError == that.sampleError && antiQuanta == that.antiQuanta && brp == that.brp && tseg2 < that.tseg2)
    }
  }

  function AbsDiff(a: int, b: int): nat {
    if a < b then b - a else a - b
  }

  /** The score of a candidate: sample-point error in thousandths of a quantum, then resolution, brp, tseg2. */
  function KeyOf(quanta: u32, brp: u32, tseg2: u32): Key {
    var samplePoint: u64 := Wrap(1 + (quanta - Wrap(1 + tseg2))) * 1000;
    var target: u64 := quanta * 875;
    Key(AbsDiff(samplePoint, target), U32_LIMIT - 1 - quanta, brp, tseg2)
  }

  function TimingOf(quanta: u32, brp: u32, tseg2: u32): (t: Timing)
    requires 2 <= quanta - Wrap(1 + tseg2) < U32_LIMIT
    ensures t.Tseg1() == quanta - Wrap(1 + tseg2)
  {
    Timing(1, quanta - Wrap(1 + tseg2) - 1, tseg2, 1, brp)
  }

  datatype Best = Best(key: Key, timing: Timing)

  /** `best` is the candidate (brp, its tseg2) of a prescaler giving `quanta`. */
  predicate IsCandidate(c: Constraints, quanta: u32, best: Best) {
    && Considered(c, quanta, best.timing.phaseSeg2)
    && best.key == KeyOf(quanta, best.timing.brp, best.timing.phaseSeg2)
    && best.timing == TimingOf(quanta, best.timing.brp, best.timing.phaseSeg2)
  }

  predicate AtMost(best: Option<Best>, key: Key) {
    best.Some? && !key.Less(best.value.key)
  }

  /** The inner loop over tseg2 for one prescaler. */
  method SearchTseg2(c: Constraints, brp: u32, quanta: u32, initial: Option<Best>) returns (best: Option<Best>)
    ensures best == initial || (best.Some? && best.value.timing.brp == brp && IsCandidate(c, quanta, best.value))
    ensures initial.Some? ==> AtMost(best, initial.value.key)
    ensures forall t: u32 :: Considered(c, quanta, t) ==> AtMost(best, KeyOf(quanta, brp, t))
  {
    best := initial;
    var tseg2: int := c.tseg2Min;
    while tseg2 <= c.tseg2Max
      invariant tseg2 >= c.tseg2Min
      invariant best == initial || (best.Some? && best.value.timing.brp == brp && IsCandidate(c, quanta, best.value))
      invariant initial.Some? ==> AtMost(best, initial.value.key)
      invariant forall t: u32 :: t < tseg2 && Considered(c, quanta, t) ==> AtMost(best, KeyOf(quanta, brp, t))
    {
      if quanta > 0 && Wrap(1 + tseg2) <= quanta {
        var tseg1 := quanta - Wrap(1 + tseg2);
        if c.tseg1Min <= tseg1 <= c.tseg1Max && tseg1 >= 2 {
          var score := Best(KeyOf(quanta, brp, tseg2), Timing(1, tseg1 - 1, tseg2, 1, brp));
          if best.None? || score.key.Less(best.value.key) {
            best := Some(score);
          }
        }
      }
      tseg2 := tseg2 + 1;
    }
  }

  /** `best` is the least candidate among the grid prescalers below `limit`. */
  ghost predicate BestBelow(c: Constraints, bitrate: u32, best: Option<Best>, limit: int) {
    && (best.Some? ==>
          && OnGrid(c, best.value.timing.brp)
          && best.value.timing.brp < limit
          && IsCandidate(c, Quanta(c, bitrate, best.value.timing.brp), best.value))
    && forall b: u32, t: u32 :: OnGrid(c, b) && b < limit && Considered(c, Quanta(c, bitrate, b), t) ==>
         AtMost(best, KeyOf(Quanta(c, bitrate, b), b, t))
  }

  /** The chosen timing minimises the key over every candidate the constraints allow. */
  ghost predicate IsOptimum(c: Constraints, bitrate: u32, timing: Timing) {
    var q := Quanta(c, bitrate, timing.brp);
    && OnGrid(c, timing.brp)
    && Considered(c, q, timing.phaseSeg2)
    && timing == TimingOf(q, timing.brp, timing.phaseSeg2)
    && forall b: u32, t: u32 ::
         OnGrid(c, b) && Considered(c, Quanta(c, bitrate, b), t) && (b != timing.brp || t != timing.phaseSeg2) ==>
         KeyOf(q, timing.brp, timing.phaseSeg2).Less(KeyOf(Quanta(c, bitrate, b), b, t))
  }

  ghost predicate NoCandidate(c: Constraints, bitrate: u32) {
    forall b: u32, t: u32 :: OnGrid(c, b) ==> !Considered(c, Quanta(c, bitrate, b), t)
  }

  method CalculateNominalTiming(c: Constraints, bitrate: u32) returns (r: Result<Timing, TimingError>)
    ensures r == Failure(InvalidConstraints) <==> !ValidConstraints(c, bitrate)
    ensures r == Failure(Unreachable) <==> ValidConstraints(c, bitrate) && NoCandidate(c, bitrate)
    ensures r.Success? ==> IsOptimum(c, bitrate, r.value)
  {
    if !ValidConstraints(c, bitrate) {
      return Failure(InvalidConstraints);
    }
    var best: Option<Best> := None;
    var brp: u32 := c.brpMin;
    ghost var searched: int := brp;
    assert GridPoint(c, 0) == brp;
    while brp <= c.brpMax
      invariant brp <= c.brpMax ==> OnGrid(c, brp)
      invariant searched == brp && BestBelow(c, bitrate, best, searched)
    {
      ghost var before := best;
      best := SearchTseg2(c, brp, Quanta(c, bitrate, brp), best);
      RowDone(c, bitrate, before, best, brp);
      GridStep(c, brp);
      searched := brp + c.brpIncrement;
      if brp + c.brpIncrement >= U32_LIMIT {
        break;
      }
      brp := brp + c.brpIncrement;
    }
    r := if best.Some? then Success(best.value.timing) else Failure(Unreachable);
  }

  lemma GridStep(c: Constraints, brp: int)
    requires OnGrid(c, brp)
    ensures brp + c.brpIncrement <= c.brpMax ==> OnGrid(c, brp + c.brpIncrement)
  {
    var k: nat :| GridPoint(c, k) == brp;
    assert GridPoint(c, k + 1) == brp + c.brpIncrement;
  }

  lemma GridGap(c: Constraints, b: int, brp: int)
    requires OnGrid(c, b) && OnGrid(c, brp) && b > brp
    ensures b >= brp + c.brpIncrement
  {
    var x: nat :| GridPoint(c, x) == b;
    var y: nat :| GridPoint(c, y) == brp;
    MultiplesApart(x, y, c.brpIncrement);
  }

  lemma MultiplesApart(x: int, y: int, step: int)
    requires step >= 0 && x * step > y * step
    ensures x * step >= y * step + step
  {
    MulMonotone(x, y, step);
    MulMonotone(1, x - y, step);
  }

  lemma RowDone(c: Constraints, bitrate: u32, before: Option<Best>, best: Option<Best>, brp: u32)
    requires c.brpIncrement > 0 && OnGrid(c, brp)
    requires BestBelow(c, bitrate, before, brp)
    requires best == before
          || (best.Some? && best.value.timing.brp == brp && IsCandidate(c, Quanta(c, bitrate, brp), best.value))
    requires before.Some? ==> AtMost(best, before.value.key)
    requires forall t: u32 :: Considered(c, Quanta(c, bitrate, brp), t) ==>
      AtMost(best, KeyOf(Quanta(c, bitrate, brp), brp, t))
    ensures BestBelow(c, bitrate, best, brp + c.brpIncrement)
  {
    forall b: u32, t: u32 | OnGrid(c, b) && b < brp + c.brpIncrement && Considered(c, Quanta(c, bitrate, b), t)
      ensures AtMost(best, KeyOf(Quanta(c, bitrate, b), b, t))
    {
      if b > brp {
        GridGap(c, b, brp);
      }
    }
  }

  // ---------------------------------------------------------------------------
  // What the search means

  /** A prescaler whose whole bit time fits before the sample point meets the wrapped tseg2 = 2^32 - 1. */
  ghost predicate WrapCandidate(c: Constraints, bitrate: u32, brp: u32) {
    && c.tseg2Max == U32_LIMIT - 1
    && OnGrid(c, brp)
    && Quanta(c, bitrate, brp) > 0
    && InRanges(c, Quanta(c, bitrate, brp), U32_LIMIT - 1)
  }

  lemma QuotientOfProduct(d: int, k: int)
    requires d > 0
    ensures d * k % d == 0 && d * k / d == k
  {
    var q, r := d * k / d, d * k % d;
    assert d * (k - q) == r;
    MulMonotone(1, k - q, d);
    MulMonotone(k - q, -1, d);
  }

  lemma QuantaExact(c: Constraints, bitrate: u32, brp: u32)
    ensures Quanta(c, bitrate, brp) > 0 ==> brp * bitrate * Quanta(c, bitrate, brp) == c.clockHz
  {
  }

  lemma QuantaFound(c: Constraints, bitrate: u32, brp: u32, total: int)
    requires ValidConstraints(c, bitrate) && brp > 0
    requires brp * bitrate * total == c.clockHz
    ensures Quanta(c, bitrate, brp) == total
  {
    MulMonotone(1, brp, bitrate);
    QuotientOfProduct(brp * bitrate, total);
  }

  /** A timing is feasible when the quanta of its prescaler leave an admissible tseg1 for its tseg2. */
  predicate Fits(c: Constraints, quanta: int, tseg2: int) {
    quanta > 0 && InRanges(c, quanta - 1 - tseg2, tseg2)
  }

  lemma FeasibleFits(c: Constraints, bitrate: u32, brp: u32, tseg2: int)
    requires ValidConstraints(c, bitrate) && Feasible(c, bitrate, brp, tseg2)
    ensures Fits(c, Quanta(c, bitrate, brp), tseg2)
  {
    var tseg1 :| InRanges(c, tseg1, tseg2) && brp * bitrate * (1 + tseg1 + tseg2) == c.clockHz;
    QuantaFound(c, bitrate, brp, 1 + tseg1 + tseg2);
  }

  lemma FitsFeasible(c: Constraints, bitrate: u32, brp: u32, tseg2: int)
    requires OnGrid(c, brp) && Fits(c, Quanta(c, bitrate, brp), tseg2)
    ensures Feasible(c, bitrate, brp, tseg2)
  {
    var q := Quanta(c, bitrate, brp);
    QuantaExact(c, bitrate, brp);
    var tseg1 := q - 1 - tseg2;
    assert 1 + tseg1 + tseg2 == q;
    assert InRanges(c, tseg1, tseg2) && brp * bitrate * (1 + tseg1 + tseg2) == c.clockHz;
  }

  lemma ConsideredIffFits(c: Constraints, quanta: u32, tseg2: u32)
    ensures Considered(c, quanta, tseg2) <==>
      Fits(c, quanta, tseg2) || (tseg2 == U32_LIMIT - 1 && quanta > 0 && InRanges(c, quanta, tseg2))
    ensures Fits(c, quanta, tseg2) ==> tseg2 < U32_LIMIT - 1
  {
    if tseg2 < U32_LIMIT - 1 {
      WrapIsIdentity(1 + tseg2);
    } else {
      assert Wrap(1 + tseg2) == 0;
    }
  }

  /** The search considers exactly the feasible candidates, except that wrapping admits tseg2 = 2^32 - 1. */
  lemma ConsideredIffFeasible(c: Constraints, bitrate: u32, brp: u32, tseg2: u32)
    requires ValidConstraints(c, bitrate) && OnGrid(c, brp)
    ensures Considered(c, Quanta(c, bitrate, brp), tseg2) <==>
      || Feasible(c, bitrate, brp, tseg2)
      || (tseg2 == U32_LIMIT - 1 && WrapCandidate(c, bitrate, brp))
    ensures Feasible(c, bitrate, brp, tseg2) ==> tseg2 < U32_LIMIT - 1
  {
    ConsideredIffFits(c, Quanta(c, bitrate, brp), tseg2);
    if Feasible(c, bitrate, brp, tseg2) {
      FeasibleFits(c, bitrate, brp, tseg2);
    } else if Fits(c, Quanta(c, bitrate, brp), tseg2) {
      FitsFeasible(c, bitrate, brp, tseg2);
    }
  }

  /** The search sees exactly the feasible timings if and only if no candidate wraps. */
  lemma SearchExactIffNoWrap(c: Constraints, bitrate: u32)
    requires ValidConstraints(c, bitrate)
    ensures (forall b: u32, t: u32 :: OnGrid(c, b) ==>
      (Considered(c, Quanta(c, bitrate, b), t) <==> Feasible(c, bitrate, b, t)))
       <==> !exists b: u32 :: WrapCandidate(c, bitrate, b)
  {
    forall b: u32, t: u32 | OnGrid(c, b)
      ensures Considered(c, Quanta(c, bitrate, b), t) <==>
                Feasible(c, bitrate, b, t) || (t == U32_LIMIT - 1 && WrapCandidate(c, bitrate, b))
      ensures Feasible(c, bitrate, b, t) ==> t < U32_LIMIT - 1
    {
      ConsideredIffFeasible(c, bitrate, b, t);
    }
    forall b: u32 | WrapCandidate(c, bitrate, b)
      ensures OnGrid(c, b) && Considered(c, Quanta(c, bitrate, b), U32_LIMIT - 1)
      ensures !Feasible(c, bitrate, b, U32_LIMIT - 1)
    {
    }
  }

  /** The timing meets every limit the adapter reported. */
  ghost predicate MeetsConstraints(c: Constraints, timing: Timing) {
    OnGrid(c, timing.brp) && MeetsRanges(c, timing)
  }

  predicate MeetsRanges(c: Constraints, timing: Timing) {
    && InRanges(c, timing.Tseg1(), timing.phaseSeg2)
    && 1 <= timing.sjw <= timing.phaseSeg2 && timing.sjw <= c.sjwMax
  }

  /** The chosen timing meets every limit, and is exact if and only if it does not use the wrapped tseg2. */
  lemma OptimumSound(c: Constraints, bitrate: u32, timing: Timing)
    requires ValidConstraints(c, bitrate) && IsOptimum(c, bitrate, timing)
    ensures MeetsConstraints(c, timing) && timing.propSeg == timing.sjw == 1
    ensures c.brpMin <= timing.brp <= c.brpMax && (timing.brp - c.brpMin) % c.brpIncrement == 0
    ensures 2 <= timing.Tseg1() && c.tseg1Min <= timing.Tseg1() <= c.tseg1Max
    ensures c.tseg2Min <= timing.phaseSeg2 <= c.tseg2Max
    ensures timing.brp * bitrate * (1 + timing.Tseg1() + timing.phaseSeg2) == c.clockHz
       <==> timing.phaseSeg2 != U32_LIMIT - 1
  {
    var q := Quanta(c, bitrate, timing.brp);
    OnStep(c, timing.brp);
    TotalOf(c, q, timing.brp, timing.phaseSeg2);
    ExactIffTotal(c, bitrate, timing.brp, 1 + timing.Tseg1() + timing.phaseSeg2);
  }

  lemma OnStep(c: Constraints, brp: u32)
    requires OnGrid(c, brp) && c.brpIncrement > 0
    ensures (brp - c.brpMin) % c.brpIncrement == 0
  {
    var k: nat :| GridPoint(c, k) == brp;
    QuotientOfProduct(c.brpIncrement, k);
  }

  lemma TotalOf(c: Constraints, q: u32, brp: u32, tseg2: u32)
    requires Considered(c, q, tseg2) && c.tseg2Min > 0 && c.sjwMax > 0
    ensures var timing := TimingOf(q, brp, tseg2);
      && MeetsRanges(c, timing)
      && (1 + timing.Tseg1() + timing.phaseSeg2 == q <==> tseg2 != U32_LIMIT - 1)
  {
    if tseg2 < U32_LIMIT - 1 {
      WrapIsIdentity(1 + tseg2);
    } else {
      assert Wrap(1 + tseg2) == 0;
    }
  }

  lemma ExactIffTotal(c: Constraints, bitrate: u32, brp: u32, total: int)
    requires ValidConstraints(c, bitrate) && brp > 0 && Quanta(c, bitrate, brp) > 0
    ensures brp * bitrate * total == c.clockHz <==> total == Quanta(c, bitrate, brp)
  {
    QuantaExact(c, bitrate, brp);
    MulMonotone(1, brp, bitrate);
    QuantaNeeded(brp * bitrate, Quanta(c, bitrate, brp), total);
  }

  lemma QuantaNeeded(perQuantum: int, q: int, total: int)
    requires perQuantum > 0
    ensures perQuantum * total == perQuantum * q <==> total == q
  {
    MulMonotone(total + 1, q, perQuantum);
    MulMonotone(q + 1, total, perQuantum);
  }

  /** A wrapping candidate of some prescaler comes before every timing that gives the bitrate. */
  ghost predicate WrapWins(c: Constraints, bitrate: u32) {
    exists b: u32 :: WrapCandidate(c, bitrate, b) && BeatsFeasible(c, bitrate, WrapKey(c, bitrate, b))
  }

  function WrapKey(c: Constraints, bitrate: u32, b: u32): Key {
    KeyOf(Quanta(c, bitrate, b), b, U32_LIMIT - 1)
  }

  ghost predicate BeatsFeasible(c: Constraints, bitrate: u32, key: Key) {
    forall b: u32, t: u32 :: Feasible(c, bitrate, b, t) ==> key.Less(KeyOf(Quanta(c, bitrate, b), b, t))
  }

  /** The search returns a timing that does not give the bitrate if and only if a wrapping candidate comes first. */
  lemma InexactIffWrapWins(c: Constraints, bitrate: u32, timing: Timing)
    requires ValidConstraints(c, bitrate) && IsOptimum(c, bitrate, timing)
    ensures timing.brp * bitrate * (1 + timing.Tseg1() + timing.phaseSeg2) != c.clockHz <==> WrapWins(c, bitrate)
  {
    OptimumSound(c, bitrate, timing);
    ConsideredIffFeasible(c, bitrate, timing.brp, timing.phaseSeg2);
    if timing.phaseSeg2 == U32_LIMIT - 1 {
      forall b: u32, t: u32 | Feasible(c, bitrate, b, t)
        ensures WrapKey(c, bitrate, timing.brp).Less(KeyOf(Quanta(c, bitrate, b), b, t))
      {
        ConsideredIffFeasible(c, bitrate, b, t);
      }
    } else {
      forall b: u32 | WrapCandidate(c, bitrate, b)
        ensures !BeatsFeasible(c, bitrate, WrapKey(c, bitrate, b))
      {
        ConsideredIffFeasible(c, bitrate, b, U32_LIMIT - 1);
        assert KeyOf(Quanta(c, bitrate, timing.brp), timing.brp, timing.phaseSeg2).Less(WrapKey(c, bitrate, b));
        assert Feasible(c, bitrate, timing.brp, timing.phaseSeg2);
      }
    }
  }

  /** The key a wrapping candidate competes with: as if 8 * tseg2 were eight quanta past the whole bit. */
  lemma WrapKeyClosedForm(quanta: u32, brp: u32)
    requires quanta < U32_LIMIT - 1
    ensures KeyOf(quanta, brp, U32_LIMIT - 1).sampleError == 125 * (quanta + 8)
  {
    WrapIsIdentity(quanta);
    WrapIsIdentity(1 + quanta);
    assert Wrap(U32_LIMIT) == 0;
  }

  /** The search fails if and only if no timing gives the bitrate and no candidate wraps. */
  lemma UnreachableIff(c: Constraints, bitrate: u32)
    requires ValidConstraints(c, bitrate)
    ensures NoCandidate(c, bitrate) <==>
      && (!exists b: u32, t: u32 :: Feasible(c, bitrate, b, t))
      && (!exists b: u32 :: WrapCandidate(c, bitrate, b))
  {
    forall b: u32, t: u32 | OnGrid(c, b)
      ensures Considered(c, Quanta(c, bitrate, b), t) <==>
                Feasible(c, bitrate, b, t) || (t == U32_LIMIT - 1 && WrapCandidate(c, bitrate, b))
    {
      ConsideredIffFeasible(c, bitrate, b, t);
    }
    if b: u32 :| WrapCandidate(c, bitrate, b) {
      assert Considered(c, Quanta(c, bitrate, b), U32_LIMIT - 1);
    }
  }

  /** A wrapping candidate that does not win: the exact timing with one quantum after the sample point comes first. */
  lemma WrapCandidateCanLose()
    ensures
      var c := Constraints(10_000_000, 1, 256, 1, U32_LIMIT - 1, 1, 1, 1, 1);
      WrapCandidate(c, 1_000_000, 1) && !WrapWins(c, 1_000_000)
  {
    var c := Constraints(10_000_000, 1, 256, 1, U32_LIMIT - 1, 1, 1, 1, 1);
    assert GridPoint(c, 0) == 1;
    assert Quanta(c, 1_000_000, 1) == 10;
    assert InRanges(c, 8, 1) && 1 * 1_000_000 * (1 + 8 + 1) == c.clockHz;
    assert Feasible(c, 1_000_000, 1, 1);
    WrapKeyClosedForm(10, 1);
    SampleErrorClosedForm(10, 1, 1);
  }

  /** Wrapping does produce a wrong timing: 10 quanta are taken for 1 + 10 + (2^32 - 1). */
  lemma WrappedTimingIsWrong()
    ensures
      var c := Constraints(10_000_000, 1, 256, U32_LIMIT - 1, U32_LIMIT - 1, 1, 1, 1, 1);
      var timing := Timing(1, 9, U32_LIMIT - 1, 1, 1);
      && ValidConstraints(c, 1_000_000)
      && IsOptimum(c, 1_000_000, timing)
      && timing.brp * 1_000_000 * (1 + timing.Tseg1() + timing.phaseSeg2) != c.clockHz
  {
    var c := Constraints(10_000_000, 1, 256, U32_LIMIT - 1, U32_LIMIT - 1, 1, 1, 1, 1);
    assert GridPoint(c, 0) == 1;
    assert Quanta(c, 1_000_000, 1) == 10;
  }

  /** Below the wrapping point the sample error measures how far 8 * tseg2 is from the quanta in a bit. */
  lemma SampleErrorClosedForm(quanta: u32, brp: u32, tseg2: u32)
    requires 1 + tseg2 < quanta
    ensures KeyOf(quanta, brp, tseg2).sampleError == 125 * AbsDiff(quanta, 8 * tseg2)
  {
    WrapIsIdentity(1 + tseg2);
    WrapIsIdentity(quanta - tseg2);
  }

  lemma WrapIsIdentity(x: u32)
    ensures Wrap(x) == x
  {
  }

  /** For one prescaler the search prefers the tseg2 nearest an eighth of the bit, the lower on a tie. */
  lemma NearestEighthWins(quanta: u32, brp: u32, t1: u32, t2: u32)
    requires 1 + t1 < quanta && 1 + t2 < quanta
    ensures KeyOf(quanta, brp, t1).Less(KeyOf(quanta, brp, t2)) <==>
      || AbsDiff(quanta, 8 * t1) < AbsDiff(quanta, 8 * t2)
      || (AbsDiff(quanta, 8 * t1) == AbsDiff(quanta, 8 * t2) && t1 < t2)
  {
    SampleErrorClosedForm(quanta, brp, t1);
    SampleErrorClosedForm(quanta, brp, t2);
  }

  lemma FeasibleKey(c: Constraints, bitrate: u32, b: u32, t: u32)
    requires ValidConstraints(c, bitrate) && OnGrid(c, b)
    requires c.tseg2Max < U32_LIMIT - 1
    ensures Feasible(c, bitrate, b, t) <==> Considered(c, Quanta(c, bitrate, b), t)
    ensures Feasible(c, bitrate, b, t) ==>
      KeyOf(Quanta(c, bitrate, b), b, t).sampleError == 125 * AbsDiff(Quanta(c, bitrate, b), 8 * t)
  {
    ConsideredIffFeasible(c, bitrate, b, t);
    if Considered(c, Quanta(c, bitrate, b), t) {
      SampleErrorClosedForm(Quanta(c, bitrate, b), b, t);
    }
  }

  /** Without wrapping, the chosen timing is feasible and its key is below that of every other feasible one. */
  lemma OptimumOverFeasible(c: Constraints, bitrate: u32, timing: Timing, b: u32, t: u32)
    requires ValidConstraints(c, bitrate) && c.tseg2Max < U32_LIMIT - 1
    requires IsOptimum(c, bitrate, timing)
    ensures Feasible(c, bitrate, timing.brp, timing.phaseSeg2)
    ensures Feasible(c, bitrate, b, t) && (b != timing.brp || t != timing.phaseSeg2) ==>
      KeyOf(Quanta(c, bitrate, timing.brp), timing.brp, timing.phaseSeg2).Less(KeyOf(Quanta(c, bitrate, b), b, t))
  {
    FeasibleKey(c, bitrate, timing.brp, timing.phaseSeg2);
    if OnGrid(c, b) {
      FeasibleKey(c, bitrate, b, t);
    }
  }

  /** The quanta in a bit of this prescaler, if it divides the clock. */
  function QuantaPerBit(c: Constraints, bitrate: u32, brp: u32): int {
    if brp * bitrate == 0 then 0 else c.clockHz / (brp * bitrate)
  }

  /**
   How far a candidate's sample point is from 87.5 % of its bit, in thousandths
   of a quantum; what the search takes it for when `1 + tseg2` wraps.
   */
  function Miss(quanta: int, tseg2: int): int {
    if tseg2 < U32_LIMIT - 1 then 125 * AbsDiff(quanta, 8 * tseg2)
    else if quanta < U32_LIMIT - 1 then 125 * (quanta + 8)
    else 875 * quanta
  }

  /** The nearer sample point, then more quanta in a bit, then the lower prescaler, then the lower tseg2. */
  predicate Preferred(miss: int, quanta: int, brp: int, tseg2: int, miss': int, quanta': int, brp': int, tseg2': int) {
    || miss < miss'
    || (miss == miss' && quanta > quanta')
    || (miss == miss' && quanta == quanta' && brp < brp')
    || (miss == miss' && quanta == quanta' && brp == brp' && tseg2 <= tseg2')
  }

  lemma MissIsSampleError(quanta: u32, brp: u32, tseg2: u32)
    requires tseg2 < U32_LIMIT - 1 ==> 1 + tseg2 < quanta
    ensures KeyOf(quanta, brp, tseg2).sampleError == Miss(quanta, tseg2)
  {
    if tseg2 < U32_LIMIT - 1 {
      SampleErrorClosedForm(quanta, brp, tseg2);
    } else if quanta < U32_LIMIT - 1 {
      WrapKeyClosedForm(quanta, brp);
    } else {
      assert Wrap(U32_LIMIT) == 0;
    }
  }

  lemma ConsideredMiss(c: Constraints, bitrate: u32, brp: u32, tseg2: u32)
    requires ValidConstraints(c, bitrate) && OnGrid(c, brp) && Considered(c, Quanta(c, bitrate, brp), tseg2)
    ensures Quanta(c, bitrate, brp) == QuantaPerBit(c, bitrate, brp)
    ensures KeyOf(Quanta(c, bitrate, brp), brp, tseg2).sampleError == Miss(QuantaPerBit(c, bitrate, brp), tseg2)
  {
    ConsideredIffFits(c, Quanta(c, bitrate, brp), tseg2);
    MissIsSampleError(Quanta(c, bitrate, brp), brp, tseg2);
  }

  /** The chosen timing is preferred to every timing that gives the bitrate, and to every wrapping candidate. */
  lemma OptimumIsPreferred(c: Constraints, bitrate: u32, timing: Timing, b: u32, t: u32)
    requires ValidConstraints(c, bitrate) && IsOptimum(c, bitrate, timing)
    requires Feasible(c, bitrate, b, t) || (t == U32_LIMIT - 1 && WrapCandidate(c, bitrate, b))
    ensures
      var quanta, other := QuantaPerBit(c, bitrate, timing.brp), QuantaPerBit(c, bitrate, b);
      Preferred(Miss(quanta, timing.phaseSeg2), quanta, timing.brp, timing.phaseSeg2,
                Miss(other, t), other, b, t)
  {
    ConsideredIffFeasible(c, bitrate, b, t);
    ConsideredMiss(c, bitrate, timing.brp, timing.phaseSeg2);
    ConsideredMiss(c, bitrate, b, t);
  }

  /**
   Without wrapping: of all timings within the limits that give the bitrate, the
   one nearest to an eighth of the bit after the sample point, then the one with
   most quanta, then with the lower prescaler and tseg2.
   */
  lemma OptimumPrefersQuanta(c: Constraints, bitrate: u32, timing: Timing, b: u32, tseg1: u32, t: u32)
    requires ValidConstraints(c, bitrate) && c.tseg2Max < U32_LIMIT - 1
    requires IsOptimum(c, bitrate, timing)
    requires OnGrid(c, b) && b * bitrate * (1 + tseg1 + t) == c.clockHz
    requires 2 <= tseg1 && c.tseg1Min <= tseg1 <= c.tseg1Max && c.tseg2Min <= t <= c.tseg2Max
    ensures
      var quanta, other := QuantaPerBit(c, bitrate, timing.brp), QuantaPerBit(c, bitrate, b);
      Preferred(AbsDiff(quanta, 8 * timing.phaseSeg2), quanta, timing.brp, timing.phaseSeg2,
                AbsDiff(other, 8 * t), other, b, t)
  {
    assert InRanges(c, tseg1, t);
    OptimumIsPreferred(c, bitrate, timing, b, t);
  }

  /** If the lowest prescaler splits the bit at exactly 87.5 %, that split is chosen. */
  lemma PerfectSplitWins(c: Constraints, bitrate: u32, tseg2: u32)
    requires ValidConstraints(c, bitrate) && Feasible(c, bitrate, c.brpMin, tseg2)
    requires Quanta(c, bitrate, c.brpMin) == 8 * tseg2
    ensures IsOptimum(c, bitrate, Timing(1, 7 * tseg2 - 2, tseg2, 1, c.brpMin))
  {
    var brp, quanta := c.brpMin, Quanta(c, bitrate, c.brpMin);
    ConsideredIffFeasible(c, bitrate, brp, tseg2);
    ConsideredMiss(c, bitrate, brp, tseg2);
    WrapIsIdentity(1 + tseg2);
    forall b: u32, t: u32 |
      OnGrid(c, b) && Considered(c, Quanta(c, bitrate, b), t) && (b != brp || t != tseg2)
      ensures KeyOf(quanta, brp, tseg2).Less(KeyOf(Quanta(c, bitrate, b), b, t))
    {
      ConsideredMiss(c, bitrate, b, t);
      FewerQuanta(c, bitrate, brp, b);
    }
  }

  /** A higher prescaler gives fewer quanta. */
  lemma FewerQuanta(c: Constraints, bitrate: u32, brp: u32, b: u32)
    requires bitrate > 0 && 0 < brp <= b && Quanta(c, bitrate, brp) > 0 && Quanta(c, bitrate, b) > 0
    ensures if b == brp then Quanta(c, bitrate, b) == Quanta(c, bitrate, brp)
            else Quanta(c, bitrate, b) < Quanta(c, bitrate, brp)
  {
    QuantaExact(c, bitrate, brp);
    QuantaExact(c, bitrate, b);
    var lower, higher := Quanta(c, bitrate, brp), Quanta(c, bitrate, b);
    MulMonotone(brp + 1, b, bitrate);
    MulMonotone(1, brp, bitrate);
    if b > brp && higher >= lower {
      MulMonotone(brp * bitrate + 1, b * bitrate, higher);
      MulMonotone(lower, higher, brp * bitrate);
    }
  }

  /** The chosen sample point is within half a quantum of the ideal one whenever some feasible timing's is. */
  lemma OptimumNearIdeal(c: Constraints, bitrate: u32, timing: Timing, b: u32, t: u32)
    requires ValidConstraints(c, bitrate) && c.tseg2Max < U32_LIMIT - 1
    requires IsOptimum(c, bitrate, timing)
    requires Feasible(c, bitrate, b, t) && AbsDiff(Quanta(c, bitrate, b), 8 * t) <= 4
    ensures AbsDiff(Quanta(c, bitrate, timing.brp), 8 * timing.phaseSeg2) <= 4
    ensures KeyOf(Quanta(c, bitrate, timing.brp), timing.brp, timing.phaseSeg2).sampleError <= 500
  {
    OptimumOverFeasible(c, bitrate, timing, b, t);
    FeasibleKey(c, bitrate, timing.brp, timing.phaseSeg2);
    FeasibleKey(c, bitrate, b, t);
  }

  /** Without wrapping, failure means that no timing within the constraints gives the bitrate. */
  lemma UnreachableIffInfeasible(c: Constraints, bitrate: u32)
    requires ValidConstraints(c, bitrate) && c.tseg2Max < U32_LIMIT - 1
    ensures NoCandidate(c, bitrate) <==> !exists b: u32, t: u32 :: Feasible(c, bitrate, b, t)
  {
    forall b: u32, t: u32 | OnGrid(c, b)
      ensures Considered(c, Quanta(c, bitrate, b), t) <==> Feasible(c, bitrate, b, t)
    {
      ConsideredIffFeasible(c, bitrate, b, t);
    }
  }

  /** The optimum is unique, so the answer does not depend on the order of the search. */
  lemma OptimumUnique(c: Constraints, bitrate: u32, a: Timing, b: Timing)
    requires IsOptimum(c, bitrate, a) && IsOptimum(c, bitrate, b)
    ensures a == b
  {
  }
}
