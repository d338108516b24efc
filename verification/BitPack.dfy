/** Damiao's linear quantization and MIT bit packing, over the reals. */
module BitPack {
  import opened MachineInts
  import opened RealArithmetic

  function Clamp(x: real, lo: real, hi: real): real {
    if x < lo then lo else if x > hi then hi else x
  }

  /** A code of `bits` bits has levels 0 .. 2^bits - 1; the protocol uses widths 12 and 16. */
  predicate Width(bits: nat) {
    bits == 12 || bits == 16
  }

  function Levels(bits: nat): (n: nat)
    requires Width(bits)
  {
    if bits == 12 then 0xfff else 0xffff
  }

  function FloatToUint(x: real, lo: real, hi: real, bits: nat): (u: u16)
    requires Width(bits) && lo < hi
  {
    var span := hi - lo;
    var levels := Levels(bits);
    Fraction(x, lo, hi);
    var scaled := (Clamp(x, lo, hi) - lo) * (levels as real) / span + 0.5;
    assert scaled == Position(x, lo, hi) * (levels as real) + 0.5 by {
      DivideFirst(Clamp(x, lo, hi) - lo, levels as real, span);
    }
    var q := scaled.Floor;
    if q < levels then q else levels
  }

  function UintToFloat(u: u16, lo: real, hi: real, bits: nat): real
    requires Width(bits) && lo < hi
  {
    lo + (u as real) * (hi - lo) / (Levels(bits) as real)
  }

  /** How far along the range a clamped value lies, from 0 to 1. */
  function Position(x: real, lo: real, hi: real): real
    requires lo < hi
  {
    (Clamp(x, lo, hi) - lo) / (hi - lo)
  }

  lemma Fraction(x: real, lo: real, hi: real)
    requires lo < hi
    ensures 0.0 <= Position(x, lo, hi) <= 1.0
  {
    DivideSelf(hi - lo);
    DivideMonotone(0.0, Clamp(x, lo, hi) - lo, hi - lo);
    DivideMonotone(Clamp(x, lo, hi) - lo, hi - lo, hi - lo);
  }

  /** The code is the position along the range, scaled and rounded half up. */
  lemma CodeOfPosition(x: real, lo: real, hi: real, bits: nat)
    requires Width(bits) && lo < hi
    ensures FloatToUint(x, lo, hi, bits) == (Position(x, lo, hi) * (Levels(bits) as real) + 0.5).Floor
    ensures FloatToUint(x, lo, hi, bits) <= Levels(bits)
  {
    Fraction(x, lo, hi);
    DivideFirst(Clamp(x, lo, hi) - lo, Levels(bits) as real, hi - lo);
  }

  lemma CodeMonotone(x: real, y: real, lo: real, hi: real, bits: nat)
    requires Width(bits) && lo < hi && x <= y
    ensures FloatToUint(x, lo, hi, bits) <= FloatToUint(y, lo, hi, bits)
  {
    DivideMonotone(Clamp(x, lo, hi) - lo, Clamp(y, lo, hi) - lo, hi - lo);
    ScaleMonotone(Position(x, lo, hi), Position(y, lo, hi), Levels(bits) as real);
    CodeOfPosition(x, lo, hi, bits);
    CodeOfPosition(y, lo, hi, bits);
  }

  /** A value the portion `f` along the range is at that position. */
  lemma PositionOfPortion(x: real, lo: real, hi: real, f: real, d: real)
    requires 0.0 <= f <= 1.0 && lo < hi && d == hi - lo && x - lo == f * d
    ensures Position(x, lo, hi) == f
  {
    Portion(f, d);
    QuotientIs(x - lo, f, d);
  }

  lemma DecodedAs(u: u16, lo: real, hi: real, bits: nat)
    requires Width(bits) && lo < hi && u <= Levels(bits)
    ensures UintToFloat(u, lo, hi, bits) == lo + (u as real) / (Levels(bits) as real) * (hi - lo)
    ensures 0.0 <= (u as real) / (Levels(bits) as real) <= 1.0
  {
    var n := Levels(bits) as real;
    DivideFirst(u as real, hi - lo, n);
    DivideSelf(n);
    DivideMonotone(0.0, u as real, n);
    DivideMonotone(u as real, n, n);
  }

  /** Every code survives decoding and encoding again. */
  lemma CodeRoundTrip(u: u16, lo: real, hi: real, bits: nat)
    requires Width(bits) && lo < hi && u <= Levels(bits)
    ensures FloatToUint(UintToFloat(u, lo, hi, bits), lo, hi, bits) == u
  {
    var f, y := (u as real) / (Levels(bits) as real), UintToFloat(u, lo, hi, bits);
    DecodedAs(u, lo, hi, bits);
    PositionOfPortion(y, lo, hi, f, hi - lo);
    QuotientTimes(u as real, Levels(bits) as real);
    CodeAtPosition(y, lo, hi, bits, u);
  }

  lemma CodeAtPosition(y: real, lo: real, hi: real, bits: nat, u: u16)
    requires Width(bits) && lo < hi && Position(y, lo, hi) * (Levels(bits) as real) == u as real
    ensures FloatToUint(y, lo, hi, bits) == u
  {
    CodeOfPosition(y, lo, hi, bits);
  }

  /** Within half a step of the clamped input: `2 * levels * |error| <= range`. */
  predicate WithinHalfStep(decoded: real, x: real, lo: real, hi: real, bits: nat)
    requires Width(bits)
  {
    2.0 * (Levels(bits) as real) * Abs(decoded - Clamp(x, lo, hi)) <= hi - lo
  }

  /** Encoding then decoding errs by at most half a step. */
  lemma ValueRoundTrip(x: real, lo: real, hi: real, bits: nat)
    requires Width(bits) && lo < hi
    ensures WithinHalfStep(UintToFloat(FloatToUint(x, lo, hi, bits), lo, hi, bits), x, lo, hi, bits)
  {
    var u := FloatToUint(x, lo, hi, bits);
    CodeOfPosition(x, lo, hi, bits);
    DecodedAs(u, lo, hi, bits);
    QuotientTimes(Clamp(x, lo, hi) - lo, hi - lo);
    HalfStep(u as real, Levels(bits) as real, Position(x, lo, hi), hi - lo,
             UintToFloat(u, lo, hi, bits) - lo, Clamp(x, lo, hi) - lo);
  }

  /** With `decoded = u / n * d` and `x = p * d`, an error of half a level in `u` is half a step of the range. */
  lemma HalfStep(u: real, n: real, p: real, d: real, decoded: real, x: real)
    requires n > 0.0 && d > 0.0 && decoded == u / n * d && x == p * d
    requires -0.5 <= u - p * n <= 0.5
    ensures 2.0 * n * Abs(decoded - x) <= d
  {
    var v, e, error := u / n, u - p * n, decoded - x;
    QuotientTimes(u, n);
    Distribute(v, n, p, d, error, e);
    Halves(e, d);
    AbsProduct(n, error, 0.5 * d);
  }

  lemma Halves(e: real, d: real)
    requires -0.5 <= e <= 0.5 && d > 0.0
    ensures -(0.5 * d) <= e * d <= 0.5 * d
  {
    ScaleMonotone(e, 0.5, d);
    ScaleMonotone(-0.5, e, d);
  }

  // ---------------------------------------------------------------------------
  // Field packing

  datatype MitCodes = MitCodes(q: u16, dq: u16, kp: u16, kd: u16, tau: u16)

  predicate ValidCodes(c: MitCodes) {
    c.dq <= 0xfff && c.kp <= 0xfff && c.kd <= 0xfff && c.tau <= 0xfff
  }

  function PackCodes(c: MitCodes): (p: seq<u8>)
    requires ValidCodes(c)
    ensures |p| == 8
  {
    [ c.q / 0x100,
      c.q % 0x100,
      c.dq / 0x10,
      c.dq % 0x10 * 0x10 + c.kp / 0x100,
      c.kp % 0x100,
      c.kd / 0x10,
      c.kd % 0x10 * 0x10 + c.tau / 0x100,
      c.tau % 0x100 ]
  }

  /** What a motor reads back out of an MIT payload. */
  function UnpackCodes(p: seq<u8>): (c: MitCodes)
    requires |p| == 8
    ensures ValidCodes(c)
  {
    var b: seq<int> := seq(8, i requires 0 <= i < 8 => p[i]);
    MitCodes(
      b[0] * 0x100 + b[1],
      b[2] * 0x10 + b[3] / 0x10,
      b[3] % 0x10 * 0x100 + b[4],
      b[5] * 0x10 + b[6] / 0x10,
      b[6] % 0x10 * 0x100 + b[7])
  }

  /** Two digits to a base, side by side. */
  lemma Digits(high: int, low: int, base: int)
    requires base == 0x10 || base == 0x100
    requires 0 <= low < base
    ensures (high * base + low) / base == high && (high * base + low) % base == low
  {
  }

  /** Eight bytes as one number, the first byte the most significant. */
  function Number(p: seq<u8>): int
    requires |p| == 8
  {
    var b: seq<int> := seq(8, i requires 0 <= i < 8 => p[i]);
    ((((((b[0] * 0x100 + b[1]) * 0x100 + b[2]) * 0x100 + b[3]) * 0x100 + b[4]) * 0x100 + b[5]) * 0x100 + b[6]) * 0x100
    + b[7]
  }

  /** The fields lie side by side in the payload: position, velocity, kp, kd and torque, from the top bit down. */
  lemma PackLayout(c: MitCodes)
    requires ValidCodes(c)
    ensures Number(PackCodes(c)) == (((c.q * 0x1000 + c.dq) * 0x1000 + c.kp) * 0x1000 + c.kd) * 0x1000 + c.tau
  {
  }

  /** Packing is a bijection between field codes and payloads. */
  lemma PackUnpack(c: MitCodes)
    requires ValidCodes(c)
    ensures UnpackCodes(PackCodes(c)) == c
  {
    Digits(c.dq % 0x10, c.kp / 0x100, 0x10);
    Digits(c.kd % 0x10, c.tau / 0x100, 0x10);
  }

  lemma UnpackPack(p: seq<u8>)
    requires |p| == 8
    ensures PackCodes(UnpackCodes(p)) == p
  {
    Digits(p[0], p[1], 0x100);
    Digits(p[2], p[3] / 0x10, 0x10);
    Digits(p[3] % 0x10, p[4], 0x100);
    Digits(p[5], p[6] / 0x10, 0x10);
    Digits(p[6] % 0x10, p[7], 0x100);
  }

  /** The state reply: ids and error nibbles, position, velocity, torque, temperatures. */
  datatype StateCodes = StateCodes(idLow: u8, err: u8, q: u16, dq: u16, tau: u16, tMos: u8, tRotor: u8)

  predicate ValidState(c: StateCodes) {
    c.idLow < 0x10 && c.err < 0x10 && c.dq <= 0xfff && c.tau <= 0xfff
  }

  /** The payload a motor builds for a state reply. */
  function PackState(c: StateCodes): (p: seq<u8>)
    requires ValidState(c)
    ensures |p| == 8
  {
    [ c.err * 0x10 + c.idLow,
      c.q / 0x100,
      c.q % 0x100,
      c.dq / 0x10,
      c.dq % 0x10 * 0x10 + c.tau / 0x100,
      c.tau % 0x100,
      c.tMos,
      c.tRotor ]
  }

  function UnpackState(p: seq<u8>): (c: StateCodes)
    requires |p| == 8
    ensures ValidState(c)
  {
    var b: seq<int> := seq(8, i requires 0 <= i < 8 => p[i]);
    StateCodes(
      b[0] % 0x10,
      b[0] / 0x10,
      b[1] * 0x100 + b[2],
      b[3] * 0x10 + b[4] / 0x10,
      b[4] % 0x10 * 0x100 + b[5],
      b[6],
      b[7])
  }

  /** Error and id, position, velocity, torque and the temperatures, from the top bit down. */
  lemma StateLayout(c: StateCodes)
    requires ValidState(c)
    ensures Number(PackState(c)) ==
      (((((c.err * 0x10 + c.idLow) * 0x1_0000 + c.q) * 0x1000 + c.dq) * 0x1000 + c.tau) * 0x100 + c.tMos) * 0x100
      + c.tRotor
  {
  }

  lemma StatePackUnpack(c: StateCodes)
    requires ValidState(c)
    ensures UnpackState(PackState(c)) == c
  {
    Digits(c.err, c.idLow, 0x10);
    Digits(c.dq % 0x10, c.tau / 0x100, 0x10);
  }
}
