/**
 * The parts of Java's double arithmetic that the reports can show: dividing two finite
 * values (possibly by zero) and printing an integral double through `(int) Math.round`.
 */
module JavaNumbers {

  const INTEGER_MAX_VALUE: int := 0x7FFF_FFFF
  const LONG_MAX_VALUE: int := 0x7FFF_FFFF_FFFF_FFFF
  const LONG_MIN_VALUE: int := -0x8000_0000_0000_0000

  /** An IEEE 754 double as the reports can print it. */
  datatype Double = Finite(value: real) | NaN | Infinity(negative: bool)

  /** `x / y` on two finite doubles: dividing by zero gives NaN (0/0) or a signed infinity. */
  function Divide(x: real, y: real): (d: Double)
    ensures d.Finite? <==> y != 0.0
    ensures d == NaN <==> y == 0.0 && x == 0.0
  {
    if y != 0.0 then Finite(x / y)
    else if x == 0.0 then NaN
    else Infinity(x < 0.0)
  }

  /** `d * k` for a positive finite factor `k`. */
  function Times(d: Double, k: real): (r: Double)
    requires k > 0.0
    ensures r.Finite? <==> d.Finite?
    ensures r == NaN <==> d == NaN
  {
    match d
    case Finite(v) => Finite(v * k)
    case NaN => NaN
    case Infinity(negative) => Infinity(negative)
  }

  /** A finite quotient times the divisor gives back the dividend. */
  lemma DivideInverts(x: real, y: real)
    requires y != 0.0
    ensures Divide(x, y).Finite? && Divide(x, y).value * y == x
  {
  }

  /** A finite product divided by the factor gives back the operand. */
  lemma TimesInverts(d: Double, k: real)
    requires k > 0.0 && d.Finite?
    ensures Times(d, k).Finite? && Times(d, k).value / k == d.value
  {
  }

  /** The two's-complement wrap-around of a narrowing `(int)` cast of a `long`. */
  function ToInt32(x: int): (r: int)
    ensures -0x8000_0000 <= r <= INTEGER_MAX_VALUE
    ensures (x - r) % 0x1_0000_0000 == 0
  {
    var m := x % 0x1_0000_0000;
    if m > INTEGER_MAX_VALUE then m - 0x1_0000_0000 else m
  }

  /** `(int) Math.round(x)` for a double `x` that holds an integral value. */
  function RoundToInt(x: int): (r: int)
    ensures -0x8000_0000 <= r <= INTEGER_MAX_VALUE
    ensures LONG_MIN_VALUE <= x <= LONG_MAX_VALUE ==> (x - r) % 0x1_0000_0000 == 0
  {
    ToInt32(if x > LONG_MAX_VALUE then LONG_MAX_VALUE else if x < LONG_MIN_VALUE then LONG_MIN_VALUE else x)
  }

  /** Values in the int range print unchanged. */
  lemma RoundToIntInRange(x: int)
    requires -0x8000_0000 <= x <= INTEGER_MAX_VALUE
    ensures RoundToInt(x) == x
  {
  }

  /** Every value at or above 2^63 saturates to Long.MAX_VALUE, whose low 32 bits read as -1. */
  lemma RoundToIntSaturates(x: int)
    requires x > LONG_MAX_VALUE
    ensures RoundToInt(x) == -1
  {
  }

  /** Division by zero never yields a finite average. */
  lemma DivideByZeroIsNotFinite(x: real)
    ensures !Divide(x, 0.0).Finite?
    ensures Divide(x, 0.0) == NaN <==> x == 0.0
  {
  }
}
