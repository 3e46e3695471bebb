// The saturating and rounding conversion between register and server number types.
module Converter {

  // The values of an integer type.
  datatype Range = Range(lo: int, hi: int)

  predicate Proper(r: Range) { r.lo <= r.hi }

  predicate In(x: int, r: Range) { r.lo <= x <= r.hi }

  datatype Outcome = Converted(value: int) | PositiveOverflow | NegativeOverflow

  // round(): the nearest integer, halves away from zero.
  function Round(s: real): int {
    if s >= 0.0 then (s + 0.5).Floor else -((-s + 0.5).Floor)
  }

  // The checked conversion: with rounding to nearest, half a unit beyond the limits still counts as overflow.
  function CheckedConvert(s: real, r: Range): Outcome {
    if s <= r.lo as real - 0.5 then NegativeOverflow
    else if s >= r.hi as real + 0.5 then PositiveOverflow
    else Converted(Round(s))
  }

  function Convert(s: real, r: Range): int {
    match CheckedConvert(s, r)
    case Converted(v) => v
    case PositiveOverflow => r.hi
    case NegativeOverflow => r.lo
  }

  function Clamp(x: int, r: Range): int {
    if x < r.lo then r.lo else if x > r.hi then r.hi else x
  }

  function Distance(n: int, s: real): real { if n as real >= s then n as real - s else s - n as real }

  // No integer is nearer to s, and of two equally near ones it is the one further from zero.
  ghost predicate NearestAwayFromZero(n: int, s: real) {
    forall m: int :: Distance(n, s) < Distance(m, s) || (Distance(n, s) == Distance(m, s) && (if s >= 0.0 then m <= n else n <= m))
  }

  lemma RoundIsNearest(s: real, n: int)
    ensures n == Round(s) <==> NearestAwayFromZero(n, s)
  {
  }

  // Conversion to an integer type clamps the rounded value, for all inputs.
  lemma ConvertClampsRounded(s: real, r: Range)
    requires Proper(r)
    ensures Convert(s, r) == Clamp(Round(s), r)
  {
  }

  // It keeps the order, lands in the type, and is off by at most one half for an input within the type's limits.
  lemma ConvertMonotone(s: real, t: real, r: Range)
    requires Proper(r) && s <= t
    ensures r.lo <= Convert(s, r) <= Convert(t, r) <= r.hi
  {
  }

  lemma ConvertWithinHalf(s: real, r: Range)
    requires Proper(r) && r.lo as real <= s <= r.hi as real
    ensures Distance(Convert(s, r), s) <= 0.5
  {
  }

  function Overlap(a: Range, b: Range): Range {
    Range(if a.lo >= b.lo then a.lo else b.lo, if a.hi <= b.hi then a.hi else b.hi)
  }

  // Writing a number through the server's type and reading it back into the register's type clamps it into both,
  // and gives the number itself exactly when it lies in both. (Any two integer types have values in common.)
  lemma WriteThenRead(x: int, server: Range, register: Range)
    requires Proper(server) && Proper(register) && Proper(Overlap(server, register))
    ensures var back := Convert(Convert(x as real, server) as real, register);
            && back == Clamp(x, Overlap(server, register))
            && (back == x <==> In(x, server) && In(x, register))
  {
  }

  // Reading twice through the same pair of types changes nothing more.
  lemma ReadIdempotent(s: real, r: Range)
    requires Proper(r)
    ensures Convert(Convert(s, r) as real, r) == Convert(s, r)
  {
  }

  // ----- floating point destinations -----

  // numeric_limits<T>::min() of a floating point type is its smallest positive value, not its lowest one.
  datatype FloatType = FloatType(max: real, smallestPositive: real)

  function ConvertToFloat(s: real, f: FloatType): real {
    if s < -f.max then f.smallestPositive
    else if s > f.max then f.max
    else s
  }

  // A conversion into a floating point type saturates to the nearest limit exactly unless it overflows below.
  lemma FloatSaturatesExactly(s: real, f: FloatType)
    requires 0.0 < f.smallestPositive < f.max
    ensures (forall y: real :: -f.max <= y <= f.max ==> Off(ConvertToFloat(s, f), s) <= Off(y, s)) <==> -f.max <= s
  {
    if s < -f.max {
      assert Off(-f.max, s) < Off(f.smallestPositive, s);
    }
  }

  function Off(y: real, s: real): real { if y >= s then y - s else s - y }
}
