/** The numbers the click test computes with.

    A score is a JavaScript number produced by `count / totalTime`, then
    `toFixed(2)` and `parseFloat`. Because `count` is never negative and
    `totalTime` is an integer, only three kinds of value can arise: a finite
    number, positive Infinity (clicks over a zero duration) and NaN (no clicks
    over a zero duration). */
module Numbers {

  datatype Score = Finite(value: real) | Infinity | NaN

  /** A value that may be absent, such as the statistics of an empty ledger. */
  datatype Option<T> = None | Some(value: T)

  /** True when `r` is a whole number of hundredths. */
  ghost predicate Hundredths(r: real) {
    (r * 100.0).Floor as real == r * 100.0
  }

  /** `toFixed(2)` on a non-negative value: the nearest hundredth, ties up. */
  function RoundHalfUp2(x: real): (r: real)
    requires x >= 0.0
    ensures Hundredths(r)
    ensures -0.005 < r - x <= 0.005
    ensures r >= 0.0
  {
    ((x * 100.0 + 0.5).Floor as real) / 100.0
  }

  /** `parseFloat(x.toFixed(2))`: rounds the magnitude to the nearest
      hundredth (ties away from zero) and keeps the sign. */
  function Round2(x: real): (r: real)
    ensures Hundredths(r)
    ensures -0.005 <= r - x <= 0.005
    ensures x >= 0.0 ==> r >= 0.0
    ensures x <= 0.0 ==> r <= 0.0
  {
    if x < 0.0 then
      var m := RoundHalfUp2(-x);
      HundredthsNegated(m);
      -m
    else RoundHalfUp2(x)
  }

  lemma HundredthsNegated(m: real)
    requires Hundredths(m)
    ensures Hundredths(-m)
  {
    var k := (m * 100.0).Floor;
    assert -m * 100.0 == (-k) as real;
  }

  /** A value already in hundredths is left alone by the rounding. */
  lemma Round2OfHundredths(k: nat)
    ensures Round2(k as real / 100.0) == k as real / 100.0
  {
    var x := k as real / 100.0;
    assert x * 100.0 + 0.5 == k as real + 0.5;
    assert (x * 100.0 + 0.5).Floor == k;
  }

  /** The clicks-per-second value `endGame` computes and hands on:
      `parseFloat((count / totalTime).toFixed(2))`. */
  function Cps(count: nat, totalTime: int): (r: Score)
    ensures totalTime > 0 ==> r.Finite? && r.value >= 0.0 && Hundredths(r.value)
    ensures totalTime < 0 ==> r.Finite? && r.value <= 0.0
    ensures totalTime == 0 ==> !r.Finite? && (r.NaN? <==> count == 0)
    ensures totalTime != 0 ==> -0.005 <= r.value - count as real / totalTime as real <= 0.005
  {
    if totalTime == 0 then
      (if count == 0 then NaN else Infinity)
    else
      var q := Ratio(count, totalTime);
      Finite(Round2(q))
  }

  /** Clicks over a non-zero duration, in exact arithmetic. */
  function Ratio(count: nat, totalTime: int): (q: real)
    requires totalTime != 0
    ensures totalTime > 0 ==> q >= 0.0
    ensures totalTime < 0 ==> q <= 0.0
  {
    count as real / totalTime as real
  }

  /** JavaScript's `cps >= bound`: Infinity passes every finite bound and
      NaN fails every comparison. */
  predicate AtLeast(s: Score, bound: real): (r: bool)
    ensures s.NaN? ==> !r
    ensures !s.NaN? ==> (r <==> Le(Finite(bound), s))
  {
    match s
    case Finite(v) => v >= bound
    case Infinity => true
    case NaN => false
  }

  /** The order `Math.max` uses on the values that are not NaN. */
  predicate Le(a: Score, b: Score) {
    (a.Finite? && b.Finite? && a.value <= b.value) || (!a.NaN? && b.Infinity?)
  }

  /** JavaScript's `a + b` on scores. */
  function Add(a: Score, b: Score): (r: Score)
    ensures r.NaN? <==> a.NaN? || b.NaN?
    ensures r.Finite? <==> a.Finite? && b.Finite?
    ensures r.Finite? ==> r.value == a.value + b.value
  {
    if a.NaN? || b.NaN? then NaN
    else if a.Infinity? || b.Infinity? then Infinity
    else Finite(a.value + b.value)
  }

  /** JavaScript's `Math.max(a, b)` on scores. */
  function Max(a: Score, b: Score): (r: Score)
    ensures r.NaN? <==> a.NaN? || b.NaN?
    ensures !r.NaN? ==> (r == a || r == b) && Le(a, r) && Le(b, r)
  {
    if a.NaN? || b.NaN? then NaN
    else if a.Infinity? || b.Infinity? then Infinity
    else if a.value <= b.value then b else a
  }

  /** Real division by a positive count. */
  function Quotient(x: real, n: nat): (q: real)
    requires n > 0
  {
    x / n as real
  }

  /** A dividend of at most `n * b` gives a quotient of at most `b`. */
  lemma QuotientAtMost(x: real, n: nat, b: real)
    requires n > 0 && x <= n as real * b
    ensures Quotient(x, n) <= b
  {
    var q := Quotient(x, n);
    assert q * n as real == x;
  }

  /** JavaScript's `a / n` for a positive count `n`. */
  function Divide(a: Score, n: nat): (r: Score)
    requires n > 0
    ensures r.NaN? <==> a.NaN?
    ensures r.Infinity? <==> a.Infinity?
    ensures r.Finite? ==> r.value == Quotient(a.value, n)
  {
    match a
    case Finite(v) => Finite(Quotient(v, n))
    case Infinity => Infinity
    case NaN => NaN
  }
}
