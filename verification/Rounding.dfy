/** Rounding to a fixed number of decimals, ties to even, on exact numbers. */
module Rounding {

  /** The nearest integer; of two equally near ones, the even one. */
  function Nearest(x: real): int {
    var n := x.Floor;
    var rest := x - n as real;
    if rest < 0.5 || (rest == 0.5 && n % 2 == 0) then n else n + 1
  }

  function Round2(x: real): real {
    Nearest(x * 100.0) as real / 100.0
  }

  function Round4(x: real): real {
    Nearest(x * 10000.0) as real / 10000.0
  }

  lemma NearestIsNear(x: real)
    ensures x - 0.5 <= Nearest(x) as real <= x + 0.5
  {
  }

  lemma NearestIsMonotone(x: real, y: real)
    requires x <= y
    ensures Nearest(x) <= Nearest(y)
  {
    NearestIsNear(x);
    NearestIsNear(y);
  }

  lemma NearestFixes(n: int)
    ensures Nearest(n as real) == n
  {
  }

  /** Halfway between two whole numbers, the even one is taken. */
  lemma TiesGoToEven(n: int)
    ensures Nearest(n as real + 0.5) % 2 == 0
  {
    assert (n as real + 0.5).Floor == n;
  }

  lemma Round2IsMonotone(x: real, y: real)
    requires x <= y
    ensures Round2(x) <= Round2(y)
  {
    NearestIsMonotone(x * 100.0, y * 100.0);
  }

  lemma Round4IsMonotone(x: real, y: real)
    requires x <= y
    ensures Round4(x) <= Round4(y)
  {
    NearestIsMonotone(x * 10000.0, y * 10000.0);
  }

  lemma Round2IsNear(x: real)
    ensures x - 0.005 <= Round2(x) <= x + 0.005
  {
    NearestIsNear(x * 100.0);
  }

  /** Whole numbers stay, and stay bounds. */
  lemma Round2KeepsBounds(x: real, low: int, high: int)
    requires low as real <= x <= high as real
    ensures low as real <= Round2(x) <= high as real
  {
    NearestFixes(low * 100);
    NearestFixes(high * 100);
    NearestIsMonotone((low * 100) as real, x * 100.0);
    NearestIsMonotone(x * 100.0, (high * 100) as real);
  }

  lemma Round4KeepsBounds(x: real, low: int, high: int)
    requires low as real <= x <= high as real
    ensures low as real <= Round4(x) <= high as real
  {
    NearestFixes(low * 10000);
    NearestFixes(high * 10000);
    NearestIsMonotone((low * 10000) as real, x * 10000.0);
    NearestIsMonotone(x * 10000.0, (high * 10000) as real);
  }

  // ----- percentages -----

  function Share(part: nat, whole: nat): real
    requires whole > 0
  {
    part as real / whole as real * 100.0
  }

  /** Scaling by a positive factor keeps the order. */
  lemma Compare(x: real, y: real, w: real)
    requires w > 0.0
    ensures x < y <==> x * w < y * w
    ensures x == y <==> x * w == y * w
  {
    if x < y {
      assert (y - x) * w > 0.0;
    } else if y < x {
      assert (x - y) * w > 0.0;
    }
  }

  lemma ShareIsPositive(part: nat, whole: nat)
    requires whole > 0
    ensures Share(part, whole) >= 0.0
  {
    var x := part as real / whole as real;
    assert x * whole as real == part as real;
    Compare(x, 0.0, whole as real);
  }

  lemma ShareBounds(part: nat, whole: nat)
    requires part <= whole && whole > 0
    ensures 0.0 <= Share(part, whole) <= 100.0 && (Share(part, whole) == 100.0 <==> part == whole)
  {
    var x := part as real / whole as real;
    assert x * whole as real == part as real;
    ShareIsPositive(part, whole);
    Compare(1.0, x, whole as real);
  }

  lemma SubsetSize(a: set<string>, b: set<string>)
    requires a <= b
    ensures |a| <= |b| && (|a| == |b| <==> a == b)
  {
    var rest := b - a;
    assert b == a + rest;
    assert |b| == |a| + |rest|;
  }
}
