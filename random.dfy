/**
 * The random helpers of the fireworks script. Every call of Math.random() is a
 * parameter `u` with 0 <= u < 1, so each helper is a plain function of its draw.
 */
module Random {

  /** `rand(a, b)`: a uniform real between a and b. */
  function Rand(a: real, b: real, u: real): (r: real)
    requires 0.0 <= u < 1.0
    ensures a <= b ==> a <= r <= b
    ensures a < b ==> r < b
    ensures a == b ==> r == a
  {
    RandBounds(a, b, u);
    a + u * (b - a)
  }

  /** a + u * (b - a) for a draw u in [0, 1) lies in [a, b), or is a when the interval is empty. */
  lemma RandBounds(a: real, b: real, u: real)
    requires 0.0 <= u < 1.0
    ensures a <= b ==> a <= a + u * (b - a) <= b
    ensures a < b ==> a + u * (b - a) < b
    ensures a == b ==> a + u * (b - a) == a
  {
    if a < b {
      MulSigns(u, b - a);
      MulSigns(1.0 - u, b - a);
    }
  }

  /** The sign rules for a product with a positive factor. */
  lemma MulSigns(x: real, y: real)
    requires y > 0.0
    ensures x >= 0.0 ==> x * y >= 0.0
    ensures x > 0.0 ==> x * y > 0.0
  {
  }

  /** `randInt(a, b)`: Math.floor(rand(a, b + 1)), an integer in [a, b]. */
  function RandInt(a: int, b: int, u: real): (r: int)
    requires 0.0 <= u < 1.0
    ensures a <= b ==> a <= r <= b
  {
    Rand(a as real, (b + 1) as real, u).Floor
  }

  /** Every integer of [a, b] is drawn by some u: randInt covers its whole range. */
  lemma RandIntReaches(a: int, b: int, k: int)
    requires a <= k <= b
    ensures var u := (k - a) as real / (b - a + 1) as real;
      0.0 <= u < 1.0 && RandInt(a, b, u) == k
  {
    var n := (b - a + 1) as real;
    var u := (k - a) as real / n;
    assert u * n == (k - a) as real;
    assert Rand(a as real, (b + 1) as real, u) == k as real;
  }
}
