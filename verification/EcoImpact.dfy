/** The backend eco-impact estimator (`calculateEcoImpact` of the product service):
    a per-category base pair scaled by the square root of price/1000 and rounded.

    `Math.sqrt` and `Math.round` are modelled in exact arithmetic: for n, d > 0,
    `Math.round(Math.sqrt(n / d))` is the unique r >= 0 with
    r - 1/2 <= sqrt(n/d) < r + 1/2, which squares to the integer condition
    `RoundsToRoot` below. Since base * sqrt(price/1000) = sqrt(base^2 * price / 1000),
    each component of the estimate is such a rounded root. */
module EcoImpact {
  import opened Wrappers

  /** Estimated savings of one item. */
  datatype Impact = Impact(co2Saved: int, waterSaved: int)

  /** Per-category base values of the estimate. */
  datatype Base = Base(co2: nat, water: nat)

  /** The nine-entry table of the backend estimator. */
  function CategoryBase(category: string): (b: Option<Base>)
  {
    match category
    case "Electronics" => Some(Base(100, 1000))
    case "Clothing" => Some(Base(25, 2500))
    case "Fashion" => Some(Base(25, 2500))
    case "Furniture" => Some(Base(60, 500))
    case "Books" => Some(Base(10, 300))
    case "Sports" => Some(Base(30, 400))
    case "Home & Garden" => Some(Base(20, 600))
    case "Toys" => Some(Base(15, 250))
    case "Other" => Some(Base(15, 350))
    case _ => None
  }

  /** r is `Math.round(Math.sqrt(n / d))`, stated without reals. */
  ghost predicate RoundsToRoot(r: nat, n: nat, d: nat)
  {
    (r == 0 || (2 * r - 1) * (2 * r - 1) * d <= 4 * n) && 4 * n < (2 * r + 1) * (2 * r + 1) * d
  }

  lemma SquareScaleMono(a: nat, b: nat, d: nat)
    requires a <= b
    ensures a * a * d <= b * b * d
  {
    assert a * a <= a * b <= b * b;
  }

  lemma SquareScaleAtLeast(a: nat, d: nat)
    requires d >= 1
    ensures a <= a * a * d
  {
    if a > 0 {
      assert a * a >= a;
      assert a * a * d >= a * a;
    }
  }

  /** Searches upwards from r for the rounded root of n/d. */
  function RoundedRootFrom(r: nat, n: nat, d: nat): (s: nat)
    requires d >= 1
    requires r == 0 || (2 * r - 1) * (2 * r - 1) * d <= 4 * n
    ensures r <= s
    ensures RoundsToRoot(s, n, d)
    decreases 4 * n - r
  {
    if 4 * n < (2 * r + 1) * (2 * r + 1) * d then r
    else
      SquareScaleAtLeast(2 * r + 1, d);
      RoundedRootFrom(r + 1, n, d)
  }

  /** `Math.round(Math.sqrt(n / d))` in exact arithmetic. */
  function RoundedRoot(n: nat, d: nat): (r: nat)
    requires d >= 1
    ensures RoundsToRoot(r, n, d)
  {
    RoundedRootFrom(0, n, d)
  }

  lemma RealSquareStrict(x: real, y: real)
    requires 0.0 <= x < y
    ensures x * x < y * y
  {
    var a := y - x;
    var b := y + x;
    assert a > 0.0 && b > 0.0;
    assert a * b > 0.0;
    assert y * y - x * x == a * b;
  }

  /** `RoundsToRoot` agrees with rounding a real square root half-up
      (`Math.round(x)` is the floor of x + 1/2). */
  lemma RoundsToRootIsRoundedSqrt(r: nat, n: nat, d: nat, root: real)
    requires d >= 1 && root >= 0.0 && root * root * (d as real) == n as real
    requires RoundsToRoot(r, n, d)
    ensures (root + 0.5).Floor == r
  {
    var dr := d as real;
    var hi := (2 * r + 1) as real;
    assert 4.0 * root * root * dr < hi * hi * dr;
    assert (2.0 * root) * (2.0 * root) < hi * hi;
    if 2.0 * root >= hi {
      if 2.0 * root > hi {
        RealSquareStrict(hi, 2.0 * root);
      }
    }
    if r > 0 {
      var lo := (2 * r - 1) as real;
      assert lo * lo * dr <= 4.0 * root * root * dr;
      assert lo * lo <= (2.0 * root) * (2.0 * root);
      if lo > 2.0 * root {
        RealSquareStrict(2.0 * root, lo);
      }
    }
  }

  /** The rounded root grows with its radicand. */
  lemma {:induction false} RoundsToRootMono(r1: nat, n1: nat, r2: nat, n2: nat, d: nat)
    requires d >= 1 && n1 <= n2
    requires RoundsToRoot(r1, n1, d) && RoundsToRoot(r2, n2, d)
    ensures r1 <= r2
  {
    if r1 > r2 {
      SquareScaleMono(2 * r2 + 1, 2 * r1 - 1, d);
      assert false;
    }
  }

  /** There is exactly one rounded root. */
  lemma RoundsToRootUnique(r1: nat, r2: nat, n: nat, d: nat)
    requires d >= 1
    requires RoundsToRoot(r1, n, d) && RoundsToRoot(r2, n, d)
    ensures r1 == r2
  {
    RoundsToRootMono(r1, n, r2, n, d);
    RoundsToRootMono(r2, n, r1, n, d);
  }

  /** The root of a perfect square m^2 is m itself, with nothing to round. */
  lemma PerfectSquareRoot(m: nat, d: nat)
    requires d >= 1
    ensures RoundedRoot(m * m * d, d) == m
  {
    var n := m * m * d;
    assert 4 * n == (2 * m) * (2 * m) * d;
    SquareScaleMono(2 * m, 2 * m + 1, d);
    if m > 0 {
      SquareScaleMono(2 * m - 1, 2 * m, d);
    }
    assert RoundsToRoot(m, n, d);
    RoundsToRootUnique(RoundedRoot(n, d), m, n, d);
  }

  /** One component of the estimate: round(base * sqrt(price / 1000)). */
  function Scaled(base: nat, price: nat): (v: nat)
  {
    RoundedRoot(base * base * price, 1000)
  }

  /** `calculateEcoImpact` of the backend product service. A category missing
      from the table gives zero savings; there is no fallback to "Other". */
  function Estimate(category: string, price: nat): (r: Impact)
    ensures r.co2Saved >= 0 && r.waterSaved >= 0
    ensures CategoryBase(category).None? ==> r == Impact(0, 0)
    ensures CategoryBase(category).Some? ==>
      RoundsToRoot(r.co2Saved, CategoryBase(category).value.co2 * CategoryBase(category).value.co2 * price, 1000) &&
      RoundsToRoot(r.waterSaved, CategoryBase(category).value.water * CategoryBase(category).value.water * price, 1000)
  {
    match CategoryBase(category)
    case None => Impact(0, 0)
    case Some(b) => Impact(Scaled(b.co2, price), Scaled(b.water, price))
  }

  lemma ScaledAtSquare(base: nat, k: nat)
    ensures Scaled(base, 1000 * k * k) == base * k
  {
    assert base * base * (1000 * k * k) == (base * k) * (base * k) * 1000;
    PerfectSquareRoot(base * k, 1000);
  }

  /** For a tabled category and price = 1000 k^2 the estimate is exactly base * k. */
  lemma EstimateAtSquarePrice(category: string, k: nat)
    requires CategoryBase(category).Some?
    ensures Estimate(category, 1000 * k * k) ==
      Impact(CategoryBase(category).value.co2 * k, CategoryBase(category).value.water * k)
  {
    var b := CategoryBase(category).value;
    ScaledAtSquare(b.co2, k);
    ScaledAtSquare(b.water, k);
  }

  /** Books at 1000 and 4000. */
  lemma BooksExamples()
    ensures Estimate("Books", 1000) == Impact(10, 300)
    ensures Estimate("Books", 4000) == Impact(20, 600)
  {
    EstimateAtSquarePrice("Books", 1);
    EstimateAtSquarePrice("Books", 2);
  }

  lemma ScaledMono(base: nat, p1: nat, p2: nat)
    requires p1 <= p2
    ensures Scaled(base, p1) <= Scaled(base, p2)
  {
    assert base * base * p1 <= base * base * p2 by {
      var b2 := base * base;
      assert b2 * p1 <= b2 * p2;
    }
    RoundsToRootMono(Scaled(base, p1), base * base * p1, Scaled(base, p2), base * base * p2, 1000);
  }

  /** For a fixed category the estimate is non-decreasing in price. */
  lemma EstimateMonotone(category: string, p1: nat, p2: nat)
    requires p1 <= p2
    ensures Estimate(category, p1).co2Saved <= Estimate(category, p2).co2Saved
    ensures Estimate(category, p1).waterSaved <= Estimate(category, p2).waterSaved
  {
    match CategoryBase(category)
    case None =>
    case Some(b) =>
      ScaledMono(b.co2, p1, p2);
      ScaledMono(b.water, p1, p2);
  }
}
