/** The Wilson score interval, with the square root as a number whose square is the radicand. */
module Wilson {

  datatype Interval = NoTrials | OutOfRange | Bounds(lower: real, upper: real)

  /** The range check accepts these counts. */
  predicate InRange(successes: int, trials: int) {
    trials <= 0 || 0 <= successes <= trials
  }

  function Radicand(p: real, n: real, z: real): real
    requires n > 0.0
  {
    FourSquares(n);
    p * (1.0 - p) / n + z * z / (4.0 * n * n)
  }

  function Denominator(n: real, z: real): (d: real)
    requires n > 0.0
    ensures d >= 1.0
  {
    Square(z);
    Fraction(z * z, n);
    1.0 + z * z / n
  }

  function Centre(p: real, n: real, z: real): real
    requires n > 0.0
  {
    (p + z * z / (2.0 * n)) / Denominator(n, z)
  }

  function Margin(n: real, z: real, root: real): real
    requires n > 0.0
  {
    z * root / Denominator(n, z)
  }

  /** `root` is the square root of the radicand. */
  function WilsonInterval(successes: int, trials: int, z: real, root: real): Interval {
    if trials <= 0 then NoTrials
    else if successes < 0 || successes > trials then OutOfRange
    else
      var n := trials as real;
      var p := successes as real / n;
      var lower := Centre(p, n, z) - Margin(n, z, root);
      var upper := Centre(p, n, z) + Margin(n, z, root);
      Bounds(if lower > 0.0 then lower else 0.0, if upper < 1.0 then upper else 1.0)
  }

  /** The score test does not reject `x` as the true proportion: the observed one is within `z` standard
      deviations of it. */
  predicate NotRejected(p: real, n: real, z: real, x: real) {
    n * ((x - p) * (x - p)) <= z * z * (x * (1.0 - x))
  }

  // ---------------------------------------------------------------- products and quotients of reals

  lemma Square(x: real)
    ensures x * x >= 0.0
  {}

  lemma Product(x: real, y: real)
    requires x >= 0.0 && y >= 0.0
    ensures x * y >= 0.0
    ensures x > 0.0 && y > 0.0 ==> x * y > 0.0
  {}

  lemma PositiveProduct(x: real, y: real, m: real)
    requires x > 0.0 && y > 0.0 && m == x * y
    ensures m > 0.0
  {}

  lemma FourSquares(n: real)
    requires n > 0.0
    ensures 4.0 * n * n > 0.0
  {
    Product(4.0 * n, n);
  }

  lemma Fraction(x: real, n: real)
    requires x >= 0.0 && n > 0.0
    ensures x / n >= 0.0
  {}

  lemma CancelFactor(x: real, y: real, m: real)
    requires m > 0.0 && x * m == y * m
    ensures x == y
  {
    assert (x - y) * m == 0.0;
  }

  lemma CancelBound(x: real, y: real, m: real)
    requires m > 0.0
    ensures x * m <= y * m <==> x <= y
  {
    assert y * m - x * m == (y - x) * m;
    if x <= y { Product(y - x, m); } else { Product(x - y, m); }
  }

  lemma SquareOfProduct(x: real, y: real)
    ensures (x * y) * (x * y) == (x * x) * (y * y)
  {}

  lemma LargerSquare(x: real, y: real)
    requires 0.0 <= x < y
    ensures x * x < y * y
  {
    PositiveProduct(y - x, y + x, (y - x) * (y + x));
    assert y * y - x * x == (y - x) * (y + x);
  }

  /** A square is at most another exactly when its base is within the other's. */
  lemma SquareWithin(y: real, m: real)
    requires m >= 0.0
    ensures y * y <= m * m <==> -m <= y <= m
  {
    var a := if y < 0.0 then -y else y;
    assert a * a == y * y;
    if a < m { LargerSquare(a, m); }
    if m < a { LargerSquare(m, a); }
  }

  lemma QuarterSquare(z: real, n: real, m: real)
    requires n > 0.0 && m == 4.0 * n * n
    ensures m > 0.0 && z * z / m == z / n * (z / n) * 0.25
  {
    PositiveProduct(4.0 * n, n, m);
    var w := z / n;
    calc {
      w * w * 0.25 * m;
      { QuarterTimesFour(w * w, n); }
      w * w * (n * n);
      { SquareOfProduct(w, n); }
      (w * n) * (w * n);
      { assert w * n == z; }
      z * z;
    }
    CancelFactor(z * z / m, w * w * 0.25, m);
  }

  lemma QuarterTimesFour(x: real, n: real)
    ensures x * 0.25 * (4.0 * n * n) == x * (n * n)
  {}

  // ---------------------------------------------------------------- the quadratic behind the interval

  /** `z` times the root is what the quadratic formula takes the square root of. */
  lemma Discriminant(p: real, n: real, z: real, u: real, m: real)
    requires n > 0.0 && u == z * z / n && m == 4.0 * n * n
    ensures m > 0.0
    ensures z * z * (p * (1.0 - p) / n + z * z / m) == (p + u * 0.5) * (p + u * 0.5) - (1.0 + u) * (p * p)
  {
    QuarterSquare(z, n, m);
    var w, q, s := z / n, p * (1.0 - p), z * z;
    SquareOfProduct(z, w);
    assert z * w == u;
    assert s * (w * w * 0.25) == (s * (w * w)) * 0.25;
    assert s * (q / n) == u * q;
    assert s * (q / n + z * z / m) == s * (q / n) + s * (z * z / m);
    assert u * (p * (1.0 - p)) == u * p - u * (p * p);
    assert (p + u * 0.5) * (p + u * 0.5) == p * p + u * p + u * u * 0.25;
  }

  lemma Quadratic(p: real, u: real, x: real)
    ensures ((1.0 + u) * x - (p + u * 0.5)) * ((1.0 + u) * x - (p + u * 0.5))
            - ((p + u * 0.5) * (p + u * 0.5) - (1.0 + u) * (p * p))
         == (1.0 + u) * ((x - p) * (x - p) - u * (x * (1.0 - x)))
  {}

  lemma Between(x: real, d: real, c: real, m: real)
    requires d >= 1.0
    ensures -m <= d * x - c <= m <==> c / d - m / d <= x <= c / d + m / d
  {}

  /** Dividing the score test by the number of trials. */
  lemma NotRejectedPerTrial(p: real, n: real, z: real, x: real, u: real)
    requires n > 0.0 && u == z * z / n
    ensures NotRejected(p, n, z, x) <==> (x - p) * (x - p) - u * (x * (1.0 - x)) <= 0.0
  {}

  /** Before clamping, the interval holds exactly the proportions that the score test does not reject. */
  lemma UnclampedIsScoreSet(p: real, n: real, z: real, root: real, x: real)
    requires n > 0.0 && z >= 0.0 && root >= 0.0 && root * root == Radicand(p, n, z)
    ensures Centre(p, n, z) - Margin(n, z, root) <= x <= Centre(p, n, z) + Margin(n, z, root)
      <==> NotRejected(p, n, z, x)
  {
    var u, d, m := z * z / n, Denominator(n, z), z * root;
    var c := p + u * 0.5;
    assert Centre(p, n, z) == c / d && Margin(n, z, root) == m / d && d == 1.0 + u by {
      assert z * z / (2.0 * n) == u * 0.5;
    }
    var y, score := d * x - c, (x - p) * (x - p) - u * (x * (1.0 - x));
    Discriminant(p, n, z, u, 4.0 * n * n);
    SquareOfProduct(z, root);
    assert m * m == c * c - d * (p * p);
    Quadratic(p, u, x);
    assert y * y - m * m == d * score;
    hide Radicand, Centre, Margin, Denominator, NotRejected;
    CancelBound(score, 0.0, d);
    Product(z, root);
    SquareWithin(y, m);
    Between(x, d, c, m);
    NotRejectedPerTrial(p, n, z, x, u);
  }

  /** No proportion outside [0, 1] survives the score test. */
  lemma NotRejectedInUnit(p: real, n: real, z: real, x: real)
    requires n > 0.0 && 0.0 <= p <= 1.0 && NotRejected(p, n, z, x)
    ensures 0.0 <= x <= 1.0
  {
    if x < 0.0 {
      Product(-x, 1.0 - x);
      assert x * (1.0 - x) == -(-x * (1.0 - x));
      Outside(p, n, z, x, x * (1.0 - x));
    } else if x > 1.0 {
      Product(x, x - 1.0);
      assert x * (1.0 - x) == -(x * (x - 1.0));
      Outside(p, n, z, x, x * (1.0 - x));
    }
  }

  lemma Outside(p: real, n: real, z: real, x: real, v: real)
    requires n > 0.0 && x != p && v <= 0.0
    ensures n * ((x - p) * (x - p)) > z * z * v
  {
    var s, q := z * z, (x - p) * (x - p);
    Square(z);
    Product(s, -v);
    assert s * -v == -(s * v);
    if x > p { PositiveProduct(x - p, x - p, q); } else { PositiveProduct(p - x, p - x, q); }
    PositiveProduct(n, q, n * q);
  }

  /** For every count and every z, the interval holds exactly the proportions that the score test does not reject. */
  lemma IntervalIsScoreSet(successes: int, trials: int, z: real, root: real, x: real)
    requires trials > 0 && 0 <= successes <= trials && z >= 0.0
    requires root >= 0.0 && root * root == Radicand(successes as real / trials as real, trials as real, z)
    ensures var r := WilsonInterval(successes, trials, z, root);
      && r.Bounds?
      && (r.lower <= x <= r.upper <==> NotRejected(successes as real / trials as real, trials as real, z, x))
  {
    hide Radicand, Centre, Margin, NotRejected;
    var n := trials as real;
    var p := successes as real / n;
    assert 0.0 <= p <= 1.0;
    UnclampedIsScoreSet(p, n, z, root, x);
    if NotRejected(p, n, z, x) { NotRejectedInUnit(p, n, z, x); }
  }

  /** The interval is inside [0, 1] and contains the observed proportion. */
  lemma IntervalContainsProportion(successes: int, trials: int, z: real, root: real)
    requires trials > 0 && 0 <= successes <= trials && z >= 0.0
    requires root >= 0.0 && root * root == Radicand(successes as real / trials as real, trials as real, z)
    ensures var r := WilsonInterval(successes, trials, z, root);
      r.Bounds? && 0.0 <= r.lower <= successes as real / trials as real <= r.upper <= 1.0
  {
    hide Radicand, Centre, Margin;
    var n := trials as real;
    var p := successes as real / n;
    assert 0.0 <= p <= 1.0;
    Square(z);
    Product(p, 1.0 - p);
    Product(z * z, p * (1.0 - p));
    assert NotRejected(p, n, z, p);
    IntervalIsScoreSet(successes, trials, z, root, p);
  }
}
