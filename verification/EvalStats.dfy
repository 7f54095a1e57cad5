/** The two statistics the eval reports use, in exact arithmetic: the exact McNemar
    p-value and the Wilson score interval. */
module EvalStats {
  import opened Text

  // ---- binomial coefficients ----

  /** `math.comb(n, k)`. */
  function Comb(n: nat, k: nat): nat {
    if k == 0 then 1
    else if n == 0 then 0
    else Comb(n - 1, k - 1) + Comb(n - 1, k)
  }

  function Pow2(n: nat): (r: nat)
    ensures r >= 1
  {
    if n == 0 then 1 else 2 * Pow2(n - 1)
  }

  lemma {:induction false} CombAbove(n: nat, k: nat)
    requires k > n
    ensures Comb(n, k) == 0
  {
    if n > 0 {
      CombAbove(n - 1, k - 1);
      CombAbove(n - 1, k);
    }
  }

  lemma {:induction false} CombPositive(n: nat, k: nat)
    requires k <= n
    ensures Comb(n, k) >= 1
  {
    if k > 0 { CombPositive(n - 1, k - 1); }
  }

  lemma {:induction false} CombSymmetric(n: nat, k: nat)
    requires k <= n
    ensures Comb(n, k) == Comb(n, n - k)
  {
    if n == 0 {
    } else if k == 0 {
      CombSymmetric(n - 1, 0);
      CombAbove(n - 1, n);
    } else if k == n {
      CombSymmetric(n - 1, n - 1);
      CombAbove(n - 1, n);
    } else {
      CombSymmetric(n - 1, k - 1);
      CombSymmetric(n - 1, k);
    }
  }

  function Factorial(n: nat): (r: nat)
    ensures r >= 1
  {
    if n == 0 then 1 else n * Factorial(n - 1)
  }

  lemma FactorialNext(n: nat)
    requires n > 0
    ensures Factorial(n) == n * Factorial(n - 1)
    ensures Factorial(0) == 1
  {
  }

  lemma CombNext(n: nat, k: nat)
    ensures Comb(n, 0) == 1
    ensures n > 0 && k > 0 ==> Comb(n, k) == Comb(n - 1, k - 1) + Comb(n - 1, k)
  {
  }

  /** `n! / (k! (n - k)!)`, without the division. */
  lemma {:induction false} CombIsFactorials(n: nat, k: nat)
    requires k <= n
    ensures Comb(n, k) * (Factorial(k) * Factorial(n - k)) == Factorial(n)
  {
    hide Comb, Factorial;
    CombNext(n, k);
    FactorialNext(n + 1);
    if k > 0 {
      FactorialNext(n);
      FactorialNext(k);
      CombIsFactorials(n - 1, k - 1);
      if k == n {
        CombAbove(n - 1, n);
        LastStep(Comb(n - 1, n - 1), Factorial(n - 1), n);
      } else {
        FactorialNext(n - k);
        CombIsFactorials(n - 1, k);
        PascalStep(Comb(n - 1, k - 1), Comb(n - 1, k), Factorial(k - 1), Factorial(n - k - 1), k, n - k, Factorial(n - 1));
      }
    }
  }

  lemma LastStep(c: nat, f: nat, n: nat)
    requires c * (f * 1) == f
    ensures (c + 0) * ((n * f) * 1) == n * f
  {
    assert c * (n * f) == n * (c * f);
  }

  lemma PascalStep(a: nat, b: nat, f: nat, g: nat, k: nat, m: nat, h: nat)
    requires a * (f * (m * g)) == h && b * ((k * f) * g) == h
    ensures (a + b) * ((k * f) * (m * g)) == (k + m) * h
  {
    assert (a + b) * ((k * f) * (m * g)) == a * ((k * f) * (m * g)) + b * ((k * f) * (m * g));
    assert a * ((k * f) * (m * g)) == k * (a * (f * (m * g)));
    assert b * ((k * f) * (m * g)) == m * (b * ((k * f) * g));
  }

  /** Sum of Comb(n, k) over lo <= k < hi. */
  function RowSum(n: nat, lo: nat, hi: nat): nat
    requires lo <= hi
  {
    if lo == hi then 0 else RowSum(n, lo, hi - 1) + Comb(n, hi - 1)
  }

  lemma {:induction false} RowSumSplit(n: nat, lo: nat, mid: nat, hi: nat)
    requires lo <= mid <= hi
    ensures RowSum(n, lo, hi) == RowSum(n, lo, mid) + RowSum(n, mid, hi)
  {
    if mid < hi { RowSumSplit(n, lo, mid, hi - 1); }
  }

  /** Mirrored stretches of a row have the same sum. */
  lemma {:induction false} RowSumMirror(n: nat, m: nat)
    requires m <= n + 1
    ensures RowSum(n, 0, m) == RowSum(n, n + 1 - m, n + 1)
  {
    if m > 0 {
      RowSumMirror(n, m - 1);
      CombSymmetric(n, m - 1);
      RowSumSplit(n, n + 1 - m, n + 2 - m, n + 1);
      assert RowSum(n, n + 1 - m, n + 1 - m) == 0;
    }
  }

  lemma {:induction false} RowSumPascal(n: nat, hi: nat)
    ensures RowSum(n + 1, 0, hi + 1) == RowSum(n, 0, hi) + RowSum(n, 0, hi + 1)
  {
    if hi > 0 { RowSumPascal(n, hi - 1); }
  }

  lemma {:induction false} RowSumTotal(n: nat)
    ensures RowSum(n, 0, n + 1) == Pow2(n)
  {
    if n > 0 {
      RowSumTotal(n - 1);
      RowSumPascal(n - 1, n);
      CombAbove(n - 1, n);
    }
  }

  // ---- McNemar ----

  function Min(b: nat, c: nat): nat { if b < c then b else c }

  /** Lower tail of the discordant pairs, as a count of outcomes out of 2^n. */
  function Tail(b: nat, c: nat): nat {
    RowSum(b + c, 0, Min(b, c) + 1)
  }

  /** The p-value before the clamp at 1. */
  function Doubled(b: nat, c: nat): real {
    2.0 * (Tail(b, c) as real / Pow2(b + c) as real)
  }

  function McNemar(b: nat, c: nat): real {
    if b + c <= 0 then 1.0
    else if Doubled(b, c) > 1.0 then 1.0 else Doubled(b, c)
  }

  /** Off balance, the tail and its mirror image do not meet. */
  lemma TailOffBalance(b: nat, c: nat)
    requires b != c
    ensures 2 * Tail(b, c) <= Pow2(b + c)
  {
    var n, m := b + c, Min(b, c);
    RowSumMirror(n, m + 1);
    RowSumTotal(n);
    RowSumSplit(n, 0, n - m, n + 1);
    RowSumSplit(n, 0, m + 1, n - m);
  }

  /** In balance they share the middle term. */
  lemma TailBalanced(b: nat)
    ensures 2 * Tail(b, b) == Pow2(2 * b) + Comb(2 * b, b)
  {
    var n := 2 * b;
    RowSumMirror(n, b + 1);
    RowSumTotal(n);
    RowSumSplit(n, 0, b, n + 1);
    assert RowSum(n, 0, b + 1) == RowSum(n, 0, b) + Comb(n, b);
  }

  lemma SignOfProduct(y: real, d: real)
    requires d > 0.0
    ensures y * d > 0.0 <==> y > 0.0
    ensures y * d <= 0.0 <==> y <= 0.0
  {
  }

  lemma DividedAtMostOne(a: nat, d: nat)
    requires d >= 1
    ensures 2.0 * (a as real / d as real) > 1.0 <==> 2 * a > d
  {
    var x, e := a as real / d as real, d as real;
    assert (2.0 * x - 1.0) * e == 2.0 * (x * e) - e;
    SignOfProduct(2.0 * x - 1.0, e);
  }

  /** The clamp at 1 bites exactly when the discordant pairs are in balance. */
  lemma ClampBites(b: nat, c: nat)
    ensures Doubled(b, c) > 1.0 <==> b == c
  {
    DividedAtMostOne(Tail(b, c), Pow2(b + c));
    if b == c {
      TailBalanced(b);
      CombPositive(2 * b, b);
    } else {
      TailOffBalance(b, c);
    }
  }

  lemma McNemarSymmetric(b: nat, c: nat)
    ensures McNemar(b, c) == McNemar(c, b)
  {
    assert b + c == c + b && Min(b, c) == Min(c, b);
  }

  // ---- what the p-value means ----

  function Gap(a: int, b: int): nat { if a >= b then a - b else b - a }

  /** Outcomes of n fair coins, counted over k < hi heads, at least as lopsided as
      `gap`. */
  function Extreme(n: nat, gap: nat, hi: nat): nat {
    if hi == 0 then 0
    else Extreme(n, gap, hi - 1) + (if Gap(2 * (hi - 1), n) >= gap then Comb(n, hi - 1) else 0)
  }

  lemma {:induction false} ExtremeAll(n: nat, hi: nat)
    ensures Extreme(n, 0, hi) == RowSum(n, 0, hi)
  {
    if hi > 0 { ExtremeAll(n, hi - 1); }
  }

  /** Both tails, stretch by stretch: below the gap, between the tails, above it. */
  lemma {:induction false} ExtremeTails(n: nat, m: nat, hi: nat)
    requires 2 * m < n && hi <= n + 1
    ensures Extreme(n, n - 2 * m, hi)
            == if hi <= m + 1 then RowSum(n, 0, hi)
               else if hi <= n - m then RowSum(n, 0, m + 1)
               else RowSum(n, 0, m + 1) + RowSum(n, n - m, hi)
  {
    if hi > 0 {
      ExtremeTails(n, m, hi - 1);
      if hi == n - m + 1 {
        assert RowSum(n, n - m, n - m) == 0;
      }
    }
  }

  /** The p-value is the exact two-sided test: the share of all 2^n outcomes that are
      at least as lopsided as the observed one. This holds with and without the
      clamp. */
  lemma McNemarIsTwoSided(b: nat, c: nat)
    ensures McNemar(b, c) == Extreme(b + c, Gap(b, c), b + c + 1) as real / Pow2(b + c) as real
  {
    hide Extreme, RowSum, Pow2, Comb, Tail;
    ClampBites(b, c);
    if b == c {
      ExtremeIsAll(b);
    } else {
      ExtremeIsBothTails(b, c);
      DoubleShare(Tail(b, c), Pow2(b + c));
    }
  }

  lemma ExtremeIsAll(b: nat)
    ensures Extreme(b + b, Gap(b, b), b + b + 1) as real / Pow2(b + b) as real == 1.0
  {
    hide Extreme, RowSum, Pow2;
    ExtremeAll(b + b, b + b + 1);
    RowSumTotal(b + b);
    SelfShare(Pow2(b + b) as real);
  }

  lemma SelfShare(d: real)
    requires d > 0.0
    ensures d / d == 1.0
  {
  }

  lemma ExtremeIsBothTails(b: nat, c: nat)
    requires b != c
    ensures Extreme(b + c, Gap(b, c), b + c + 1) == 2 * Tail(b, c)
  {
    var n, m := b + c, Min(b, c);
    assert Gap(b, c) == n - 2 * m;
    ExtremeTails(n, m, n + 1);
    RowSumMirror(n, m + 1);
  }

  lemma DoubleShare(a: nat, d: nat)
    requires d >= 1
    ensures 2.0 * (a as real / d as real) == (2 * a) as real / d as real
  {
  }

  lemma {:induction false} ExtremeMonotone(n: nat, gap: nat, wider: nat, hi: nat)
    requires gap <= wider
    ensures Extreme(n, wider, hi) <= Extreme(n, gap, hi)
  {
    if hi > 0 { ExtremeMonotone(n, gap, wider, hi - 1); }
  }

  lemma ShareMonotone(a: nat, b: nat, d: nat)
    requires a <= b && d >= 1
    ensures a as real / d as real <= b as real / d as real
  {
  }

  /** A more lopsided split of the same number of pairs is never less significant, and
      every p-value lies in (0, 1]. */
  lemma McNemarBounds(b: nat, c: nat, b': nat, c': nat)
    requires b + c == b' + c' && Gap(b, c) <= Gap(b', c')
    ensures 0.0 < McNemar(b', c') <= McNemar(b, c) <= 1.0
  {
    var n := b + c;
    McNemarIsTwoSided(b, c);
    McNemarIsTwoSided(b', c');
    ExtremeMonotone(n, Gap(b, c), Gap(b', c'), n + 1);
    ShareMonotone(Extreme(n, Gap(b', c'), n + 1), Extreme(n, Gap(b, c), n + 1), Pow2(n));
    if n > 0 {
      RowSumSplit(n, 0, 1, Min(b', c') + 1);
      assert RowSum(n, 0, 1) == 1;
      assert Tail(b', c') >= 1;
      PositiveShare(Tail(b', c'), Pow2(n));
    }
  }

  lemma PositiveShare(a: nat, d: nat)
    requires a >= 1 && d >= 1
    ensures a as real / d as real > 0.0
  {
  }

  // ---- Wilson ----

  datatype Interval = Interval(lo: real, hi: real)

  /** What the interval's square root is taken of. */
  function Radicand(p: real, n: int, z: real): real
    requires n > 0
  {
    p * (1.0 - p) / n as real + z * z / (4.0 * n as real * n as real)
  }

  /** Centre and half width; `root` is the square root of the radicand. */
  function Centre(p: real, n: int, z: real): real
    requires n > 0
  {
    (p + z * z / (2.0 * n as real)) / (1.0 + z * z / n as real)
  }

  function Half(n: int, z: real, root: real): real
    requires n > 0
  {
    z * root / (1.0 + z * z / n as real)
  }

  function RealMax(a: real, b: real): real { if a > b then a else b }

  function RealMin(a: real, b: real): real { if a < b then a else b }

  /** The interval as returned, clamped to [0, 1]; None without runs. */
  function Wilson(passes: int, n: int, z: real, root: real): Option<Interval> {
    if n <= 0 then None
    else
      var p := passes as real / n as real;
      Some(Interval(RealMax(0.0, Centre(p, n, z) - Half(n, z, root)),
                    RealMin(1.0, Centre(p, n, z) + Half(n, z, root))))
  }

  ghost predicate IsRoot(root: real, x: real) {
    root >= 0.0 && root * root == x
  }

  /** Score statistic of a true rate `x` against the observed rate: it is at most
      0 exactly when `x` is within z standard errors (taken at `x`). */
  function Score(p: real, n: int, z: real, x: real): real
    requires n > 0
  {
    (p - x) * (p - x) - z * z * (x * (1.0 - x) / n as real)
  }

  lemma PositiveProduct(x: real, y: real)
    requires x >= 0.0 && y >= 0.0
    ensures x * y >= 0.0 && (x > 0.0 && y > 0.0 ==> x * y > 0.0)
  {
  }

  lemma ScaleOrder(x: real, y: real, z: real, xz: real, yz: real)
    requires x <= y && z >= 0.0 && xz == x * z && yz == y * z
    ensures xz <= yz && (x < y && z > 0.0 ==> xz < yz)
  {
  }

  lemma SquareLess(a: real, h: real)
    requires 0.0 <= a < h
    ensures a * a < h * h
  {
    ScaleOrder(a, h, a, a * a, h * a);
    ScaleOrder(a, h, h, a * h, h * h);
  }

  lemma SquareOrder(b: real, h: real)
    requires b >= 0.0 && h >= 0.0
    ensures b * b <= h * h <==> b <= h
  {
    if h < b { SquareLess(h, b); }
    if b < h { SquareLess(b, h); }
  }

  lemma SquareOfNegative(a: real)
    ensures (-a) * (-a) == a * a
  {
  }

  lemma SquareWithin(a: real, h: real)
    requires h >= 0.0
    ensures a * a <= h * h <==> -h <= a <= h
  {
    if a >= 0.0 {
      SquareOrder(a, h);
    } else {
      SquareOrder(-a, h);
      SquareOfNegative(a);
    }
  }

  /** Completing the square: the score is the quadratic the interval solves. */
  lemma ScoreSquare(p: real, w: real, q: real, x: real)
    requires q * q == w * (p * (1.0 - p)) + w * w / 4.0
    ensures var y := (1.0 + w) * x - (p + w / 2.0);
      ((p - x) * (p - x) - w * (x * (1.0 - x))) * (1.0 + w) == y * y - q * q
  {
    var d, e := 1.0 + w, p + w / 2.0;
    var dx := d * x;
    assert (dx - e) * (dx - e) == dx * dx - 2.0 * (dx * e) + e * e;
    assert (p - x) * (p - x) - w * (x * (1.0 - x)) == d * (x * x) - 2.0 * (e * x) + p * p;
    assert (d * (x * x)) * d == dx * dx;
    assert (e * x) * d == dx * e;
    assert e * e - q * q == (p * p) * d;
  }

  /** `w` is z*z/n; the scaled half width squares to the radicand. */
  lemma ScaledHalf(p: real, n: int, z: real, root: real)
    requires n > 0 && IsRoot(root, Radicand(p, n, z))
    ensures var w := z * z / n as real;
      (z * root) * (z * root) == w * (p * (1.0 - p)) + w * w / 4.0
  {
    var m := n as real;
    var zz, pq := z * z, p * (1.0 - p);
    var w := zz / m;
    assert (z * root) * (z * root) == zz * (root * root);
    assert root * root == pq / m + zz / (4.0 * m * m);
    assert zz * (pq / m) == w * pq;
    FourSquares(zz, m);
  }

  lemma StrictProduct(x: real, y: real, xy: real)
    requires x > 0.0 && y > 0.0 && xy == x * y
    ensures xy > 0.0
  {
  }

  lemma FourSquares(a: real, m: real)
    requires m > 0.0
    ensures a * (a / (4.0 * m * m)) == (a / m) * (a / m) / 4.0
  {
    StrictProduct(m, m, m * m);
    var d := 4.0 * m * m;
    assert d == 4.0 * (m * m);
    StrictProduct(4.0, m * m, d);
    QuarterOfSquare(a, a / m, m, d);
  }

  lemma QuarterOfSquare(a: real, u: real, m: real, d: real)
    requires a == u * m && d == 4.0 * (m * m) && d > 0.0
    ensures a * (a / d) == u * u / 4.0
  {
    var v := a / d;
    assert v * d == a;
    assert a * a == (u * u) * (m * m);
    assert (a * v) * d == a * (v * d);
    assert (u * u / 4.0) * d == (u * u) * (m * m);
    SameFactor(a * v, u * u / 4.0, d);
  }

  lemma SameFactor(x: real, y: real, d: real)
    requires d > 0.0 && x * d == y * d
    ensures x == y
  {
    assert (x - y) * d == 0.0;
  }

  lemma DivideWithin(x: real, e: real, q: real, d: real)
    requires d > 0.0
    ensures -q <= d * x - e <= q <==> e / d - q / d <= x <= e / d + q / d
  {
    var c, h := e / d, q / d;
    assert c * d == e && h * d == q;
    SignOfProduct(c - h - x, d);
    SignOfProduct(x - (c + h), d);
    assert (c - h - x) * d == e - q - d * x;
    assert (x - (c + h)) * d == d * x - e - q;
  }

  /** The interval told by two numbers: `d` times its centre and half width. */
  lemma Scaled(p: real, n: int, z: real, root: real)
    requires n > 0 && z >= 0.0 && IsRoot(root, Radicand(p, n, z))
    ensures var w := z * z / n as real;
      && w >= 0.0 && z * root >= 0.0
      && Centre(p, n, z) == (p + w / 2.0) / (1.0 + w)
      && Half(n, z, root) == z * root / (1.0 + w)
      && (z * root) * (z * root) == w * (p * (1.0 - p)) + w * w / 4.0
  {
    PositiveProduct(z, z);
    NonNegativeShare(z * z, n as real);
    PositiveProduct(z, root);
    ScaledHalf(p, n, z, root);
    HalfShare(z * z, n as real);
  }

  /** The unclamped interval is exactly the set of rates the score test does not
      reject: those within z of their own standard errors of the observed rate. */
  lemma WilsonInvertsScore(p: real, n: int, z: real, root: real, x: real)
    requires n > 0 && z >= 0.0 && IsRoot(root, Radicand(p, n, z))
    ensures Score(p, n, z, x) <= 0.0
            <==> Centre(p, n, z) - Half(n, z, root) <= x <= Centre(p, n, z) + Half(n, z, root)
  {
    hide Centre, Half, Score, IsRoot, Radicand;
    var w, q := z * z / n as real, z * root;
    Scaled(p, n, z, root);
    ScoreForm(p, n, z, x);
    QuadraticWithin(p, w, q, x);
  }

  lemma QuadraticWithin(p: real, w: real, q: real, x: real)
    requires w >= 0.0 && q >= 0.0 && q * q == w * (p * (1.0 - p)) + w * w / 4.0
    ensures var d := 1.0 + w;
      (p - x) * (p - x) - w * (x * (1.0 - x)) <= 0.0
      <==> (p + w / 2.0) / d - q / d <= x <= (p + w / 2.0) / d + q / d
  {
    ScoreSquare(p, w, q, x);
    SolveSquare((p - x) * (p - x) - w * (x * (1.0 - x)), 1.0 + w, p + w / 2.0, q, x);
  }

  lemma SolveSquare(s: real, d: real, e: real, q: real, x: real)
    requires d > 0.0 && q >= 0.0 && s * d == (d * x - e) * (d * x - e) - q * q
    ensures s <= 0.0 <==> e / d - q / d <= x <= e / d + q / d
  {
    SignOfProduct(s, d);
    SquareWithin(d * x - e, q);
    DivideWithin(x, e, q, d);
  }

  lemma ScoreForm(p: real, n: int, z: real, x: real)
    requires n > 0
    ensures Score(p, n, z, x) == (p - x) * (p - x) - z * z / n as real * (x * (1.0 - x))
  {
    ShareFactor(z * z, x * (1.0 - x), n as real);
  }

  lemma ShareFactor(a: real, b: real, m: real)
    requires m > 0.0
    ensures a * (b / m) == a / m * b
  {
  }

  lemma NonNegativeShare(a: real, m: real)
    requires a >= 0.0 && m > 0.0
    ensures a / m >= 0.0
  {
  }

  lemma HalfShare(a: real, m: real)
    requires m > 0.0
    ensures a / (2.0 * m) == a / m / 2.0
  {
  }

  lemma RateInUnit(passes: int, n: int)
    requires 0 <= passes <= n && n > 0
    ensures 0.0 <= passes as real / n as real <= 1.0
  {
    var m, q := n as real, passes as real;
    NonNegativeShare(q, m);
    NonNegativeShare(m - q, m);
    SumShare(m - q, q, m);
    SelfShare(m);
  }

  /** For every count of passes the bounds are already within [0, 1] before they are
      clamped, and the observed rate lies between them. */
  lemma WilsonBrackets(passes: int, n: int, z: real, root: real)
    requires 0 <= passes <= n && n > 0 && z >= 0.0
    requires IsRoot(root, Radicand(passes as real / n as real, n, z))
    ensures var p := passes as real / n as real;
      var lo, hi := Centre(p, n, z) - Half(n, z, root), Centre(p, n, z) + Half(n, z, root);
      0.0 <= lo <= p <= hi <= 1.0 && Wilson(passes, n, z, root) == Some(Interval(lo, hi))
  {
    RateInUnit(passes, n);
    BracketsRate(passes as real / n as real, n, z, root);
  }

  lemma BracketsRate(p: real, n: int, z: real, root: real)
    requires n > 0 && z >= 0.0 && 0.0 <= p <= 1.0 && IsRoot(root, Radicand(p, n, z))
    ensures 0.0 <= Centre(p, n, z) - Half(n, z, root) <= p <= Centre(p, n, z) + Half(n, z, root) <= 1.0
  {
    hide Centre, Half, Score, IsRoot, Radicand;
    ObservedWithin(p, n, z);
    WilsonInvertsScore(p, n, z, root, p);
    Scaled(p, n, z, root);
    EndsOutside(p, z * z / n as real, z * root);
  }

  lemma ObservedWithin(p: real, n: int, z: real)
    requires n > 0 && 0.0 <= p <= 1.0
    ensures Score(p, n, z, p) <= 0.0
  {
    PositiveProduct(p, 1.0 - p);
    NonNegativeShare(p * (1.0 - p), n as real);
    assert z * z >= 0.0;
    PositiveProduct(z * z, p * (1.0 - p) / n as real);
    assert (p - p) * (p - p) == 0.0;
  }

  lemma SquareTimes(a: real, d: real)
    requires d >= 0.0
    ensures a * a * d >= 0.0
  {
    assert a * a >= 0.0;
    PositiveProduct(a * a, d);
  }

  /** The score at 0 and at 1 is a square, so neither end passes the unit interval. */
  lemma EndsOutside(p: real, w: real, q: real)
    requires 0.0 <= p <= 1.0 && w >= 0.0 && q >= 0.0 && q * q == w * (p * (1.0 - p)) + w * w / 4.0
    ensures (p + w / 2.0) / (1.0 + w) - q / (1.0 + w) >= 0.0
    ensures (p + w / 2.0) / (1.0 + w) + q / (1.0 + w) <= 1.0
  {
    ScoreAtZero(p, w, q);
    ScoreAtOne(p, w, q);
    UnitEnds(p + w / 2.0, q, 1.0 + w);
  }

  lemma ScoreAtZero(p: real, w: real, q: real)
    requires 0.0 <= p <= 1.0 && w >= 0.0 && q >= 0.0 && q * q == w * (p * (1.0 - p)) + w * w / 4.0
    ensures q <= p + w / 2.0
  {
    var d, e := 1.0 + w, p + w / 2.0;
    ScoreSquare(p, w, q, 0.0);
    SquareTimes(p, d);
    assert e * e - q * q == p * p * d;
    SquareAtLeast(e, q);
  }

  lemma ScoreAtOne(p: real, w: real, q: real)
    requires 0.0 <= p <= 1.0 && w >= 0.0 && q >= 0.0 && q * q == w * (p * (1.0 - p)) + w * w / 4.0
    ensures q <= (1.0 + w) - (p + w / 2.0)
  {
    var d, e := 1.0 + w, p + w / 2.0;
    ScoreSquare(p, w, q, 1.0);
    SquareTimes(1.0 - p, d);
    assert (1.0 - p) * (1.0 - p) == (p - 1.0) * (p - 1.0);
    assert (d - e) * (d - e) - q * q == (1.0 - p) * (1.0 - p) * d;
    SquareAtLeast(d - e, q);
  }

  lemma UnitEnds(e: real, q: real, d: real)
    requires d > 0.0 && q <= e && q <= d - e
    ensures e / d - q / d >= 0.0 && e / d + q / d <= 1.0
  {
    NonNegativeShare(e - q, d);
    NonNegativeShare(d - e - q, d);
    SumShare(e - q, q, d);
    SumShare(d - e - q, e + q, d);
    SumShare(e, q, d);
    assert d / d == 1.0;
  }

  lemma SumShare(a: real, b: real, d: real)
    requires d > 0.0
    ensures a / d + b / d == (a + b) / d
  {
  }

  lemma SquareAtLeast(a: real, h: real)
    requires a >= 0.0 && h >= 0.0 && a * a >= h * h
    ensures a >= h
  {
    if a < h { SquareLess(a, h); }
  }
}
