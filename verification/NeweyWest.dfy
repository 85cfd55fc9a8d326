/**
 * The Newey-West long-run variance with Bartlett weights (signald/validation/stats.py).
 *
 * The loop adds weighted autocovariances, some of them negative. What makes it a variance is that
 * the total is a scaled sum of squared window sums of the zero-padded residuals.
 */
module NeweyWest {
  import opened Prelude

  // ---- finite sums -----------------------------------------------------------------------------

  function SumTo(f: int -> real, n: nat): real {
    if n == 0 then 0.0 else SumTo(f, n - 1) + f(n - 1)
  }

  lemma {:induction false} SumAdd(f: int -> real, g: int -> real, h: int -> real, n: nat)
    requires forall j :: 0 <= j < n ==> h(j) == f(j) + g(j)
    ensures SumTo(h, n) == SumTo(f, n) + SumTo(g, n)
  {
    if n > 0 { SumAdd(f, g, h, n - 1); }
  }

  lemma {:induction false} SumZero(f: int -> real, n: nat)
    requires forall j :: 0 <= j < n ==> f(j) == 0.0
    ensures SumTo(f, n) == 0.0
  {
    if n > 0 { SumZero(f, n - 1); }
  }

  lemma {:induction false} SumNonNegative(f: int -> real, n: nat)
    requires forall j :: 0 <= j < n ==> f(j) >= 0.0
    ensures SumTo(f, n) >= 0.0
    ensures SumTo(f, n) == 0.0 ==> forall j :: 0 <= j < n ==> f(j) == 0.0
  {
    if n > 0 { SumNonNegative(f, n - 1); }
  }

  // ---- zero-padded residuals, windows and autocovariances --------------------------------------

  function At(x: seq<real>, j: int): real {
    if 0 <= j < |x| then x[j] else 0.0
  }

  function Product(x: seq<real>, i: int, j: int): (p: real)
    ensures At(x, i) == 0.0 || At(x, j) == 0.0 ==> p == 0.0
  {
    At(x, i) * At(x, j)
  }

  /** The sum of the `len` values ending at `j`. */
  function Window(x: seq<real>, len: nat, j: int): real {
    if len == 0 then 0.0 else Window(x, len - 1, j) + At(x, j - (len - 1))
  }

  function Mul(a: real, b: real): real {
    a * b
  }

  function Square(a: real): real {
    Mul(a, a)
  }

  lemma SameSign(a: real, b: real)
    ensures a > 0.0 && b > 0.0 ==> Mul(a, b) > 0.0
    ensures a < 0.0 && b < 0.0 ==> Mul(a, b) > 0.0
    ensures a == 0.0 || b == 0.0 ==> Mul(a, b) == 0.0
  {
  }

  lemma SquareSign(a: real)
    ensures Square(a) >= 0.0
    ensures Square(a) == 0.0 <==> a == 0.0
  {
    SameSign(a, a);
  }

  // The summands, named so that every sum over them is over the same function.

  function CorrTerm(x: seq<real>, k: int): int -> real {
    j => Product(x, j, j - k)
  }

  function ShiftedTerm(x: seq<real>, m: int, k: int): int -> real {
    j => Product(x, j - m, j - m - k)
  }

  function EnergyTerm(x: seq<real>, len: nat): int -> real {
    j => Square(Window(x, len, j))
  }

  function CrossTerm(x: seq<real>, p: nat, len: nat): int -> real {
    j => Window(x, p, j) * At(x, j - len)
  }

  /** The unscaled lag-`k` autocovariance over the first `n` positions. */
  function Corr(x: seq<real>, k: int, n: nat): real {
    SumTo(CorrTerm(x, k), n)
  }

  /** The squared window sums over `n` positions. */
  function Energy(x: seq<real>, len: nat, n: nat): real {
    SumTo(EnergyTerm(x, len), n)
  }

  /** Positions past the end of the series add nothing to an autocovariance. */
  lemma {:induction false} CorrSettles(x: seq<real>, k: int, n: nat)
    requires n >= |x|
    ensures Corr(x, k, n) == Corr(x, k, |x|)
  {
    if n > |x| {
      CorrSettles(x, k, n - 1);
      assert Product(x, n - 1, n - 1 - k) == 0.0;
    }
  }

  /** Shifting both factors shifts the sum: the padding supplies the zeros. */
  lemma {:induction false} Shift(x: seq<real>, m: nat, k: int, n: nat)
    requires n >= m && k >= 0
    ensures SumTo(ShiftedTerm(x, m, k), n) == Corr(x, k, n - m)
  {
    if n == m {
      forall j | 0 <= j < n ensures ShiftedTerm(x, m, k)(j) == 0.0 { assert Product(x, j - m, j - m - k) == 0.0; }
      SumZero(ShiftedTerm(x, m, k), n);
    } else {
      Shift(x, m, k, n - 1);
      assert ShiftedTerm(x, m, k)(n - 1) == CorrTerm(x, k)(n - m - 1);
    }
  }

  /** `sum over k in 1..m of Corr(k)`. */
  function CorrSum(x: seq<real>, m: nat): real {
    if m == 0 then 0.0 else CorrSum(x, m - 1) + Corr(x, m, |x|)
  }

  /** The window's first `p` values against the value `len` back: a run of autocovariances. */
  lemma {:induction false} CrossPartial(x: seq<real>, p: nat, len: nat, n: nat)
    requires p <= len && n >= |x| + len
    ensures SumTo(CrossTerm(x, p, len), n) == CorrSum(x, len) - CorrSum(x, len - p)
  {
    if p == 0 {
      SumZero(CrossTerm(x, 0, len), n);
    } else {
      var q := p - 1;
      CrossPartial(x, q, len, n);
      forall j | 0 <= j < n
        ensures CrossTerm(x, p, len)(j) == CrossTerm(x, q, len)(j) + ShiftedTerm(x, q, len - q)(j)
      {
        Distribute(Window(x, q, j), At(x, j - q), At(x, j - len));
        assert ShiftedTerm(x, q, len - q)(j) == Product(x, j - q, j - len);
      }
      SumAdd(CrossTerm(x, q, len), ShiftedTerm(x, q, len - q), CrossTerm(x, p, len), n);
      Shift(x, q, len - q, n);
      CorrSettles(x, len - q, n - q);
    }
  }

  lemma Distribute(a: real, b: real, c: real)
    ensures (a + b) * c == a * c + b * c
  {
  }

  lemma SquareOfSum(a: real, b: real)
    ensures Square(a + b) == Square(a) + a * b + a * b + b * b
  {
  }

  lemma EnergyPoint(x: seq<real>, len: nat, j: int)
    ensures EnergyTerm(x, len + 1)(j)
         == EnergyTerm(x, len)(j) + CrossTerm(x, len, len)(j) + CrossTerm(x, len, len)(j) + ShiftedTerm(x, len, 0)(j)
  {
    SquareOfSum(Window(x, len, j), At(x, j - len));
    assert Product(x, j - len, j - len - 0) == At(x, j - len) * At(x, j - len);
  }

  /** Widening the windows by one adds the zero-lag sum and twice every autocovariance up to `len`. */
  lemma EnergyStep(x: seq<real>, len: nat, n: nat)
    requires n >= |x| + len
    ensures Energy(x, len + 1, n) == Energy(x, len, n) + 2.0 * CorrSum(x, len) + Corr(x, 0, |x|)
  {
    var a, b, c := EnergyTerm(x, len), CrossTerm(x, len, len), ShiftedTerm(x, len, 0);
    var ab, abb := (j: int) => a(j) + b(j), (j: int) => a(j) + b(j) + b(j);
    forall j | 0 <= j < n ensures EnergyTerm(x, len + 1)(j) == abb(j) + c(j) {
      EnergyPoint(x, len, j);
    }
    SumAdd(a, b, ab, n);
    SumAdd(ab, b, abb, n);
    SumAdd(abb, c, EnergyTerm(x, len + 1), n);
    CrossPartial(x, len, len, n);
    Shift(x, len, 0, n);
    CorrSettles(x, 0, n - len);
  }

  /** `sum over k in 1..m of (len - k) * Corr(k)`: the Bartlett sum with its weights cleared. */
  function BartlettSum(x: seq<real>, len: int, m: nat): real {
    if m == 0 then 0.0 else BartlettSum(x, len, m - 1) + Copies(len - m, Corr(x, m, |x|))
  }

  lemma {:induction false} BartlettStep(x: seq<real>, len: int, m: nat)
    ensures BartlettSum(x, len + 1, m) == BartlettSum(x, len, m) + CorrSum(x, m)
  {
    if m > 0 {
      BartlettStep(x, len, m - 1);
      CopiesNext(len - m, Corr(x, m, |x|));
    }
  }

  /** The last weight is zero. */
  lemma BartlettLast(x: seq<real>, len: nat)
    requires len >= 1
    ensures BartlettSum(x, len, len) == BartlettSum(x, len, len - 1)
  {
    CopiesNext(0, Corr(x, len, |x|));
  }

  /** The identity behind the positivity: window energy is the weighted sum of autocovariances. */
  lemma {:induction false} EnergyIsBartlett(x: seq<real>, len: nat, n: nat)
    requires n >= |x| + len
    ensures Energy(x, len, n) == Copies(len, Corr(x, 0, |x|)) + 2.0 * BartlettSum(x, len, len)
  {
    if len == 0 {
      SumZero(EnergyTerm(x, 0), n);
      CopiesNext(0, Corr(x, 0, |x|));
    } else {
      EnergyIsBartlett(x, len - 1, n);
      EnergyStep(x, len - 1, n);
      BartlettStep(x, len - 1, len - 1);
      CopiesNext(len - 1, Corr(x, 0, |x|));
      BartlettLast(x, len);
    }
  }

  // ---- the loop ----------------------------------------------------------------------------------

  /** One round's contribution: Bartlett weight times scaled autocovariance, twice. */
  function Contribution(c: real, m: nat, lags: nat, n: nat): real
    requires n > 0
  {
    2.0 * (1.0 - m as real / (lags + 1) as real) * (c / n as real)
  }

  /** The long-run variance after the first `m` of `lags` weighted autocovariances. */
  function LongRun(x: seq<real>, lags: nat, m: nat): real
    requires |x| > 0
  {
    if m == 0 then Corr(x, 0, |x|) / |x| as real
    else LongRun(x, lags, m - 1) + Contribution(Corr(x, m, |x|), m, lags, |x|)
  }

  /** What clears the denominators. */
  function Scale(n: nat, lags: nat): real {
    n as real * (lags + 1) as real
  }

  /** `a` times the scale. */
  function Scaled(a: real, n: nat, lags: nat): real {
    a * Scale(n, lags)
  }

  lemma ScaledAdd(a: real, b: real, n: nat, lags: nat)
    ensures Scaled(a + b, n, lags) == Scaled(a, n, lags) + Scaled(b, n, lags)
  {
    Distribute(a, b, Scale(n, lags));
  }

  lemma ScaledContribution(c: real, m: nat, lags: nat, n: nat)
    requires n > 0
    ensures Scaled(Contribution(c, m, lags, n), n, lags) == 2.0 * Copies(lags + 1 - m, c)
  {
    var l, r, w, d := (lags + 1) as real, n as real, m as real / (lags + 1) as real, c / n as real;
    assert w * l == m as real && d * r == c;
    assert (1.0 - w) * l == (lags + 1 - m) as real;
    assert 2.0 * (1.0 - w) * d * (r * l) == 2.0 * (((1.0 - w) * l) * (d * r));
  }

  lemma ScaledVariance(c: real, lags: nat, n: nat)
    requires n > 0
    ensures Scaled(c / n as real, n, lags) == Copies(lags + 1, c)
  {
    var d := c / n as real;
    assert d * n as real == c;
  }

  lemma {:induction false} LongRunScaled(x: seq<real>, lags: nat, m: nat)
    requires |x| > 0
    ensures Scaled(LongRun(x, lags, m), |x|, lags)
         == Copies(lags + 1, Corr(x, 0, |x|)) + 2.0 * BartlettSum(x, lags + 1, m)
  {
    var n := |x|;
    if m == 0 {
      ScaledVariance(Corr(x, 0, n), lags, n);
    } else {
      LongRunScaled(x, lags, m - 1);
      var c := Corr(x, m, n);
      ScaledAdd(LongRun(x, lags, m - 1), Contribution(c, m, lags, n), n, lags);
      ScaledContribution(c, m, lags, n);
    }
  }

  /**
   * The long-run variance is the window energy divided by `n * (lags + 1)`, for every residual
   * series and every lag count; so it is never negative.
   */
  lemma LongRunIsEnergy(x: seq<real>, lags: nat)
    requires |x| > 0
    ensures Scaled(LongRun(x, lags, lags), |x|, lags) == Energy(x, lags + 1, |x| + lags + 1)
    ensures LongRun(x, lags, lags) >= 0.0
    ensures LongRun(x, lags, lags) == 0.0 <==> Energy(x, lags + 1, |x| + lags + 1) == 0.0
  {
    var n := |x| + lags + 1;
    LongRunScaled(x, lags, lags);
    EnergyIsBartlett(x, lags + 1, n);
    BartlettLast(x, lags + 1);
    EnergyNonNegative(x, lags + 1, n);
    ScaledSign(LongRun(x, lags, lags), |x|, lags, Energy(x, lags + 1, n));
  }

  lemma EnergyNonNegative(x: seq<real>, len: nat, n: nat)
    ensures Energy(x, len, n) >= 0.0
  {
    forall j | 0 <= j < n ensures EnergyTerm(x, len)(j) >= 0.0 { SquareSign(Window(x, len, j)); }
    SumNonNegative(EnergyTerm(x, len), n);
  }

  lemma ScaledSign(a: real, n: nat, lags: nat, e: real)
    requires n > 0 && Scaled(a, n, lags) == e && e >= 0.0
    ensures a >= 0.0 && (a == 0.0 <==> e == 0.0)
  {
    SignOfProduct(a, Scale(n, lags));
  }

  lemma SignOfProduct(a: real, s: real)
    requires s > 0.0
    ensures a > 0.0 ==> a * s > 0.0
    ensures a < 0.0 ==> a * s < 0.0
  {
  }

  /** No energy means no residual: each window ends on a value whose predecessors vanish. */
  lemma {:induction false} NoEnergyNoResidual(x: seq<real>, len: nat, j: int)
    requires len >= 1 && Energy(x, len, |x| + len) == 0.0
    ensures At(x, j) == 0.0
    decreases if j < 0 then 0 else j
  {
    if 0 <= j < |x| {
      forall i | 0 <= i < |x| + len ensures EnergyTerm(x, len)(i) >= 0.0 { SquareSign(Window(x, len, i)); }
      SumNonNegative(EnergyTerm(x, len), |x| + len);
      assert EnergyTerm(x, len)(j) == 0.0;
      SquareSign(Window(x, len, j));
      forall i | i < j ensures At(x, i) == 0.0 { if i >= 0 { NoEnergyNoResidual(x, len, i); } }
      WindowOfZeros(x, len, j);
    }
  }

  lemma {:induction false} WindowOfZeros(x: seq<real>, len: nat, j: int)
    requires len >= 1 && forall i :: i < j ==> At(x, i) == 0.0
    ensures Window(x, len, j) == At(x, j)
  {
    if len > 1 { WindowOfZeros(x, len - 1, j); }
  }

  lemma {:induction false} ZeroWindows(x: seq<real>, len: nat, j: int)
    requires forall i :: At(x, i) == 0.0
    ensures Window(x, len, j) == 0.0
  {
    if len > 0 { ZeroWindows(x, len - 1, j); }
  }

  function Mean(v: seq<real>): real
    requires |v| > 0
  {
    Sum(v) / |v| as real
  }

  function Residuals(v: seq<real>): (r: seq<real>)
    requires |v| > 0
    ensures |r| == |v|
  {
    seq(|v|, i requires 0 <= i < |v| => v[i] - Mean(v))
  }

  predicate Constant(v: seq<real>) {
    forall i, j :: 0 <= i < |v| && 0 <= j < |v| ==> v[i] == v[j]
  }

  lemma {:induction false} SumOfEqual(v: seq<real>, c: real)
    requires forall i :: 0 <= i < |v| ==> v[i] == c
    ensures Sum(v) == |v| as real * c
  {
    if v != [] { SumOfEqual(v[..|v| - 1], c); }
  }

  lemma ConstantIsZeroResidual(v: seq<real>)
    requires |v| > 0
    ensures Constant(v) <==> forall i :: 0 <= i < |v| ==> Residuals(v)[i] == 0.0
  {
    var r := Residuals(v);
    assert forall i :: 0 <= i < |v| ==> r[i] == v[i] - Mean(v);
    if Constant(v) {
      SumOfEqual(v, v[0]);
      MeanOfEqual(|v| as real, v[0], Sum(v));
    }
  }

  lemma MeanOfEqual(n: real, c: real, s: real)
    requires n > 0.0 && s == n * c
    ensures s / n == c
  {
    assert (s / n - c) * n == 0.0;
  }

  /** The variance vanishes exactly on constant series, for every lag count. */
  lemma VarianceVanishesExactlyOnConstants(v: seq<real>, lags: nat)
    requires |v| > 0
    ensures LongRun(Residuals(v), lags, lags) >= 0.0
    ensures LongRun(Residuals(v), lags, lags) == 0.0 <==> Constant(v)
  {
    var x := Residuals(v);
    LongRunIsEnergy(x, lags);
    ConstantIsZeroResidual(v);
    if LongRun(x, lags, lags) == 0.0 {
      forall i | 0 <= i < |v| ensures x[i] == 0.0 { NoEnergyNoResidual(x, lags + 1, i); }
    }
    if Constant(v) {
      var f := EnergyTerm(x, lags + 1);
      forall j | 0 <= j < |x| + lags + 1 ensures f(j) == 0.0 {
        ZeroWindows(x, lags + 1, j);
        SquareSign(Window(x, lags + 1, j));
      }
      SumZero(f, |x| + lags + 1);
    }
  }

  /** The statistic: an error, the guarded zero, or a value over its positive variance. */
  datatype TStat = Error | Zero | Ratio(value: real, varianceOfMean: real)

  /** The accumulation loop. */
  method Accumulate(resid: seq<real>, lags: nat) returns (longRun: real)
    requires |resid| > 0
    ensures longRun == LongRun(resid, lags, lags)
  {
    var n := |resid|;
    longRun := Corr(resid, 0, n) / n as real;
    for k := 1 to lags + 1
      invariant longRun == LongRun(resid, lags, k - 1)
    {
      var gamma := Autocovariance(resid, k);
      var weight := 1.0 - k as real / (lags + 1) as real;
      longRun := longRun + 2.0 * weight * (gamma / n as real);
    }
  }

  method Autocovariance(resid: seq<real>, k: nat) returns (gamma: real)
    ensures gamma == Corr(resid, k, |resid|)
  {
    gamma := 0.0;
    PaddingOnly(resid, k);
    if k >= |resid| {
      PastTheEnd(resid, k);
      return;
    }
    for i := k to |resid|
      invariant gamma == Corr(resid, k, i)
    {
      assert Product(resid, i, i - k) == resid[i] * resid[i - k];
      gamma := gamma + resid[i] * resid[i - k];
    }
  }

  lemma PastTheEnd(x: seq<real>, k: nat)
    requires k >= |x|
    ensures Corr(x, k, |x|) == 0.0
  {
    CorrSettles(x, k, k);
    PaddingOnly(x, k);
  }

  function Power(k: int, e: nat): int {
    if e == 0 then 1 else k * Power(k, e - 1)
  }

  /** `k <= 4 * (n / 100) ** (2 / 9)`, cleared of its roots: `k ** 9 * 100 ** 2 <= 4 ** 9 * n ** 2`. */
  predicate WithinRule(k: int, n: nat) {
    Power(k, 9) * 10000 <= 262144 * Power(n, 2)
  }

  /** The rule-of-thumb lag count among 0 to `most`. */
  function RuleLags(n: nat, most: nat): (k: nat)
    ensures k <= most && WithinRule(k, n)
    ensures forall j :: k < j <= most ==> !WithinRule(j, n)
  {
    assert Power(0, 9) == 0 && Power(n, 2) == n * Power(n, 1) == n * n >= 0;
    if most == 0 || WithinRule(most, n) then most else RuleLags(n, most - 1)
  }

  lemma {:induction false} PowerMono(j: int, k: int, e: nat)
    requires 0 <= j <= k
    ensures 0 <= Power(j, e) <= Power(k, e)
  {
    if e > 0 {
      PowerMono(j, k, e - 1);
      TimesMono(j, k, Power(j, e - 1), Power(k, e - 1));
    }
  }

  lemma TimesMono(a: int, b: int, x: int, y: int)
    requires 0 <= a <= b && 0 <= x <= y
    ensures 0 <= a * x <= b * y
  {
    assert 0 <= a * x && a * (y - x) >= 0 && (b - a) * y >= 0;
  }

  /** The rule of thumb, cut to the length: every smaller lag count is within the rule, no larger one is. */
  lemma RuleLagsIsTheRule(n: nat, most: nat, j: nat)
    requires j <= most
    ensures WithinRule(j, n) <==> j <= RuleLags(n, most)
  {
    if j <= RuleLags(n, most) { PowerMono(j, RuleLags(n, most), 9); }
  }

  ghost predicate IsRoot(root: real -> real) {
    forall x: real :: x >= 0.0 ==> root(x) >= 0.0 && root(x) * root(x) == x
  }

  /** The lag count used: the one asked for, or the rule of thumb, at most one less than the length. */
  function LagsFor(n: nat, lags: Option<int>): int
    requires n > 0
  {
    match lags
    case Some(l) => IMin(l, n - 1)
    case None => RuleLags(n, n - 1)
  }

  function PowerOf(x: real, e: nat): real {
    if e == 0 then 1.0 else Mul(x, PowerOf(x, e - 1))
  }

  lemma {:induction false} PowerOfInt(k: int, e: nat)
    ensures PowerOf(k as real, e) == Power(k, e) as real
  {
    if e > 0 {
      PowerOfInt(k, e - 1);
      assert (k * Power(k, e - 1)) as real == k as real * Power(k, e - 1) as real;
    }
  }

  lemma MulShuffle(x: real, y: real, p: real, q: real)
    ensures Mul(Mul(x, y), Mul(p, q)) == Mul(Mul(x, p), Mul(y, q))
  {
    assert (x * y) * (p * q) == (x * p) * (y * q);
  }

  lemma {:induction false} PowerOfTimes(x: real, y: real, e: nat)
    ensures PowerOf(Mul(x, y), e) == Mul(PowerOf(x, e), PowerOf(y, e))
  {
    if e > 0 {
      PowerOfTimes(x, y, e - 1);
      MulShuffle(x, y, PowerOf(x, e - 1), PowerOf(y, e - 1));
    }
  }

  lemma MulGrows(x: real, y: real, p: real, q: real)
    requires 0.0 <= x < y && 0.0 <= p <= q && q > 0.0
    ensures 0.0 <= Mul(x, p) < Mul(y, q)
  {
    MulMono(p, q, x);
    MulMono(0.0, p, x);
    MulPositive(y - x, q);
    assert y * q - x * q == (y - x) * q;
  }

  lemma {:induction false} PowerOfGrows(x: real, y: real, e: nat)
    requires 0.0 <= x < y
    ensures 0.0 <= PowerOf(x, e) <= PowerOf(y, e) && PowerOf(y, e) > 0.0
    ensures e > 0 ==> PowerOf(x, e) < PowerOf(y, e)
  {
    if e > 0 {
      PowerOfGrows(x, y, e - 1);
      MulGrows(x, y, PowerOf(x, e - 1), PowerOf(y, e - 1));
    }
  }

  lemma FourToTheNinth()
    ensures PowerOf(4.0, 9) == 262144.0
  {
    assert PowerOf(4.0, 3) == 64.0;
    assert PowerOf(4.0, 6) == 4096.0;
  }

  /** The rule with its roots cleared, over plain powers. */
  lemma ClearedRule(k: nat, n: nat, y9: real)
    requires y9 == (n as real / 100.0) * (n as real / 100.0)
    ensures WithinRule(k, n) <==> PowerOf(k as real, 9) <= 262144.0 * y9
  {
    PowerOfInt(k, 9);
    assert Power(n, 2) == n * Power(n, 1) == n * n;
    assert y9 * 10000.0 == (n * n) as real;
  }

  /** The rule without its roots is the rule: `y` is the ninth root of the square of a hundredth of the length. */
  lemma RuleOfThumb(k: nat, n: nat, y: real)
    requires y >= 0.0 && PowerOf(y, 9) == (n as real / 100.0) * (n as real / 100.0)
    ensures WithinRule(k, n) <==> k as real <= 4.0 * y
  {
    var x, bound := k as real, Mul(4.0, y);
    ClearedRule(k, n, PowerOf(y, 9));
    PowerOfTimes(4.0, y, 9);
    FourToTheNinth();
    if x < bound { PowerOfGrows(x, bound, 9); }
    if bound < x { PowerOfGrows(bound, x, 9); }
  }

  /** The lags asked for are used as they are, up to one less than the length. */
  lemma LagsAreCut(n: nat, l: int)
    requires n > 0
    ensures LagsFor(n, Some(l)) == l || (l > n - 1 && LagsFor(n, Some(l)) == n - 1)
    ensures l <= n - 1 ==> LagsFor(n, Some(l)) == l
  {
  }

  /** The variance of the mean at a lag count: the scaled energy, and zero exactly on constant series. */
  method VarianceOfMean(values: seq<real>, l: nat) returns (v: real)
    requires values != []
    ensures v <= 0.0 <==> Constant(values)
    ensures Scaled(v * |values| as real, |values|, l) == Energy(Residuals(values), l + 1, |values| + l + 1)
  {
    var n, resid := |values|, Residuals(values);
    var longRun := Accumulate(resid, l);
    v := longRun / n as real;
    VarianceVanishesExactlyOnConstants(values, l);
    LongRunIsEnergy(resid, l);
    VarianceSign(longRun, n as real);
  }

  /** The statistic of a mean and its variance: the right square, and the sign of the mean. */
  ghost predicate Studentised(t: real, mean: real, v: real) {
    && v > 0.0 && Squared(t, v) == mean * mean
    && (t > 0.0 <==> mean > 0.0) && (t < 0.0 <==> mean < 0.0)
  }

  /**
   * `newey_west_t` under a square root. The `<= 0` guard fires exactly on constant series; elsewhere
   * the statistic has the sign of the mean and its square is the squared mean over the variance.
   */
  method NeweyWestT(values: seq<real>, lags: Option<int>, root: real -> real) returns (t: TStat)
    requires IsRoot(root)
    ensures t.Error? <==> values == [] || (lags.Some? && lags.value < 0)
    ensures t.Zero? <==> !t.Error? && Constant(values)
    ensures t.Ratio? ==>
      && Studentised(t.value, Mean(values), t.varianceOfMean)
      && var n, l := |values|, LagsFor(|values|, lags);
         Scaled(t.varianceOfMean * n as real, n, l) == Energy(Residuals(values), l + 1, n + l + 1)
  {
    var n := |values|;
    if n == 0 || (lags.Some? && lags.value < 0) { return Error; }
    var l := LagsFor(n, lags);
    var v := VarianceOfMean(values, l);
    if v <= 0.0 { return Zero; }
    var mean := Mean(values);
    StatOf(root, mean, v);
    t := Ratio(mean / root(v), v);
  }

  function Squared(t: real, v: real): real {
    t * t * v
  }

  lemma StatOf(root: real -> real, mean: real, v: real)
    requires IsRoot(root) && v > 0.0
    ensures root(v) > 0.0 && Studentised(mean / root(v), mean, v)
  {
    QuotientSquared(mean, root(v), v);
  }

  lemma QuotientSquared(mean: real, r: real, v: real)
    requires r >= 0.0 && r * r == v && v > 0.0
    ensures r > 0.0 && Studentised(mean / r, mean, v)
  {
    var t := mean / r;
    DivLe(0.0, mean, r);
    assert t * r == mean;
    assert t * t * (r * r) == (t * r) * (t * r);
  }

  lemma VarianceSign(longRun: real, n: real)
    requires n > 0.0 && longRun >= 0.0
    ensures longRun / n <= 0.0 <==> longRun == 0.0
    ensures longRun / n * n == longRun
  {
    DivLe(0.0, longRun, n);
  }

  /** Below its lag an autocovariance only meets padding. */
  lemma PaddingOnly(x: seq<real>, k: nat)
    ensures Corr(x, k, k) == 0.0
  {
    forall j | 0 <= j < k ensures CorrTerm(x, k)(j) == 0.0 { assert Product(x, j, j - k) == 0.0; }
    SumZero(CorrTerm(x, k), k);
  }
}
