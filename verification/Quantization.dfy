/** Symmetric int8 quantization of a linear model over the real numbers, with the
    integer sums taken exactly as the runtime takes them. */
module Quantization {
  import opened Int8Dot

  const LEAST_SCALE: real := 0.000000000001

  function Abs(x: real): (r: real)
    ensures r >= 0.0 && (r == x || r == -x)
  {
    if x < 0.0 then -x else x
  }

  /** Half to even, as numpy.rint. */
  function Rint(x: real): int {
    var n := x.Floor;
    var rest := x - n as real;
    if rest < 0.5 then n
    else if rest > 0.5 then n + 1
    else if n % 2 == 0 then n
    else n + 1
  }

  function Clip(n: int): (r: int)
    ensures -127 <= r <= 127
  {
    if n < -127 then -127 else if n > 127 then 127 else n
  }

  function MaxAbs(row: seq<real>): (r: real)
    ensures r >= 0.0
  {
    if row == [] then 0.0
    else
      var later := MaxAbs(row[1..]);
      if Abs(row[0]) > later then Abs(row[0]) else later
  }

  /** One scale per row: the largest magnitude becomes 127. */
  function Scale(row: seq<real>): (s: real)
    ensures s > 0.0
  {
    var s := MaxAbs(row) / 127.0;
    if s < LEAST_SCALE then LEAST_SCALE else s
  }

  function Level(v: real, s: real): (q: int)
    requires s > 0.0
    ensures -127 <= q <= 127
  {
    Clip(Rint(v / s))
  }

  /** The real number a level, or a sum of products of levels, stands for. */
  function Dequantized(q: int, s: real): real {
    q as real * s
  }

  /** The scale of a product of an input level and a weight level. */
  function OutputScale(xs: real, s: real): real {
    xs * s
  }

  function Levels(row: seq<real>, s: real): (q: seq<int>)
    requires s > 0.0
    ensures |q| == |row| && forall j | 0 <= j < |row| :: q[j] == Level(row[j], s)
  {
    seq(|row|, j requires 0 <= j < |row| => Level(row[j], s))
  }

  // ---------------------------------------------------------------- rounding and clipping

  lemma RintError(x: real)
    ensures Abs(Rint(x) as real - x) <= 0.5
  {
  }

  lemma RintWithin(x: real)
    requires -127.0 <= x <= 127.0
    ensures -127 <= Rint(x) <= 127
  {
  }

  lemma {:induction false} MaxAbsBounds(row: seq<real>, j: nat)
    requires j < |row|
    ensures Abs(row[j]) <= MaxAbs(row)
  {
    if j > 0 {
      MaxAbsBounds(row[1..], j - 1);
    }
  }

  lemma DivideWithin(v: real, s: real, n: real)
    requires s > 0.0 && Abs(v) <= n * s
    ensures -n <= v / s <= n
  {
    var q := v / s;
    assert q * s == v;
    if q > n {
      Increase(n, q, s);
    }
    if q < -n {
      Increase(q, -n, s);
    }
  }

  lemma Increase(a: real, b: real, s: real)
    requires a < b && s > 0.0
    ensures a * s < b * s
  {
    assert (b - a) * s > 0.0;
  }

  /** The scale is large enough that no value is ever clipped. */
  lemma NeverClips(row: seq<real>, j: nat)
    requires j < |row|
    ensures -127 <= Rint(row[j] / Scale(row)) <= 127
    ensures Level(row[j], Scale(row)) == Rint(row[j] / Scale(row))
  {
    MaxAbsBounds(row, j);
    DivideWithin(row[j], Scale(row), 127.0);
    RintWithin(row[j] / Scale(row));
  }

  lemma ScaleBack(q: real, v: real, s: real)
    requires s > 0.0 && Abs(q - v / s) <= 0.5
    ensures Abs(q * s - v) <= s / 2.0
  {
    var e := q - v / s;
    assert v / s * s == v;
    assert q * s - v == e * s;
    assert -0.5 * s <= e * s <= 0.5 * s;
  }

  /** A stored level stands for its value within half a scale. */
  lemma LevelError(row: seq<real>, j: nat)
    requires j < |row|
    ensures Abs(Dequantized(Level(row[j], Scale(row)), Scale(row)) - row[j]) <= Scale(row) / 2.0
  {
    hide Scale, Rint, Level;
    NeverClips(row, j);
    RintError(row[j] / Scale(row));
    ScaleBack(Level(row[j], Scale(row)) as real, row[j], Scale(row));
  }

  // ---------------------------------------------------------------- the error of a logit

  function Times(x: real, w: real): real {
    x * w
  }

  function RealDot(x: seq<real>, w: seq<real>): real
    requires |x| == |w|
  {
    if x == [] then 0.0 else RealDot(x[..|x| - 1], w[..|w| - 1]) + Times(x[|x| - 1], w[|w| - 1])
  }

  function TermBound(x: real, w: real, xs: real, s: real): real {
    Abs(x) * s / 2.0 + Abs(w) * xs / 2.0 + xs * s / 4.0
  }

  /** Summed over the inputs: |x|*s/2 + |w|*xs/2 + xs*s/4. */
  function ErrorBound(x: seq<real>, w: seq<real>, xs: real, s: real): (r: real)
    requires |x| == |w|
  {
    if x == [] then 0.0
    else
      var n := |x| - 1;
      ErrorBound(x[..n], w[..n], xs, s) + TermBound(x[n], w[n], xs, s)
  }

  lemma Monotone(u: real, p: real, v: real)
    requires u <= p && v >= 0.0
    ensures u * v <= p * v
  {
  }

  lemma AbsOfProduct(a: real, b: real)
    ensures Abs(a * b) == Abs(a) * Abs(b)
  {
  }

  lemma AbsProduct(a: real, b: real, p: real, q: real)
    requires Abs(a) <= p && Abs(b) <= q
    ensures Abs(a * b) <= p * q
  {
    hide Abs;
    AbsOfProduct(a, b);
    Monotone(Abs(a), p, Abs(b));
    Monotone(Abs(b), q, p);
  }

  lemma Expand(x: real, w: real, e: real, f: real)
    ensures (x + e) * (w + f) - x * w == x * f + w * e + e * f
  {
  }

  lemma Halves(m: real, s: real)
    ensures m * (s / 2.0) == m * s / 2.0
  {
  }

  lemma Quarter(xs: real, s: real)
    ensures xs / 2.0 * (s / 2.0) == xs * s / 4.0
  {
  }

  lemma Triangle(d: real, p: real, q: real, r: real, a: real, b: real, c: real)
    requires d == p + q + r && Abs(p) <= a && Abs(q) <= b && Abs(r) <= c
    ensures Abs(d) <= a + b + c
  {
  }

  lemma RoundedProduct(x: real, w: real, e: real, f: real, xs: real, s: real)
    requires Abs(e) <= xs / 2.0 && Abs(f) <= s / 2.0
    ensures Abs((x + e) * (w + f) - x * w) <= Abs(x) * s / 2.0 + Abs(w) * xs / 2.0 + xs * s / 4.0
  {
    hide Abs;
    Expand(x, w, e, f);
    AbsProduct(x, f, Abs(x), s / 2.0);
    AbsProduct(w, e, Abs(w), xs / 2.0);
    AbsProduct(e, f, xs / 2.0, s / 2.0);
    Halves(Abs(x), s);
    Halves(Abs(w), xs);
    Quarter(xs, s);
    Triangle((x + e) * (w + f) - x * w, x * f, w * e, e * f,
             Abs(x) * s / 2.0, Abs(w) * xs / 2.0, xs * s / 4.0);
  }

  /** One product of two rounded factors. */
  lemma TermError(x: real, w: real, e: real, f: real, xs: real, s: real)
    requires Abs(e) <= xs / 2.0 && Abs(f) <= s / 2.0
    ensures Abs(Times(x + e, w + f) - Times(x, w)) <= TermBound(x, w, xs, s)
  {
    hide Abs;
    RoundedProduct(x, w, e, f, xs, s);
  }

  lemma Products(p: real, q: real, xs: real, s: real)
    ensures (p * q) * (xs * s) == (p * xs) * (q * s)
  {
  }

  lemma Regroup(m: int, n: int, xs: real, s: real)
    ensures Dequantized(m * n, OutputScale(xs, s)) == Times(Dequantized(m, xs), Dequantized(n, s))
  {
    assert (m * n) as real == m as real * n as real;
    Products(m as real, n as real, xs, s);
  }

  lemma SplitSum(d: int, t: int, k: real)
    ensures Dequantized(d + t, k) == Dequantized(d, k) + Dequantized(t, k)
    ensures Dequantized(0, k) == 0.0
  {
  }

  lemma FactorsError(a: real, x: real, b: real, w: real, xs: real, s: real)
    requires Abs(a - x) <= xs / 2.0 && Abs(b - w) <= s / 2.0
    ensures Abs(Times(a, b) - Times(x, w)) <= TermBound(x, w, xs, s)
  {
    hide Abs, TermBound, Times;
    TermError(x, w, a - x, b - w, xs, s);
    assert x + (a - x) == a && w + (b - w) == b;
  }

  /** Every level within half a scale of its value. */
  predicate Rounds(q: seq<int>, v: seq<real>, s: real) {
    |q| == |v| && forall j | 0 <= j < |v| :: Abs(Dequantized(q[j], s) - v[j]) <= s / 2.0
  }

  lemma AddErrors(p: real, u: real, q: real, v: real, m: real, n: real)
    requires Abs(p - u) <= m && Abs(q - v) <= n
    ensures Abs((p + q) - (u + v)) <= m + n
  {
  }

  lemma LastTerm(m: int, n: int, x: real, w: real, xs: real, s: real)
    requires Abs(Dequantized(m, xs) - x) <= xs / 2.0 && Abs(Dequantized(n, s) - w) <= s / 2.0
    ensures Abs(Dequantized(m * n, OutputScale(xs, s)) - Times(x, w)) <= TermBound(x, w, xs, s)
  {
    hide Abs, Dequantized, Times, TermBound, OutputScale;
    Regroup(m, n, xs, s);
    FactorsError(Dequantized(m, xs), x, Dequantized(n, s), w, xs, s);
  }

  lemma {:induction false} DotError(qx: seq<int>, x: seq<real>, qw: seq<int>, w: seq<real>, xs: real, s: real)
    requires |x| == |w| && Rounds(qx, x, xs) && Rounds(qw, w, s)
    ensures Abs(Dequantized(Dot(qx, qw), OutputScale(xs, s)) - RealDot(x, w)) <= ErrorBound(x, w, xs, s)
  {
    hide Abs, Dequantized, Times, TermBound, OutputScale;
    var k := OutputScale(xs, s);
    SplitSum(0, 0, k);
    if x != [] {
      var n := |x| - 1;
      var d, t := Dot(qx[..n], qw[..n]), qx[n] * qw[n];
      DotError(qx[..n], x[..n], qw[..n], w[..n], xs, s);
      LastTerm(qx[n], qw[n], x[n], w[n], xs, s);
      SplitSum(d, t, k);
      AddErrors(Dequantized(d, k), RealDot(x[..n], w[..n]), Dequantized(t, k), Times(x[n], w[n]),
                ErrorBound(x[..n], w[..n], xs, s), TermBound(x[n], w[n], xs, s));
    } else {
      ZeroError();
    }
  }

  lemma ZeroError()
    ensures Abs(0.0 - 0.0) <= 0.0
  {
  }

  lemma LevelsRound(row: seq<real>)
    ensures Rounds(Levels(row, Scale(row)), row, Scale(row))
  {
    hide Level, Abs, Dequantized, Scale;
    var s := Scale(row);
    forall j | 0 <= j < |row| ensures Abs(Dequantized(Levels(row, s)[j], s) - row[j]) <= s / 2.0 {
      LevelError(row, j);
    }
  }

  // ---------------------------------------------------------------- the models

  function FloatLogit(x: seq<real>, w: seq<real>, b: real): real
    requires |x| == |w|
  {
    RealDot(x, w) + b
  }

  /** DynamicInt8Model.logits on a quantized row, the sum taken in the order `t`. */
  function Int8Logit(x: seq<real>, w: seq<real>, b: real, t: Sum): real
    requires |x| == |w| && Covers(t, |x|)
  {
    var xs, s := Scale(x), Scale(w);
    Dequantized(Wrapped(t, Levels(x, xs), Levels(w, s)), OutputScale(xs, s)) + b
  }

  function LogitBound(x: seq<real>, w: seq<real>): real
    requires |x| == |w|
  {
    ErrorBound(x, w, Scale(x), Scale(w))
  }

  /** For every size the dynamic model admits, every order of int32 summation is
      exact and the logit is within the bound of the unquantized one. */
  lemma Int8LogitError(x: seq<real>, w: seq<real>, b: real, t: Sum)
    requires |x| == |w| <= MAX_SAFE_INT32_DOT && SumsAll(t, |x|)
    ensures Covers(t, |x|)
    ensures Abs(Int8Logit(x, w, b, t) - FloatLogit(x, w, b)) <= LogitBound(x, w)
  {
    hide Scale, Levels, Int8Logit, RealDot, ErrorBound, SumsAll, Covers, Dequantized, Rounds, OutputScale, Abs;
    var xs, s := Scale(x), Scale(w);
    Int8LogitIsExact(x, w, b, t);
    LevelsRound(x);
    LevelsRound(w);
    DotError(Levels(x, xs), x, Levels(w, s), w, xs, s);
    var d := Dequantized(Dot(Levels(x, xs), Levels(w, s)), OutputScale(xs, s));
    assert d + b - (RealDot(x, w) + b) == d - RealDot(x, w);
  }

  lemma Int8LogitIsExact(x: seq<real>, w: seq<real>, b: real, t: Sum)
    requires |x| == |w| <= MAX_SAFE_INT32_DOT && SumsAll(t, |x|)
    ensures Covers(t, |x|)
    ensures var xs, s := Scale(x), Scale(w);
            Int8Logit(x, w, b, t) == Dequantized(Dot(Levels(x, xs), Levels(w, s)), OutputScale(xs, s)) + b
  {
    hide Scale, Level, Wrapped, Dot, SumsAll, Dequantized, OutputScale;
    SafeDotIsExact(t, Levels(x, Scale(x)), Levels(w, Scale(w)));
  }

  /** The native layer, given the same levels and scales, computes the same logit. */
  lemma NativeMatches(x: seq<Int8>, weights: seq<Int8>, output: nat, xs: real, s: real, b: real, value: real, t: Sum)
    requires RowGives(x, weights, output, xs, s, b, value) && SumsAll(t, |x|)
    ensures Covers(t, |x|) && value == Dequantized(Wrapped(t, x, Row(weights, output, |x|)), OutputScale(xs, s)) + b
  {
    hide Dot, Wrapped, SumsAll, Covers;
    NativeAgrees(t, x, Row(weights, output, |x|));
  }

  // ---------------------------------------------------------------- the predicted class

  /** numpy.argmax: the first of the largest. */
  predicate IsArgmax(v: seq<real>, k: nat) {
    && k < |v|
    && (forall j | 0 <= j < |v| :: v[j] <= v[k])
    && (forall j | 0 <= j < k :: v[j] < v[k])
  }

  lemma ArgmaxIsUnique(v: seq<real>, i: nat, k: nat)
    requires IsArgmax(v, i) && IsArgmax(v, k)
    ensures i == k
  {
    var atI, atK := v[i], v[k];
  }

  function FloatLogits(x: seq<real>, ws: seq<seq<real>>, bs: seq<real>): (r: seq<real>)
    requires |ws| == |bs| && forall k | 0 <= k < |ws| :: |ws[k]| == |x|
    ensures |r| == |ws| && forall k | 0 <= k < |ws| :: r[k] == FloatLogit(x, ws[k], bs[k])
  {
    seq(|ws|, k requires 0 <= k < |ws| => FloatLogit(x, ws[k], bs[k]))
  }

  function Int8Logits(x: seq<real>, ws: seq<seq<real>>, bs: seq<real>, t: Sum): (r: seq<real>)
    requires |ws| == |bs| && (forall k | 0 <= k < |ws| :: |ws[k]| == |x|) && Covers(t, |x|)
    ensures |r| == |ws| && forall k | 0 <= k < |ws| :: r[k] == Int8Logit(x, ws[k], bs[k], t)
  {
    seq(|ws|, k requires 0 <= k < |ws| => Int8Logit(x, ws[k], bs[k], t))
  }

  /** A class that wins the float model by more than the two rows' bounds wins the
      quantized model too. */
  lemma ArgmaxIsPreserved(x: seq<real>, ws: seq<seq<real>>, bs: seq<real>, t: Sum, i: nat)
    requires |ws| == |bs| && i < |ws| && (forall k | 0 <= k < |ws| :: |ws[k]| == |x|)
    requires |x| <= MAX_SAFE_INT32_DOT && SumsAll(t, |x|)
    requires forall k | 0 <= k < |ws| && k != i ::
               FloatLogit(x, ws[i], bs[i]) - FloatLogit(x, ws[k], bs[k]) > LogitBound(x, ws[i]) + LogitBound(x, ws[k])
    ensures Covers(t, |x|)
    ensures IsArgmax(Int8Logits(x, ws, bs, t), i)
    ensures IsArgmax(FloatLogits(x, ws, bs), i)
  {
    hide FloatLogit, Int8Logit, LogitBound, SumsAll, Covers;
    Int8LogitError(x, ws[i], bs[i], t);
    BoundIsPositive(x, ws[i]);
    forall k | 0 <= k < |ws| && k != i
      ensures Int8Logit(x, ws[k], bs[k], t) < Int8Logit(x, ws[i], bs[i], t)
      ensures FloatLogit(x, ws[k], bs[k]) < FloatLogit(x, ws[i], bs[i])
    {
      Int8LogitError(x, ws[k], bs[k], t);
      BoundIsPositive(x, ws[k]);
    }
  }

  lemma BoundIsPositive(x: seq<real>, w: seq<real>)
    requires |x| == |w|
    ensures LogitBound(x, w) >= 0.0
  {
    ErrorBoundIsPositive(x, w, Scale(x), Scale(w));
  }

  lemma {:induction false} ErrorBoundIsPositive(x: seq<real>, w: seq<real>, xs: real, s: real)
    requires |x| == |w| && xs > 0.0 && s > 0.0
    ensures ErrorBound(x, w, xs, s) >= 0.0
  {
    hide TermBound;
    if x != [] {
      var n := |x| - 1;
      ErrorBoundIsPositive(x[..n], w[..n], xs, s);
      TermBoundIsPositive(x[n], w[n], xs, s);
    }
  }

  lemma TermBoundIsPositive(x: real, w: real, xs: real, s: real)
    requires xs > 0.0 && s > 0.0
    ensures TermBound(x, w, xs, s) >= 0.0
  {
    assert Abs(x) * s >= 0.0 && Abs(w) * xs >= 0.0 && xs * s >= 0.0;
  }
}
