/** Integer dot products of int8 vectors: the wrapping 32-bit sums of numpy and the
    checked 64-bit sum of the native code. */
module Int8Dot {
  type Int8 = n: int | -128 <= n < 128

  const INT32_MAX: int := 0x7FFF_FFFF
  const INT32_MIN: int := -0x8000_0000
  const INT64_MAX: int := 0x7FFF_FFFF_FFFF_FFFF
  const INT64_MIN: int := -0x8000_0000_0000_0000
  const SIZE_MAX: int := 0xFFFF_FFFF_FFFF_FFFF

  /** The most products of magnitude 127 * 127 whose sum is sure to fit int32. */
  const MAX_SAFE_INT32_DOT: nat := 133144

  predicate Fits32(n: int) {
    INT32_MIN <= n <= INT32_MAX
  }

  /** Two's complement wrap-around. */
  function Wrap32(n: int): int {
    (n + 0x8000_0000) % 0x1_0000_0000 - 0x8000_0000
  }

  function Dot(a: seq<int>, b: seq<int>): int
    requires |a| == |b|
  {
    if a == [] then 0 else Dot(a[..|a| - 1], b[..|b| - 1]) + a[|a| - 1] * b[|b| - 1]
  }

  predicate Within(s: seq<int>, n: nat, low: int, high: int) {
    |s| == n && forall i | 0 <= i < n :: low <= s[i] <= high
  }

  // ---------------------------------------------------------------- sums in any order

  /** An order of summation: each leaf adds one product, each node two sums. */
  datatype Sum = Term(i: nat) | Plus(left: Sum, right: Sum) {
    function Leaves(): (s: seq<nat>)
      ensures |s| >= 1
    {
      match this
      case Term(i) => [i]
      case Plus(l, r) => l.Leaves() + r.Leaves()
    }
  }

  predicate Indices(s: seq<nat>, n: nat) {
    forall k | 0 <= k < |s| :: s[k] < n
  }

  predicate Covers(t: Sum, n: nat) {
    Indices(t.Leaves(), n)
  }

  function Exact(t: Sum, a: seq<int>, b: seq<int>): int
    requires |a| == |b| && Covers(t, |a|)
  {
    match t
    case Term(i) => TermCovers(t, |a|); a[i] * b[i]
    case Plus(l, r) => PlusCovers(l, r, |a|); Exact(l, a, b) + Exact(r, a, b)
  }

  /** The same sum in int32 arithmetic, which wraps silently. */
  function Wrapped(t: Sum, a: seq<int>, b: seq<int>): int
    requires |a| == |b| && Covers(t, |a|)
  {
    match t
    case Term(i) => TermCovers(t, |a|); Wrap32(a[i] * b[i])
    case Plus(l, r) => PlusCovers(l, r, |a|); Wrap32(Wrapped(l, a, b) + Wrapped(r, a, b))
  }

  /** No partial sum of this order leaves int32. */
  predicate NeverWraps(t: Sum, a: seq<int>, b: seq<int>)
    requires |a| == |b| && Covers(t, |a|)
  {
    && Fits32(Exact(t, a, b))
    && match t
       case Term(_) => true
       case Plus(l, r) => PlusCovers(l, r, |a|); NeverWraps(l, a, b) && NeverWraps(r, a, b)
  }

  lemma TermCovers(t: Sum, n: nat)
    requires t.Term? && Covers(t, n)
    ensures t.i < n
  {
    assert t.Leaves()[0] == t.i;
  }

  lemma IndicesConcat(s: seq<nat>, t: seq<nat>, n: nat)
    ensures Indices(s + t, n) <==> Indices(s, n) && Indices(t, n)
  {
    var all := s + t;
    assert all[..|s|] == s && all[|s|..] == t;
  }

  lemma PlusCovers(l: Sum, r: Sum, n: nat)
    requires Covers(Plus(l, r), n)
    ensures Covers(l, n) && Covers(r, n)
  {
    IndicesConcat(l.Leaves(), r.Leaves(), n);
  }

  lemma WrapSum(x: int, y: int)
    ensures Wrap32(Wrap32(x) + Wrap32(y)) == Wrap32(x + y)
  {
    var m := 0x1_0000_0000;
    var p, q := (x + 0x8000_0000) / m, (y + 0x8000_0000) / m;
    assert Wrap32(x) == x - p * m && Wrap32(y) == y - q * m;
    Shift(x + y + 0x8000_0000, -(p + q));
  }

  lemma Shift(n: int, k: int)
    ensures (n + k * 0x1_0000_0000) % 0x1_0000_0000 == n % 0x1_0000_0000
  {
  }

  /** Wrapping at every step is wrapping once at the end. */
  lemma {:induction false} WrapOnce(t: Sum, a: seq<int>, b: seq<int>)
    requires |a| == |b| && Covers(t, |a|)
    ensures Wrapped(t, a, b) == Wrap32(Exact(t, a, b))
  {
    if t.Plus? {
      PlusCovers(t.left, t.right, |a|);
      WrapOnce(t.left, a, b);
      WrapOnce(t.right, a, b);
      WrapSum(Exact(t.left, a, b), Exact(t.right, a, b));
    }
  }

  // ---------------------------------------------------------------- every order gives the dot product

  function SumOf(order: seq<nat>, a: seq<int>, b: seq<int>): int
    requires |a| == |b| && Indices(order, |a|)
  {
    if order == [] then 0 else a[order[0]] * b[order[0]] + SumOf(order[1..], a, b)
  }

  lemma {:induction false} SumOfConcat(s: seq<nat>, t: seq<nat>, a: seq<int>, b: seq<int>)
    requires |a| == |b| && Indices(s, |a|) && Indices(t, |a|)
    ensures Indices(s + t, |a|)
    ensures SumOf(s + t, a, b) == SumOf(s, a, b) + SumOf(t, a, b)
  {
    IndicesConcat(s, t, |a|);
    if s == [] {
      assert s + t == t;
    } else {
      assert (s + t)[1..] == s[1..] + t;
      SumOfConcat(s[1..], t, a, b);
    }
  }

  lemma {:induction false} ExactIsSumOf(t: Sum, a: seq<int>, b: seq<int>)
    requires |a| == |b| && Covers(t, |a|)
    ensures Exact(t, a, b) == SumOf(t.Leaves(), a, b)
  {
    if t.Plus? {
      PlusCovers(t.left, t.right, |a|);
      ExactIsSumOf(t.left, a, b);
      ExactIsSumOf(t.right, a, b);
      SumOfConcat(t.left.Leaves(), t.right.Leaves(), a, b);
    } else {
      TermCovers(t, |a|);
      assert t.Leaves()[1..] == [];
    }
  }

  lemma SameIndices(s: seq<nat>, t: seq<nat>, n: nat)
    requires Indices(s, n) && multiset(s) == multiset(t)
    ensures Indices(t, n)
  {
    forall k | 0 <= k < |t| ensures t[k] < n {
      assert t[k] in multiset(s);
    }
  }

  /** The first term of s, taken out of t. */
  lemma TakeOut(s: seq<nat>, t: seq<nat>) returns (k: nat)
    requires s != [] && multiset(s) == multiset(t)
    ensures k < |t| && t[k] == s[0]
    ensures multiset(t[..k] + t[k + 1..]) == multiset(s[1..])
  {
    assert s[0] in multiset(t);
    k :| 0 <= k < |t| && t[k] == s[0];
    assert s == [s[0]] + s[1..];
    assert t == t[..k] + [t[k]] + t[k + 1..];
    assert multiset(t[..k] + t[k + 1..]) == multiset(t) - multiset{t[k]};
  }

  lemma Reinsert(left: seq<nat>, i: nat, right: seq<nat>, a: seq<int>, b: seq<int>)
    requires |a| == |b| && Indices(left, |a|) && i < |a| && Indices(right, |a|)
    ensures Indices(left + [i] + right, |a|) && Indices(left + right, |a|)
    ensures SumOf(left + [i] + right, a, b) == a[i] * b[i] + SumOf(left + right, a, b)
  {
    SumOfConcat(left, right, a, b);
    SumOfConcat(left, [i], a, b);
    SumOfConcat(left + [i], right, a, b);
    assert [i][1..] == [];
  }

  /** A sum does not depend on the order of its terms. */
  lemma {:induction false} OrderIsIrrelevant(s: seq<nat>, t: seq<nat>, a: seq<int>, b: seq<int>)
    requires |a| == |b| && Indices(s, |a|) && multiset(s) == multiset(t)
    ensures Indices(t, |a|)
    ensures SumOf(s, a, b) == SumOf(t, a, b)
  {
    SameIndices(s, t, |a|);
    if s == [] {
      assert |multiset(t)| == 0;
    } else {
      var k := TakeOut(s, t);
      OrderIsIrrelevant(s[1..], t[..k] + t[k + 1..], a, b);
      Reinsert(t[..k], t[k], t[k + 1..], a, b);
      assert t == t[..k] + [t[k]] + t[k + 1..];
    }
  }

  function Range(n: nat): (s: seq<nat>)
    ensures |s| == n && forall i | 0 <= i < n :: s[i] == i
  {
    seq(n, i => i)
  }

  lemma {:induction false} RangeIsDot(n: nat, a: seq<int>, b: seq<int>)
    requires |a| == |b| && n <= |a|
    ensures SumOf(Range(n), a, b) == Dot(a[..n], b[..n])
  {
    if n > 0 {
      RangeIsDot(n - 1, a, b);
      assert Range(n) == Range(n - 1) + [n - 1];
      SumOfConcat(Range(n - 1), [n - 1], a, b);
      assert [n - 1][1..] == [];
      assert a[..n][..n - 1] == a[..n - 1] && b[..n][..n - 1] == b[..n - 1];
    } else {
      assert Range(0) == [];
    }
  }

  /** The order adds every product exactly once. */
  predicate SumsAll(t: Sum, n: nat) {
    multiset(t.Leaves()) == multiset(Range(n))
  }

  lemma SumsAllCovers(t: Sum, n: nat)
    requires SumsAll(t, n)
    ensures Covers(t, n) && |t.Leaves()| == n
  {
    SameIndices(Range(n), t.Leaves(), n);
    assert |multiset(t.Leaves())| == |multiset(Range(n))|;
  }

  lemma EveryOrderIsDot(t: Sum, a: seq<int>, b: seq<int>)
    requires |a| == |b| && SumsAll(t, |a|)
    ensures Covers(t, |a|) && Exact(t, a, b) == Dot(a, b)
    ensures Wrapped(t, a, b) == Wrap32(Dot(a, b))
  {
    var n := |a|;
    SumsAllCovers(t, n);
    ExactIsSumOf(t, a, b);
    OrderIsIrrelevant(t.Leaves(), Range(n), a, b);
    RangeIsDot(n, a, b);
    assert a[..n] == a && b[..n] == b;
    WrapOnce(t, a, b);
  }

  // ---------------------------------------------------------------- when 32 bits are enough

  lemma Monotone(u: int, p: int, v: int)
    requires u <= p && 0 <= v
    ensures u * v <= p * v
  {
  }

  lemma Negate(x: int, y: int)
    ensures -x * y == -(x * y) && x * -y == -(x * y)
  {
  }

  lemma ProductBound(x: int, y: int, p: int, q: int)
    requires -p <= x <= p && -q <= y <= q
    ensures -(p * q) <= x * y <= p * q
  {
    var v := if y < 0 then -y else y;
    Monotone(x, p, v);
    Monotone(-p, x, v);
    Monotone(v, q, p);
    Negate(x, y);
    Negate(p, v);
  }

  lemma {:induction false} ExactBound(t: Sum, a: seq<int>, b: seq<int>, p: int, q: int)
    requires p >= 0 && q >= 0 && |a| == |b| && Covers(t, |a|) && Within(a, |a|, -p, p) && Within(b, |b|, -q, q)
    ensures -(|t.Leaves()| * (p * q)) <= Exact(t, a, b) <= |t.Leaves()| * (p * q)
  {
    if t.Plus? {
      PlusCovers(t.left, t.right, |a|);
      ExactBound(t.left, a, b, p, q);
      ExactBound(t.right, a, b, p, q);
      Spread(|t.left.Leaves()|, |t.right.Leaves()|, p * q);
    } else {
      TermCovers(t, |a|);
      ProductBound(a[t.i], b[t.i], p, q);
    }
  }

  lemma Spread(l: nat, r: nat, m: int)
    ensures (l + r) * m == l * m + r * m
  {
  }

  lemma ShortSumFits(t: Sum, a: seq<int>, b: seq<int>)
    requires |a| == |b| && Covers(t, |a|) && Within(a, |a|, -127, 127) && Within(b, |b|, -127, 127)
    requires |t.Leaves()| <= MAX_SAFE_INT32_DOT
    ensures Fits32(Exact(t, a, b))
  {
    hide Exact, Covers;
    ExactBound(t, a, b, 127, 127);
  }

  lemma {:induction false} ShortSumsFit(t: Sum, a: seq<int>, b: seq<int>)
    requires |a| == |b| && Covers(t, |a|) && Within(a, |a|, -127, 127) && Within(b, |b|, -127, 127)
    requires |t.Leaves()| <= MAX_SAFE_INT32_DOT
    ensures NeverWraps(t, a, b)
  {
    hide Exact, Fits32;
    ShortSumFits(t, a, b);
    if t.Plus? {
      PlusCovers(t.left, t.right, |a|);
      ShortSumsFit(t.left, a, b);
      ShortSumsFit(t.right, a, b);
    }
  }

  /** Up to MAX_SAFE_INT32_DOT inputs in [-127, 127], no partial sum of any order
      wraps and every order gives the dot product. */
  lemma SafeDotIsExact(t: Sum, a: seq<int>, b: seq<int>)
    requires |a| <= MAX_SAFE_INT32_DOT && SumsAll(t, |a|)
    requires Within(a, |a|, -127, 127) && Within(b, |a|, -127, 127)
    ensures Covers(t, |a|) && NeverWraps(t, a, b)
    ensures Wrapped(t, a, b) == Dot(a, b)
  {
    hide Dot, Exact, Wrapped, SumsAll;
    SumsAllCovers(t, |a|);
    ShortSumsFit(t, a, b);
    EveryOrderIsDot(t, a, b);
  }

  lemma {:induction false} DotBound(a: seq<int>, b: seq<int>, p: int, q: int)
    requires p >= 0 && q >= 0 && |a| == |b| && Within(a, |a|, -p, p) && Within(b, |b|, -q, q)
    ensures -(|a| * (p * q)) <= Dot(a, b) <= |a| * (p * q)
  {
    if a != [] {
      var n, m := |a| - 1, p * q;
      DotBound(a[..n], b[..n], p, q);
      ProductBound(a[n], b[n], p, q);
      assert |a| * m == n * m + m;
    }
  }

  lemma {:induction false} DotOfConstants(n: nat, x: int, y: int)
    ensures Dot(seq(n, _ => x), seq(n, _ => y)) == n * (x * y)
  {
    if n > 0 {
      DotOfConstants(n - 1, x, y);
      assert seq(n, _ => x)[..n - 1] == seq(n - 1, _ => x);
      assert seq(n, _ => y)[..n - 1] == seq(n - 1, _ => y);
      var m := x * y;
      assert n * m == (n - 1) * m + m;
    }
  }

  ghost predicate AlwaysFits(n: nat, low: int) {
    forall a: seq<int>, b: seq<int> | Within(a, n, -127, 127) && Within(b, n, low, 127) :: Fits32(Dot(a, b))
  }

  /** The bound the source computes is the largest that is safe for its quantizer. */
  lemma SafeBoundIsSharp(n: nat)
    ensures AlwaysFits(n, -127) <==> n <= MAX_SAFE_INT32_DOT
  {
    if n <= MAX_SAFE_INT32_DOT {
      forall a: seq<int>, b: seq<int> | Within(a, n, -127, 127) && Within(b, n, -127, 127) ensures Fits32(Dot(a, b)) {
        DotBound(a, b, 127, 127);
      }
    } else {
      var worst := seq(n, _ => 127);
      DotOfConstants(n, 127, 127);
      assert Within(worst, n, -127, 127) && !Fits32(Dot(worst, worst));
    }
  }

  /** With the weight -128, which the model's constructor accepts, the largest safe
      size is smaller: between the two a model is admitted and its sums can wrap. */
  lemma AdmittedWeightsCanOverflow(n: nat)
    ensures AlwaysFits(n, -128) <==> n <= 132104
  {
    if n <= 132104 {
      forall a: seq<int>, b: seq<int> | Within(a, n, -127, 127) && Within(b, n, -128, 127) ensures Fits32(Dot(a, b)) {
        DotBound(a, b, 127, 128);
      }
    } else {
      var x, w := seq(n, _ => -127), seq(n, _ => -128);
      DotOfConstants(n, -127, -128);
      assert Within(x, n, -127, 127) && Within(w, n, -128, 127) && !Fits32(Dot(x, w));
    }
  }

  // ---------------------------------------------------------------- the native code

  datatype DotResult = Product(n: int) | ShapeMismatch | Overflow

  /** dot_i8; a span of constants is a value here.  A vector held in memory is far
      shorter than 2^48, which keeps the 64-bit accumulator from overflowing. */
  method DotI8(a: seq<Int8>, b: seq<Int8>) returns (r: DotResult)
    requires |a| <= 0x1_0000_0000_0000
    ensures |a| != |b| ==> r == ShapeMismatch
    ensures |a| == |b| ==> r == if Fits32(Dot(a, b)) then Product(Dot(a, b)) else Overflow
  {
    if |a| != |b| { return ShapeMismatch; }
    var acc := 0;
    var i := 0;
    while i < |a|
      invariant i <= |a|
      invariant acc == Dot(a[..i], b[..i])
      invariant -(i * 16384) <= acc <= i * 16384
    {
      ProductBound(a[i], b[i], 128, 128);
      assert a[..i + 1][..i] == a[..i] && b[..i + 1][..i] == b[..i];
      acc := acc + a[i] as int * b[i] as int;
      assert INT64_MIN <= acc <= INT64_MAX;
      i := i + 1;
    }
    assert a[..i] == a && b[..i] == b;
    if acc < INT32_MIN || acc > INT32_MAX { return Overflow; }
    r := Product(acc);
  }

  /** numpy's wrapped sum and the native result agree unless the native code throws,
      and then the wrapped sum is wrong. */
  lemma NativeAgrees(t: Sum, a: seq<int>, b: seq<int>)
    requires |a| == |b| && SumsAll(t, |a|)
    ensures Covers(t, |a|)
    ensures Wrapped(t, a, b) == Dot(a, b) <==> Fits32(Dot(a, b))
  {
    hide Dot, Exact, Wrapped, SumsAll, Covers;
    EveryOrderIsDot(t, a, b);
  }

  datatype LinearResult = Outputs(values: seq<real>) | InvalidArgument | Overflowed

  /** The weights of one output, row-major. */
  function Row(weights: seq<Int8>, output: nat, inputs: nat): (row: seq<Int8>)
    requires output * inputs + inputs <= |weights|
    ensures |row| == inputs
  {
    weights[output * inputs..output * inputs + inputs]
  }

  lemma RowFits(output: nat, outputs: nat, inputs: nat)
    requires output < outputs
    ensures output * inputs + inputs <= outputs * inputs
  {
    assert (output + 1) * inputs <= outputs * inputs;
  }

  predicate Shapes(x: nat, weights: nat, scales: nat, bias: nat, outputs: nat, inputs: nat) {
    outputs * inputs <= SIZE_MAX && x == inputs && weights == outputs * inputs && scales == outputs && bias == outputs
  }

  /** An output has a value when its sum fits int32 and its scale is positive. */
  predicate RowIsGood(x: seq<Int8>, weights: seq<Int8>, output: nat, inputScale: real, weightScale: real) {
    && output * |x| + |x| <= |weights|
    && Fits32(Dot(x, Row(weights, output, |x|))) && inputScale * weightScale > 0.0
  }

  /** The value of one output over the reals. */
  predicate RowGives(x: seq<Int8>, weights: seq<Int8>, output: nat, inputScale: real, weightScale: real, bias: real, value: real) {
    && RowIsGood(x, weights, output, inputScale, weightScale)
    && value == Dot(x, Row(weights, output, |x|)) as real * (inputScale * weightScale) + bias
  }

  /** Why an output has no value: its sum leaves int32 or its scale is not positive. */
  predicate RowFails(x: seq<Int8>, weights: seq<Int8>, output: nat, inputScale: real, weightScale: real, r: LinearResult) {
    && output * |x| + |x| <= |weights|
    && var dot := Dot(x, Row(weights, output, |x|));
       if !Fits32(dot) then r == Overflowed else inputScale * weightScale <= 0.0 && r == InvalidArgument
  }

  method ComputeRow(x: seq<Int8>, weights: seq<Int8>, output: nat, inputScale: real, weightScale: real, bias: real)
    returns (value: real, failure: LinearResult)
    requires output * |x| + |x| <= |weights| && |x| <= 0x1_0000_0000_0000
    ensures failure.Outputs? ==> RowGives(x, weights, output, inputScale, weightScale, bias, value)
    ensures failure.Outputs? ==> RowIsGood(x, weights, output, inputScale, weightScale)
    ensures !failure.Outputs? ==> RowFails(x, weights, output, inputScale, weightScale, failure)
  {
    var acc := DotI8(x, Row(weights, output, |x|));
    if acc.Overflow? { return 0.0, Overflowed; }
    var scale := inputScale * weightScale;
    if scale <= 0.0 { return 0.0, InvalidArgument; }
    return acc.n as real * scale + bias, Outputs([]);
  }

  /** linear_i8 over the reals: every output, or the error of the first row without a value. */
  method LinearI8(x: seq<Int8>, weights: seq<Int8>, scales: seq<real>, bias: seq<real>,
                  outputs: nat, inputs: nat, inputScale: real) returns (r: LinearResult)
    requires outputs <= SIZE_MAX && inputs <= SIZE_MAX && |x| <= 0x1_0000_0000_0000
    ensures inputScale <= 0.0 || !Shapes(|x|, |weights|, |scales|, |bias|, outputs, inputs) ==> r == InvalidArgument
    ensures r.Outputs? ==>
              && Shapes(|x|, |weights|, |scales|, |bias|, outputs, inputs) && |r.values| == outputs
              && forall o | 0 <= o < outputs :: RowGives(x, weights, o, inputScale, scales[o], bias[o], r.values[o])
    ensures !r.Outputs? && inputScale > 0.0 && Shapes(|x|, |weights|, |scales|, |bias|, outputs, inputs) ==>
              exists o | 0 <= o < outputs ::
                && RowFails(x, weights, o, inputScale, scales[o], r)
                && forall e | 0 <= e < o :: RowIsGood(x, weights, e, inputScale, scales[e])
  {
    hide RowGives, RowFails, RowIsGood;
    if inputScale <= 0.0 { return InvalidArgument; }
    if outputs != 0 && inputs > SIZE_MAX / outputs {
      TooMany(outputs, inputs);
      return InvalidArgument;
    }
    Enough(outputs, inputs);
    var required := outputs * inputs;
    if |x| != inputs || |weights| != required || |scales| != outputs || |bias| != outputs {
      return InvalidArgument;
    }
    var out := new real[outputs](_ => 0.0);
    var output := 0;
    while output < outputs
      invariant output <= outputs
      invariant forall o | 0 <= o < output :: RowGives(x, weights, o, inputScale, scales[o], bias[o], out[o])
      invariant forall o | 0 <= o < output :: RowIsGood(x, weights, o, inputScale, scales[o])
    {
      RowFits(output, outputs, inputs);
      var value, failure := ComputeRow(x, weights, output, inputScale, scales[output], bias[output]);
      if !failure.Outputs? { return failure; }
      out[output] := value;
      output := output + 1;
    }
    r := Outputs(out[..]);
  }

  lemma TooMany(outputs: nat, inputs: nat)
    requires outputs != 0 && inputs > SIZE_MAX / outputs
    ensures outputs * inputs > SIZE_MAX
  {
    var q := SIZE_MAX / outputs;
    assert outputs * (q + 1) > SIZE_MAX;
    assert outputs * inputs >= outputs * (q + 1);
  }

  lemma Enough(outputs: nat, inputs: nat)
    requires outputs == 0 || inputs <= SIZE_MAX / outputs
    ensures outputs * inputs <= SIZE_MAX
  {
    if outputs != 0 {
      var q := SIZE_MAX / outputs;
      assert outputs * q <= SIZE_MAX;
      assert outputs * inputs <= outputs * q;
    }
  }
}
