/** Dense attention of one query over a key/value history, over the reals; `exp` and `sqrt` are parameters. */
module Attention {
  import opened Wrappers

  type Vector = seq<real>

  datatype Math = Math(exp: real -> real, sqrt: real -> real)

  /** The exceptions the Python code raises. */
  datatype Error = EmptyKeys | LengthMismatch | DivisionByZero | IndexError

  datatype Attended = Attended(out: Vector, weights: Vector)

  // ---------------------------------------------------------------------------------------------
  // Meaning
  // ---------------------------------------------------------------------------------------------

  /** The sum of the products of the first `n` coordinates. */
  function DotUpTo(a: Vector, b: Vector, n: nat): real
    requires n <= |a| && n <= |b|
  {
    if n == 0 then 0.0 else DotUpTo(a, b, n - 1) + a[n - 1] * b[n - 1]
  }

  /** `zip` stops at the shorter vector. */
  function Dot(a: Vector, b: Vector): real {
    DotUpTo(a, b, if |a| < |b| then |a| else |b|)
  }

  function Sum(v: Vector): real {
    if v == [] then 0.0 else Sum(v[..|v| - 1]) + v[|v| - 1]
  }

  function Max(v: Vector): (m: real)
    requires v != []
    ensures m in v && forall x :: x in v ==> x <= m
  {
    if |v| == 1 then v[0]
    else
      var m := Max(v[..|v| - 1]);
      assert forall x :: x in v ==> x in v[..|v| - 1] || x == v[|v| - 1];
      if v[|v| - 1] > m then v[|v| - 1] else m
  }

  function Exps(math: Math, v: Vector, shift: real): (r: Vector)
    ensures |r| == |v|
  {
    seq(|v|, i requires 0 <= i < |v| => math.exp(v[i] - shift))
  }

  function Scaled(v: Vector, total: real): (r: Vector)
    requires total != 0.0
    ensures |r| == |v| && forall i :: 0 <= i < |v| ==> r[i] == v[i] / total
  {
    seq(|v|, i requires 0 <= i < |v| => v[i] / total)
  }

  function Softmax(math: Math, v: Vector): (r: Result<Vector, Error>)
    ensures r.Ok? ==> |r.value| == |v|
  {
    if v == [] then Ok([])
    else
      var exps := Exps(math, v, Max(v));
      var total := Sum(exps);
      if total == 0.0 then Err(DivisionByZero) else Ok(Scaled(exps, total))
  }

  function Score(query: Vector, key: Vector, scale: real): real { Dot(query, key) * scale }

  function Scores(query: Vector, keys: seq<Vector>, scale: real): (r: Vector)
    ensures |r| == |keys| && forall i :: 0 <= i < |keys| ==> r[i] == Score(query, keys[i], scale)
  {
    seq(|keys|, i requires 0 <= i < |keys| => Score(query, keys[i], scale))
  }

  /** Coordinate `i` of the weighted sum of the first `n` values. */
  function Blend(weights: Vector, values: seq<Vector>, i: nat, n: nat): real
    requires n <= |weights| && n <= |values| && WideEnough(values[..n], i + 1)
  {
    assert forall k :: 0 <= k < n ==> values[..n][k] == values[k];
    assert forall k :: 0 <= k < n - 1 ==> values[..n - 1][k] == values[k];
    if n == 0 then 0.0 else Blend(weights, values, i, n - 1) + values[n - 1][i] * weights[n - 1]
  }

  predicate WideEnough(values: seq<Vector>, dim: nat) {
    forall k :: 0 <= k < |values| ==> dim <= |values[k]|
  }

  function Blended(weights: Vector, values: seq<Vector>, dim: nat, n: nat): (r: Vector)
    requires n <= |weights| && n <= |values| && WideEnough(values[..n], dim)
    ensures |r| == dim && forall i :: 0 <= i < dim ==> r[i] == Blend(weights, values, i, n)
  {
    seq(dim, i requires 0 <= i < dim => Blend(weights, values, i, n))
  }

  /** `attention_one_query`: softmax of the scaled scores, then the weighted sum of the values. */
  function Attend(math: Math, query: Vector, keys: seq<Vector>, values: seq<Vector>): Result<Attended, Error> {
    if keys == [] then Err(EmptyKeys)
    else if |keys| != |values| then Err(LengthMismatch)
    else
      var root := math.sqrt(|query| as real);
      if root == 0.0 then Err(DivisionByZero)
      else match Softmax(math, Scores(query, keys, 1.0 / root))
        case Err(e) => Err(e)
        case Ok(weights) =>
          if !WideEnough(values, |values[0]|) then Err(IndexError)
          else
            assert values[..|values|] == values;
            Ok(Attended(Blended(weights, values, |values[0]|, |values|), weights))
  }

  // ---------------------------------------------------------------------------------------------
  // The weights are a distribution
  // ---------------------------------------------------------------------------------------------

  lemma SumOfQuotients(a: real, b: real, total: real)
    requires total != 0.0
    ensures a / total + b / total == (a + b) / total
  {
  }

  lemma {:induction false} SumScaled(v: Vector, total: real)
    requires total != 0.0
    ensures Sum(Scaled(v, total)) == Sum(v) / total
  {
    if v != [] {
      var init := v[..|v| - 1];
      SumScaled(init, total);
      assert Scaled(v, total)[..|v| - 1] == Scaled(init, total);
      SumOfQuotients(Sum(init), v[|v| - 1], total);
    }
  }

  lemma {:induction false} SumPositive(v: Vector)
    requires forall i :: 0 <= i < |v| ==> v[i] > 0.0
    ensures v != [] ==> Sum(v) > 0.0
  {
    if |v| > 1 {
      SumPositive(v[..|v| - 1]);
    } else if |v| == 1 {
      assert Sum(v[..0]) == 0.0;
    }
  }

  /** With a positive exponential, softmax never fails and its weights are positive and sum to one. */
  lemma SoftmaxIsDistribution(math: Math, v: Vector)
    requires v != [] && forall x :: math.exp(x) > 0.0
    ensures var r := Softmax(math, v);
            r.Ok? && Sum(r.value) == 1.0 && forall i :: 0 <= i < |v| ==> 0.0 < r.value[i]
  {
    var exps := Exps(math, v, Max(v));
    SumPositive(exps);
    var total := Sum(exps);
    SumScaled(exps, total);
    WholeQuotient(total);
    hide Sum, Exps;
    forall i | 0 <= i < |v| ensures Scaled(exps, total)[i] > 0.0 {
      Quotient(exps[i], total);
    }
  }

  lemma WholeQuotient(total: real)
    requires total != 0.0
    ensures total / total == 1.0
  {
  }

  lemma Quotient(e: real, total: real)
    requires e > 0.0 && total > 0.0
    ensures e / total > 0.0
  {
  }

  // ---------------------------------------------------------------------------------------------
  // What the functions mean
  // ---------------------------------------------------------------------------------------------

  lemma SumOfOne(x: real)
    ensures Sum([]) == 0.0 && Sum([x]) == x
  {
    assert [x][..0] == [];
  }

  lemma {:induction false} SumOfConcatenation(a: Vector, b: Vector)
    ensures Sum(a + b) == Sum(a) + Sum(b)
  {
    if b == [] {
      assert a + b == a;
    } else {
      SumOfConcatenation(a, b[..|b| - 1]);
      assert (a + b)[..|a + b| - 1] == a + b[..|b| - 1];
    }
  }

  /** `p` holds the products of the coordinates that both vectors have. */
  ghost predicate AreProducts(a: Vector, b: Vector, p: Vector) {
    && |p| <= |a| && |p| <= |b| && (|p| == |a| || |p| == |b|)
    && forall i :: 0 <= i < |p| ==> p[i] == a[i] * b[i]
  }

  lemma {:induction false} DotUpToIsSum(a: Vector, b: Vector, p: Vector, n: nat)
    requires AreProducts(a, b, p) && n <= |p|
    ensures DotUpTo(a, b, n) == Sum(p[..n])
  {
    if n > 0 {
      DotUpToIsSum(a, b, p, n - 1);
      assert p[..n][..n - 1] == p[..n - 1];
    }
  }

  lemma DotIsSumOfProducts(a: Vector, b: Vector, p: Vector)
    requires AreProducts(a, b, p)
    ensures Dot(a, b) == Sum(p)
  {
    DotUpToIsSum(a, b, p, |p|);
    assert p[..|p|] == p;
  }

  /** `t` holds the exponentials of the scores, each less `shift`. */
  ghost predicate AreExps(math: Math, v: Vector, shift: real, t: Vector) {
    |t| == |v| && forall i :: 0 <= i < |v| ==> t[i] == math.exp(v[i] - shift)
  }

  ghost predicate IsMax(v: Vector, m: real) {
    m in v && forall x :: x in v ==> x <= m
  }

  /** Whatever `exp` is, the weights are the exponentials of the scores less the highest, divided by their sum; it
      fails exactly when that sum is zero. */
  lemma SoftmaxIsShiftedQuotient(math: Math, v: Vector, m: real, t: Vector)
    requires IsMax(v, m) && AreExps(math, v, m, t)
    ensures var r := Softmax(math, v);
            && (r.Err? <==> Sum(t) == 0.0)
            && (r.Err? ==> r.error == DivisionByZero)
            && (r.Ok? ==> AreShares(t, r.value))
  {
    hide Sum, Max;
    assert Max(v) == m;
    assert Exps(math, v, m) == t;
    if Sum(t) != 0.0 {
      SharesOfScaled(t, Sum(t));
    }
  }

  lemma SharesOfScaled(t: Vector, total: real)
    requires total != 0.0
    ensures forall i :: 0 <= i < |t| ==> Scaled(t, total)[i] * total == t[i]
  {
    hide Sum;
    forall i | 0 <= i < |t| ensures Scaled(t, total)[i] * total == t[i] {
      QuotientTimes(t[i], total);
    }
  }

  lemma QuotientTimes(a: real, b: real)
    requires b != 0.0
    ensures a / b * b == a
  {
  }

  /** The laws of the exponential that the result depends on. */
  ghost predicate IsExponential(exp: real -> real) {
    (forall x :: exp(x) > 0.0) && forall x, y :: exp(x + y) == exp(x) * exp(y)
  }

  lemma ExponentialLaws(exp: real -> real)
    requires IsExponential(exp)
    ensures forall x :: exp(x) > 0.0
  {
  }

  lemma Multiplies(exp: real -> real, x: real, y: real)
    requires IsExponential(exp)
    ensures exp(x + y) == exp(x) * exp(y)
  {
  }

  lemma ExpsAre(math: Math, v: Vector, shift: real)
    ensures AreExps(math, v, shift, Exps(math, v, shift))
  {
  }

  /** Each weight is the share of its term in the sum of the terms. */
  ghost predicate AreShares(terms: Vector, weights: Vector) {
    |weights| == |terms| && forall i :: 0 <= i < |terms| ==> weights[i] * Sum(terms) == terms[i]
  }

  lemma {:induction false} SumTimes(v: Vector, w: Vector, c: real)
    requires AreMultiples(v, w, c)
    ensures Sum(w) == Sum(v) * c
  {
    if v != [] {
      SumTimes(v[..|v| - 1], w[..|v| - 1], c);
      Distribute(Sum(v[..|v| - 1]), v[|v| - 1], c);
    }
  }

  lemma Distribute(a: real, b: real, c: real)
    ensures (a + b) * c == a * c + b * c
  {
  }

  lemma Cancel(w: real, s: real, t: real, c: real)
    requires w * s == t
    ensures w * (s * c) == t * c
  {
    assert w * (s * c) == (w * s) * c;
  }

  ghost predicate AreMultiples(v: Vector, w: Vector, c: real) {
    |v| == |w| && forall i :: 0 <= i < |v| ==> w[i] == v[i] * c
  }

  lemma SharesOfMultiples(t: Vector, e: Vector, weights: Vector, c: real)
    requires AreShares(t, weights) && AreMultiples(t, e, c)
    ensures AreShares(e, weights)
  {
    hide Sum;
    SumTimes(t, e, c);
    forall i | 0 <= i < |e| ensures weights[i] * Sum(e) == e[i] {
      Cancel(weights[i], Sum(t), t[i], c);
    }
  }

  lemma ShiftedExps(math: Math, v: Vector, m: real, t: Vector, e: Vector)
    requires IsExponential(math.exp) && AreExps(math, v, m, t) && AreExps(math, v, 0.0, e)
    ensures AreMultiples(t, e, math.exp(m)) && forall i :: 0 <= i < |v| ==> e[i] == math.exp(v[i])
  {
    hide IsExponential;
    forall i | 0 <= i < |v| ensures e[i] == t[i] * math.exp(m) && e[i] == math.exp(v[i]) {
      assert v[i] - 0.0 == v[i];
      Multiplies(math.exp, v[i] - m, m);
    }
  }

  /** With an exponential, the weight of a score is its exponential over the sum of all: the shift cancels. */
  lemma SoftmaxIsProportional(math: Math, v: Vector, e: Vector)
    requires v != [] && IsExponential(math.exp) && AreExps(math, v, 0.0, e)
    ensures var r := Softmax(math, v);
            r.Ok? && Sum(e) > 0.0 && AreShares(e, r.value) && forall i :: 0 <= i < |v| ==> e[i] == math.exp(v[i])
  {
    hide IsExponential, Softmax, Sum, Exps;
    ExponentialLaws(math.exp);
    var m := Max(v);
    var t := Exps(math, v, m);
    ExpsAre(math, v, m);
    SoftmaxIsShiftedQuotient(math, v, m, t);
    SoftmaxIsDistribution(math, v);
    hide AreShares;
    ShiftedExps(math, v, m, t, e);
    SumPositive(e);
    SharesOfMultiples(t, e, Softmax(math, v).value, math.exp(m));
  }

  lemma ProductOrder(a: real, b: real, c: real)
    requires c > 0.0
    ensures a * c < b * c <==> a < b
  {
  }

  /** A higher score gets a higher weight. */
  lemma HigherScoreWeighsMore(math: Math, v: Vector, i: nat, j: nat)
    requires i < |v| && j < |v| && IsExponential(math.exp) && forall x, y :: x < y ==> math.exp(x) < math.exp(y)
    ensures var r := Softmax(math, v); r.Ok? && (v[i] < v[j] <==> r.value[i] < r.value[j])
  {
    hide IsExponential, Softmax, Sum, Exps;
    var e := Exps(math, v, 0.0);
    ExpsAre(math, v, 0.0);
    SoftmaxIsProportional(math, v, e);
    var w := Softmax(math, v).value;
    ProductOrder(w[i], w[j], Sum(e));
  }

  /** Coordinate `c` of every value. */
  function Column(values: seq<Vector>, c: nat): (r: Vector)
    requires WideEnough(values, c + 1)
    ensures |r| == |values| && forall k :: 0 <= k < |values| ==> r[k] == values[k][c]
  {
    seq(|values|, k requires 0 <= k < |values| => values[k][c])
  }

  lemma {:induction false} BlendIsDot(weights: Vector, values: seq<Vector>, c: nat, n: nat)
    requires n <= |weights| == |values| && WideEnough(values, c + 1)
    ensures WideEnough(values[..n], c + 1) && Blend(weights, values, c, n) == DotUpTo(weights, Column(values, c), n)
  {
    if n > 0 {
      BlendIsDot(weights, values, c, n - 1);
    }
  }

  /** Scaled dot products: `scores[k]` is the product of query and key `k` over the root of the dimension. */
  ghost predicate AreScores(root: real, query: Vector, keys: seq<Vector>, scores: Vector) {
    |scores| == |keys| && forall k :: 0 <= k < |keys| ==> scores[k] * root == Dot(query, keys[k])
  }

  /** Scaled dot-product attention: the weights are the exponentials of the scores over their sum, and every coordinate
      of the output is the weighted sum of that coordinate of the values. */
  ghost predicate IsAttention(math: Math, query: Vector, keys: seq<Vector>, values: seq<Vector>, a: Attended) {
    && |a.weights| == |keys| == |values| && keys != [] && |a.out| == |values[0]| && WideEnough(values, |a.out|)
    && (exists scores, e :: AreScores(math.sqrt(|query| as real), query, keys, scores)
                            && AreExps(math, scores, 0.0, e) && AreShares(e, a.weights))
    && forall c :: 0 <= c < |a.out| ==> a.out[c] == Dot(a.weights, Column(values, c))
  }

  lemma ScoresAreScaled(root: real, query: Vector, keys: seq<Vector>)
    requires root != 0.0
    ensures AreScores(root, query, keys, Scores(query, keys, 1.0 / root))
  {
    hide Dot;
    var scores := Scores(query, keys, 1.0 / root);
    forall k | 0 <= k < |keys| ensures scores[k] * root == Dot(query, keys[k]) {
      InverseTimes(Dot(query, keys[k]), root);
    }
  }

  lemma InverseTimes(x: real, root: real)
    requires root != 0.0
    ensures x * (1.0 / root) * root == x
  {
    QuotientTimes(1.0, root);
    assert x * (1.0 / root) * root == x * (1.0 / root * root);
  }

  /** What attention computes, and when and how it fails. */
  lemma AttendExactly(math: Math, query: Vector, keys: seq<Vector>, values: seq<Vector>)
    requires IsExponential(math.exp)
    ensures var r := Attend(math, query, keys, values);
            && (r == Err(EmptyKeys) <==> keys == [])
            && (r == Err(LengthMismatch) <==> keys != [] && |keys| != |values|)
            && (r == Err(DivisionByZero) <==>
                keys != [] && |keys| == |values| && math.sqrt(|query| as real) == 0.0)
            && (r == Err(IndexError) <==>
                && keys != [] && |keys| == |values| && math.sqrt(|query| as real) != 0.0
                && exists k :: 0 <= k < |values| && |values[k]| < |values[0]|)
            && (r.Ok? ==> IsAttention(math, query, keys, values, r.value))
  {
    hide IsExponential, Softmax, Sum, Dot, Scores, Exps, AreScores, AreExps, AreShares;
    var root := math.sqrt(|query| as real);
    if keys != [] && |keys| == |values| && root != 0.0 {
      var s := Scores(query, keys, 1.0 / root);
      ScoresAreScaled(root, query, keys);
      var e := Exps(math, s, 0.0);
      assert AreExps(math, s, 0.0, e) by { ExpsAre(math, s, 0.0); }
      SoftmaxIsProportional(math, s, e);
      if WideEnough(values, |values[0]|) {
        OutIsDot(math, query, keys, values);
      }
    }
  }

  lemma OutIsDot(math: Math, query: Vector, keys: seq<Vector>, values: seq<Vector>)
    requires Attend(math, query, keys, values).Ok?
    ensures var a := Attend(math, query, keys, values).value;
            && values != [] && |a.out| == |values[0]| && WideEnough(values, |a.out|)
            && forall c :: 0 <= c < |a.out| ==> a.out[c] == Dot(a.weights, Column(values, c))
  {
    hide Softmax, Scores, Blend;
    var a := Attend(math, query, keys, values).value;
    forall c | 0 <= c < |a.out| ensures a.out[c] == Dot(a.weights, Column(values, c)) {
      BlendIsDot(a.weights, values, c, |values|);
    }
  }

  // ---------------------------------------------------------------------------------------------
  // The loops
  // ---------------------------------------------------------------------------------------------

  /** `add_scaled` adds in place; it raises when the source is shorter than the target. */
  method AddScaled(target: array<real>, source: Vector, scale: real) returns (ok: bool)
    modifies target
    ensures ok <==> target.Length <= |source|
    ensures ok ==> forall i :: 0 <= i < target.Length ==> target[i] == old(target[i]) + source[i] * scale
  {
    for i := 0 to target.Length
      invariant i <= |source|
      invariant forall k :: 0 <= k < i ==> target[k] == old(target[k]) + source[k] * scale
      invariant forall k :: i <= k < target.Length ==> target[k] == old(target[k])
    {
      if i == |source| {
        return false;
      }
      target[i] := target[i] + source[i] * scale;
    }
    return true;
  }

  /** The accumulation shared by dense and paged attention: zeros of the first value's length, then one
      `add_scaled` per value. */
  method WeightedSum(weights: Vector, values: seq<Vector>) returns (r: Result<Vector, Error>)
    requires |weights| == |values| && values != []
    ensures r.Ok? <==> WideEnough(values, |values[0]|)
    ensures r.Err? ==> r.error == IndexError
    ensures r.Ok? ==> values[..|values|] == values && r.value == Blended(weights, values, |values[0]|, |values|)
  {
    var out := new real[|values[0]|](_ => 0.0);
    for n := 0 to |values|
      invariant WideEnough(values[..n], |values[0]|)
      invariant out[..] == Blended(weights, values, |values[0]|, n)
    {
      label before:
      var ok := AddScaled(out, values[n], weights[n]);
      if !ok {
        return Err(IndexError);
      }
      assert values[..n + 1] == values[..n] + [values[n]];
      assert forall i :: 0 <= i < out.Length ==> old@before(out[..])[i] == old@before(out[i]);
      forall i | 0 <= i < out.Length ensures out[i] == Blend(weights, values, i, n + 1) {
        assert old@before(out[i]) == Blend(weights, values, i, n);
      }
    }
    assert values[..|values|] == values;
    return Ok(out[..]);
  }

  method AttentionOneQuery(math: Math, query: Vector, keys: seq<Vector>, values: seq<Vector>)
    returns (r: Result<Attended, Error>)
    ensures r == Attend(math, query, keys, values)
    ensures r.Ok? && IsExponential(math.exp) ==> IsAttention(math, query, keys, values, r.value)
  {
    if IsExponential(math.exp) {
      AttendExactly(math, query, keys, values);
    }
    hide IsExponential, IsAttention;
    if keys == [] {
      return Err(EmptyKeys);
    }
    if |keys| != |values| {
      return Err(LengthMismatch);
    }
    var root := math.sqrt(|query| as real);
    if root == 0.0 {
      return Err(DivisionByZero);
    }
    var weights := Softmax(math, Scores(query, keys, 1.0 / root));
    if weights.Err? {
      return Err(weights.error);
    }
    var out := WeightedSum(weights.value, values);
    if out.Err? {
      return Err(out.error);
    }
    return Ok(Attended(out.value, weights.value));
  }
}
