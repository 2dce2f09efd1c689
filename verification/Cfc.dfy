/**
 * The CfC reservoir step and its readout (kaine/cfc_numpy.py), in exact reals.  tanh and the
 * sigmoid are functions of which only the range is used.
 */
module Cfc {

  type Vector = seq<real>
  type Matrix = seq<seq<real>>

  function Dot(u: Vector, v: Vector): real
    requires |u| == |v|
  { if u == [] then 0.0 else u[0] * v[0] + Dot(u[1..], v[1..]) }

  ghost predicate Shape(m: Matrix, rows: nat, columns: nat) {
    |m| == rows && forall i | 0 <= i < rows :: |m[i]| == columns
  }

  /** `m @ v + b`. */
  function Affine(m: Matrix, b: Vector, v: Vector): (r: Vector)
    requires Shape(m, |b|, |v|)
    ensures |r| == |b|
  { seq(|b|, i requires 0 <= i < |b| => Dot(m[i], v) + b[i]) }

  // ------------------------------------------------------------------ the reservoir

  datatype Layer = Layer(weight: Matrix, bias: Vector)

  datatype Reservoir = Reservoir(backbone: Layer, ff1: Layer, ff2: Layer, timeA: Layer, timeB: Layer)

  ghost predicate LayerOk(l: Layer, inputs: nat, outputs: nat) { |l.bias| == outputs && Shape(l.weight, outputs, inputs) }

  ghost predicate ReservoirOk(w: Reservoir, inputs: nat, hidden: nat, units: nat) {
    && LayerOk(w.backbone, inputs + units, hidden)
    && LayerOk(w.ff1, hidden, units) && LayerOk(w.ff2, hidden, units)
    && LayerOk(w.timeA, hidden, units) && LayerOk(w.timeB, hidden, units)
  }

  datatype Squash = Squash(tanh: real -> real, sigmoid: real -> real)

  ghost predicate RangesOk(f: Squash) {
    forall x: real :: -1.0 <= f.tanh(x) <= 1.0 && 0.0 <= f.sigmoid(x) <= 1.0
  }

  function LecunTanh(f: Squash, x: real): real { 1.7159 * f.tanh(0.666 * x) }

  function Backbone(f: Squash, w: Reservoir, x: Vector, h: Vector, hidden: nat): (z: Vector)
    requires ReservoirOk(w, |x|, hidden, |h|)
    ensures |z| == hidden
  {
    var a := Affine(w.backbone.weight, w.backbone.bias, x + h);
    seq(hidden, i requires 0 <= i < hidden => LecunTanh(f, a[i]))
  }

  /** The gate interpolates between the two heads. */
  function Blend(f: Squash, a: real, b: real, ta: real, tb: real, ts: real): real {
    var t := f.sigmoid(ta * ts + tb);
    f.tanh(a) * (1.0 - t) + t * f.tanh(b)
  }

  function CfcStep(f: Squash, w: Reservoir, x: Vector, h: Vector, ts: real, hidden: nat): (r: Vector)
    requires ReservoirOk(w, |x|, hidden, |h|)
    ensures |r| == |h|
  {
    var z := Backbone(f, w, x, h, hidden);
    var a, b := Affine(w.ff1.weight, w.ff1.bias, z), Affine(w.ff2.weight, w.ff2.bias, z);
    var ta, tb := Affine(w.timeA.weight, w.timeA.bias, z), Affine(w.timeB.weight, w.timeB.bias, z);
    seq(|h|, i requires 0 <= i < |h| => Blend(f, a[i], b[i], ta[i], tb[i], ts))
  }

  // ------------------------------------------------------------------ what one step computes

  /** The sum of the first `n` products. */
  function Weighted(row: Vector, v: Vector, n: nat): real
    requires n <= |row| && n <= |v|
  { if n == 0 then 0.0 else Weighted(row, v, n - 1) + row[n - 1] * v[n - 1] }

  lemma {:induction false} WeightedFirst(row: Vector, v: Vector, n: nat)
    requires 0 < n <= |row| && n <= |v|
    ensures Weighted(row, v, n) == row[0] * v[0] + Weighted(row[1..], v[1..], n - 1)
  {
    if n > 1 { WeightedFirst(row, v, n - 1); }
  }

  lemma {:induction false} DotIs(u: Vector, v: Vector)
    requires |u| == |v|
    ensures Dot(u, v) == Weighted(u, v, |u|)
  {
    if u != [] {
      DotIs(u[1..], v[1..]);
      WeightedFirst(u, v, |u|);
    }
  }

  lemma {:induction false} WeightedApart(row: Vector, x: Vector, h: Vector, n: nat)
    requires |row| == |x| + |h| && n <= |h|
    ensures Weighted(row, x + h, |x| + n) == Weighted(row, x, |x|) + Weighted(row[|x|..], h, n)
  {
    if n > 0 { WeightedApart(row, x, h, n - 1); } else { WeightedStart(row, x, h, |x|); }
  }

  lemma {:induction false} WeightedStart(row: Vector, x: Vector, h: Vector, n: nat)
    requires n <= |x| && n <= |row|
    ensures Weighted(row, x + h, n) == Weighted(row, x, n)
  {
    if n > 0 { WeightedStart(row, x, h, n - 1); }
  }

  /** One output of a layer. */
  function Output(l: Layer, v: Vector, i: nat): real
    requires LayerOk(l, |v|, |l.bias|) && i < |l.bias|
  { Weighted(l.weight[i], v, |v|) + l.bias[i] }

  lemma AffineIs(l: Layer, v: Vector, i: nat)
    requires LayerOk(l, |v|, |l.bias|) && i < |l.bias|
    ensures Affine(l.weight, l.bias, v)[i] == Output(l, v, i)
  {
    DotIs(l.weight[i], v);
  }

  /** What the backbone weighs for unit `k`: the input, and after it the hidden state. */
  function BackboneSum(w: Reservoir, x: Vector, h: Vector, hidden: nat, k: nat): real
    requires ReservoirOk(w, |x|, hidden, |h|) && k < hidden
  {
    var row := w.backbone.weight[k];
    Weighted(row, x, |x|) + Weighted(row[|x|..], h, |h|) + w.backbone.bias[k]
  }

  lemma BackboneSumIs(w: Reservoir, x: Vector, h: Vector, hidden: nat, k: nat)
    requires ReservoirOk(w, |x|, hidden, |h|) && k < hidden
    ensures Affine(w.backbone.weight, w.backbone.bias, x + h)[k] == BackboneSum(w, x, h, hidden, k)
  {
    DotIs(w.backbone.weight[k], x + h);
    WeightedApart(w.backbone.weight[k], x, h, |h|);
  }

  lemma BackboneIs(f: Squash, w: Reservoir, x: Vector, h: Vector, hidden: nat, k: nat)
    requires ReservoirOk(w, |x|, hidden, |h|) && k < hidden
    ensures Backbone(f, w, x, h, hidden)[k] == 1.7159 * f.tanh(0.666 * BackboneSum(w, x, h, hidden, k))
  {
    BackboneSumIs(w, x, h, hidden, k);
  }

  /** Each component moves from the first head towards the second, as far as the gate says; the gate opens
      with the first time head times the timespan, plus the second. */
  lemma StepIs(f: Squash, w: Reservoir, x: Vector, h: Vector, ts: real, hidden: nat, i: nat)
    requires ReservoirOk(w, |x|, hidden, |h|) && i < |h|
    ensures var z := Backbone(f, w, x, h, hidden);
            var one, two := f.tanh(Output(w.ff1, z, i)), f.tanh(Output(w.ff2, z, i));
            var gate := f.sigmoid(Output(w.timeA, z, i) * ts + Output(w.timeB, z, i));
            && CfcStep(f, w, x, h, ts, hidden)[i] == one + gate * (two - one)
            && (gate == 0.0 ==> CfcStep(f, w, x, h, ts, hidden)[i] == one)
            && (gate == 1.0 ==> CfcStep(f, w, x, h, ts, hidden)[i] == two)
  {
    var z := Backbone(f, w, x, h, hidden);
    AffineIs(w.ff1, z, i);
    AffineIs(w.ff2, z, i);
    AffineIs(w.timeA, z, i);
    AffineIs(w.timeB, z, i);
    Towards(f.tanh(Output(w.ff1, z, i)), f.tanh(Output(w.ff2, z, i)),
            f.sigmoid(Output(w.timeA, z, i) * ts + Output(w.timeB, z, i)));
  }

  lemma Towards(p: real, q: real, t: real)
    ensures p * (1.0 - t) + t * q == p + t * (q - p)
  {}

  predicate Bounded(h: Vector) { forall i | 0 <= i < |h| :: -1.0 <= h[i] <= 1.0 }

  lemma Product(a: real, b: real)
    requires a >= 0.0 && b >= 0.0
    ensures a * b >= 0.0
  {}

  lemma Between(p: real, q: real, t: real)
    requires -1.0 <= p <= 1.0 && -1.0 <= q <= 1.0 && 0.0 <= t <= 1.0
    ensures -1.0 <= p * (1.0 - t) + t * q <= 1.0
  {
    Product(1.0 - p, 1.0 - t);
    Product(1.0 + p, 1.0 - t);
    Product(1.0 - q, t);
    Product(1.0 + q, t);
    assert (1.0 - p) * (1.0 - t) + (1.0 - q) * t == 1.0 - (p * (1.0 - t) + t * q);
    assert (1.0 + p) * (1.0 - t) + (1.0 + q) * t == 1.0 + (p * (1.0 - t) + t * q);
  }

  /** One step is bounded whatever the weights, the input and the timespan. */
  lemma StepBounded(f: Squash, w: Reservoir, x: Vector, h: Vector, ts: real, hidden: nat)
    requires RangesOk(f) && ReservoirOk(w, |x|, hidden, |h|)
    ensures Bounded(CfcStep(f, w, x, h, ts, hidden))
  {
    var z := Backbone(f, w, x, h, hidden);
    var a, b := Affine(w.ff1.weight, w.ff1.bias, z), Affine(w.ff2.weight, w.ff2.bias, z);
    var ta, tb := Affine(w.timeA.weight, w.timeA.bias, z), Affine(w.timeB.weight, w.timeB.bias, z);
    forall i | 0 <= i < |h| ensures -1.0 <= Blend(f, a[i], b[i], ta[i], tb[i], ts) <= 1.0 {
      Between(f.tanh(a[i]), f.tanh(b[i]), f.sigmoid(ta[i] * ts + tb[i]));
    }
  }

  datatype Input = Input(x: Vector, ts: real)

  function CfcRun(f: Squash, w: Reservoir, h: Vector, xs: seq<Input>, inputs: nat, hidden: nat): (r: Vector)
    requires ReservoirOk(w, inputs, hidden, |h|) && forall i | 0 <= i < |xs| :: |xs[i].x| == inputs
    ensures |r| == |h|
    decreases |xs|
  {
    if xs == [] then h
    else
      var n := |xs| - 1;
      CfcStep(f, w, xs[n].x, CfcRun(f, w, h, xs[..n], inputs, hidden), xs[n].ts, hidden)
  }

  /** The hidden state stays in [-1, 1] over every run of inputs that starts there, and comes there
      with the first input from anywhere. */
  lemma {:induction false} RunBounded(f: Squash, w: Reservoir, h: Vector, xs: seq<Input>, inputs: nat, hidden: nat)
    requires RangesOk(f) && ReservoirOk(w, inputs, hidden, |h|) && forall i | 0 <= i < |xs| :: |xs[i].x| == inputs
    requires Bounded(h) || xs != []
    ensures Bounded(CfcRun(f, w, h, xs, inputs, hidden))
  {
    if xs != [] {
      var n := |xs| - 1;
      StepBounded(f, w, xs[n].x, CfcRun(f, w, h, xs[..n], inputs, hidden), xs[n].ts, hidden);
    }
  }

  // ------------------------------------------------------------------ the readout

  function Minus(u: Vector, v: Vector): (r: Vector)
    requires |u| == |v|
    ensures |r| == |u|
  { seq(|u|, i requires 0 <= i < |u| => u[i] - v[i]) }

  function Scaled(k: real, v: Vector): (r: Vector)
    ensures |r| == |v|
  { seq(|v|, i requires 0 <= i < |v| => k * v[i]) }

  function SumSquares(v: Vector): real { if v == [] then 0.0 else v[0] * v[0] + SumSquares(v[1..]) }

  function MeanSquare(v: Vector): real
    requires v != []
  { SumSquares(v) / |v| as real }

  ghost predicate ReadoutOk(W: Matrix, b: Vector, h: Vector, target: Vector) {
    |target| == |b| > 0 && Shape(W, |b|, |h|)
  }

  function Error(W: Matrix, b: Vector, h: Vector, target: Vector): Vector
    requires ReadoutOk(W, b, h, target)
  { Minus(Affine(W, b, h), target) }

  /** One coordinate of the gradient step: (2 / out) * error times learning rate. */
  function Nudge(err: Vector, lr: real, i: nat): real
    requires i < |err|
  { lr * (2.0 / |err| as real * err[i]) }

  function SteppedW(W: Matrix, err: Vector, h: Vector, lr: real): (r: Matrix)
    requires Shape(W, |err|, |h|)
    ensures Shape(r, |err|, |h|)
  { seq(|W|, i requires 0 <= i < |W| => Minus(W[i], Scaled(Nudge(err, lr, i), h))) }

  function SteppedB(b: Vector, err: Vector, lr: real): (r: Vector)
    requires |b| == |err|
    ensures |r| == |err|
  { seq(|b|, i requires 0 <= i < |b| => b[i] - Nudge(err, lr, i)) }

  class NumpyReadout {
    var W: Matrix
    var b: Vector

    constructor (W: Matrix, b: Vector, units: nat)
      requires b != [] && Shape(W, |b|, units)
      ensures this.W == W && this.b == b
    {
      this.W, this.b := W, b;
    }

    /** One gradient step; the loss returned is the one before it. */
    method SgdStep(h: Vector, target: Vector, lr: real) returns (loss: real)
      requires ReadoutOk(W, b, h, target)
      modifies this
      ensures ReadoutOk(W, b, h, target)
      ensures var err := Error(old(W), old(b), h, target);
              && loss == MeanSquare(err)
              && W == SteppedW(old(W), err, h, lr) && b == SteppedB(old(b), err, lr)
              && Error(W, b, h, target) == Scaled(Factor(|err|, lr, h), err)
    {
      var err := Minus(Affine(W, b, h), target);
      loss := MeanSquare(err);
      StepScalesError(W, b, h, target, lr);
      W := SteppedW(W, err, h, lr);
      b := SteppedB(b, err, lr);
    }
  }

  /** What one step multiplies the error by. */
  function Factor(out: nat, lr: real, h: Vector): real
    requires out > 0
  { 1.0 - (2.0 * lr / out as real) * (SumSquares(h) + 1.0) }

  lemma SameVector(u: Vector, v: Vector)
    requires |u| == |v| && forall i | 0 <= i < |u| :: u[i] == v[i]
    ensures u == v
  {}

  lemma {:induction false} DotMinus(u: Vector, v: Vector, h: Vector)
    requires |u| == |v| == |h|
    ensures Dot(Minus(u, v), h) == Dot(u, h) - Dot(v, h)
  {
    if u != [] {
      SameVector(Minus(u, v)[1..], Minus(u[1..], v[1..]));
      DotMinus(u[1..], v[1..], h[1..]);
      MinusProduct(u[0], v[0], h[0]);
    }
  }

  lemma MinusProduct(a: real, b: real, x: real)
    ensures (a - b) * x == a * x - b * x
  {}

  lemma {:induction false} DotScaled(k: real, v: Vector)
    ensures Dot(Scaled(k, v), v) == k * SumSquares(v)
  {
    if v != [] {
      SameVector(Scaled(k, v)[1..], Scaled(k, v[1..]));
      DotScaled(k, v[1..]);
      ScaledProduct(k, v[0], SumSquares(v[1..]));
    }
  }

  lemma ScaledProduct(k: real, a: real, rest: real)
    ensures (k * a) * a + k * rest == k * (a * a + rest)
  {
    assert (k * a) * a == k * (a * a);
  }

  lemma DotMinusScaled(u: Vector, k: real, h: Vector)
    requires |u| == |h|
    ensures Dot(Minus(u, Scaled(k, h)), h) == Dot(u, h) - k * SumSquares(h)
  {
    DotMinus(u, Scaled(k, h), h);
    DotScaled(k, h);
  }

  lemma FactorArithmetic(e: real, lr: real, n: real, s: real, k: real, f: real)
    requires n > 0.0 && k == lr * (2.0 / n * e) && f == 1.0 - (2.0 * lr / n) * (s + 1.0)
    ensures e - k * s - k == f * e
  {
    var c := 2.0 / n;
    assert 2.0 * lr / n == lr * c && k == (lr * c) * e;
    var m := lr * c;
    assert (m * (s + 1.0)) * e == (m * e) * s + m * e;
    assert f * e == e - (m * (s + 1.0)) * e;
  }

  /** One output after its weights and bias moved by `k`. */
  lemma SteppedRow(row: Vector, bias: real, h: Vector, target: real, k: real)
    requires |row| == |h|
    ensures Dot(Minus(row, Scaled(k, h)), h) + (bias - k) - target == (Dot(row, h) + bias - target) - k * SumSquares(h) - k
  {
    DotMinusScaled(row, k, h);
  }

  lemma StepScalesOne(W: Matrix, b: Vector, h: Vector, target: Vector, lr: real, i: nat)
    requires ReadoutOk(W, b, h, target) && i < |b|
    ensures var err := Error(W, b, h, target);
            Error(SteppedW(W, err, h, lr), SteppedB(b, err, lr), h, target)[i] == Scaled(Factor(|err|, lr, h), err)[i]
  {
    var err := Error(W, b, h, target);
    var k := Nudge(err, lr, i);
    SteppedRow(W[i], b[i], h, target[i], k);
    FactorArithmetic(err[i], lr, |err| as real, SumSquares(h), k, Factor(|err|, lr, h));
  }

  /** The error after a step is the error before it, scaled. */
  lemma StepScalesError(W: Matrix, b: Vector, h: Vector, target: Vector, lr: real)
    requires ReadoutOk(W, b, h, target)
    ensures var err := Error(W, b, h, target);
            && ReadoutOk(SteppedW(W, err, h, lr), SteppedB(b, err, lr), h, target)
            && Error(SteppedW(W, err, h, lr), SteppedB(b, err, lr), h, target) == Scaled(Factor(|err|, lr, h), err)
  {
    var err := Error(W, b, h, target);
    var now, scaled := Error(SteppedW(W, err, h, lr), SteppedB(b, err, lr), h, target), Scaled(Factor(|err|, lr, h), err);
    forall i | 0 <= i < |err| ensures now[i] == scaled[i] { StepScalesOne(W, b, h, target, lr, i); }
    SameVector(now, scaled);
  }

  lemma {:induction false} SumSquaresScaled(k: real, v: Vector)
    ensures SumSquares(Scaled(k, v)) == k * k * SumSquares(v)
  {
    if v != [] {
      SameVector(Scaled(k, v)[1..], Scaled(k, v[1..]));
      SumSquaresScaled(k, v[1..]);
      ScaledSquare(k, v[0], SumSquares(v[1..]));
    }
  }

  lemma ScaledSquare(k: real, a: real, rest: real)
    ensures (k * a) * (k * a) + k * k * rest == k * k * (a * a + rest)
  {
    assert (k * a) * (k * a) == k * k * (a * a);
  }

  lemma {:induction false} SumSquaresNonNegative(v: Vector)
    ensures SumSquares(v) >= 0.0
  {
    if v != [] {
      SumSquaresNonNegative(v[1..]);
      assert v[0] * v[0] >= 0.0;
    }
  }

  lemma {:induction false} SumSquaresBounded(h: Vector)
    requires Bounded(h)
    ensures SumSquares(h) <= |h| as real
  {
    if h != [] {
      SumSquaresBounded(h[1..]);
      Product(1.0 - h[0], 1.0 + h[0]);
      assert (1.0 - h[0]) * (1.0 + h[0]) == 1.0 - h[0] * h[0];
    }
  }

  lemma SquareShrinksExactly(f: real, s: real)
    requires s > 0.0
    ensures f * f * s <= s <==> -1.0 <= f <= 1.0
  {
    if -1.0 <= f <= 1.0 {
      assert (1.0 - f) * (1.0 + f) >= 0.0;
      assert f * f <= 1.0;
      assert (1.0 - f * f) * s >= 0.0;
    } else {
      assert (f > 1.0 ==> f * f > 1.0) && (f < -1.0 ==> f * f > 1.0);
      assert (f * f - 1.0) * s > 0.0;
    }
  }

  // ------------------------------------------------------------------ the gradient

  /** The loss on one sample. */
  function Loss(W: Matrix, b: Vector, h: Vector, target: Vector): real
    requires ReadoutOk(W, b, h, target)
  { MeanSquare(Error(W, b, h, target)) }

  lemma {:induction false} DotNudged(row: Vector, h: Vector, j: nat, d: real)
    requires |row| == |h| && j < |row|
    ensures Dot(row[j := row[j] + d], h) == Dot(row, h) + d * h[j]
  {
    var moved := row[j := row[j] + d];
    if j == 0 {
      assert moved[1..] == row[1..];
    } else {
      DotNudged(row[1..], h[1..], j - 1, d);
      assert moved[1..] == row[1..][j - 1 := row[1..][j - 1] + d];
    }
  }

  lemma {:induction false} SquaresNudged(v: Vector, i: nat, e: real)
    requires i < |v|
    ensures SumSquares(v[i := v[i] + e]) == SumSquares(v) + 2.0 * v[i] * e + e * e
  {
    var moved := v[i := v[i] + e];
    if i == 0 {
      assert moved[1..] == v[1..];
    } else {
      SquaresNudged(v[1..], i - 1, e);
      assert moved[1..] == v[1..][i - 1 := v[1..][i - 1] + e];
    }
  }

  lemma LossNudged(err: Vector, moved: Vector, i: nat, e: real)
    requires i < |err| && moved == err[i := err[i] + e]
    ensures MeanSquare(moved) - MeanSquare(err) == (2.0 / |err| as real * err[i]) * e + e * e / |err| as real
  {
    SquaresNudged(err, i, e);
    Spread(SumSquares(err), err[i], e, |err| as real);
  }

  lemma Spread(s: real, a: real, e: real, n: real)
    requires n > 0.0
    ensures (s + 2.0 * a * e + e * e) / n - s / n == (2.0 / n * a) * e + e * e / n
  {
    var k := 1.0 / n;
    assert (s + 2.0 * a * e + e * e) / n == (s + 2.0 * a * e + e * e) * k && s / n == s * k;
    assert e * e / n == e * e * k && 2.0 / n == 2.0 * k;
    assert (s + 2.0 * a * e + e * e) * k == s * k + 2.0 * a * e * k + e * e * k;
  }

  lemma ErrorNudged(W: Matrix, b: Vector, h: Vector, target: Vector, i: nat, j: nat, d: real)
    requires ReadoutOk(W, b, h, target) && i < |b| && j < |h|
    ensures var moved := W[i := W[i][j := W[i][j] + d]]; var err := Error(W, b, h, target);
            ReadoutOk(moved, b, h, target) && Error(moved, b, h, target) == err[i := err[i] + d * h[j]]
  {
    var moved, err := W[i := W[i][j := W[i][j] + d]], Error(W, b, h, target);
    DotNudged(W[i], h, j, d);
    forall k | 0 <= k < |b| ensures Error(moved, b, h, target)[k] == err[i := err[i] + d * h[j]][k] {
      assert Error(moved, b, h, target)[k] == Dot(moved[k], h) + b[k] - target[k];
      assert err[k] == Dot(W[k], h) + b[k] - target[k];
    }
    SameVector(Error(moved, b, h, target), err[i := err[i] + d * h[j]]);
  }

  lemma LossMoved(W: Matrix, moved: Matrix, b: Vector, h: Vector, target: Vector, i: nat, e: real)
    requires ReadoutOk(W, b, h, target) && ReadoutOk(moved, b, h, target) && i < |b|
    requires Error(moved, b, h, target) == Error(W, b, h, target)[i := Error(W, b, h, target)[i] + e]
    ensures Loss(moved, b, h, target) - Loss(W, b, h, target)
         == (2.0 / |b| as real * Error(W, b, h, target)[i]) * e + e * e / |b| as real
  {
    LossNudged(Error(W, b, h, target), Error(moved, b, h, target), i, e);
  }

  /** What the loss does when one weight moves by `d`, and with it one output by `e`: the change is `d` times
      the gradient, up to the square of `d`. */
  lemma WeightGradient(W: Matrix, b: Vector, h: Vector, target: Vector, i: nat, j: nat, d: real, e: real)
    requires ReadoutOk(W, b, h, target) && i < |b| && j < |h| && e == d * h[j]
    ensures var moved := W[i := W[i][j := W[i][j] + d]]; var err := Error(W, b, h, target);
            && ReadoutOk(moved, b, h, target)
            && Loss(moved, b, h, target) - Loss(W, b, h, target) == (2.0 / |b| as real * err[i]) * e + e * e / |b| as real
  {
    ErrorNudged(W, b, h, target, i, j, d);
    LossMoved(W, W[i := W[i][j := W[i][j] + d]], b, h, target, i, e);
  }

  lemma BiasGradient(W: Matrix, b: Vector, h: Vector, target: Vector, i: nat, d: real)
    requires ReadoutOk(W, b, h, target) && i < |b|
    ensures var moved := b[i := b[i] + d]; var err := Error(W, b, h, target);
            && ReadoutOk(W, moved, h, target)
            && Loss(W, moved, h, target) - Loss(W, b, h, target) ==
               (2.0 / |b| as real * err[i]) * d + d * d / |b| as real
  {
    var moved, err := b[i := b[i] + d], Error(W, b, h, target);
    SameVector(Error(W, moved, h, target), err[i := err[i] + d]);
    LossNudged(err, Error(W, moved, h, target), i, d);
  }

  /** The step goes against that gradient, at the learning rate. */
  lemma StepFollowsGradient(W: Matrix, b: Vector, h: Vector, target: Vector, lr: real, i: nat, j: nat)
    requires ReadoutOk(W, b, h, target) && i < |b| && j < |h|
    ensures var err := Error(W, b, h, target); var slope := 2.0 / |b| as real * err[i];
            && SteppedW(W, err, h, lr)[i][j] == W[i][j] - lr * (slope * h[j])
            && SteppedB(b, err, lr)[i] == b[i] - lr * slope
  {
    var err := Error(W, b, h, target);
    var slope := 2.0 / |b| as real * err[i];
    assert (lr * slope) * h[j] == lr * (slope * h[j]);
  }

  /** The rate times |h|^2 + 1 lies between zero and the number of outputs. */
  predicate RateOk(out: nat, lr: real, h: Vector) { 0.0 <= lr * (SumSquares(h) + 1.0) <= out as real }

  /** The loss on the sample does not grow exactly when the learning rate lies between zero and the
      number of outputs over (|h|^2 + 1); with no error it cannot grow at all. */
  lemma LossShrinksExactly(err: Vector, lr: real, h: Vector)
    requires err != [] && SumSquares(err) > 0.0
    ensures MeanSquare(Scaled(Factor(|err|, lr, h), err)) <= MeanSquare(err)
            <==> RateOk(|err|, lr, h)
  {
    var f := Factor(|err|, lr, h);
    MeanOrder(Scaled(f, err), err);
    SumSquaresShrink(f, err);
    FactorInRange(|err|, lr, h);
  }

  lemma FactorInRange(out: nat, lr: real, h: Vector)
    requires out > 0
    ensures -1.0 <= Factor(out, lr, h) <= 1.0 <==> RateOk(out, lr, h)
  {
    var q, n := SumSquares(h) + 1.0, out as real;
    FactorRange(lr, q, n);
    assert Factor(out, lr, h) == 1.0 - (2.0 * lr / n) * q;
    assert RateOk(out, lr, h) <==> 0.0 <= lr * q <= n;
  }

  lemma MeanOrder(u: Vector, v: Vector)
    requires |u| == |v| > 0
    ensures MeanSquare(u) <= MeanSquare(v) <==> SumSquares(u) <= SumSquares(v)
  {
    DivisionKeepsOrder(SumSquares(u), SumSquares(v), |u| as real);
  }

  lemma SumSquaresShrink(f: real, v: Vector)
    requires SumSquares(v) > 0.0
    ensures SumSquares(Scaled(f, v)) <= SumSquares(v) <==> -1.0 <= f <= 1.0
  {
    SumSquaresScaled(f, v);
    SquareShrinksExactly(f, SumSquares(v));
  }

  lemma FactorRange(lr: real, q: real, n: real)
    requires n > 0.0
    ensures -1.0 <= 1.0 - (2.0 * lr / n) * q <= 1.0 <==> 0.0 <= lr * q <= n
  {
    FactorIs(lr, q, n);
    RatioRange(lr * q, n);
  }

  lemma FactorIs(lr: real, q: real, n: real)
    requires n > 0.0
    ensures 1.0 - (2.0 * lr / n) * q == 1.0 - 2.0 * (lr * q / n)
  {
    var k := 1.0 / n;
    assert 2.0 * lr / n == 2.0 * lr * k && lr * q / n == lr * q * k;
  }

  lemma DivisionKeepsOrder(a: real, b: real, n: real)
    requires n > 0.0
    ensures a / n <= b / n <==> a <= b
  {
    assert (a / n) * n == a && (b / n) * n == b;
  }

  lemma RatioRange(p: real, n: real)
    requires n > 0.0
    ensures 0.0 <= p / n <= 1.0 <==> 0.0 <= p <= n
  {
    assert (p / n) * n == p;
  }

  /** For a bounded hidden state a rate of at most out / (units + 1) is always safe. */
  lemma SafeRate(err: Vector, lr: real, h: Vector)
    requires err != [] && Bounded(h) && lr >= 0.0 && lr * (|h| as real + 1.0) <= |err| as real
    ensures MeanSquare(Scaled(Factor(|err|, lr, h), err)) <= MeanSquare(err)
  {
    SafeRateOk(|err|, lr, h);
    SumSquaresNonNegative(err);
    if SumSquares(err) > 0.0 {
      LossShrinksExactly(err, lr, h);
    } else {
      NoErrorStays(Factor(|err|, lr, h), err);
    }
  }

  lemma SafeRateOk(out: nat, lr: real, h: Vector)
    requires Bounded(h) && lr >= 0.0 && lr * (|h| as real + 1.0) <= out as real
    ensures RateOk(out, lr, h)
  {
    SumSquaresBounded(h);
    SumSquaresNonNegative(h);
    Product(lr, |h| as real - SumSquares(h));
    Product(lr, SumSquares(h) + 1.0);
  }

  lemma NoErrorStays(f: real, err: Vector)
    requires err != [] && SumSquares(err) == 0.0
    ensures MeanSquare(Scaled(f, err)) == MeanSquare(err)
  {
    SumSquaresScaled(f, err);
  }

  function Power(f: real, n: nat): real { if n == 0 then 1.0 else f * Power(f, n - 1) }

  /** The error after `n` steps on one sample. */
  function ErrorAfter(W: Matrix, b: Vector, h: Vector, target: Vector, lr: real, n: nat): Vector
    requires ReadoutOk(W, b, h, target)
    decreases n
  {
    if n == 0 then Error(W, b, h, target)
    else
      var err := Error(W, b, h, target);
      StepScalesError(W, b, h, target, lr);
      ErrorAfter(SteppedW(W, err, h, lr), SteppedB(b, err, lr), h, target, lr, n - 1)
  }

  lemma ScaledTwice(p: real, f: real, v: Vector)
    ensures Scaled(p, Scaled(f, v)) == Scaled(f * p, v)
  {
    var l, r := Scaled(p, Scaled(f, v)), Scaled(f * p, v);
    forall i | 0 <= i < |v| ensures l[i] == r[i] { assert p * (f * v[i]) == (f * p) * v[i]; }
    assert l == r;
  }

  /** Repeated steps on one sample shrink its error geometrically. */
  lemma {:induction false} RepeatedSteps(W: Matrix, b: Vector, h: Vector, target: Vector, lr: real, n: nat)
    requires ReadoutOk(W, b, h, target)
    ensures ErrorAfter(W, b, h, target, lr, n) == Scaled(Power(Factor(|b|, lr, h), n), Error(W, b, h, target))
    decreases n
  {
    var err := Error(W, b, h, target);
    if n == 0 {
      forall i | 0 <= i < |err| ensures Scaled(1.0, err)[i] == err[i] {}
      assert Scaled(1.0, err) == err;
    } else {
      StepScalesError(W, b, h, target, lr);
      RepeatedSteps(SteppedW(W, err, h, lr), SteppedB(b, err, lr), h, target, lr, n - 1);
      var f, p := Factor(|b|, lr, h), Power(Factor(|b|, lr, h), n - 1);
      ScaledTwice(p, f, err);
      assert Power(f, n) == f * p;
    }
  }
}
