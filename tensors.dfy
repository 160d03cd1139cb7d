/**
 * The arithmetic of the feed-forward network with doubles read as reals:
 * a neuron's net input, the sigmoid derivative, the error terms (deltas) of
 * back-propagation, the momentum weight change and the random initial weight.
 * It also gives read-only views of the `double[][]` weight matrices
 * (`array2<real>`, row j holding neuron j's incoming weights, column 0 the bias).
 */
module Tensors {

  /** The inner product of `a` with the first |a| entries of `b`. */
  function Dot(a: seq<real>, b: seq<real>): real
    requires |a| <= |b|
  {
    if a == [] then 0.0 else a[0] * b[0] + Dot(a[1..], b[1..])
  }

  /** Dot read from the back: the next entry of an ascending loop adds on at the end. */
  lemma {:induction false} DotSnoc(a: seq<real>, b: seq<real>, n: nat)
    requires n < |a| <= |b|
    ensures Dot(a[..n + 1], b) == Dot(a[..n], b) + a[n] * b[n]
  {
    if n > 0 {
      assert a[..n + 1][1..] == a[1..][..n];
      assert a[..n][1..] == a[1..][..n - 1];
      DotSnoc(a[1..], b[1..], n - 1);
    }
  }

  /**
   * The net input of a neuron with incoming weights `row`, as the ascending
   * loop of `feedForward` sums it: the bias `row[0]` first, then
   * `row[k] * x[k-1]` for k = 1, 2, ...
   */
  function Net(row: seq<real>, x: seq<real>): real
    requires 1 <= |row| && |row| - 1 <= |x|
  {
    if |row| == 1 then row[0] else Net(row[..|row| - 1], x) + row[|row| - 1] * x[|row| - 2]
  }

  /**
   * The bias is the weight of a constant input 1 placed before the previous
   * layer's outputs, so the net input is the inner product with [1] + x.
   */
  lemma {:induction false} NetIsDot(row: seq<real>, x: seq<real>)
    requires 1 <= |row| && |row| - 1 <= |x|
    ensures Net(row, x) == Dot(row, [1.0] + x)
  {
    var n := |row|;
    if n == 1 {
      assert row[1..] == [];
    } else {
      var init := row[..n - 1];
      NetIsDot(init, x);
      DotSnoc(row, [1.0] + x, n - 1);
      assert row[..n] == row;
      assert ([1.0] + x)[n - 1] == x[n - 2];
    }
  }

  /** The input that column k of a weight row multiplies: 1 for the bias, else x[k-1]. */
  function Input(x: seq<real>, k: nat): real
    requires k <= |x|
  {
    if k == 0 then 1.0 else x[k - 1]
  }

  /** `sigmoidDerivative(s) = s (1 - s)`, the slope of the sigmoid at output s. */
  function SigmoidDerivative(s: real): (d: real)
    ensures 0.0 <= s <= 1.0 ==> 0.0 <= d <= 0.25
  {
    assert s * (1.0 - s) == 0.25 - (s - 0.5) * (s - 0.5);
    if 0.0 <= s <= 1.0 then
      assert s * (1.0 - s) >= 0.0 by { MulNonNegative(s, 1.0 - s); }
      s * (1.0 - s)
    else
      s * (1.0 - s)
  }

  /**
   * The slope of tanh at a point whose tanh is `th`: 1 - th^2. It never
   * exceeds 1, reaches 1 at th = 0, and is non-negative for th in [-1, 1].
   * This is the legacy network's private `tanhDerivative`, which neither
   * network calls: both train with the sigmoid derivative.
   */
  function TanhDerivative(th: real): (d: real)
    ensures d <= 1.0
    ensures -1.0 <= th <= 1.0 ==> 0.0 <= d
    ensures th == 0.0 ==> d == 1.0
  {
    SquareBounds(th);
    1.0 - th * th
  }

  /** A square is non-negative, and at most 1 on [-1, 1]. */
  lemma SquareBounds(x: real)
    ensures 0.0 <= x * x
    ensures -1.0 <= x <= 1.0 ==> x * x <= 1.0
  {
    if x < 0.0 {
      MulPositive(-x, -x);
      assert (-x) * (-x) == x * x;
    } else {
      MulNonNegative(x, x);
    }
    if -1.0 <= x <= 1.0 {
      MulNonNegative(1.0 - x, 1.0 + x);
      assert (1.0 - x) * (1.0 + x) == 1.0 - x * x;
    }
  }

  lemma MulNonNegative(a: real, b: real)
    requires 0.0 <= a && 0.0 <= b
    ensures 0.0 <= a * b
  {
  }

  lemma MulPositive(a: real, b: real)
    requires 0.0 < a && 0.0 < b
    ensures 0.0 < a * b
  {
  }

  /** The error term of output neuron with output s and target `desired`. */
  function OutputDelta(s: real, desired: real): real
  {
    SigmoidDerivative(s) * (desired - s)
  }

  /**
   * For an output strictly inside (0, 1) the error term pushes towards the
   * target: positive exactly when the target is above the output, negative
   * exactly when it is below, zero when they agree.
   */
  lemma OutputDeltaSign(s: real, desired: real)
    requires 0.0 < s < 1.0
    ensures OutputDelta(s, desired) > 0.0 <==> desired > s
    ensures OutputDelta(s, desired) < 0.0 <==> desired < s
    ensures OutputDelta(s, desired) == 0.0 <==> desired == s
  {
    var g := SigmoidDerivative(s);
    MulPositive(s, 1.0 - s);
    assert g > 0.0;
    assert OutputDelta(s, desired) == g * (desired - s);
    if desired > s {
      MulPositive(g, desired - s);
    } else if desired < s {
      MulPositive(g, s - desired);
      MulDistributes(g, desired - s, s - desired);
      assert g * (desired - s) + g * (s - desired) == 0.0;
    }
  }

  /**
   * The error term of hidden neuron j with output s: the slope at s times the
   * sum, over the neurons k of the next layer, of the weight from j to k
   * (column j+1 of the next weight matrix) times k's error term.
   */
  function HiddenDelta(s: real, outgoing: seq<real>, nextDeltas: seq<real>): real
    requires |outgoing| <= |nextDeltas|
  {
    SigmoidDerivative(s) * Dot(outgoing, nextDeltas)
  }

  /**
   * The weight change of back-propagation with momentum: the learning rate
   * times the error term times the input, plus the momentum times the
   * previous change.
   */
  function Increment(learningRate: real, momentum: real, delta: real, input: real, previous: real): real
  {
    learningRate * (delta * input) + momentum * previous
  }

  /**
   * The stored change after a run of updates from a zero history, where
   * `steps[t]` is the gradient step learningRate * delta * input of update t.
   */
  function History(steps: seq<real>, momentum: real): real
  {
    if steps == [] then 0.0
    else steps[|steps| - 1] + momentum * History(steps[..|steps| - 1], momentum)
  }

  function Power(b: real, e: nat): real
  {
    if e == 0 then 1.0 else b * Power(b, e - 1)
  }

  /** Sum over t of momentum^(age of step t) times step t: the exponentially discounted steps. */
  function Discounted(steps: seq<real>, momentum: real): real
  {
    if steps == [] then 0.0
    else Power(momentum, |steps| - 1) * steps[0] + Discounted(steps[1..], momentum)
  }

  /**
   * Momentum unrolled: starting from the zero history that the constructor and
   * `initialiseWeights` set up, the stored change is the sum of all gradient
   * steps so far, each discounted by the momentum once per later update.
   */
  lemma {:induction false} HistoryIsDiscounted(steps: seq<real>, momentum: real)
    ensures History(steps, momentum) == Discounted(steps, momentum)
  {
    if steps != [] {
      var init := steps[..|steps| - 1];
      HistoryIsDiscounted(init, momentum);
      DiscountedSnoc(init, steps[|steps| - 1], momentum);
      assert init + [steps[|steps| - 1]] == steps;
    }
  }

  lemma {:induction false} DiscountedSnoc(s: seq<real>, g: real, momentum: real)
    ensures Discounted(s + [g], momentum) == g + momentum * Discounted(s, momentum)
  {
    if s == [] {
      DiscountedSingle(s, g, momentum);
    } else {
      var rest, sg := s[1..], s + [g];
      assert sg[1..] == rest + [g] && sg[0] == s[0] && |sg| - 1 == |s|;
      DiscountedSnoc(rest, g, momentum);
      var p, dr := Power(momentum, |s| - 1), Discounted(rest, momentum);
      assert Power(momentum, |s|) == momentum * p;
      assert Discounted(s, momentum) == p * s[0] + dr;
      assert Discounted(sg, momentum) == (momentum * p) * s[0] + (g + momentum * dr);
      Regroup(momentum, p, s[0], dr, g);
    }
  }

  /** A single step is not discounted. */
  lemma DiscountedSingle(s: seq<real>, g: real, momentum: real)
    requires s == []
    ensures Discounted(s + [g], momentum) == g + momentum * Discounted(s, momentum)
  {
    assert s + [g] == [g] && [g][1..] == [];
    assert Discounted([g], momentum) == 1.0 * g + 0.0;
  }

  /** The algebra of one more discounted step: m p a + (g + m d) = g + m (p a + d). */
  lemma Regroup(m: real, p: real, a: real, d: real, g: real)
    ensures (m * p) * a + (g + m * d) == g + m * (p * a + d)
  {
    MulAssociates(m, p, a);
    MulDistributes(m, p * a, d);
  }

  /** A draw r in [0, 1) scaled to [min, max) and shifted by min stays within the interval. */
  lemma DrawBounds(r: real, min: real, max: real)
    requires 0.0 <= r < 1.0
    ensures min <= max ==> min <= r * (max - min) + min <= max
    ensures min < max ==> r * (max - min) + min < max
  {
    if min <= max {
      MulNonNegative(r, max - min);
      MulNonNegative(1.0 - r, max - min);
      assert (1.0 - r) * (max - min) == (max - min) - r * (max - min);
      if min < max {
        MulPositive(1.0 - r, max - min);
      }
    }
  }

  lemma MulDistributes(a: real, b: real, c: real)
    ensures a * (b + c) == a * b + a * c
  {
  }

  lemma MulAssociates(a: real, b: real, c: real)
    ensures (a * b) * c == a * (b * c)
  {
  }

  /**
   * `getRandom(prng, min, max) = prng.nextDouble() * (max - min) + min` for a
   * draw r in [0, 1): it lies in [min, max] when min <= max, below max when
   * min < max.
   */
  function RandomWeight(r: real, min: real, max: real): (x: real)
    requires 0.0 <= r < 1.0
    ensures min <= max ==> min <= x <= max
    ensures min < max ==> x < max
  {
    DrawBounds(r, min, max);
    r * (max - min) + min
  }

  /** Row j of a weight matrix: neuron j's incoming weights, bias first. */
  ghost function Row(m: array2<real>, j: nat): (r: seq<real>)
    requires j < m.Length0
    reads m
    ensures |r| == m.Length1
  {
    seq(m.Length1, k requires 0 <= k < m.Length1 reads m => m[j, k])
  }

  /** A weight matrix as a sequence of its rows. */
  ghost function Matrix(m: array2<real>): (r: seq<seq<real>>)
    reads m
    ensures |r| == m.Length0 && forall j :: 0 <= j < |r| ==> r[j] == Row(m, j)
  {
    seq(m.Length0, j requires 0 <= j < m.Length0 reads m => Row(m, j))
  }

  /** Every row of `rows` has `width` entries. */
  predicate Rectangular(rows: seq<seq<real>>, width: nat)
  {
    forall j :: 0 <= j < |rows| ==> |rows[j]| == width
  }

  /** Column c of a matrix: the weights from input c-1 (c = 0: the bias) to every neuron. */
  function ColumnOf(rows: seq<seq<real>>, c: nat): (r: seq<real>)
    requires forall j :: 0 <= j < |rows| ==> c < |rows[j]|
    ensures |r| == |rows| && forall j :: 0 <= j < |rows| ==> r[j] == rows[j][c]
  {
    seq(|rows|, j requires 0 <= j < |rows| && c < |rows[j]| => rows[j][c])
  }

  /**
   * The outputs of one layer: neuron j applies the activation to its net
   * input over the previous layer's outputs `prev`.
   */
  function LayerOutputs(rows: seq<seq<real>>, width: nat, prev: seq<real>, act: real -> real): (r: seq<real>)
    requires 1 <= width && Rectangular(rows, width) && (|rows| > 0 ==> width - 1 <= |prev|)
    ensures |r| == |rows|
  {
    seq(|rows|, j requires 0 <= j < |rows| => act(Net(rows[j], prev)))
  }

  /** The error terms of the output layer for outputs `out` and targets `desired`. */
  function OutputErrors(out: seq<real>, desired: seq<real>): (r: seq<real>)
    requires |out| <= |desired|
    ensures |r| == |out|
  {
    seq(|out|, i requires 0 <= i < |out| => OutputDelta(out[i], desired[i]))
  }

  /**
   * The error terms of a hidden layer with outputs `s`, given the next
   * layer's weight rows (one per neuron k of the next layer, of width
   * |s| + 1) and error terms.
   */
  function HiddenErrors(next: seq<seq<real>>, nextDeltas: seq<real>, s: seq<real>): (r: seq<real>)
    requires |next| <= |nextDeltas| && Rectangular(next, |s| + 1)
    ensures |r| == |s|
  {
    seq(|s|, j requires 0 <= j < |s| => HiddenDelta(s[j], ColumnOf(next, j + 1), nextDeltas))
  }

  /**
   * Hidden error terms never read the bias column: two weight matrices that
   * agree everywhere except in column 0 give the same error terms.
   */
  lemma HiddenErrorsIgnoreBias(next: seq<seq<real>>, other: seq<seq<real>>, nextDeltas: seq<real>, s: seq<real>)
    requires |next| <= |nextDeltas| && Rectangular(next, |s| + 1)
    requires |other| == |next| && Rectangular(other, |s| + 1)
    requires forall k, c :: 0 <= k < |next| && 1 <= c <= |s| ==> next[k][c] == other[k][c]
    ensures HiddenErrors(next, nextDeltas, s) == HiddenErrors(other, nextDeltas, s)
  {
    var a, b := HiddenErrors(next, nextDeltas, s), HiddenErrors(other, nextDeltas, s);
    forall j | 0 <= j < |s|
      ensures a[j] == b[j]
    {
      assert ColumnOf(next, j + 1) == ColumnOf(other, j + 1);
    }
  }

  /**
   * One momentum step extends the history: the increment computed from a
   * stored change equal to History(steps) is History of the steps followed by
   * this update's gradient step.
   */
  lemma IncrementExtendsHistory(steps: seq<real>, learningRate: real, momentum: real, delta: real, input: real)
    ensures Increment(learningRate, momentum, delta, input, History(steps, momentum))
            == History(steps + [learningRate * (delta * input)], momentum)
  {
    assert (steps + [learningRate * (delta * input)])[..|steps|] == steps;
  }
}
