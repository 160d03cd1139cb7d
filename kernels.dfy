/**
 * The loops of the feed-forward network over its arrays, shared by both
 * copies of `ANN`. The network's `double[][][] weights` and `preDW` are
 * sequences of `array2<real>` layers (layer i a structure[i+1] x
 * (structure[i]+1) matrix), its `double[][] outputs` and `deltas` sequences
 * of `array<real>` buffers: the code writes into the layers and buffers,
 * never into the outer arrays that list them. Each method states its effect
 * through the specifications of `Tensors`.
 */
module Kernels {
  import opened Common
  import opened Tensors

  /** Layer i of `t` is a structure[i+1] x (structure[i]+1) matrix. */
  predicate TensorShape(t: seq<array2<real>>, structure: seq<nat>)
  {
    && |t| + 1 == |structure|
    && forall i :: 0 <= i < |t| ==> t[i].Length0 == structure[i + 1] && t[i].Length1 == structure[i] + 1
  }

  /** No two layers of `t` are the same array. */
  predicate DistinctLayers(t: seq<array2<real>>)
  {
    forall a, b :: 0 <= a < |t| && 0 <= b < |t| && a != b ==> t[a] != t[b]
  }

  /** Every entry of every layer of `t` is 0. */
  ghost predicate Zero(t: seq<array2<real>>)
    reads t
  {
    forall i, j, k :: 0 <= i < |t| && 0 <= j < t[i].Length0 && 0 <= k < t[i].Length1 ==> t[i][j, k] == 0.0
  }

  /**
   * `outputs[i]` holds layer i's outputs (layer 0: the last instance fed,
   * of any length) and `deltas[i]` the error terms of layer i+1.
   */
  predicate BuffersShaped(outputs: seq<array<real>>, deltas: seq<array<real>>, structure: seq<nat>)
  {
    && |structure| >= 1
    && |outputs| == |structure|
    && |deltas| + 1 == |structure|
    && (forall i :: 1 <= i < |outputs| ==> outputs[i].Length == structure[i])
    && (forall i :: 0 <= i < |deltas| ==> deltas[i].Length == structure[i + 1])
  }

  /**
   * The input layer's outputs cover every input of layer 1, or layer 1 reads
   * none of them (there is no layer 1, or it has no neuron).
   */
  predicate InputCovered(outputs: seq<array<real>>, structure: seq<nat>)
  {
    |outputs| == 0 || |structure| < 2 || structure[1] == 0 || outputs[0].Length >= structure[0]
  }

  /** No array is shared between two buffer slots. */
  predicate DistinctBuffers(outputs: seq<array<real>>, deltas: seq<array<real>>)
  {
    && (forall a, b :: 0 <= a < |outputs| && 0 <= b < |outputs| && a != b ==> outputs[a] != outputs[b])
    && (forall a, b :: 0 <= a < |deltas| && 0 <= b < |deltas| && a != b ==> deltas[a] != deltas[b])
    && (forall a, b :: 0 <= a < |outputs| && 0 <= b < |deltas| ==> outputs[a] != deltas[b])
  }

  /** Two tensors of which no layer is shared, within one tensor or between the two. */
  predicate Separate(weights: seq<array2<real>>, preDW: seq<array2<real>>)
  {
    && DistinctLayers(weights)
    && DistinctLayers(preDW)
    && (forall a, b :: 0 <= a < |weights| && 0 <= b < |preDW| ==> weights[a] != preDW[b])
  }

  /** The shape and separation invariant of a network's arrays. */
  predicate Wellformed(structure: seq<nat>, weights: seq<array2<real>>, preDW: seq<array2<real>>,
                       outputs: seq<array<real>>, deltas: seq<array<real>>)
  {
    && TensorShape(weights, structure)
    && TensorShape(preDW, structure)
    && Separate(weights, preDW)
    && BuffersShaped(outputs, deltas, structure)
    && DistinctBuffers(outputs, deltas)
  }

  /** One layer of `feedForward`: each neuron's activated net input, in ascending order. */
  method ForwardLayer(w: array2<real>, prev: array<real>, out: array<real>, act: real -> real)
    requires w.Length0 == out.Length && 1 <= w.Length1 && (w.Length0 > 0 ==> w.Length1 - 1 <= prev.Length) && out != prev
    modifies out
    ensures out[..] == LayerOutputs(Matrix(w), w.Length1, prev[..], act)
  {
    for j := 0 to out.Length
      invariant forall j' :: 0 <= j' < j ==> out[j'] == act(Net(Row(w, j'), prev[..]))
    {
      ghost var row := Row(w, j);
      var sum := w[j, 0];
      assert row[..1] == [sum];
      for k := 1 to w.Length1
        invariant sum == Net(row[..k], prev[..])
      {
        assert row[..k + 1][..k] == row[..k];
        sum := sum + w[j, k] * prev[k - 1];
      }
      assert row[..w.Length1] == row;
      out[j] := act(sum);
    }
  }

  /** The layer loop of `feedForward`: layers 1, 2, ... each from the one before. */
  method Forward(structure: seq<nat>, weights: seq<array2<real>>, outputs: seq<array<real>>,
                 deltas: seq<array<real>>, act: real -> real)
    requires TensorShape(weights, structure)
    requires BuffersShaped(outputs, deltas, structure) && DistinctBuffers(outputs, deltas)
    requires InputCovered(outputs, structure)
    modifies set i | 1 <= i < |outputs| :: outputs[i]
    ensures forall i :: 1 <= i < |outputs| ==>
              outputs[i][..] == LayerOutputs(Matrix(weights[i - 1]), structure[i - 1] + 1, outputs[i - 1][..], act)
  {
    for i := 1 to |outputs|
      invariant forall i' :: 1 <= i' < i ==>
                  outputs[i'][..] == LayerOutputs(Matrix(weights[i' - 1]), structure[i' - 1] + 1, outputs[i' - 1][..], act)
    {
      ForwardLayer(weights[i - 1], outputs[i - 1], outputs[i], act);
    }
  }

  /** The output-layer loop of `calculateError`. */
  method OutputDeltas(out: array<real>, desired: array<real>, d: array<real>)
    requires d.Length == out.Length <= desired.Length && d != out && d != desired
    modifies d
    ensures d[..] == OutputErrors(out[..], desired[..])
  {
    var i := d.Length;
    while i > 0
      invariant 0 <= i <= d.Length
      invariant forall i' :: i <= i' < d.Length ==> d[i'] == OutputDelta(out[i'], desired[i'])
    {
      i := i - 1;
      var sd := SigmoidDerivative(out[i]);
      d[i] := sd * (desired[i] - out[i]);
    }
  }

  /**
   * One hidden layer of `calculateError`: for each neuron j, the descending
   * sum over the next layer's neurons k of weight (k, j+1) times delta k.
   */
  method HiddenDeltas(next: array2<real>, nextDeltas: array<real>, s: array<real>, d: array<real>)
    requires next.Length0 == nextDeltas.Length && next.Length1 == d.Length + 1 && s.Length == d.Length
    requires d != nextDeltas && d != s
    modifies d
    ensures d[..] == HiddenErrors(Matrix(next), nextDeltas[..], s[..])
  {
    var j := d.Length;
    while j > 0
      invariant 0 <= j <= d.Length
      invariant forall j' :: j <= j' < d.Length ==>
                  d[j'] == HiddenDelta(s[j'], ColumnOf(Matrix(next), j' + 1), nextDeltas[..])
    {
      j := j - 1;
      ghost var column := ColumnOf(Matrix(next), j + 1);
      var sum := 0.0;
      var k := nextDeltas.Length;
      while k > 0
        invariant 0 <= k <= nextDeltas.Length
        invariant sum == Dot(column[k..], nextDeltas[k..])
      {
        k := k - 1;
        assert column[k..][1..] == column[k + 1..];
        assert nextDeltas[k..][1..] == nextDeltas[k + 1..];
        sum := sum + next[k, j + 1] * nextDeltas[k];
      }
      assert column[0..] == column;
      assert nextDeltas[0..] == nextDeltas[..];
      d[j] := SigmoidDerivative(s[j]) * sum;
    }
  }

  /**
   * `calculateError`: the output layer's error terms first, then the hidden
   * layers from the last to the first, each from the one after it.
   */
  method Errors(structure: seq<nat>, weights: seq<array2<real>>, outputs: seq<array<real>>,
                deltas: seq<array<real>>, desired: array<real>)
    requires TensorShape(weights, structure) && |structure| >= 2
    requires BuffersShaped(outputs, deltas, structure) && DistinctBuffers(outputs, deltas)
    requires desired.Length >= structure[|structure| - 1]
    requires forall i :: 0 <= i < |deltas| ==> deltas[i] != desired
    modifies set i | 0 <= i < |deltas| :: deltas[i]
    ensures var last := |deltas| - 1;
            deltas[last][..] == OutputErrors(outputs[last + 1][..], desired[..])
    ensures forall i :: 0 <= i < |deltas| - 1 ==>
              deltas[i][..] == HiddenErrors(Matrix(weights[i + 1]), deltas[i + 1][..], outputs[i + 1][..])
  {
    var last := |deltas| - 1;
    OutputDeltas(outputs[last + 1], desired, deltas[last]);
    var i := last;
    while i > 0
      invariant 0 <= i <= last
      invariant deltas[last][..] == OutputErrors(outputs[last + 1][..], desired[..])
      invariant forall i' :: i <= i' < last ==>
                  deltas[i'][..] == HiddenErrors(Matrix(weights[i' + 1]), deltas[i' + 1][..], outputs[i' + 1][..])
    {
      i := i - 1;
      HiddenDeltas(weights[i + 1], deltas[i + 1], outputs[i + 1], deltas[i]);
    }
  }

  /**
   * Layer (w, p) can take an update from error terms `delta` and inputs `x`:
   * both matrices have the same shape, there is an error term per neuron and
   * an input per weight other than the bias.
   */
  predicate LayerFits(w: array2<real>, p: array2<real>, delta: array<real>, x: array<real>)
  {
    && w.Length0 == p.Length0 <= delta.Length && w.Length1 == p.Length1 && 1 <= w.Length1
    && (w.Length0 > 0 ==> w.Length1 <= x.Length + 1)
  }

  /** Every layer of a well-formed network fits its buffers. */
  lemma LayersFit(structure: seq<nat>, weights: seq<array2<real>>, preDW: seq<array2<real>>,
                  outputs: seq<array<real>>, deltas: seq<array<real>>)
    requires Wellformed(structure, weights, preDW, outputs, deltas) && InputCovered(outputs, structure)
    ensures forall i :: 0 <= i < |weights| ==> LayerFits(weights[i], preDW[i], deltas[i], outputs[i])
  {
  }

  /**
   * Layer (w, p) holds the result of one update of `backPropagateError` from
   * weights w0 and previous changes p0, with error terms `delta` and layer
   * inputs `x`: each new change is the increment for its error term, input and
   * previous change, and each new weight is the old weight plus that change.
   */
  ghost predicate UpdatedFrom(w: array2<real>, p: array2<real>, delta: array<real>, x: array<real>,
                              w0: seq<seq<real>>, p0: seq<seq<real>>, learningRate: real, momentum: real)
    reads w, p, delta, x
  {
    && LayerFits(w, p, delta, x)
    && |w0| == |p0| == w.Length0 && Rectangular(w0, w.Length1) && Rectangular(p0, w.Length1)
    && forall j, k :: 0 <= j < p.Length0 && 0 <= k < p.Length1 ==>
         && p[j, k] == Increment(learningRate, momentum, delta[j], Input(x[..], k), p0[j][k])
         && w[j, k] == w0[j][k] + p[j, k]
  }

  /** The entries of `m` are those of `v`. */
  ghost predicate Holds(m: array2<real>, v: seq<seq<real>>)
    reads m
  {
    && |v| == m.Length0 && Rectangular(v, m.Length1)
    && forall j, k :: 0 <= j < m.Length0 && 0 <= k < m.Length1 ==> m[j, k] == v[j][k]
  }

  /**
   * The update of neuron j's weights in `backPropagateError`: the bias with
   * input 1 first, then the other weights from the last to the first; each
   * change is added to the weight and stored as the new previous change.
   */
  method UpdateRow(w: array2<real>, p: array2<real>, j: nat, delta: real, x: array<real>,
                   learningRate: real, momentum: real)
    requires j < w.Length0 == p.Length0 && w.Length1 == p.Length1
    requires 1 <= w.Length1 <= x.Length + 1 && w != p
    modifies w, p
    ensures forall k :: 0 <= k < w.Length1 ==>
              && p[j, k] == Increment(learningRate, momentum, delta, Input(x[..], k), old(p[j, k]))
              && w[j, k] == old(w[j, k]) + p[j, k]
    ensures forall j', k :: 0 <= j' < w.Length0 && j' != j && 0 <= k < w.Length1 ==>
              p[j', k] == old(p[j', k]) && w[j', k] == old(w[j', k])
  {
    var dwBias := Increment(learningRate, momentum, delta, 1.0, p[j, 0]);
    w[j, 0] := w[j, 0] + dwBias;
    p[j, 0] := dwBias;
    var k := w.Length1 - 1;
    while k > 0
      invariant 0 <= k < w.Length1
      invariant forall k' :: (k' == 0 || k < k' < w.Length1) ==>
                  && p[j, k'] == Increment(learningRate, momentum, delta, Input(x[..], k'), old(p[j, k']))
                  && w[j, k'] == old(w[j, k']) + p[j, k']
      invariant forall k' :: 0 < k' <= k ==> p[j, k'] == old(p[j, k']) && w[j, k'] == old(w[j, k'])
      invariant forall j', k' :: 0 <= j' < w.Length0 && j' != j && 0 <= k' < w.Length1 ==>
                  p[j', k'] == old(p[j', k']) && w[j', k'] == old(w[j', k'])
    {
      var dw := Increment(learningRate, momentum, delta, x[k - 1], p[j, k]);
      w[j, k] := w[j, k] + dw;
      p[j, k] := dw;
      k := k - 1;
    }
  }

  /** The update of one layer in `backPropagateError`: its neurons from the last to the first. */
  method UpdateLayer(w: array2<real>, p: array2<real>, delta: array<real>, x: array<real>,
                     learningRate: real, momentum: real, ghost w0: seq<seq<real>>, ghost p0: seq<seq<real>>)
    requires LayerFits(w, p, delta, x) && w != p
    requires Holds(w, w0) && Holds(p, p0)
    modifies w, p
    ensures UpdatedFrom(w, p, delta, x, w0, p0, learningRate, momentum)
  {
    var j := w.Length0;
    while j > 0
      invariant 0 <= j <= w.Length0
      invariant forall j', k :: j <= j' < w.Length0 && 0 <= k < w.Length1 ==>
                  && p[j', k] == Increment(learningRate, momentum, delta[j'], Input(x[..], k), p0[j'][k])
                  && w[j', k] == w0[j'][k] + p[j', k]
      invariant forall j', k :: 0 <= j' < j && 0 <= k < w.Length1 ==> p[j', k] == p0[j'][k] && w[j', k] == w0[j'][k]
    {
      j := j - 1;
      UpdateRow(w, p, j, delta[j], x, learningRate, momentum);
    }
  }

  /** A matrix holding the entries of `v` is `v`. */
  lemma HoldsMatrix(m: array2<real>, v: seq<seq<real>>)
    requires Holds(m, v)
    ensures Matrix(m) == v
  {
    forall j | 0 <= j < m.Length0
      ensures Matrix(m)[j] == v[j]
    {
    }
  }

  /** All the entries of a tensor, layer by layer. */
  ghost function Snapshot(t: seq<array2<real>>): (r: seq<seq<seq<real>>>)
    reads t
    ensures |r| == |t| && forall i :: 0 <= i < |t| ==> Holds(t[i], r[i])
  {
    seq(|t|, i requires 0 <= i < |t| reads t => Matrix(t[i]))
  }

  /** The layer loop of `backPropagateError`, from the last layer to the first. */
  method Update(weights: seq<array2<real>>, preDW: seq<array2<real>>, outputs: seq<array<real>>,
                deltas: seq<array<real>>, learningRate: real, momentum: real,
                ghost w0: seq<seq<seq<real>>>, ghost p0: seq<seq<seq<real>>>)
    requires |weights| == |preDW| <= |deltas| && |weights| <= |outputs|
    requires Separate(weights, preDW)
    requires |w0| == |p0| == |weights|
    requires forall i :: 0 <= i < |weights| ==>
               LayerFits(weights[i], preDW[i], deltas[i], outputs[i]) && Holds(weights[i], w0[i]) && Holds(preDW[i], p0[i])
    modifies weights, preDW
    ensures forall i :: 0 <= i < |weights| ==>
              UpdatedFrom(weights[i], preDW[i], deltas[i], outputs[i], w0[i], p0[i], learningRate, momentum)
    ensures forall i :: 0 <= i < |deltas| ==> deltas[i][..] == old(deltas[i][..])
    ensures forall i :: 0 <= i < |outputs| ==> outputs[i][..] == old(outputs[i][..])
  {
    var i := |weights|;
    while i > 0
      invariant 0 <= i <= |weights|
      invariant forall i' :: 0 <= i' < |deltas| ==> unchanged(deltas[i'])
      invariant forall i' :: 0 <= i' < |outputs| ==> unchanged(outputs[i'])
      invariant forall i' :: i <= i' < |weights| ==>
                  UpdatedFrom(weights[i'], preDW[i'], deltas[i'], outputs[i'], w0[i'], p0[i'], learningRate, momentum)
      invariant forall i' :: 0 <= i' < i ==> Holds(weights[i'], w0[i']) && Holds(preDW[i'], p0[i'])
    {
      i := i - 1;
      label before:
      UpdateLayer(weights[i], preDW[i], deltas[i], outputs[i], learningRate, momentum, w0[i], p0[i]);
      forall i' | i < i' < |weights|
        ensures UpdatedFrom(weights[i'], preDW[i'], deltas[i'], outputs[i'], w0[i'], p0[i'], learningRate, momentum)
      {
        assert old@before(UpdatedFrom(weights[i'], preDW[i'], deltas[i'], outputs[i'], w0[i'], p0[i'], learningRate, momentum));
      }
    }
  }

  /**
   * `calculateError` stated over a snapshot w0 of the weights: the error terms
   * come from w0, and neither tensor is changed.
   */
  method ErrorsFrom(structure: seq<nat>, weights: seq<array2<real>>, preDW: seq<array2<real>>,
                    outputs: seq<array<real>>, deltas: seq<array<real>>, desired: array<real>,
                    ghost w0: seq<seq<seq<real>>>, ghost p0: seq<seq<seq<real>>>)
    requires Wellformed(structure, weights, preDW, outputs, deltas) && |structure| >= 2
    requires desired.Length >= structure[|structure| - 1]
    requires forall i :: 0 <= i < |deltas| ==> deltas[i] != desired
    requires |w0| == |p0| == |weights|
    requires forall i :: 0 <= i < |weights| ==> Holds(weights[i], w0[i]) && Holds(preDW[i], p0[i])
    requires forall i :: 0 <= i < |weights| ==> |w0[i]| == weights[i].Length0 && Rectangular(w0[i], weights[i].Length1)
    modifies deltas
    ensures var last := |deltas| - 1;
            deltas[last][..] == OutputErrors(outputs[last + 1][..], desired[..])
    ensures forall i :: 0 <= i < |deltas| - 1 ==>
              deltas[i][..] == HiddenErrors(w0[i + 1], deltas[i + 1][..], outputs[i + 1][..])
    ensures forall i :: 0 <= i < |weights| ==> Holds(weights[i], w0[i]) && Holds(preDW[i], p0[i])
  {
    Errors(structure, weights, outputs, deltas, desired);
    forall i | 0 <= i < |weights|
      ensures Holds(weights[i], w0[i]) && Holds(preDW[i], p0[i])
    {
      assert weights[i] as object !in set i' | 0 <= i' < |deltas| :: deltas[i'] as object;
      assert preDW[i] as object !in set i' | 0 <= i' < |deltas| :: deltas[i'] as object;
    }
    forall i | 0 <= i < |deltas| - 1
      ensures deltas[i][..] == HiddenErrors(w0[i + 1], deltas[i + 1][..], outputs[i + 1][..])
    {
      HoldsMatrix(weights[i + 1], w0[i + 1]);
    }
  }

  /**
   * `backPropagateError` over the network's arrays: the index errors where
   * `deltas[nLayers-1]` or `desired[i]` does not exist come first and change
   * nothing; otherwise every error term is computed from the weights as they
   * were, then every layer gets its momentum update.
   */
  method BackPropagate(structure: seq<nat>, weights: seq<array2<real>>, preDW: seq<array2<real>>,
                       outputs: seq<array<real>>, deltas: seq<array<real>>, desired: array<real>,
                       learningRate: real, momentum: real)
    returns (r: Outcome)
    requires Wellformed(structure, weights, preDW, outputs, deltas) && |structure| >= 1
    requires InputCovered(outputs, structure)
    requires forall i :: 0 <= i < |deltas| ==> deltas[i] != desired
    modifies deltas, weights, preDW
    ensures var nLayers, nOutputs := |structure| - 1, structure[|structure| - 1];
            r == if (nLayers == 0 && nOutputs > 0) || desired.Length < nOutputs then Fail(IndexOutOfBounds) else Pass
    ensures r.Fail? ==> forall i :: 0 <= i < |structure| - 1 ==>
              deltas[i][..] == old(deltas[i][..]) && Matrix(weights[i]) == old(Matrix(weights[i]))
              && Matrix(preDW[i]) == old(Matrix(preDW[i]))
    ensures var nLayers := |structure| - 1;
            r.Pass? && nLayers >= 1 ==> deltas[nLayers - 1][..] == OutputErrors(outputs[nLayers][..], desired[..])
    ensures r.Pass? ==> forall i :: 0 <= i < |structure| - 2 ==>
              deltas[i][..] == HiddenErrors(old(Snapshot(weights))[i + 1], deltas[i + 1][..], outputs[i + 1][..])
    ensures r.Pass? ==> forall i :: 0 <= i < |structure| - 1 ==>
              UpdatedFrom(weights[i], preDW[i], deltas[i], outputs[i],
                          old(Snapshot(weights))[i], old(Snapshot(preDW))[i], learningRate, momentum)
  {
    var nLayers, nOutputs := |structure| - 1, structure[|structure| - 1];
    if (nLayers == 0 && nOutputs > 0) || desired.Length < nOutputs {
      return Fail(IndexOutOfBounds);
    }
    if nLayers >= 1 {
      ghost var w0, p0 := Snapshot(weights), Snapshot(preDW);
      Backward(structure, weights, preDW, outputs, deltas, desired, learningRate, momentum, w0, p0);
    }
    r := Pass;
  }

  /**
   * `backPropagateError` after its index checks: all error terms from the
   * weights as they are (w0), then the momentum update of every layer.
   */
  method Backward(structure: seq<nat>, weights: seq<array2<real>>, preDW: seq<array2<real>>,
                  outputs: seq<array<real>>, deltas: seq<array<real>>, desired: array<real>,
                  learningRate: real, momentum: real, ghost w0: seq<seq<seq<real>>>, ghost p0: seq<seq<seq<real>>>)
    requires Wellformed(structure, weights, preDW, outputs, deltas) && |structure| >= 2
    requires InputCovered(outputs, structure)
    requires desired.Length >= structure[|structure| - 1]
    requires forall i :: 0 <= i < |deltas| ==> deltas[i] != desired
    requires |w0| == |p0| == |weights|
    requires forall i :: 0 <= i < |weights| ==> |w0[i]| == weights[i].Length0 && Rectangular(w0[i], weights[i].Length1)
    requires forall i :: 0 <= i < |weights| ==> Holds(weights[i], w0[i]) && Holds(preDW[i], p0[i])
    modifies deltas, weights, preDW
    ensures var last := |deltas| - 1;
            deltas[last][..] == OutputErrors(outputs[last + 1][..], desired[..])
    ensures forall i :: 0 <= i < |deltas| - 1 ==>
              deltas[i][..] == HiddenErrors(w0[i + 1], deltas[i + 1][..], outputs[i + 1][..])
    ensures forall i :: 0 <= i < |weights| ==>
              UpdatedFrom(weights[i], preDW[i], deltas[i], outputs[i], w0[i], p0[i], learningRate, momentum)
  {
    ErrorsFrom(structure, weights, preDW, outputs, deltas, desired, w0, p0);
    LayersFit(structure, weights, preDW, outputs, deltas);
    Update(weights, preDW, outputs, deltas, learningRate, momentum, w0, p0);
  }

  /** Copy every entry of `src` into `dst`, rows and columns from the last to the first. */
  method CopyLayer(src: array2<real>, dst: array2<real>)
    requires src.Length0 == dst.Length0 && src.Length1 == dst.Length1 && src != dst
    modifies dst
    ensures Matrix(dst) == Matrix(src)
  {
    var j := dst.Length0;
    while j > 0
      invariant 0 <= j <= dst.Length0
      invariant forall j', k :: j <= j' < dst.Length0 && 0 <= k < dst.Length1 ==> dst[j', k] == src[j', k]
    {
      j := j - 1;
      var k := dst.Length1;
      while k > 0
        invariant 0 <= k <= dst.Length1
        invariant forall j', k' :: j < j' < dst.Length0 && 0 <= k' < dst.Length1 ==> dst[j', k'] == src[j', k']
        invariant forall k' :: k <= k' < dst.Length1 ==> dst[j, k'] == src[j, k']
      {
        k := k - 1;
        dst[j, k] := src[j, k];
      }
    }
    forall j | 0 <= j < dst.Length0
      ensures Matrix(dst)[j] == Matrix(src)[j]
    {
    }
  }

  /**
   * A tensor of new zero matrices, layer i of size structure[i+1] x
   * (structure[i]+1), allocated from the last layer to the first.
   */
  method ZeroTensor(structure: seq<nat>) returns (t: seq<array2<real>>)
    requires |structure| >= 1
    ensures TensorShape(t, structure) && DistinctLayers(t) && Zero(t)
    ensures forall i :: 0 <= i < |t| ==> fresh(t[i])
  {
    t := [];
    var i := |structure| - 1;
    while i > 0
      invariant 0 <= i < |structure|
      invariant TensorShape(t, structure[i..]) && DistinctLayers(t) && Zero(t)
      invariant forall i' :: 0 <= i' < |t| ==> fresh(t[i'])
    {
      i := i - 1;
      var m := new real[structure[i + 1], structure[i] + 1]((_, _) => 0.0);
      t := [m] + t;
    }
  }

  /** `x` is a value of `getRandom` for min and max: r (max - min) + min for a draw r in [0, 1). */
  ghost predicate IsDraw(x: real, min: real, max: real)
  {
    exists r :: 0.0 <= r < 1.0 && x == RandomWeight(r, min, max)
  }

  /** A drawn weight lies in [min, max] when min <= max, and below max when min < max. */
  lemma DrawInRange(x: real, min: real, max: real)
    requires IsDraw(x, min, max)
    ensures min <= max ==> min <= x <= max
    ensures min < max ==> x < max
  {
    var r :| 0.0 <= r < 1.0 && x == RandomWeight(r, min, max);
  }

  /** Give every entry of `m` its own draw, rows and columns from the last to the first. */
  method FillRandom(m: array2<real>, min: real, max: real)
    modifies m
    ensures forall j, k :: 0 <= j < m.Length0 && 0 <= k < m.Length1 ==> IsDraw(m[j, k], min, max)
  {
    var j := m.Length0;
    while j > 0
      invariant 0 <= j <= m.Length0
      invariant forall j', k :: j <= j' < m.Length0 && 0 <= k < m.Length1 ==> IsDraw(m[j', k], min, max)
    {
      j := j - 1;
      var k := m.Length1;
      while k > 0
        invariant 0 <= k <= m.Length1
        invariant forall j', k' :: j < j' < m.Length0 && 0 <= k' < m.Length1 ==> IsDraw(m[j', k'], min, max)
        invariant forall k' :: k <= k' < m.Length1 ==> IsDraw(m[j, k'], min, max)
      {
        k := k - 1;
        var r :| 0.0 <= r < 1.0;
        m[j, k] := RandomWeight(r, min, max);
      }
    }
  }

  /** Allocate every layer, then give every weight, bias included, its own draw. */
  method RandomTensor(structure: seq<nat>, min: real, max: real) returns (t: seq<array2<real>>)
    requires |structure| >= 1
    ensures TensorShape(t, structure) && DistinctLayers(t)
    ensures forall i :: 0 <= i < |t| ==> fresh(t[i])
    ensures forall i, j, k :: 0 <= i < |t| && 0 <= j < t[i].Length0 && 0 <= k < t[i].Length1 ==>
              IsDraw(t[i][j, k], min, max)
  {
    t := ZeroTensor(structure);
    var i := |t|;
    while i > 0
      invariant 0 <= i <= |t|
      invariant forall i' :: 0 <= i' < |t| ==> fresh(t[i'])
      invariant forall i', j, k :: i <= i' < |t| && 0 <= j < t[i'].Length0 && 0 <= k < t[i'].Length1 ==>
                  IsDraw(t[i'][j, k], min, max)
    {
      i := i - 1;
      FillRandom(t[i], min, max);
    }
  }

  /**
   * `cloneWeights`: allocate a tensor of the structure's shape, then copy every
   * entry. The copy shares no array with the original.
   */
  method CloneTensor(structure: seq<nat>, t: seq<array2<real>>) returns (c: seq<array2<real>>)
    requires TensorShape(t, structure)
    ensures TensorShape(c, structure) && DistinctLayers(c)
    ensures forall i :: 0 <= i < |c| ==> fresh(c[i]) && Matrix(c[i]) == Matrix(t[i])
  {
    c := ZeroTensor(structure);
    var i := |c|;
    while i > 0
      invariant 0 <= i <= |c|
      invariant forall i' :: 0 <= i' < |c| ==> fresh(c[i'])
      invariant forall i' :: i <= i' < |c| ==> Matrix(c[i']) == Matrix(t[i'])
    {
      i := i - 1;
      assert t[i].Length0 == structure[i + 1] && t[i].Length1 == structure[i] + 1;
      assert c[i].Length0 == structure[i + 1] && c[i].Length1 == structure[i] + 1;
      CopyLayer(t[i], c[i]);
    }
  }

  /**
   * The `outputs` and `deltas` buffers of a new network, zero-filled:
   * outputs[i] has structure[i] entries and deltas[i] has structure[i+1].
   */
  method NewBuffers(structure: seq<nat>) returns (outputs: seq<array<real>>, deltas: seq<array<real>>)
    requires |structure| >= 1
    ensures BuffersShaped(outputs, deltas, structure) && DistinctBuffers(outputs, deltas)
    ensures outputs[0].Length == structure[0]
    ensures forall i :: 0 <= i < |outputs| ==> fresh(outputs[i])
    ensures forall i :: 0 <= i < |deltas| ==> fresh(deltas[i])
  {
    outputs := [];
    var i := |structure|;
    while i > 0
      invariant 0 <= i <= |structure| && |outputs| == |structure| - i
      invariant forall i' :: 0 <= i' < |outputs| ==> fresh(outputs[i']) && outputs[i'].Length == structure[i + i']
      invariant forall a, b :: 0 <= a < |outputs| && 0 <= b < |outputs| && a != b ==> outputs[a] != outputs[b]
    {
      i := i - 1;
      var o := new real[structure[i]](_ => 0.0);
      outputs := [o] + outputs;
    }
    deltas := [];
    i := |structure| - 1;
    while i > 0
      invariant 0 <= i < |structure| && |deltas| == |structure| - 1 - i
      invariant forall i' :: 0 <= i' < |deltas| ==> fresh(deltas[i']) && deltas[i'].Length == structure[i + i' + 1]
      invariant forall a, b :: 0 <= a < |deltas| && 0 <= b < |deltas| && a != b ==> deltas[a] != deltas[b]
      invariant forall a, b :: 0 <= a < |outputs| && 0 <= b < |deltas| ==> outputs[a] != deltas[b]
    {
      i := i - 1;
      var d := new real[structure[i + 1]](_ => 0.0);
      deltas := [d] + deltas;
    }
  }
}
