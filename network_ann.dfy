/**
 * The feed-forward network of package `net.parasec.nn.network`: a class whose
 * fields are the weight tensor, the momentum tensor `preDW` and the
 * `outputs` and `deltas` buffers, all changed in place by its methods. The
 * activation (`MathUtil.fastSigmoid` in the source) is an uninterpreted
 * function fixed when the network is built.
 */
module Network {
  import opened Common
  import opened Tensors
  import opened Kernels

  class ANN {
    /** [layer][neuron][weight], weight 0 the bias. */
    var weights: seq<array2<real>>
    /** The output of every neuron for the last instance; layer 0 is the instance itself. */
    var outputs: seq<array<real>>
    /** The error term of every neuron of layers 1, 2, ... */
    const deltas: seq<array<real>>
    /** The previous weight change, for the momentum term. */
    var preDW: seq<array2<real>>
    const structure: seq<nat>
    const nLayers: nat
    const nOutputs: nat
    const nInputs: nat
    const activation: real -> real

    /** The fields agree with the structure, and no array is shared where the loops write. */
    ghost predicate Valid()
      reads this
    {
      && |structure| >= 1
      && nLayers == |structure| - 1 && nOutputs == structure[nLayers] && nInputs == structure[0]
      && Wellformed(structure, weights, preDW, outputs, deltas)
    }

    /**
     * `ANN(min, max, structure, prng)`: the buffers, the weights with a draw
     * each, then the momentum tensor at zero, every array new.
     */
    constructor(min: real, max: real, structure: seq<nat>, activation: real -> real)
      requires |structure| >= 1
      ensures Valid() && InputCovered(outputs, structure)
      ensures this.structure == structure && this.activation == activation
      ensures forall i :: 0 <= i < |weights| ==> fresh(weights[i]) && fresh(preDW[i])
      ensures forall i :: 0 <= i < |outputs| ==> fresh(outputs[i]) && outputs[i].Length == structure[i]
      ensures forall i :: 0 <= i < |deltas| ==> fresh(deltas[i])
      ensures forall i, j, k :: 0 <= i < |weights| && 0 <= j < weights[i].Length0 && 0 <= k < weights[i].Length1 ==>
                IsDraw(weights[i][j, k], min, max)
      ensures Zero(preDW)
    {
      this.structure := structure;
      this.activation := activation;
      nLayers := |structure| - 1;
      nOutputs := structure[|structure| - 1];
      nInputs := structure[0];
      var o, d := NewBuffers(structure);
      outputs := o;
      deltas := d;
      var w := RandomTensor(structure, min, max);
      weights := w;
      var p := ZeroTensor(structure);
      preDW := p;
    }

    /**
     * `feedForward(instance)`: layer 0's outputs become the instance array
     * itself, then every later layer is computed from the one before, and the
     * result is the output layer's buffer. An instance shorter than the input
     * layer makes the first neuron of layer 1 read past its end: the index
     * error is raised after `outputs[0]` is set and before any layer from 1
     * on is written.
     */
    method FeedForward(instance: array<real>) returns (r: Result<array<real>>)
      requires Valid()
      requires forall i :: 1 <= i < |outputs| ==> outputs[i] != instance
      requires forall i :: 0 <= i < |deltas| ==> deltas[i] != instance
      modifies this`outputs, set i | 1 <= i < |outputs| :: outputs[i]
      ensures Valid()
      ensures outputs == old(outputs)[0 := instance]
      ensures r.Success? <==> InputCovered(outputs, structure)
      ensures r.Failure? ==> r.exception == IndexOutOfBounds
      ensures r.Failure? ==> forall i :: 1 <= i < |outputs| ==> outputs[i][..] == old(outputs[i][..])
      ensures r.Success? ==> r.value == outputs[nLayers]
      ensures r.Success? ==> forall i :: 1 <= i < |outputs| ==>
                outputs[i][..] == LayerOutputs(Matrix(weights[i - 1]), structure[i - 1] + 1, outputs[i - 1][..], activation)
    {
      outputs := outputs[0 := instance];
      if !InputCovered(outputs, structure) {
        return Failure(IndexOutOfBounds);
      }
      Forward(structure, weights, outputs, deltas, activation);
      r := Success(outputs[nLayers]);
    }

    /**
     * `backPropagateError(desired, learningRate, momentum)`: `calculateError`
     * fills every error term from the current weights (the output layer from
     * its outputs and the target, each hidden layer from the layer after it),
     * then every weight gets its momentum update. The index errors of the
     * source are the cases where `deltas[nLayers-1]` or `desired[i]` does not
     * exist; they are raised before anything is written. Outputs are not touched.
     */
    method BackPropagateError(desired: array<real>, learningRate: real, momentum: real) returns (r: Outcome)
      requires Valid() && InputCovered(outputs, structure)
      requires forall i :: 0 <= i < |deltas| ==> deltas[i] != desired
      modifies deltas, weights, preDW
      ensures r == if (nLayers == 0 && nOutputs > 0) || desired.Length < nOutputs then Fail(IndexOutOfBounds) else Pass
      ensures r.Fail? ==> forall i :: 0 <= i < nLayers ==>
                deltas[i][..] == old(deltas[i][..]) && Matrix(weights[i]) == old(Matrix(weights[i]))
                && Matrix(preDW[i]) == old(Matrix(preDW[i]))
      ensures r.Pass? && nLayers >= 1 ==>
                deltas[nLayers - 1][..] == OutputErrors(outputs[nLayers][..], desired[..])
      ensures r.Pass? ==> forall i :: 0 <= i < nLayers - 1 ==>
                deltas[i][..] == HiddenErrors(old(Snapshot(weights))[i + 1], deltas[i + 1][..], outputs[i + 1][..])
      ensures r.Pass? ==> forall i :: 0 <= i < nLayers ==>
                UpdatedFrom(weights[i], preDW[i], deltas[i], outputs[i],
                            old(Snapshot(weights))[i], old(Snapshot(preDW))[i], learningRate, momentum)
    {
      r := BackPropagate(structure, weights, preDW, outputs, deltas, desired, learningRate, momentum);
    }

    /**
     * `cloneWeights()`: a new tensor of the structure's shape holding the same
     * entries, sharing no array with the network.
     */
    method CloneWeights() returns (c: seq<array2<real>>)
      requires Valid()
      ensures TensorShape(c, structure) && DistinctLayers(c)
      ensures forall i :: 0 <= i < |c| ==> fresh(c[i]) && Matrix(c[i]) == Matrix(weights[i])
    {
      c := CloneTensor(structure, weights);
    }

    /**
     * `initialiseWeights(w)`: the network takes the given tensor itself, not a
     * copy, and a new momentum tensor of zeros.
     */
    method InitialiseWeights(w: seq<array2<real>>)
      requires Valid() && TensorShape(w, structure) && DistinctLayers(w)
      modifies this`weights, this`preDW
      ensures Valid()
      ensures weights == w && Zero(preDW)
      ensures forall i :: 0 <= i < |preDW| ==> fresh(preDW[i])
    {
      weights := w;
      var p := ZeroTensor(structure);
      preDW := p;
    }
  }
}
