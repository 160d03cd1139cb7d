# neural-network-light in Dafny

A model of the core of `neural-network-light`, a small Java library for
multi-layer perceptrons trained by stochastic back-propagation with momentum.
The model covers four parts of the library, with Java's `double` read as a
mathematical real:

- **The dataset.** These are the two copies of `Data`, in packages
  `net.parasec.nn.training` and `net.parasec.nn`:
  - `partition` cuts a shuffled copy of the training list into chunks;
  - `dataPartitions` builds one (test, training) fold per chunk;
  - `split` moves items from the tail of the shuffled training list onto the
    test list;
  - `randomise` shuffles the training list in place.

  Each copy is a `class` whose two list fields its methods reassign. The list
  algorithms the two copies share are defined once, in `DataOps` and `Lists`.
  `Collections.shuffle` is the Fisher–Yates loop of the JDK, with each random
  draw a nondeterministic choice.
- **The network.** These are the two copies of `ANN`. Each is a `class` owning:
  - the weight tensor and the momentum tensor `preDW`, as one `array2` per layer;
  - the `outputs` and `deltas` buffers, as one `array` per layer.

  Its operations change those arrays in place:
  - the constructor;
  - `feedForward`;
  - `backPropagateError`, which runs `calculateError` and then the momentum
    update;
  - `cloneWeights`;
  - `initialiseWeights`.

  The loops the two copies share live in `Kernels`. `Kernels` proves each loop
  against value-level definitions in `Tensors`: the net input, the error
  terms and the momentum increment. The activation function is a parameter.
- **The trainer.** `Trainer.train` runs the epoch loop:
  - it reshuffles the training list before each epoch;
  - it makes a training pass and then a testing pass;
  - it takes a checkpoint when the test error strictly improves;
  - at the end it restores the checkpoint and summarises the restored network.

  The model also covers `networkError`. The network is an abstract value with
  the four operations the trainer calls. `Math.sqrt` is a parameter. The
  epoch loop is a method proved equal to a recursive definition, `Epochs`.
  Lemmas establish the checkpoint invariant of that definition and the shape
  of the final report.
- **The CSV loader.** This is `DataLoader.loadCsv` and `parseInstance`:
  - lines without a comma are skipped;
  - every other line is cut at its commas, with trailing empty fields
    dropped as `String.split` does;
  - the last `outputLength` fields become the output vector.

  The lines read and whether an `IOException` happened are parameters, and
  so is `Double.parseDouble`, as a partial function.

Java exceptions are values. `Result` and `Outcome` in `Common` carry
`IndexOutOfBounds`, `NegativeArraySize` or `NumberFormat`. The 32-bit
arithmetic that the partition code depends on is written out:
- `Math.round` saturates to the range of `long`;
- an `(int)` cast keeps the low 32 bits;
- `partitions - 1` wraps at `Integer.MIN_VALUE`;
- `--i` in the loop of `split` wraps at `Integer.MIN_VALUE`, so that count runs the loop 2^31 times.

The Javadoc of `dataPartitions` (training/Data.java:39-47) calls a fold's
training set "the list of all other training instances". The code at
training/Data.java:57 skips every partition that is `List.equals` to the
fold's own. `TrainingInstance` keeps `Object`'s identity `equals`, so those are
the partitions that hold the same instances in the same order, such as two
empty chunks. The model follows the code. `Lists.EqualPartitionsExcludeEachOther`
shows that two such partitions exclude each other from both folds. The
permutation property of a fold (`Lists.OthersPermutation`) is proved only for
pairwise different partitions.

## Model

| member | source | states |
|---|---|---|
| Common.RoundToLong | src/main/java/net/parasec/nn/training/Data.java:71-72 | `Math.round` is within the range of `long`, and away from the saturated ends it is the r with r <= x + 1/2 < r + 1 |
| Common.LongToInt | src/main/java/net/parasec/nn/training/Data.java:71-72 | the `(int)` cast of a `long` is congruent to it modulo 2^32, and is the value itself when that fits an `int` |
| Lists.Swap | src/main/java/net/parasec/nn/training/Data.java:109 | exchanging two positions: those two are swapped, every other position is unchanged, the multiset is kept |
| Lists.Shuffle | src/main/java/net/parasec/nn/training/Data.java:107-110 | `Collections.shuffle` returns a permutation of its input: same length, same multiset, for every sequence of random draws |
| Lists.ReverseAt | src/main/java/net/parasec/nn/training/Data.java:100-101 | the reversal has the same length, and its position k holds position \|s\|-1-k of the input |
| Lists.ReversePermutes | src/main/java/net/parasec/nn/training/Data.java:100-101 | moving items one by one from a tail reverses them, and reversal keeps every item with its multiplicity |
| Lists.OthersOfAbsent | src/main/java/net/parasec/nn/training/Data.java:56-58 | when no partition equals p, "every partition not equal to p" is the concatenation of all partitions |
| Lists.OthersPermutation | src/main/java/net/parasec/nn/training/Data.java:55-58 | for pairwise different partitions, partition i followed by the others holds exactly the items of all partitions |
| Lists.EqualPartitionsExcludeEachOther | src/main/java/net/parasec/nn/training/Data.java:57 | the exclusion is by `List.equals`, not by position: with two equal partitions, each fold's training list is empty and a copy of the data is lost |
| DataOps.PartitionSizeIsRoundedRatio | src/main/java/net/parasec/nn/training/Data.java:71-72 | for 0 < p and n < 2^31, the partition size is (2n+p) div (2p), and it is n/p rounded half up |
| DataOps.PartitionedCount | src/main/java/net/parasec/nn/training/Data.java:68-89 | for p >= 1, `partition` returns exactly p lists; the first p-1 have size round(n/p) and the last has the rest |
| DataOps.PartitionedNonPositive | src/main/java/net/parasec/nn/training/Data.java:77-87 | for a count p <= 0 (other than `Integer.MIN_VALUE`), `partition` returns one list, a permutation of the data |
| DataOps.CutChunks | src/main/java/net/parasec/nn/training/Data.java:76-87 | the cursor loops fail with an index error exactly when the leading chunks need more items than there are; otherwise they give the chunks plus a remainder whose concatenation is the shuffled copy |
| DataOps.PartitionList | src/main/java/net/parasec/nn/training/Data.java:68-89 | either an index error exactly when (p-1)·size > n, or p-1 chunks of the rounded size and a remainder chunk that together are a permutation of the data |
| DataOps.SplitCountBounds | src/main/java/net/parasec/nn/training/Data.java:100 | for a ratio in [0, 1], `split` moves between 0 and n items, round(ratio·n) of them |
| DataOps.MoveFromTail | src/main/java/net/parasec/nn/training/Data.java:100-101 | the training list loses its last m items; the test list gains them at its end, last item first; an index error occurs exactly when the loop runs more often than the list has items, which includes the count `Integer.MIN_VALUE` that `--i` wraps to `Integer.MAX_VALUE` |
| DataOps.MoveConserves | src/main/java/net/parasec/nn/training/Data.java:100-101 | moving items from the training tail to the test list keeps the combined multiset |
| DataOps.ConcatOthers | src/main/java/net/parasec/nn/training/Data.java:56-58 | the inner `addAll` loop builds the in-order concatenation of every partition not equal to the current one |
| TrainingData.Data.constructor | src/main/java/net/parasec/nn/training/Data.java:16-23 | a new dataset has an empty training list and an empty test list |
| TrainingData.Data.DataPartitions | src/main/java/net/parasec/nn/training/Data.java:48-62 | one new dataset per partition, in order: its test list is the partition and its training list the others not equal to it; for pairwise different partitions each fold is a permutation of all the data |
| TrainingData.Data.Partition | src/main/java/net/parasec/nn/training/Data.java:68-89 | `partition` gives the chunks of a shuffled copy as `DataOps.PartitionList` states; the training list itself is not changed |
| TrainingData.Data.Split | src/main/java/net/parasec/nn/training/Data.java:96-102 | after shuffling, round(ratio·n) tail items move to the end of the test list in reverse order; the sizes change by that count; the combined multiset is kept; a count above n, or the count `Integer.MIN_VALUE`, throws after emptying the list |
| TrainingData.Data.Randomise | src/main/java/net/parasec/nn/training/Data.java:107-110 | the training list becomes a permutation of itself, with the same size; the test list is untouched |
| LegacyData.Data.constructor | src/main/java/net/parasec/nn/Data.java:14-21 | a new dataset has an empty training list and an empty test list |
| LegacyData.Data.DataPartitions | src/main/java/net/parasec/nn/Data.java:31-45 | the same fold construction as the newer copy: test = partition, training = the other non-equal partitions, a permutation when they are pairwise different |
| LegacyData.Data.Partition | src/main/java/net/parasec/nn/Data.java:47-68 | p-1 chunks of round(n/p) items and a remainder, together a permutation of the training list, which is left unchanged; or the index error |
| LegacyData.Data.Split | src/main/java/net/parasec/nn/Data.java:71-76 | round(ratio·n) tail items move to the test list in reverse order, and the combined multiset is kept; a count above n, or the count `Integer.MIN_VALUE`, throws after emptying the list |
| LegacyData.Data.Randomise | src/main/java/net/parasec/nn/Data.java:78-80 | only the order of the training list changes |
| Tensors.NetIsDot | src/main/java/net/parasec/nn/network/ANN.java:78-82 | the net input (bias first, then weight k times previous output k-1) is the inner product of the weight row with [1] followed by the previous outputs |
| Tensors.SigmoidDerivative | src/main/java/net/parasec/nn/MathUtil.java:40-42 | s·(1-s) lies in [0, 1/4] for every sigmoid output s in [0, 1] |
| Tensors.TanhDerivative | src/main/java/net/parasec/nn/ANN.java:182-184 | 1 - th² is at most 1, non-negative for th in [-1, 1], and exactly 1 at th = 0; neither network calls this private helper |
| Tensors.OutputDeltaSign | src/main/java/net/parasec/nn/network/ANN.java:142-143 | for an output strictly inside (0, 1), the output error term is positive exactly when the target is above the output and negative exactly when it is below |
| Tensors.HiddenErrorsIgnoreBias | src/main/java/net/parasec/nn/network/ANN.java:151-152 | hidden error terms read column j+1 only, never the bias column 0: matrices that differ only in column 0 give the same terms |
| Tensors.IncrementExtendsHistory | src/main/java/net/parasec/nn/network/ANN.java:105-110 | one momentum update applied to a stored change that equals the history of steps extends that history by this update's gradient step |
| Tensors.HistoryIsDiscounted | src/main/java/net/parasec/nn/network/ANN.java:97-110 | from the zero momentum tensor, the stored change is the sum of all gradient steps, each scaled by momentum^(number of later updates) |
| Tensors.RandomWeight | src/main/java/net/parasec/nn/MathUtil.java:48-51 | a weight r·(max-min)+min drawn with r in [0, 1) lies in [min, max] when min <= max, and below max when min < max |
| Kernels.DrawInRange | src/main/java/net/parasec/nn/network/ANN.java:60-63 | every initial weight lies in [min, max] when min <= max |
| Kernels.ForwardLayer | src/main/java/net/parasec/nn/network/ANN.java:76-84 | neuron j's output is the activation of its net input: bias at index 0, weight k times previous output k-1 |
| Kernels.Forward | src/main/java/net/parasec/nn/network/ANN.java:74-85 | every layer i >= 1 holds the layer outputs computed from layer i-1 and weight matrix i-1 |
| Kernels.OutputDeltas | src/main/java/net/parasec/nn/network/ANN.java:141-144 | output error term i is s(1-s)(desired_i - s) for the output s of neuron i |
| Kernels.HiddenDeltas | src/main/java/net/parasec/nn/network/ANN.java:147-154 | hidden error term j is s(1-s) times the sum over k of the next layer's weight [k][j+1] times error term k |
| Kernels.Errors | src/main/java/net/parasec/nn/network/ANN.java:139-156 | `calculateError` fills the last layer's error terms from the targets and every earlier layer's from the layer after it |
| Kernels.ErrorsFrom | src/main/java/net/parasec/nn/network/ANN.java:139-156 | the error terms are computed from the weights as they stand before any update, and weights and momentum are left as they were |
| Kernels.UpdateRow | src/main/java/net/parasec/nn/network/ANN.java:97-111 | for each weight of neuron j: new preDW = lr·delta·x_k + momentum·old preDW, with x_0 = 1 and x_k = previous output k-1; new weight = old weight + new preDW; the other neurons are unchanged |
| Kernels.UpdateLayer | src/main/java/net/parasec/nn/network/ANN.java:95-112 | every neuron of a layer gets the momentum update from the layer's old weights and old momentum |
| Kernels.Update | src/main/java/net/parasec/nn/network/ANN.java:93-113 | every layer gets the momentum update; the error terms and the outputs are unchanged |
| Kernels.Backward | src/main/java/net/parasec/nn/network/ANN.java:89-114 | all error terms are computed from the old weights, then every weight and momentum entry is updated |
| Kernels.BackPropagate | src/main/java/net/parasec/nn/network/ANN.java:89-114 | an index error occurs exactly when `deltas[nLayers-1]` or a target entry is missing, and then nothing is changed; otherwise the error terms and the momentum update are as stated above |
| Kernels.CopyLayer | src/main/java/net/parasec/nn/network/ANN.java:124-127 | the copy holds every entry of the source matrix |
| Kernels.ZeroTensor | src/main/java/net/parasec/nn/network/ANN.java:64-66 | a new tensor of the structure's shape, all zeros, sharing no array |
| Kernels.FillRandom | src/main/java/net/parasec/nn/network/ANN.java:61-63 | every entry of the matrix is a draw in the weight range |
| Kernels.RandomTensor | src/main/java/net/parasec/nn/network/ANN.java:57-63 | a new tensor of the structure's shape whose every entry, bias included, is a draw |
| Kernels.CloneTensor | src/main/java/net/parasec/nn/network/ANN.java:120-129 | a new tensor of the structure's shape, entrywise equal to the source, its arrays all new |
| Kernels.NewBuffers | src/main/java/net/parasec/nn/network/ANN.java:49-56 | the outputs buffer of layer i has structure[i] entries and the deltas buffer of layer i has structure[i+1]; all are new and distinct |
| Network.ANN.constructor | src/main/java/net/parasec/nn/network/ANN.java:42-67 | tensors and buffers in the structure's shapes, every weight a draw in range, the momentum tensor zero, every array new |
| Network.ANN.FeedForward | src/main/java/net/parasec/nn/network/ANN.java:69-87 | `outputs[0]` becomes the instance array itself; every later layer is the activation of its net inputs; the result is the output layer's buffer; a short instance is an index error after `outputs[0]` is set and before any layer from 1 on is written |
| Network.ANN.BackPropagateError | src/main/java/net/parasec/nn/network/ANN.java:89-114 | an index error exactly when the last delta layer or a target is missing, changing nothing; otherwise the error terms from the old weights, then the momentum update on every weight |
| Network.ANN.CloneWeights | src/main/java/net/parasec/nn/network/ANN.java:120-129 | a deep copy: new arrays of the same shape and entries, distinct from each other |
| Network.ANN.InitialiseWeights | src/main/java/net/parasec/nn/network/ANN.java:131-136 | the network takes the given tensor itself, not a copy, and a new all-zero momentum tensor |
| LegacyNetwork.ANN.constructor | src/main/java/net/parasec/nn/ANN.java:39-64 | tensors and buffers in the structure's shapes, every weight `getRandomWeight` in range, zero momentum |
| LegacyNetwork.ANN.FeedForward | src/main/java/net/parasec/nn/ANN.java:66-84 | aliases `outputs[0]` to the instance, computes each neuron from bias plus weighted previous outputs, returns the last buffer |
| LegacyNetwork.ANN.BackPropagateError | src/main/java/net/parasec/nn/ANN.java:86-107 | error terms from the old weights (the hidden sum skips the bias column), then the momentum update, with input 1 for the bias |
| LegacyNetwork.ANN.CloneWeights | src/main/java/net/parasec/nn/ANN.java:113-122 | a new, equal-valued deep copy |
| LegacyNetwork.ANN.InitialiseWeights | src/main/java/net/parasec/nn/ANN.java:124-129 | aliases the given tensor and zeroes the momentum |
| Trainer.Quotient | src/main/java/net/parasec/nn/training/Trainer.java:43 | a mean over n items is NaN exactly when n is 0 |
| Trainer.Abs | src/main/java/net/parasec/nn/training/Trainer.java:78 | `Math.abs(x)` is non-negative and is x or -x |
| Trainer.PowerTwoSign | src/main/java/net/parasec/nn/training/Trainer.java:104 | `Math.pow(x, 2)` is never negative, and is positive for x != 0 |
| Trainer.SquaredError | src/main/java/net/parasec/nn/training/Trainer.java:100-106 | the sum of squares is never negative |
| Trainer.SquaredErrorZero | src/main/java/net/parasec/nn/training/Trainer.java:100-106 | the sum of squares is 0 exactly when the output equals the desired values it is compared with |
| Trainer.NetworkError | src/main/java/net/parasec/nn/training/Trainer.java:100-106 | the descending loop computes the sum of squares; an index error occurs exactly when the desired vector is shorter than the output |
| Trainer.TrainFromSum | src/main/java/net/parasec/nn/training/Trainer.java:35-42 | a successful training pass ends with the starting sum plus the squared error of each of its instances, one per instance, so the sum never decreases |
| Trainer.TrainingPass | src/main/java/net/parasec/nn/training/Trainer.java:35-42 | one forward and one backward step per training instance, in list order, summing the squared errors |
| Trainer.TestingPass | src/main/java/net/parasec/nn/training/Trainer.java:47-53 | a forward step only per test instance, in order, summing the squared errors |
| Trainer.EpochCheckpointed | src/main/java/net/parasec/nn/training/Trainer.java:34-61 | one epoch appends one entry to each error array and keeps the checkpoint invariant: strict `<`, 1-based `bestEpoch` at the FIRST lowest test error, a clone of that epoch's weights, all test errors 0 without a test set |
| Trainer.EpochsCheckpointed | src/main/java/net/parasec/nn/training/Trainer.java:31-62 | after any number of epochs the error arrays have one entry per epoch and the checkpoint invariant holds |
| Trainer.SummaryBounds | src/main/java/net/parasec/nn/training/Trainer.java:66-88 | with min starting at 1 and max at 0: min <= 1, min <= every difference, and min is 1 or one of the differences; max >= 0, max >= every difference, and max is 0 or one of them; the sum of non-negative differences is non-negative |
| Trainer.AbsDiffs | src/main/java/net/parasec/nn/training/Trainer.java:77-78 | one non-negative difference \|out_j - desired_j\| per output, in order |
| Trainer.SummariseInstance | src/main/java/net/parasec/nn/training/Trainer.java:75-84 | folds one instance's differences into the running sum, min and max; an index error occurs exactly when the desired vector is shorter than the output |
| Trainer.ValidationPass | src/main/java/net/parasec/nn/training/Trainer.java:66-85 | the summary loop over the whole test set equals `Validate`: the summary of all differences, and the count of outputs |
| Trainer.RunEpoch | src/main/java/net/parasec/nn/training/Trainer.java:34-61 | the loop body computes exactly one step of `Epochs`: training pass, sqrt(sum/n) training error, testing pass, checkpoint |
| Trainer.EpochLoop | src/main/java/net/parasec/nn/training/Trainer.java:31-62 | each epoch reshuffles the training list, so every order is a permutation of it; the test list is unchanged; the result is `Epochs` over the orders, one per epoch unless an exception stopped it |
| Trainer.Report | src/main/java/net/parasec/nn/training/Trainer.java:63-94 | the restore, summary and report after the loop equal `Finish` |
| Trainer.Train | src/main/java/net/parasec/nn/training/Trainer.java:15-95 | negative `epochs` fails allocating the arrays; otherwise the result is the whole run (`Run`) over permutations of the training list, one per epoch; the test list is unchanged |
| Trainer.TrainingOutcome | src/main/java/net/parasec/nn/training/Trainer.java:15-95 | the report of a completed run: one error per epoch, `trainingMSE` the last; all test errors 0 without a test set; with an improvement, `bestEpoch` = 1 + the first argmin, `testingMSE` the minimum, the summary over the restored clone with min <= 1 and max >= 0; otherwise `bestEpoch` = `epochs`, no restore, zero test figures |
| Trainer.FinishOutcome | src/main/java/net/parasec/nn/training/Trainer.java:63-94 | from any state that keeps the checkpoint invariant, the report after the loop has the shape `TrainingOutcome` states |
| Trainer.RestoredSummary | src/main/java/net/parasec/nn/training/Trainer.java:63-88 | with a checkpoint, the network is restored from the clone (momentum reset), the summary over it succeeds, and its min is at most 1 and its max at least 0 |
| DataLoader.Fields | src/main/java/net/parasec/nn/DataLoader.java:30 | cutting at commas gives at least one piece, none of which holds a comma |
| DataLoader.JoinFields | src/main/java/net/parasec/nn/DataLoader.java:30 | joining the pieces with commas gives the line back |
| DataLoader.FieldsJoin | src/main/java/net/parasec/nn/DataLoader.java:30 | comma-free pieces are recovered by cutting their join |
| DataLoader.TrimTrailing | src/main/java/net/parasec/nn/DataLoader.java:30 | dropping trailing empty strings leaves a prefix whose last piece is non-empty, and removes only empty pieces |
| DataLoader.SplitLine | src/main/java/net/parasec/nn/DataLoader.java:30 | `line.split(",")` on a line holding a comma, the only lines the loader splits, gives fields free of commas |
| DataLoader.Parsed | src/main/java/net/parasec/nn/DataLoader.java:53-57 | all fields parse exactly when the result is present, and then it holds each field's value in order |
| DataLoader.InstanceOf | src/main/java/net/parasec/nn/DataLoader.java:49-59 | fails with a negative array size exactly when the output length is outside 0..m, else with a number format error exactly when a field does not parse; otherwise the output has `outputLength` entries, input then output hold the m values in field order |
| DataLoader.ParseInstance | src/main/java/net/parasec/nn/DataLoader.java:49-59 | the two allocations and the two filling loops compute `InstanceOf` |
| DataLoader.DataRows | src/main/java/net/parasec/nn/DataLoader.java:28-29 | the kept lines all hold a comma and are no more than the lines read |
| DataLoader.DataRowsAppend | src/main/java/net/parasec/nn/DataLoader.java:28-29 | the line filter works line by line, so it distributes over concatenation and keeps file order |
| DataLoader.LoadedRows | src/main/java/net/parasec/nn/DataLoader.java:28-33 | the load succeeds exactly when every data row parses, and then gives one instance per data row in file order; otherwise it raises the exception of the first row that fails |
| DataLoader.LoadedOutputLength | src/main/java/net/parasec/nn/DataLoader.java:51-52 | every loaded instance has an output vector of `outputLength` entries |
| DataLoader.LoadedFailurePersists | src/main/java/net/parasec/nn/DataLoader.java:28-33 | once a prefix of the lines fails to load, the whole file fails with the same exception |
| DataLoader.LoadCsv | src/main/java/net/parasec/nn/DataLoader.java:19-44 | an `IOException` of opening, reading or closing gives `null`, never a partial list, and one of `close()` also replaces a pending parse exception; otherwise a parse exception propagates uncaught, and without either the result is the instances of the data rows in file order |

## Left out

- `KFoldTrainer`: its substance is the thread pool, the blocking queue, the latch and a `Random` shared across threads. Its sequential remainder only indexes folds and averages the best epochs.
- The `Random` source: `nextDouble` is an arbitrary real in [0, 1) and `nextInt(i)` an arbitrary value in [0, i). Which permutation or weights a given seed produces is not modelled.
- `fastExp1`, `sigmoid`, `fastSigmoid` and `tanh`: they are bit-level and transcendental code over IEEE doubles. The activation is an uninterpreted function parameter.
- IEEE 754 rounding, infinities and NaN in general: doubles are reals. The NaN of `0.0/0` in the trainer's two means is kept as a value (`Trainer.Double`), and `Math.sqrt` is a parameter.
- Logging, the timing in `loadCsv`, and the file itself: the lines read, and whether opening, `readLine` or `close()` threw an `IOException`, are parameters of `DataLoader.LoadCsv`.
- `Double.parseDouble` is a partial function parameter. Which strings it accepts (whitespace, `NaN`, `Infinity`, hex) is not modelled.
- The `LinkedList` that `loadCsv` fills, and every `ArrayList`, are sequences. Java arrays of arrays are sequences of `array`/`array2`, because their outer arrays are never written in place except `outputs[0]`, which is a sequence update.
- Object identity of `TrainingInstance`: its `equals` is Java's default identity. The model compares instances by value, which only matters for `dataPartitions`: two partitions the model finds equal hold equal values, where Java requires the same instances in the same order.
- Network.ANN.constructor: requires a structure of at least one layer, with layer sizes of type `nat`. An empty structure throws at `structure[structure.length-1]` before anything else, and a negative layer size throws `NegativeArraySizeException` at the first allocation of that size; neither case is modelled. `Kernels.NewBuffers`, `Kernels.ZeroTensor` and `Kernels.RandomTensor` take the same `nat` sizes.
- LegacyNetwork.ANN.constructor: requires a structure of at least one layer, with layer sizes of type `nat`. An empty structure throws at `structure[structure.length-1]` before anything else, and a negative layer size throws `NegativeArraySizeException` at the first allocation of that size; neither case is modelled. `Kernels.NewBuffers`, `Kernels.ZeroTensor` and `Kernels.RandomTensor` take the same `nat` sizes.
- Network.ANN.FeedForward: requires that the instance and the buffers are different arrays. It does not model the aliasing that results when a caller passes a buffer of the network itself.
- LegacyNetwork.ANN.FeedForward: requires that the instance and the buffers are different arrays. It does not model the aliasing that results when a caller passes a buffer of the network itself.
- Network.ANN.BackPropagateError: requires that the last `feedForward` covered the input layer. After a failed `feedForward` the source would throw part-way through the weight update, and that partial update is not modelled.
- LegacyNetwork.ANN.BackPropagateError: requires that the last `feedForward` covered the input layer. After a failed `feedForward` the source would throw part-way through the weight update, and that partial update is not modelled.
- Network.ANN.InitialiseWeights: requires a tensor of the structure's shape with distinct layer arrays. A tensor of another shape makes later calls throw in the source, and that is not modelled.
- LegacyNetwork.ANN.InitialiseWeights: requires a tensor of the structure's shape with distinct layer arrays. A tensor of another shape makes later calls throw in the source, and that is not modelled.
- Trainer.Train: the network's own exceptions inside `train` are not modelled. The operations of the abstract network are total; only `networkError`'s index error, and the negative array size for negative `epochs`, are raised.
- Trainer.Train: after an exception, the state the network and the data were left in is not stated beyond the data invariants.
- Trainer.Train: the loop body is split into the methods `RunEpoch`, `TrainingPass`, `TestingPass`, `EpochLoop`, `Report`, `ValidationPass` and `SummariseInstance`. The trainer's local variables are gathered in one `Progress` value, which also records the network state of each epoch (`states`, a specification-only list).
- Tensors.TanhDerivative: states that the derivative is at most 1 and non-negative on [-1, 1]. It does not state that it is strictly positive inside (-1, 1).
- `trainingSize`/`testSize`: they are the functions `TrainingSize` and `TestSize` of each `Data` class. They are used in the contracts of `Split` and `Randomise` and have no contract of their own.
- `print`, the getters, and the callers (`Train`, `Runner`, `IO`, `Report`): they are I/O or plumbing around the modelled core.
