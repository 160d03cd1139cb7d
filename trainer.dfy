/**
 * `Trainer.train` of package `net.parasec.nn.training`: stochastic
 * back-propagation for a number of epochs with a held-back test set,
 * keeping a copy of the weights of the epoch with the lowest test error and
 * restoring it at the end, then summarising the restored network's absolute
 * errors on the test set.
 *
 * The network is an abstract value `W` with the four operations the trainer
 * calls (see `NetworkOps`); its weight tensors are a value `S`. `Math.sqrt`
 * is a parameter. A `double` is a real, except where the code divides 0 by
 * 0, whose NaN is kept as a value of its own.
 */
module Trainer {
  import opened Common
  import opened Tensors
  import opened TrainingData

  /** One row of the dataset: the input vector and the desired output vector. */
  datatype TrainingInstance = TrainingInstance(inputVector: seq<real>, outputVector: seq<real>)

  /** The operations of `ANN` that the trainer uses, on a network state `W` with weights `S`. */
  datatype NetworkOps<!W, !S> = NetworkOps(
    feedForward: (W, seq<real>) -> (W, seq<real>),
    backPropagateError: (W, seq<real>, real, real) -> W,
    cloneWeights: W -> S,
    initialiseWeights: (W, S) -> W)

  /** A `double` that is either a number or the NaN of 0.0 / 0. */
  datatype Double = Num(value: real) | NaN

  /** `Double.MAX_VALUE`, (2 - 2^-52) 2^1023. */
  const MaxDouble: real := 179769313486231570814527423731704356798070567525844996598917476803157260780028538760589558632766878171540458953514382464234321326889464182768467546703537516986049910576551282076245490090389328944075868508455133942304583236903222948165808559332123348274797826204144723168738177180919299881250404026184124858368.0

  /** What `train` returns. */
  datatype TrainingReport = TrainingReport(
    bestEpoch: int,
    trainingMSE: Double,
    testingMSE: real,
    testingAverageError: Double,
    testingMinError: real,
    testingMaxError: real,
    trainingError: seq<Double>,
    testingError: seq<real>)

  /** The report and the network state `train` leaves behind. */
  datatype Trained<W> = Trained(report: TrainingReport, net: W)

  /** `sum / n` for a sum over n items: NaN when there are none. */
  function Quotient(sum: real, n: nat): (q: Double)
    requires n == 0 ==> sum == 0.0
    ensures q.NaN? <==> n == 0
  {
    if n == 0 then NaN else Num(sum / n as real)
  }

  /** `Math.sqrt` lifted to `Double`: NaN stays NaN. */
  function Root(sqrt: real -> real, d: Double): Double
  {
    match d
    case NaN => NaN
    case Num(x) => Num(sqrt(x))
  }

  /** `Math.abs`. */
  function Abs(x: real): (a: real)
    ensures 0.0 <= a && (a == x || a == -x)
  {
    if x < 0.0 then -x else x
  }

  // ---------------------------------------------------------------------
  // networkError
  // ---------------------------------------------------------------------

  /** x^2 = `Math.pow(x, 2)` is never negative, and is positive for x != 0. */
  lemma PowerTwoSign(x: real)
    ensures 0.0 <= Power(x, 2)
    ensures x != 0.0 ==> 0.0 < Power(x, 2)
  {
    var p := Power(x, 1);
    assert Power(x, 0) == 1.0;
    assert p == x * 1.0;
    assert Power(x, 2) == x * p;
    if x < 0.0 {
      MulPositive(-x, -p);
      assert (-x) * (-p) == x * p;
    } else if x > 0.0 {
      MulPositive(x, p);
    } else {
      assert Power(x, 2) == 0.0 * p;
    }
  }

  /**
   * The sum of squared differences between the first |output| desired
   * values and the outputs; never negative.
   */
  function SquaredError(output: seq<real>, desired: seq<real>): (e: real)
    requires |output| <= |desired|
    ensures 0.0 <= e
  {
    if output == [] then 0.0
    else
      PowerTwoSign(desired[0] - output[0]);
      Power(desired[0] - output[0], 2) + SquaredError(output[1..], desired[1..])
  }

  /** The squared error is zero exactly when the outputs equal the desired values. */
  lemma {:induction false} SquaredErrorZero(output: seq<real>, desired: seq<real>)
    requires |output| <= |desired|
    ensures SquaredError(output, desired) == 0.0 <==> output == desired[..|output|]
  {
    if output != [] {
      SquaredErrorZero(output[1..], desired[1..]);
      var d := desired[0] - output[0];
      PowerTwoSign(d);
      if output[0] == desired[0] {
        assert Power(d, 2) == 0.0;
        if output[1..] == desired[1..][..|output| - 1] {
          assert output == [output[0]] + output[1..];
          assert desired[..|output|] == [desired[0]] + desired[1..][..|output| - 1];
        } else {
          assert output[1..] != desired[..|output|][1..];
        }
      } else {
        assert output[0] != desired[..|output|][0];
      }
    }
  }

  /**
   * `networkError(output, desiredOutput)`: the sum of `Math.pow(desired[i] -
   * output[i], 2)` for i from the last output down to 0. A desired vector
   * shorter than the output fails at its first access.
   */
  method NetworkError(output: seq<real>, desired: seq<real>) returns (r: Result<real>)
    ensures r.Failure? <==> |desired| < |output|
    ensures r.Failure? ==> r.exception == IndexOutOfBounds
    ensures r.Success? ==> r.value == SquaredError(output, desired)
  {
    var sum := 0.0;
    var i := |output|;
    while i > 0
      invariant 0 <= i <= |output|
      invariant i < |output| ==> |output| <= |desired|
      invariant i <= |desired| ==> sum == SquaredError(output[i..], desired[i..])
    {
      i := i - 1;
      if i >= |desired| {
        return Failure(IndexOutOfBounds);
      }
      assert output[i..][1..] == output[i + 1..] && desired[i..][1..] == desired[i + 1..];
      sum := sum + Power(desired[i] - output[i], 2);
    }
    assert output[0..] == output && desired[0..] == desired;
    r := Success(sum);
  }

  // ---------------------------------------------------------------------
  // The passes over the data
  // ---------------------------------------------------------------------

  /**
   * The training pass of one epoch from network state `net` with `sum`
   * accumulated so far: for each instance in turn, feed it forward, back-
   * propagate its desired output, then add its squared error.
   */
  function TrainFrom<W, S>(ops: NetworkOps<W, S>, net: W, order: seq<TrainingInstance>,
                           learningRate: real, momentum: real, sum: real): Result<(W, real)>
  {
    if order == [] then Success((net, sum))
    else
      var fed := ops.feedForward(net, order[0].inputVector);
      var learned := ops.backPropagateError(fed.0, order[0].outputVector, learningRate, momentum);
      if |order[0].outputVector| < |fed.1| then Failure(IndexOutOfBounds)
      else TrainFrom(ops, learned, order[1..], learningRate, momentum, sum + SquaredError(fed.1, order[0].outputVector))
  }

  /** The sum of a sequence of reals. */
  function Total(xs: seq<real>): real
  {
    if xs == [] then 0.0 else xs[0] + Total(xs[1..])
  }

  /**
   * The squared error of each training instance of a pass, in order, each
   * taken after the forward step from the state the earlier instances left;
   * it stops at the first instance whose desired vector is too short.
   */
  ghost function PassErrors<W, S>(ops: NetworkOps<W, S>, net: W, order: seq<TrainingInstance>,
                                  learningRate: real, momentum: real): seq<real>
  {
    if order == [] then []
    else
      var fed := ops.feedForward(net, order[0].inputVector);
      var learned := ops.backPropagateError(fed.0, order[0].outputVector, learningRate, momentum);
      if |order[0].outputVector| < |fed.1| then []
      else [SquaredError(fed.1, order[0].outputVector)] + PassErrors(ops, learned, order[1..], learningRate, momentum)
  }

  /**
   * A successful pass ends with `sum` plus the squared error of every
   * instance of the pass, so the error sum only grows.
   */
  lemma {:induction false} TrainFromSum<W, S>(ops: NetworkOps<W, S>, net: W, order: seq<TrainingInstance>,
                                             learningRate: real, momentum: real, sum: real)
    ensures var r := TrainFrom(ops, net, order, learningRate, momentum, sum);
            var errors := PassErrors(ops, net, order, learningRate, momentum);
            r.Success? ==> |errors| == |order| && r.value.1 == sum + Total(errors) && sum <= r.value.1
  {
    if order != [] {
      var fed := ops.feedForward(net, order[0].inputVector);
      var learned := ops.backPropagateError(fed.0, order[0].outputVector, learningRate, momentum);
      if |fed.1| <= |order[0].outputVector| {
        var e := SquaredError(fed.1, order[0].outputVector);
        TrainFromSum(ops, learned, order[1..], learningRate, momentum, sum + e);
        var errors := PassErrors(ops, net, order, learningRate, momentum);
        assert errors[1..] == PassErrors(ops, learned, order[1..], learningRate, momentum);
      }
    }
  }

  /** Lines 36-42 of `train`: one forward and one backward step per training instance, in order. */
  method TrainingPass<W, S>(ops: NetworkOps<W, S>, net: W, order: seq<TrainingInstance>,
                            learningRate: real, momentum: real) returns (r: Result<(W, real)>)
    ensures r == TrainFrom(ops, net, order, learningRate, momentum, 0.0)
  {
    var w := net;
    var trainingSum := 0.0;
    for i := 0 to |order|
      invariant TrainFrom(ops, net, order, learningRate, momentum, 0.0)
                == TrainFrom(ops, w, order[i..], learningRate, momentum, trainingSum)
    {
      assert order[i..][0] == order[i] && order[i..][1..] == order[i + 1..];
      var instance := order[i];
      var fed := ops.feedForward(w, instance.inputVector);
      w := ops.backPropagateError(fed.0, instance.outputVector, learningRate, momentum);
      var e := NetworkError(fed.1, instance.outputVector);
      if e.Failure? {
        return Failure(e.exception);
      }
      trainingSum := trainingSum + e.value;
    }
    r := Success((w, trainingSum));
  }

  /** The testing pass from state `net`: feed every test instance forward and add its squared error. */
  function TestFrom<W, S>(ops: NetworkOps<W, S>, net: W, tests: seq<TrainingInstance>, sum: real): Result<(W, real)>
  {
    if tests == [] then Success((net, sum))
    else
      var fed := ops.feedForward(net, tests[0].inputVector);
      if |tests[0].outputVector| < |fed.1| then Failure(IndexOutOfBounds)
      else TestFrom(ops, fed.0, tests[1..], sum + SquaredError(fed.1, tests[0].outputVector))
  }

  /** Lines 46-54 of `train`: a forward step only, per test instance. */
  method TestingPass<W, S>(ops: NetworkOps<W, S>, net: W, tests: seq<TrainingInstance>) returns (r: Result<(W, real)>)
    ensures r == TestFrom(ops, net, tests, 0.0)
  {
    var w := net;
    var testingSum := 0.0;
    for i := 0 to |tests|
      invariant TestFrom(ops, net, tests, 0.0) == TestFrom(ops, w, tests[i..], testingSum)
    {
      assert tests[i..][0] == tests[i] && tests[i..][1..] == tests[i + 1..];
      var fed := ops.feedForward(w, tests[i].inputVector);
      w := fed.0;
      var e := NetworkError(fed.1, tests[i].outputVector);
      if e.Failure? {
        return Failure(e.exception);
      }
      testingSum := testingSum + e.value;
    }
    r := Success((w, testingSum));
  }

  // ---------------------------------------------------------------------
  // The epochs and the checkpoint
  // ---------------------------------------------------------------------

  /**
   * The trainer's variables after some epochs: the network, `bestEpoch`,
   * `lowestError`, `bestNetwork` (None for null), `trainingMSE` and the two
   * error arrays, filled so far. `states` is the network as each epoch left
   * it; the source keeps no such list.
   */
  datatype Progress<W, S> = Progress(
    net: W,
    bestEpoch: nat,
    lowestError: real,
    bestNetwork: Option<S>,
    trainingMSE: Double,
    trainingError: seq<Double>,
    testingError: seq<real>,
    states: seq<W>)

  /** The variables before the first epoch (lines 17-29). */
  function Start<W, S>(net: W): Progress<W, S>
  {
    Progress(net, 0, MaxDouble, None, Num(0.0), [], [], [])
  }

  /**
   * One epoch (lines 34-61) over the order `randomise` left the training list
   * in. The training error is sqrt(sum / n); with a test set, the test error
   * is sqrt(sum / testSize), and a test error strictly below the lowest so far
   * records this epoch (1-based) and a clone of the weights. Without a test
   * set the epoch's test error stays 0.
   */
  function Epoch<W, S>(ops: NetworkOps<W, S>, st: Progress<W, S>, order: seq<TrainingInstance>,
                       tests: seq<TrainingInstance>, learningRate: real, momentum: real,
                       sqrt: real -> real): Result<Progress<W, S>>
  {
    match TrainFrom(ops, st.net, order, learningRate, momentum, 0.0)
    case Failure(e) => Failure(e)
    case Success(trained) =>
      var mse := Root(sqrt, Quotient(trained.1, |order|));
      var st1 := st.(net := trained.0, trainingMSE := mse, trainingError := st.trainingError + [mse]);
      if |tests| == 0 then
        Success(st1.(testingError := st.testingError + [0.0], states := st.states + [trained.0]))
      else
        match TestFrom(ops, trained.0, tests, 0.0)
        case Failure(e) => Failure(e)
        case Success(tested) =>
          var testingMse := sqrt(tested.1 / |tests| as real);
          var st2 := st1.(net := tested.0, testingError := st.testingError + [testingMse],
                          states := st.states + [tested.0]);
          if testingMse < st.lowestError then
            Success(st2.(bestEpoch := |st.testingError| + 1, lowestError := testingMse,
                         bestNetwork := Some(ops.cloneWeights(tested.0))))
          else
            Success(st2)
  }

  /** What one epoch does to the trainer's variables, for a fixed network, test set and parameters. */
  function EpochStep<W, S>(ops: NetworkOps<W, S>, tests: seq<TrainingInstance>, learningRate: real, momentum: real,
                           sqrt: real -> real): (Progress<W, S>, seq<TrainingInstance>) -> Result<Progress<W, S>>
  {
    (st, order) => Epoch(ops, st, order, tests, learningRate, momentum, sqrt)
  }

  /** `step` applied once per order from `start`, stopping at the first exception. */
  function Iterate<W, S>(step: (Progress<W, S>, seq<TrainingInstance>) -> Result<Progress<W, S>>, start: Progress<W, S>,
                         orders: seq<seq<TrainingInstance>>): Result<Progress<W, S>>
  {
    if orders == [] then Success(start)
    else
      match Iterate(step, start, orders[..|orders| - 1])
      case Failure(e) => Failure(e)
      case Success(st) => step(st, orders[|orders| - 1])
  }

  /** One more order is one more step from where the others left the variables. */
  lemma {:induction false} IterateSnoc<W, S>(step: (Progress<W, S>, seq<TrainingInstance>) -> Result<Progress<W, S>>,
                                            start: Progress<W, S>, orders: seq<seq<TrainingInstance>>, st: Progress<W, S>)
    requires orders != [] && Iterate(step, start, orders[..|orders| - 1]) == Success(st)
    ensures Iterate(step, start, orders) == step(st, orders[|orders| - 1])
  {
  }

  /** The epochs run over the given training orders, one epoch per order, stopping at an exception. */
  function Epochs<W, S>(ops: NetworkOps<W, S>, net: W, orders: seq<seq<TrainingInstance>>,
                        tests: seq<TrainingInstance>, learningRate: real, momentum: real,
                        sqrt: real -> real): Result<Progress<W, S>>
  {
    Iterate(EpochStep(ops, tests, learningRate, momentum, sqrt), Start(net), orders)
  }

  /**
   * The invariant of the epoch loop. Both error arrays and the list of states
   * have one entry per epoch done, and `trainingMSE` is the last training
   * error. Without a test set nothing is ever checkpointed and every test
   * error is 0. With one, either no epoch's test error has been below
   * `Double.MAX_VALUE` and nothing is checkpointed, or `bestEpoch` - 1 is the
   * FIRST epoch with the lowest test error, `lowestError` is that error, and
   * `bestNetwork` is the clone of the network that epoch left.
   */
  ghost predicate Checkpointed<W, S>(ops: NetworkOps<W, S>, st: Progress<W, S>, testing: bool)
  {
    var errs := st.testingError;
    && |st.trainingError| == |errs| == |st.states|
    && st.trainingMSE == (if errs == [] then Num(0.0) else st.trainingError[|errs| - 1])
    && st.bestEpoch <= |errs|
    && (!testing ==> st.bestEpoch == 0 && forall e :: 0 <= e < |errs| ==> errs[e] == 0.0)
    && (st.bestEpoch == 0 ==>
          && st.bestNetwork == None && st.lowestError == MaxDouble
          && (testing ==> forall e :: 0 <= e < |errs| ==> MaxDouble <= errs[e]))
    && (st.bestEpoch > 0 ==>
          && st.bestNetwork == Some(ops.cloneWeights(st.states[st.bestEpoch - 1]))
          && st.lowestError == errs[st.bestEpoch - 1] < MaxDouble
          && (forall e :: 0 <= e < |errs| ==> st.lowestError <= errs[e])
          && (forall e :: 0 <= e < st.bestEpoch - 1 ==> st.lowestError < errs[e]))
  }

  /** One epoch keeps the checkpoint invariant and adds one entry to each array. */
  lemma {:induction false} EpochCheckpointed<W, S>(ops: NetworkOps<W, S>, st: Progress<W, S>, order: seq<TrainingInstance>,
                                tests: seq<TrainingInstance>, learningRate: real, momentum: real,
                                sqrt: real -> real, st': Progress<W, S>)
    requires Checkpointed(ops, st, |tests| > 0)
    requires Epoch(ops, st, order, tests, learningRate, momentum, sqrt) == Success(st')
    ensures Checkpointed(ops, st', |tests| > 0)
    ensures st'.testingError[..|st.testingError|] == st.testingError
    ensures |st'.testingError| == |st.testingError| + 1
  {
    var n := |st.testingError|;
    assert st'.testingError[..n] == st.testingError;
    assert st'.states[..n] == st.states;
    if st'.bestEpoch > 0 {
      assert st'.states[st'.bestEpoch - 1] == (if st'.bestEpoch == n + 1 then st'.states[n] else st.states[st'.bestEpoch - 1]);
    }
  }

  /** After any number of epochs the checkpoint invariant holds, with one entry per epoch. */
  lemma {:induction false} EpochsCheckpointed<W, S>(ops: NetworkOps<W, S>, net: W, orders: seq<seq<TrainingInstance>>,
                                                   tests: seq<TrainingInstance>, learningRate: real, momentum: real,
                                                   sqrt: real -> real, st: Progress<W, S>)
    requires Epochs(ops, net, orders, tests, learningRate, momentum, sqrt) == Success(st)
    ensures Checkpointed(ops, st, |tests| > 0)
    ensures |st.testingError| == |orders|
  {
    if orders != [] {
      var init := orders[..|orders| - 1];
      assert Epochs(ops, net, init, tests, learningRate, momentum, sqrt).Success?;
      var prev := Epochs(ops, net, init, tests, learningRate, momentum, sqrt).value;
      EpochsCheckpointed(ops, net, init, tests, learningRate, momentum, sqrt, prev);
      EpochCheckpointed(ops, prev, orders[|orders| - 1], tests, learningRate, momentum, sqrt, st);
    }
  }

  // ---------------------------------------------------------------------
  // The summary over the test set
  // ---------------------------------------------------------------------

  /** The running `sum`, `min` and `max` of the summary loop. */
  datatype Stats = Stats(sum: real, min: real, max: real)

  /** Lines 78-83: add one absolute difference. */
  function Accumulate(s: Stats, diff: real): Stats
  {
    Stats(s.sum + diff, if diff < s.min then diff else s.min, if diff > s.max then diff else s.max)
  }

  /** The summary of a list of differences, with `min` starting at 1 and `max` at 0 (lines 66-68). */
  function Summary(diffs: seq<real>): Stats
  {
    if diffs == [] then Stats(0.0, 1.0, 0.0)
    else Accumulate(Summary(diffs[..|diffs| - 1]), diffs[|diffs| - 1])
  }

  /**
   * The summary's minimum is at most 1 and at most every difference, and is
   * 1 or one of them; its maximum is at least 0 and at least every
   * difference, and is 0 or one of them. Differences that are never negative
   * give a sum that is not negative.
   */
  lemma {:induction false} SummaryBounds(diffs: seq<real>)
    ensures Summary(diffs).min <= 1.0 && 0.0 <= Summary(diffs).max
    ensures forall k :: 0 <= k < |diffs| ==> Summary(diffs).min <= diffs[k] <= Summary(diffs).max
    ensures Summary(diffs).min == 1.0 || exists k :: 0 <= k < |diffs| && Summary(diffs).min == diffs[k]
    ensures Summary(diffs).max == 0.0 || exists k :: 0 <= k < |diffs| && Summary(diffs).max == diffs[k]
    ensures (forall k :: 0 <= k < |diffs| ==> 0.0 <= diffs[k]) ==> 0.0 <= Summary(diffs).sum
  {
    if diffs != [] {
      var init := diffs[..|diffs| - 1];
      SummaryBounds(init);
      assert forall k :: 0 <= k < |init| ==> init[k] == diffs[k];
    }
  }

  /** The absolute differences between the outputs and the first |output| desired values. */
  function AbsDiffs(output: seq<real>, desired: seq<real>): (d: seq<real>)
    requires |output| <= |desired|
    ensures |d| == |output|
    ensures forall j :: 0 <= j < |output| ==> d[j] == Abs(output[j] - desired[j]) && 0.0 <= d[j]
  {
    if output == [] then []
    else
      var n := |output| - 1;
      AbsDiffs(output[..n], desired) + [Abs(output[n] - desired[n])]
  }

  /** The differences of one more entry are those before it and that entry's. */
  lemma {:induction false} AbsDiffsSnoc(output: seq<real>, desired: seq<real>, j: nat)
    requires j < |output| && j < |desired|
    ensures AbsDiffs(output[..j + 1], desired) == AbsDiffs(output[..j], desired) + [Abs(output[j] - desired[j])]
  {
    var o := output[..j + 1];
    assert o[..|o| - 1] == output[..j] && o[|o| - 1] == output[j];
  }

  /** The summary pass from state `net`, with the differences seen so far in `diffs`. */
  function StatsFrom<W, S>(ops: NetworkOps<W, S>, net: W, tests: seq<TrainingInstance>, diffs: seq<real>)
    : Result<(W, seq<real>)>
  {
    if tests == [] then Success((net, diffs))
    else
      var fed := ops.feedForward(net, tests[0].inputVector);
      if |tests[0].outputVector| < |fed.1| then Failure(IndexOutOfBounds)
      else StatsFrom(ops, fed.0, tests[1..], diffs + AbsDiffs(fed.1, tests[0].outputVector))
  }

  /** The outcome of the summary loop: the network state, the running values and the count `i`. */
  datatype Validation<W> = Validation(net: W, stats: Stats, count: nat)

  /** The summary loop over the whole test set. */
  function Validate<W, S>(ops: NetworkOps<W, S>, net: W, tests: seq<TrainingInstance>): (r: Result<Validation<W>>)
    ensures r.Success? ==> (r.value.count == 0 ==> r.value.stats.sum == 0.0)
  {
    match StatsFrom(ops, net, tests, [])
    case Failure(e) => Failure(e)
    case Success(p) => Success(Validation(p.0, Summary(p.1), |p.1|))
  }

  /** Adding one more difference is one more step of the summary. */
  lemma {:induction false} SummarySnoc(diffs: seq<real>, diff: real)
    ensures Summary(diffs + [diff]) == Accumulate(Summary(diffs), diff)
  {
    assert (diffs + [diff])[..|diffs|] == diffs;
  }

  /**
   * Lines 77-84 for one test instance: fold the absolute difference of each
   * output from its desired value into the running sum, minimum and maximum.
   * A desired vector shorter than the output fails at its first missing entry.
   */
  method SummariseInstance(output: seq<real>, desired: seq<real>, sum0: real, min0: real, max0: real,
                           ghost before: seq<real>)
    returns (r: Result<Stats>)
    requires Stats(sum0, min0, max0) == Summary(before)
    ensures r.Failure? <==> |desired| < |output|
    ensures r.Failure? ==> r.exception == IndexOutOfBounds
    ensures r.Success? ==> r.value == Summary(before + AbsDiffs(output, desired))
  {
    var sum, min, max := sum0, min0, max0;
    ghost var diffs := before;
    for j := 0 to |output|
      invariant j <= |desired| && diffs == before + AbsDiffs(output[..j], desired)
      invariant Stats(sum, min, max) == Summary(diffs)
    {
      if j >= |desired| {
        return Failure(IndexOutOfBounds);
      }
      var diff := Abs(output[j] - desired[j]);
      AbsDiffsSnoc(output, desired, j);
      assert before + AbsDiffs(output[..j + 1], desired) == diffs + [diff];
      SummarySnoc(diffs, diff);
      sum := sum + diff;
      min := if diff < min then diff else min;
      max := if diff > max then diff else max;
      diffs := diffs + [diff];
    }
    assert output[..|output|] == output;
    r := Success(Stats(sum, min, max));
  }

  /** Lines 66-85: every output's absolute difference from its desired value, in order. */
  method ValidationPass<W, S>(ops: NetworkOps<W, S>, net: W, tests: seq<TrainingInstance>)
    returns (r: Result<Validation<W>>)
    ensures r == Validate(ops, net, tests)
  {
    var w := net;
    var stats := Stats(0.0, 1.0, 0.0);
    var count := 0;
    ghost var diffs: seq<real> := [];
    for i := 0 to |tests|
      invariant StatsFrom(ops, net, tests, []) == StatsFrom(ops, w, tests[i..], diffs)
      invariant stats == Summary(diffs) && count == |diffs|
    {
      assert tests[i..][0] == tests[i] && tests[i..][1..] == tests[i + 1..];
      var fed := ops.feedForward(w, tests[i].inputVector);
      count := count + |fed.1|;
      var s := SummariseInstance(fed.1, tests[i].outputVector, stats.sum, stats.min, stats.max, diffs);
      if s.Failure? {
        return Failure(s.exception);
      }
      stats := s.value;
      diffs := diffs + AbsDiffs(fed.1, tests[i].outputVector);
      w := fed.0;
    }
    r := Success(Validation(w, stats, count));
  }

  // ---------------------------------------------------------------------
  // train
  // ---------------------------------------------------------------------

  /**
   * Lines 63-94: with a test set and a checkpoint, restore the checkpointed
   * weights (momentum reset by `initialiseWeights`) and summarise them;
   * otherwise `bestEpoch` is `epochs` and the test figures stay 0.
   */
  function Finish<W, S>(ops: NetworkOps<W, S>, st: Progress<W, S>, tests: seq<TrainingInstance>, epochs: int)
    : Result<Trained<W>>
  {
    if |tests| > 0 && st.bestNetwork.Some? then
      match Validate(ops, ops.initialiseWeights(st.net, st.bestNetwork.value), tests)
      case Failure(e) => Failure(e)
      case Success(v) =>
        Success(Trained(TrainingReport(st.bestEpoch, st.trainingMSE, st.lowestError,
                                       Quotient(v.stats.sum, v.count), v.stats.min, v.stats.max,
                                       st.trainingError, st.testingError), v.net))
    else
      Success(Trained(TrainingReport(epochs, st.trainingMSE, 0.0, Num(0.0), 0.0, 0.0,
                                     st.trainingError, st.testingError), st.net))
  }

  /** The whole of `train` for the given training orders, one per epoch. */
  function Run<W, S>(ops: NetworkOps<W, S>, net: W, orders: seq<seq<TrainingInstance>>,
                     tests: seq<TrainingInstance>, epochs: int, learningRate: real, momentum: real,
                     sqrt: real -> real): Result<Trained<W>>
  {
    match Epochs(ops, net, orders, tests, learningRate, momentum, sqrt)
    case Failure(e) => Failure(e)
    case Success(st) => Finish(ops, st, tests, epochs)
  }

  /**
   * What a completed run reports. There is one training and one test error
   * per epoch, and `trainingMSE` is the last training error (0 for no epoch).
   * Without a test set every test error is 0. When some test error is below
   * `Double.MAX_VALUE`, `bestEpoch` is 1 + the first epoch with the lowest
   * test error, `testingMSE` is that error, and the summary is taken over the
   * network whose weights are the clone taken at that epoch; every summary
   * figure lies within the bounds `SummaryBounds` gives. Otherwise `bestEpoch`
   * is `epochs`, the network is not restored and the test figures are 0.
   */
  lemma {:induction false} TrainingOutcome<W, S>(ops: NetworkOps<W, S>, net: W, orders: seq<seq<TrainingInstance>>,
                              tests: seq<TrainingInstance>, epochs: int, learningRate: real, momentum: real,
                              sqrt: real -> real, st: Progress<W, S>, t: Trained<W>)
    requires Epochs(ops, net, orders, tests, learningRate, momentum, sqrt) == Success(st)
    requires Run(ops, net, orders, tests, epochs, learningRate, momentum, sqrt) == Success(t)
    ensures |t.report.trainingError| == |t.report.testingError| == |orders|
    ensures t.report.trainingMSE == (if orders == [] then Num(0.0) else t.report.trainingError[|orders| - 1])
    ensures |tests| == 0 ==> forall e :: 0 <= e < |orders| ==> t.report.testingError[e] == 0.0
    ensures var errs := t.report.testingError;
            |tests| > 0 && (exists e :: 0 <= e < |errs| && errs[e] < MaxDouble) ==>
              && 1 <= t.report.bestEpoch <= |orders| == |st.states|
              && t.report.testingMSE == errs[t.report.bestEpoch - 1]
              && (forall e :: 0 <= e < |errs| ==> t.report.testingMSE <= errs[e])
              && (forall e :: 0 <= e < t.report.bestEpoch - 1 ==> t.report.testingMSE < errs[e])
              && var restored := ops.initialiseWeights(st.net, ops.cloneWeights(st.states[t.report.bestEpoch - 1]));
                 && Validate(ops, restored, tests).Success?
                 && var v := Validate(ops, restored, tests).value;
                    && t.net == v.net
                    && t.report.testingAverageError == Quotient(v.stats.sum, v.count)
                    && t.report.testingMinError == v.stats.min <= 1.0
                    && 0.0 <= v.stats.max == t.report.testingMaxError
    ensures var errs := t.report.testingError;
            !(|tests| > 0 && (exists e :: 0 <= e < |errs| && errs[e] < MaxDouble)) ==>
              && t.report.bestEpoch == epochs && t.net == st.net
              && t.report.testingMSE == 0.0 && t.report.testingAverageError == Num(0.0)
              && t.report.testingMinError == 0.0 && t.report.testingMaxError == 0.0
  {
    EpochsCheckpointed(ops, net, orders, tests, learningRate, momentum, sqrt, st);
    assert Finish(ops, st, tests, epochs) == Success(t);
    FinishOutcome(ops, st, tests, epochs, t);
  }

  /**
   * Lines 63-94 from any state that keeps the checkpoint invariant: the
   * report of `TrainingOutcome`, with one entry per epoch done.
   */
  lemma {:induction false} FinishOutcome<W, S>(ops: NetworkOps<W, S>, st: Progress<W, S>, tests: seq<TrainingInstance>,
                                               epochs: int, t: Trained<W>)
    requires Checkpointed(ops, st, |tests| > 0)
    requires Finish(ops, st, tests, epochs) == Success(t)
    ensures |t.report.trainingError| == |t.report.testingError| == |st.testingError| == |st.states|
    ensures t.report.trainingMSE == (if st.testingError == [] then Num(0.0) else t.report.trainingError[|st.testingError| - 1])
    ensures |tests| == 0 ==> forall e :: 0 <= e < |st.testingError| ==> t.report.testingError[e] == 0.0
    ensures var errs := t.report.testingError;
            |tests| > 0 && (exists e :: 0 <= e < |errs| && errs[e] < MaxDouble) ==>
              && 1 <= t.report.bestEpoch <= |st.states|
              && t.report.testingMSE == errs[t.report.bestEpoch - 1]
              && (forall e :: 0 <= e < |errs| ==> t.report.testingMSE <= errs[e])
              && (forall e :: 0 <= e < t.report.bestEpoch - 1 ==> t.report.testingMSE < errs[e])
              && var restored := ops.initialiseWeights(st.net, ops.cloneWeights(st.states[t.report.bestEpoch - 1]));
                 && Validate(ops, restored, tests).Success?
                 && var v := Validate(ops, restored, tests).value;
                    && t.net == v.net
                    && t.report.testingAverageError == Quotient(v.stats.sum, v.count)
                    && t.report.testingMinError == v.stats.min <= 1.0
                    && 0.0 <= v.stats.max == t.report.testingMaxError
    ensures var errs := t.report.testingError;
            !(|tests| > 0 && (exists e :: 0 <= e < |errs| && errs[e] < MaxDouble)) ==>
              && t.report.bestEpoch == epochs && t.net == st.net
              && t.report.testingMSE == 0.0 && t.report.testingAverageError == Num(0.0)
              && t.report.testingMinError == 0.0 && t.report.testingMaxError == 0.0
  {
    if |tests| > 0 && st.bestNetwork.Some? {
      RestoredSummary(ops, st, tests, epochs, t);
    }
  }

  /** With a checkpoint, the report holds the summary of the restored network, whose bounds are those of `SummaryBounds`. */
  lemma {:induction false} RestoredSummary<W, S>(ops: NetworkOps<W, S>, st: Progress<W, S>, tests: seq<TrainingInstance>,
                                                 epochs: int, t: Trained<W>)
    requires |tests| > 0 && st.bestNetwork.Some?
    requires Finish(ops, st, tests, epochs) == Success(t)
    ensures var v := Validate(ops, ops.initialiseWeights(st.net, st.bestNetwork.value), tests);
            && v.Success? && t.net == v.value.net
            && t.report == TrainingReport(st.bestEpoch, st.trainingMSE, st.lowestError,
                                          Quotient(v.value.stats.sum, v.value.count), v.value.stats.min,
                                          v.value.stats.max, st.trainingError, st.testingError)
            && v.value.stats.min <= 1.0 && 0.0 <= v.value.stats.max
  {
    var p := StatsFrom(ops, ops.initialiseWeights(st.net, st.bestNetwork.value), tests, []).value;
    SummaryBounds(p.1);
  }

  /**
   * The body of the epoch loop (lines 34-61) for epoch `epoch` (0-based),
   * the trainer's variables gathered in `st`: a training pass over the order
   * the shuffle left, then, with a test set, a testing pass and the
   * checkpoint of a new lowest test error.
   */
  method RunEpoch<W, S>(ops: NetworkOps<W, S>, st: Progress<W, S>, epoch: nat, order: seq<TrainingInstance>,
                        datasetLen: nat, tests: seq<TrainingInstance>, learningRate: real, momentum: real,
                        sqrt: real -> real)
    returns (r: Result<Progress<W, S>>)
    requires epoch == |st.testingError| && datasetLen == |order|
    ensures r == Epoch(ops, st, order, tests, learningRate, momentum, sqrt)
  {
    var trained := TrainingPass(ops, st.net, order, learningRate, momentum);
    if trained.Failure? {
      return Failure(trained.exception);
    }
    var w := trained.value.0;
    var trainingMSE := Root(sqrt, Quotient(trained.value.1, datasetLen));
    var trainingError := st.trainingError + [trainingMSE];
    if |tests| == 0 {
      return Success(st.(net := w, trainingMSE := trainingMSE, trainingError := trainingError,
                         testingError := st.testingError + [0.0], states := st.states + [w]));
    }
    var tested := TestingPass(ops, w, tests);
    if tested.Failure? {
      return Failure(tested.exception);
    }
    w := tested.value.0;
    var testingMse := sqrt(tested.value.1 / |tests| as real);
    var bestEpoch, lowestError, bestNetwork := st.bestEpoch, st.lowestError, st.bestNetwork;
    if testingMse < lowestError {
      bestEpoch := epoch + 1;
      lowestError := testingMse;
      bestNetwork := Some(ops.cloneWeights(w));
    }
    r := Success(Progress(w, bestEpoch, lowestError, bestNetwork, trainingMSE, trainingError,
                          st.testingError + [testingMse], st.states + [w]));
  }

  /**
   * Lines 63-94 after the last epoch: with a test set and a checkpoint, the
   * checkpointed weights are restored and summarised; otherwise the report
   * carries `epochs` as the best epoch and zero test figures.
   */
  method Report<W, S>(ops: NetworkOps<W, S>, st: Progress<W, S>, tests: seq<TrainingInstance>, epochs: int)
    returns (r: Result<Trained<W>>)
    ensures r == Finish(ops, st, tests, epochs)
  {
    if |tests| > 0 && st.bestNetwork.Some? {
      var w := ops.initialiseWeights(st.net, st.bestNetwork.value);
      var v := ValidationPass(ops, w, tests);
      if v.Failure? {
        return Failure(v.exception);
      }
      var testingAverageError := Quotient(v.value.stats.sum, v.value.count);
      r := Success(Trained(TrainingReport(st.bestEpoch, st.trainingMSE, st.lowestError, testingAverageError,
                                          v.value.stats.min, v.value.stats.max, st.trainingError, st.testingError),
                           v.value.net));
    } else {
      r := Success(Trained(TrainingReport(epochs, st.trainingMSE, 0.0, Num(0.0), 0.0, 0.0,
                                          st.trainingError, st.testingError), st.net));
    }
  }

  /**
   * `orders` are the orders a list `base` was shuffled into, one after the
   * other, each a permutation of `base`, and `current` is the last of them
   * (`base` itself before the first shuffle).
   */
  ghost predicate Reshuffled(orders: seq<seq<TrainingInstance>>, base: seq<TrainingInstance>, current: seq<TrainingInstance>)
  {
    && (forall e :: 0 <= e < |orders| ==> multiset(orders[e]) == multiset(base))
    && current == (if orders == [] then base else orders[|orders| - 1])
  }

  /** One more shuffle of the current order is one more permutation of the base list. */
  lemma ReshuffledSnoc(orders: seq<seq<TrainingInstance>>, base: seq<TrainingInstance>, current: seq<TrainingInstance>,
                       next: seq<TrainingInstance>)
    requires Reshuffled(orders, base, current) && multiset(next) == multiset(current)
    ensures Reshuffled(orders + [next], base, next)
  {
  }

  /**
   * The epoch loop of `train` (lines 31-62): each epoch first reshuffles the
   * training list (`orders` records the order of each epoch), then runs the
   * passes. The result is `Epochs` over those orders, with one order per
   * epoch unless an exception ended the loop early. The test list is never
   * changed.
   */
  method EpochLoop<W, S>(ops: NetworkOps<W, S>, net: W, data: Data<TrainingInstance>, epochs: nat,
                         learningRate: real, momentum: real, sqrt: real -> real)
    returns (r: Result<Progress<W, S>>, ghost orders: seq<seq<TrainingInstance>>)
    modifies data
    ensures data.testData == old(data.testData)
    ensures Reshuffled(orders, old(data.trainingData), data.trainingData)
    ensures |orders| <= epochs && (r.Success? ==> |orders| == epochs)
    ensures r == Epochs(ops, net, orders, old(data.testData), learningRate, momentum, sqrt)
  {
    orders := [];
    var datasetLen := data.TrainingSize();
    var tests := data.testData;
    var st: Progress<W, S> := Start(net);
    ghost var step := EpochStep(ops, tests, learningRate, momentum, sqrt);
    for i := 0 to epochs
      invariant |orders| == i == |st.testingError|
      invariant data.testData == tests == old(data.testData) && |data.trainingData| == datasetLen
      invariant Reshuffled(orders, old(data.trainingData), data.trainingData)
      invariant Iterate(step, Start(net), orders) == Success(st)
    {
      ghost var previous := data.trainingData;
      data.Randomise();
      var order := data.trainingData;
      ReshuffledSnoc(orders, old(data.trainingData), previous, order);
      orders := orders + [order];
      IterateSnoc(step, Start(net), orders, st);
      var next := RunEpoch(ops, st, i, order, datasetLen, tests, learningRate, momentum, sqrt);
      assert next == step(st, order);
      if next.Failure? {
        return next, orders;
      }
      st := next.value;
    }
    r := Success(st);
  }

  /**
   * `train(ann, data, epochs, learningRate, momentum)`. A negative `epochs`
   * fails allocating the error arrays, before anything else. Otherwise the
   * result is `Run` over the orders the epoch loop shuffled the training
   * list into, one per epoch unless an exception ended the run early; the
   * test list is never changed.
   */
  method Train<W, S>(ops: NetworkOps<W, S>, net: W, data: Data<TrainingInstance>, epochs: Int32,
                     learningRate: real, momentum: real, sqrt: real -> real)
    returns (r: Result<Trained<W>>, ghost orders: seq<seq<TrainingInstance>>)
    modifies data
    ensures data.testData == old(data.testData)
    ensures forall e :: 0 <= e < |orders| ==> multiset(orders[e]) == multiset(old(data.trainingData))
    ensures data.trainingData == if orders == [] then old(data.trainingData) else orders[|orders| - 1]
    ensures epochs < 0 ==> r == Failure(NegativeArraySize) && orders == []
    ensures 0 <= epochs ==> |orders| <= epochs && (r.Success? ==> |orders| == epochs)
    ensures 0 <= epochs ==> r == Run(ops, net, orders, old(data.testData), epochs, learningRate, momentum, sqrt)
  {
    if epochs < 0 {
      return Failure(NegativeArraySize), [];
    }
    var tests := data.testData;
    var e;
    e, orders := EpochLoop(ops, net, data, epochs, learningRate, momentum, sqrt);
    if e.Failure? {
      return Failure(e.exception), orders;
    }
    r := Report(ops, e.value, tests, epochs);
  }

}
