/**
 * The older dataset of package `net.parasec.nn`. Its methods are the same
 * list code as those of the `net.parasec.nn.training` copy (only the logging
 * differs), so the class below calls the same list algorithms.
 */
module LegacyData {
  import opened Common
  import opened Lists
  import opened DataOps

  class Data<T(==)> {
    var trainingData: seq<T>
    var testData: seq<T>

    /** A new dataset: both lists empty. */
    constructor()
      ensures trainingData == [] && testData == []
    {
      trainingData := [];
      testData := [];
    }

    function TrainingSize(): nat
      reads this
    {
      |trainingData|
    }

    function TestSize(): nat
      reads this
    {
      |testData|
    }

    /**
     * One new dataset per partition, in partition order: its test list is the
     * partition, its training list every other partition not equal to it.
     * When the partitions are pairwise different, test and training together
     * hold exactly the items of all partitions.
     */
    method DataPartitions(partitions: seq<seq<T>>) returns (data: seq<Data<T>>)
      ensures |data| == |partitions|
      ensures forall i :: 0 <= i < |data| ==> fresh(data[i])
      ensures forall a, b :: 0 <= a < b < |data| ==> data[a] != data[b]
      ensures forall i :: 0 <= i < |data| ==>
                data[i].testData == partitions[i] && data[i].trainingData == Others(partitions, partitions[i])
      ensures (forall a, b :: 0 <= a < b < |partitions| ==> partitions[a] != partitions[b]) ==>
                forall i :: 0 <= i < |data| ==>
                  multiset(data[i].testData) + multiset(data[i].trainingData) == multiset(Concat(partitions))
    {
      data := [];
      for i := 0 to |partitions|
        invariant |data| == i
        invariant forall a :: 0 <= a < i ==> fresh(data[a])
        invariant forall a, b :: 0 <= a < b < i ==> data[a] != data[b]
        invariant forall a :: 0 <= a < i ==>
                    data[a].testData == partitions[a] && data[a].trainingData == Others(partitions, partitions[a])
      {
        var d := new Data();
        d.testData := d.testData + partitions[i];
        var training := ConcatOthers(partitions, partitions[i]);
        d.trainingData := d.trainingData + training;
        data := data + [d];
      }
      if forall a, b :: 0 <= a < b < |partitions| ==> partitions[a] != partitions[b] {
        forall i | 0 <= i < |data|
          ensures multiset(data[i].testData) + multiset(data[i].trainingData) == multiset(Concat(partitions))
        {
          OthersPermutation(partitions, i);
        }
      }
    }

    /** `partition(p)`: cut a shuffled copy of the training list; the list itself is not touched. */
    method Partition(partitions: Int32) returns (r: Result<seq<seq<T>>>)
      ensures Partitioned(r, trainingData, partitions)
    {
      r := PartitionList(trainingData, partitions);
    }

    /**
     * `split(ratio)`: shuffle the training list, then move round(ratio n) items
     * from its tail to the end of the test list, the last item first. Asking
     * for more items than there are empties the training list and then throws;
     * so does a count that the `(int)` cast leaves at `Integer.MIN_VALUE`,
     * which `--i` wraps round to `Integer.MAX_VALUE`.
     * `shuffled` is the order the shuffle left the training list in.
     */
    method Split(ratio: real) returns (r: Outcome, ghost shuffled: seq<T>)
      modifies this
      ensures multiset(shuffled) == multiset(old(trainingData)) && |shuffled| == old(TrainingSize())
      ensures var n := old(TrainingSize());
              var c := SplitCount(ratio, n);
              var m := Moved(c, n);
              && trainingData == shuffled[..n - m]
              && testData == old(testData) + Reverse(shuffled[n - m..])
              && TrainingSize() == n - m
              && TestSize() == old(TestSize()) + m
              && r == (if c > n || (c == -0x8000_0000 && n < 0x8000_0000) then Fail(IndexOutOfBounds) else Pass)
      ensures multiset(trainingData) + multiset(testData) == old(multiset(trainingData) + multiset(testData))
    {
      Randomise();
      shuffled := trainingData;
      var count := SplitCount(ratio, |trainingData|);
      var training, test;
      training, test, r := MoveFromTail(trainingData, testData, count);
      trainingData, testData := training, test;
      var m := Moved(count, |shuffled|);
      MoveConserves(shuffled, old(testData), m);
      ReverseLength(shuffled[|shuffled| - m..]);
    }

    /** `randomise()`: put the training list in some order of the same items. */
    method Randomise()
      modifies this
      ensures multiset(trainingData) == multiset(old(trainingData))
      ensures TrainingSize() == old(TrainingSize())
      ensures testData == old(testData)
    {
      trainingData := Shuffle(trainingData);
    }
  }
}
