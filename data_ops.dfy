/**
 * The list algorithms behind `Data.partition`, `Data.split` and
 * `Data.dataPartitions`. Both copies of the `Data` class (package
 * `net.parasec.nn` and package `net.parasec.nn.training`) hold the same code;
 * each copy's class calls these.
 */
module DataOps {
  import opened Common
  import opened Lists

  /**
   * `(int) Math.round(n / (double) p)`, the partition size. Dividing by zero
   * gives NaN when n is 0 (rounded to 0) and +Infinity otherwise (rounded to
   * `Long.MAX_VALUE`, whose low 32 bits are -1).
   */
  function PartitionSize(n: nat, p: Int32): Int32
  {
    if p == 0 then (if n == 0 then 0 else -1)
    else LongToInt(RoundToLong(n as real / p as real))
  }

  /**
   * How often `for (int i = 0; i < partitions-1; i++)` runs: `partitions-1`
   * is computed in 32 bits, so `Integer.MIN_VALUE` wraps to `Integer.MAX_VALUE`.
   */
  function LeadingChunks(p: Int32): nat
  {
    var last := if p == -0x8000_0000 then 0x7FFF_FFFF else p - 1;
    if last > 0 then last else 0
  }

  /** How many items an inner loop `for (int j = 0; j < size; j++)` takes. */
  function Taken(size: int): nat
  {
    if size > 0 then size else 0
  }

  /**
   * For a positive partition count and a list size that fits an `int`, the
   * partition size is n/p rounded half up, the integer (2n+p) div (2p).
   */
  lemma PartitionSizeIsRoundedRatio(n: nat, p: Int32)
    requires 0 < p && n < 0x8000_0000
    ensures PartitionSize(n, p) == (2 * n + p) / (2 * p)
    ensures (PartitionSize(n, p) as real) <= n as real / p as real + 0.5 < (PartitionSize(n, p) as real) + 1.0
  {
    var q := (2 * n + p) / (2 * p);
    var x := n as real / p as real;
    HalfUpBounds(n, p, q);
    FloorIs(x + 0.5, q);
    assert 0 <= q <= n by {
      DivBound(n, p);
    }
    assert RoundToLong(x) == q;
    assert LongToInt(q) == q;
  }

  lemma DivBound(n: nat, p: nat)
    requires 0 < p
    ensures (2 * n + p) / (2 * p) <= n
  {
    var d := 2 * p;
    var q := (2 * n + p) / d;
    assert q * d <= 2 * n + p;
    MulMonotone(1, p, n);
    assert 2 * n + p < (n + 1) * d;
    FactorOrder(q, n + 1, d);
  }

  lemma FactorOrder(a: nat, b: nat, d: nat)
    ensures a * d < b * d ==> a < b
  {
    if b <= a {
      MulMonotone(b, a, d);
    }
  }

  lemma FloorIs(y: real, q: int)
    requires q as real <= y < q as real + 1.0
    ensures y.Floor == q
  {
  }

  /** q = (2n+p) div (2p) satisfies q <= n/p + 1/2 < q + 1. */
  lemma HalfUpBounds(n: nat, p: nat, q: int)
    requires 0 < p && q == (2 * n + p) / (2 * p)
    ensures q as real <= n as real / p as real + 0.5 < q as real + 1.0
  {
    var rem := (2 * n + p) % (2 * p);
    assert 2 * n + p == 2 * p * q + rem && 0 <= rem < 2 * p;
    var d := (2 * p) as real;
    var y := n as real / p as real + 0.5;
    assert y * d == (2 * n + p) as real;
    ScaledBetween(y, d, q as real, rem as real);
  }

  /** If y d = q d + r with d > 0 and 0 <= r < d, then q <= y < q + 1. */
  lemma ScaledBetween(y: real, d: real, q: real, r: real)
    requires d > 0.0 && 0.0 <= r < d && y * d == q * d + r
    ensures q <= y < q + 1.0
  {
    var above, below := q + 1.0 - y, y - q;
    assert above * d == d - r && 0.0 < d - r;
    PositiveFactor(above, d);
    assert below * d == r;
    NonNegativeFactor(below, d);
  }

  lemma PositiveFactor(x: real, d: real)
    ensures 0.0 < d && 0.0 < x * d ==> 0.0 < x
  {
    if x <= 0.0 && 0.0 < d {
      MulNonNegative(-x, d);
    }
  }

  lemma NonNegativeFactor(x: real, d: real)
    ensures 0.0 < d && 0.0 <= x * d ==> 0.0 <= x
  {
    if x < 0.0 && 0.0 < d {
      MulNonNegative(-x, d);
      assert (-x) * d == -(x * d);
      PositiveFactor(-x, d);
    }
  }

  lemma MulNonNegative(a: real, b: real)
    requires a >= 0.0 && b >= 0.0
    ensures a * b >= 0.0
  {
  }

  /**
   * What `partition` returns for a list `data` (of which it shuffles a copy)
   * and a partition count `p`: either the index error that `copy.get(k++)`
   * raises when the leading chunks need more items than there are, or
   * LeadingChunks(p) chunks of the partition size followed by one chunk with
   * the rest, which together hold exactly the items of `data`.
   */
  ghost predicate Partitioned<T>(r: Result<seq<seq<T>>>, data: seq<T>, p: Int32)
  {
    var c, s := LeadingChunks(p), Taken(PartitionSize(|data|, p));
    && (r.Success? <==> c * s <= |data|)
    && (r.Failure? ==> r.exception == IndexOutOfBounds)
    && (r.Success? ==>
          && |r.value| == c + 1
          && (forall a :: 0 <= a < c ==> |r.value[a]| == s)
          && |r.value[c]| == |data| - c * s
          && multiset(Concat(r.value)) == multiset(data))
  }

  /** For p >= 1 there are exactly p chunks, the first p-1 of size round(n/p). */
  lemma {:induction false} PartitionedCount<T>(r: Result<seq<seq<T>>>, data: seq<T>, p: Int32)
    requires Partitioned(r, data, p) && r.Success? && p >= 1 && |data| < 0x8000_0000
    ensures |r.value| == p
    ensures forall a :: 0 <= a < p - 1 ==> |r.value[a]| == (2 * |data| + p) / (2 * p)
    ensures |r.value[p - 1]| == |data| - (p - 1) * ((2 * |data| + p) / (2 * p))
  {
    PartitionSizeIsRoundedRatio(|data|, p);
  }

  /** For p <= 0 (other than Integer.MIN_VALUE) the result is one chunk, a permutation of the list. */
  lemma {:induction false} PartitionedNonPositive<T>(r: Result<seq<seq<T>>>, data: seq<T>, p: Int32)
    requires Partitioned(r, data, p) && -0x8000_0000 < p <= 0
    ensures r.Success? && |r.value| == 1 && multiset(r.value[0]) == multiset(data)
  {
    assert r.value[..0] == [];
  }

  lemma MulMonotone(a: nat, b: nat, s: nat)
    requires a <= b
    ensures a * s <= b * s
  {
  }

  /**
   * The cursor loops of `partition` over the shuffled copy: `chunks` lists of
   * `size` items each (`copy.get(k++)`, which throws once k reaches the end),
   * then one list with everything from k on.
   */
  method CutChunks<T>(copy: seq<T>, chunks: nat, size: int) returns (r: Result<seq<seq<T>>>)
    ensures r.Success? <==> chunks * Taken(size) <= |copy|
    ensures r.Failure? ==> r.exception == IndexOutOfBounds
    ensures r.Success? ==>
              && |r.value| == chunks + 1
              && Concat(r.value) == copy
              && (forall a :: 0 <= a < chunks ==> |r.value[a]| == Taken(size))
              && |r.value[chunks]| == |copy| - chunks * Taken(size)
  {
    var s := Taken(size);
    var ret: seq<seq<T>> := [];
    var k := 0;
    for i := 0 to chunks
      invariant |ret| == i && k == i * s && k <= |copy|
      invariant Concat(ret) == copy[..k]
      invariant forall a :: 0 <= a < i ==> |ret[a]| == s
    {
      var partition: seq<T> := [];
      for j := 0 to s
        invariant k == i * s + j && k <= |copy|
        invariant partition == copy[i * s..k]
      {
        if k >= |copy| {
          MulMonotone(i + 1, chunks, s);
          return Failure(IndexOutOfBounds);
        }
        partition := partition + [copy[k]];
        k := k + 1;
      }
      assert (ret + [partition])[..i] == ret;
      ret := ret + [partition];
    }
    var partition: seq<T> := [];
    var start := k;
    while k < |copy|
      invariant start <= k <= |copy|
      invariant partition == copy[start..k]
    {
      partition := partition + [copy[k]];
      k := k + 1;
    }
    assert (ret + [partition])[..chunks] == ret;
    ret := ret + [partition];
    r := Success(ret);
  }

  /** `partition(p)`: cut a shuffled copy of `data`; `data` itself is not touched. */
  method PartitionList<T>(data: seq<T>, p: Int32) returns (r: Result<seq<seq<T>>>)
    ensures Partitioned(r, data, p)
  {
    var size := PartitionSize(|data|, p);
    var copy := Shuffle(data);
    r := CutChunks(copy, LeadingChunks(p), size);
  }

  /** `(int) Math.round(ratio * (double) n)`, how many items `split` moves. */
  function SplitCount(ratio: real, n: nat): Int32
  {
    LongToInt(RoundToLong(ratio * n as real))
  }

  /** A ratio in [0, 1] moves between 0 and n items, round(ratio n) of them. */
  lemma SplitCountBounds(ratio: real, n: nat)
    requires 0.0 <= ratio <= 1.0 && n < 0x8000_0000
    ensures 0 <= SplitCount(ratio, n) <= n
    ensures (SplitCount(ratio, n) as real) <= ratio * n as real + 0.5 < (SplitCount(ratio, n) as real) + 1.0
  {
    var x := ratio * n as real;
    assert 0.0 <= x <= n as real by {
      assert (1.0 - ratio) * n as real >= 0.0;
    }
    var f := (x + 0.5).Floor;
    assert 0 <= f <= n;
  }

  /**
   * How many times `for (int i = count; --i >= 0; )` runs its body: `count`
   * times for a positive count, never for zero or a negative one, except that
   * `--i` wraps `Integer.MIN_VALUE` round to `Integer.MAX_VALUE`, which then
   * runs it 2^31 times.
   */
  function Iterations(count: Int32): nat
  {
    if count == -0x8000_0000 then 0x8000_0000 else if count <= 0 then 0 else count
  }

  /** How many items `split` actually moves before the list runs dry. */
  function Moved(count: Int32, n: nat): nat
  {
    if Iterations(count) <= n then Iterations(count) else n
  }

  /**
   * The loop of `split`: `count` times, remove the last training item and
   * append it to the test list. When the loop runs more often than there are
   * training items, as it always does for a count of `Integer.MIN_VALUE`,
   * `remove(-1)` throws after the list has been emptied.
   */
  method MoveFromTail<T>(training: seq<T>, test: seq<T>, count: Int32)
    returns (training': seq<T>, test': seq<T>, r: Outcome)
    ensures var m := Moved(count, |training|);
            && training' == training[..|training| - m]
            && test' == test + Reverse(training[|training| - m..])
    ensures r == if count > |training| || (count == -0x8000_0000 && |training| < 0x8000_0000)
                 then Fail(IndexOutOfBounds) else Pass
  {
    var n := |training|;
    training', test' := training, test;
    var k := Iterations(count);
    var i := k;
    while i > 0
      invariant i <= k
      invariant var moved := k - i;
                && moved <= n
                && training' == training[..n - moved]
                && test' == test + Reverse(training[n - moved..])
    {
      i := i - 1;
      if training' == [] {
        assert k - i - 1 == n;
        return training', test', Fail(IndexOutOfBounds);
      }
      var moved := k - i - 1;
      var last := training'[|training'| - 1];
      assert last == training[n - moved - 1];
      assert training[n - moved - 1..][1..] == training[n - moved..];
      training' := training'[..|training'| - 1];
      test' := test' + [last];
    }
    r := Pass;
  }

  /** Moving items from one list to the other changes neither list's items as a whole. */
  lemma {:induction false} MoveConserves<T>(training: seq<T>, test: seq<T>, m: nat)
    requires m <= |training|
    ensures multiset(training[..|training| - m]) + multiset(test + Reverse(training[|training| - m..]))
            == multiset(training) + multiset(test)
  {
    ReversePermutes(training[|training| - m..]);
    assert training == training[..|training| - m] + training[|training| - m..];
  }

  /** The inner loop of `dataPartitions`: `addAll` of every partition that is not `equals` to `p`. */
  method ConcatOthers<T(==)>(ps: seq<seq<T>>, p: seq<T>) returns (training: seq<T>)
    ensures training == Others(ps, p)
  {
    training := [];
    for i := 0 to |ps|
      invariant training == Others(ps[..i], p)
    {
      assert ps[..i + 1][..i] == ps[..i];
      if p != ps[i] {
        training := training + ps[i];
      }
    }
    assert ps[..|ps|] == ps;
  }
}
