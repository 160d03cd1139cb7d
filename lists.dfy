/**
 * List operations that the dataset code builds on: `Collections.shuffle`, the
 * concatenation of partitions, the "every other partition" concatenation of
 * `dataPartitions`, and the reversal that moving items one by one from the tail
 * of one list to the end of another produces.
 */
module Lists {

  /** All the lists of `xss`, one after the other, in order. */
  function Concat<T>(xss: seq<seq<T>>): seq<T>
  {
    if xss == [] then [] else Concat(xss[..|xss| - 1]) + xss[|xss| - 1]
  }

  /**
   * The in-order concatenation of every list of `ps` that is not equal (by
   * content, as `List.equals` compares) to `p`.
   */
  function Others<T(==)>(ps: seq<seq<T>>, p: seq<T>): seq<T>
  {
    if ps == [] then []
    else Others(ps[..|ps| - 1], p) + (if p != ps[|ps| - 1] then ps[|ps| - 1] else [])
  }

  /** `s` back to front. */
  function Reverse<T>(s: seq<T>): seq<T>
  {
    if s == [] then [] else Reverse(s[1..]) + [s[0]]
  }

  lemma {:induction false} ReverseAt<T>(s: seq<T>, k: nat)
    requires k < |s|
    ensures |Reverse(s)| == |s| && Reverse(s)[k] == s[|s| - 1 - k]
  {
    ReverseLength(s);
    if k < |s| - 1 {
      ReverseAt(s[1..], k);
    }
  }

  lemma {:induction false} ReverseLength<T>(s: seq<T>)
    ensures |Reverse(s)| == |s|
  {
    if s != [] {
      ReverseLength(s[1..]);
    }
  }

  /** Reversing keeps every element with its multiplicity. */
  lemma {:induction false} ReversePermutes<T>(s: seq<T>)
    ensures multiset(Reverse(s)) == multiset(s)
  {
    if s != [] {
      ReversePermutes(s[1..]);
      assert s == [s[0]] + s[1..];
    }
  }

  /** Exchanging two positions, as `Collections.swap` does. */
  function Swap<T>(s: seq<T>, a: nat, b: nat): (r: seq<T>)
    requires a < |s| && b < |s|
    ensures |r| == |s| && r[a] == s[b] && r[b] == s[a]
    ensures forall k :: 0 <= k < |s| && k != a && k != b ==> r[k] == s[k]
    ensures multiset(r) == multiset(s)
  {
    s[a := s[b]][b := s[a]]
  }

  /**
   * `Collections.shuffle(list, random)` on a random-access list: for i from
   * the size down to 2, swap position i-1 with position `random.nextInt(i)`.
   * Each draw of the random source is a nondeterministic choice in [0, i).
   */
  method Shuffle<T>(s: seq<T>) returns (r: seq<T>)
    ensures multiset(r) == multiset(s)
    ensures |r| == |s|
  {
    r := s;
    var i := |r|;
    while i > 1
      invariant 0 <= i <= |r| == |s|
      invariant multiset(r) == multiset(s)
    {
      var j :| 0 <= j < i;
      r := Swap(r, i - 1, j);
      i := i - 1;
    }
  }

  /** The lists that `Others` skips are exactly the ones equal to `p`. */
  lemma {:induction false} OthersOfAbsent<T>(ps: seq<seq<T>>, p: seq<T>)
    requires forall k :: 0 <= k < |ps| ==> ps[k] != p
    ensures Others(ps, p) == Concat(ps)
  {
    if ps != [] {
      OthersOfAbsent(ps[..|ps| - 1], p);
    }
  }

  /**
   * When the partitions are pairwise different, partition i followed by all the
   * others holds exactly the elements of all the partitions.
   */
  lemma {:induction false} OthersPermutation<T>(ps: seq<seq<T>>, i: nat)
    requires i < |ps|
    requires forall a, b :: 0 <= a < b < |ps| ==> ps[a] != ps[b]
    ensures multiset(ps[i]) + multiset(Others(ps, ps[i])) == multiset(Concat(ps))
  {
    var init, last := ps[..|ps| - 1], ps[|ps| - 1];
    if i == |ps| - 1 {
      assert forall k :: 0 <= k < |init| ==> init[k] != last by {
        forall k | 0 <= k < |init| ensures init[k] != last {
          assert init[k] == ps[k];
        }
      }
      OthersOfAbsent(init, last);
    } else {
      assert ps[i] == init[i];
      assert ps[i] != last;
      OthersPermutation(init, i);
    }
  }

  /**
   * With two partitions that are `List.equals`, each excludes the other as well as
   * itself: the fold built for either one has an empty training list, and
   * test followed by training misses one copy of the data.
   */
  lemma EqualPartitionsExcludeEachOther<T>(x: T)
    ensures Others([[x], [x]], [x]) == []
    ensures multiset([x]) + multiset(Others([[x], [x]], [x])) != multiset(Concat([[x], [x]]))
  {
    var ps := [[x], [x]];
    var one := ps[..1];
    assert one == [[x]];
    assert one[..0] == [];
    assert Others(one, [x]) == [];
    assert Concat(one) == [x];
    assert Concat(ps) == [x] + [x];
    assert multiset(Concat(ps))[x] == 2;
  }
}
