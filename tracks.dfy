/**
 Sequences of ball numbers as the ball clock uses them: the initial
 reservoir 1..N, the strictly-increasing check that detects a full cycle,
 and the reversal a track undergoes when it is dumped.
 */
module Tracks {

  /** The balls numbered 1..n in ascending order: the reservoir at time zero. */
  function Iota(n: nat): seq<int>
  {
    seq(n, i => i + 1)
  }

  /** Every adjacent pair is strictly increasing; vacuous for length 0 or 1. */
  predicate Ordered(s: seq<int>)
  {
    forall i :: 0 <= i < |s| - 1 ==> s[i] < s[i + 1]
  }

  /** `s` read back to front. */
  function Reversed(s: seq<int>): (r: seq<int>)
    ensures |r| == |s|
  {
    if s == [] then [] else Reversed(s[1..]) + [s[0]]
  }

  /** Element k of the reversal is element |s|-1-k of the original. */
  lemma {:induction false} ReversedAt(s: seq<int>, k: nat)
    requires k < |s|
    ensures Reversed(s)[k] == s[|s| - 1 - k]
  {
    var tail := Reversed(s[1..]);
    assert Reversed(s) == tail + [s[0]];
    if k < |s| - 1 {
      ReversedAt(s[1..], k);
      assert Reversed(s)[k] == tail[k];
    }
  }

  /** Read inside a concatenation, a reversed block still holds the original back to front. */
  lemma {:induction false} AppendedReversedAt(front: seq<int>, s: seq<int>, back: seq<int>, j: int)
    requires |front| <= j < |front| + |s|
    ensures (front + Reversed(s) + back)[j] == s[|front| + |s| - 1 - j]
  {
    var r := Reversed(s);
    ReversedAt(s, j - |front|);
    assert (front + r)[j] == r[j - |front|];
    assert (front + r + back)[j] == (front + r)[j];
  }

  /** Reversal only reorders: the same balls, each as often as before. */
  lemma {:induction false} ReversedMultiset(s: seq<int>)
    ensures multiset(Reversed(s)) == multiset(s)
  {
    if s != [] {
      ReversedMultiset(s[1..]);
      assert s == [s[0]] + s[1..];
    }
  }

  /** Extending the reversed tail `s[i+1..j]` by `s[i]` gives the reversal of `s[i..j]`. */
  lemma {:induction false} ReversedExtend(s: seq<int>, i: nat, j: nat)
    requires i < j <= |s|
    ensures Reversed(s[i..j]) == Reversed(s[i + 1..j]) + [s[i]]
  {
    assert s[i..j][1..] == s[i + 1..j];
  }

  /** A non-empty sequence is its front part followed by its last element. */
  lemma SplitLast(d: seq<int>)
    requires |d| > 0
    ensures d == d[..|d| - 1] + [d[|d| - 1]]
    ensures multiset(d) == multiset(d[..|d| - 1]) + multiset{d[|d| - 1]}
  {
    assert d == d[..|d| - 1] + [d[|d| - 1]];
  }

  /** Iota(n) holds each of 1..n exactly once and nothing else. */
  lemma {:induction false} IotaCount(n: nat, b: int)
    ensures multiset(Iota(n))[b] == if 1 <= b <= n then 1 else 0
  {
    if n > 0 {
      assert Iota(n) == Iota(n - 1) + [n];
      IotaCount(n - 1, b);
    }
  }

  /** The initial reservoir passes the cycle check. */
  lemma IotaOrdered(n: nat)
    ensures Ordered(Iota(n))
  {
  }

  /** In an ordered sequence, values grow at least as fast as positions. */
  lemma {:induction false} OrderedGaps(s: seq<int>, i: nat, j: nat)
    requires Ordered(s)
    requires i <= j < |s|
    ensures s[j] - s[i] >= j - i
  {
    if i < j {
      OrderedGaps(s, i, j - 1);
    }
  }

  /**
   An ordered arrangement of exactly the balls 1..n is 1..n itself: this is
   why the cycle check on the reservoir recognises the starting order.
   */
  lemma OrderedPermutationIsIota(s: seq<int>, n: nat)
    requires Ordered(s)
    requires multiset(s) == multiset(Iota(n))
    ensures s == Iota(n)
  {
    assert |s| == n by {
      assert |multiset(s)| == |s|;
      assert |multiset(Iota(n))| == |Iota(n)|;
    }
    forall i | 0 <= i < n
      ensures s[i] == i + 1
    {
      forall j | 0 <= j < n
        ensures 1 <= s[j] <= n
      {
        assert s[j] in multiset(Iota(n));
        IotaCount(n, s[j]);
      }
      OrderedGaps(s, 0, i);
      OrderedGaps(s, i, n - 1);
    }
  }

  /** Fills a fresh array with 1..size, as the reservoir is set up. */
  method FillSequential(size: nat) returns (balls: seq<int>)
    ensures |balls| == size
    ensures forall i :: 0 <= i < size ==> balls[i] == i + 1
    ensures balls == Iota(size)
  {
    var a := new int[size];
    var index := 1;
    while index <= size
      invariant 1 <= index <= size + 1
      invariant forall j :: 0 <= j < index - 1 ==> a[j] == j + 1
    {
      a[index - 1] := index;
      index := index + 1;
    }
    balls := a[..];
  }

  /** Scans adjacent pairs and stops at the first that is not increasing. */
  method SequenceIsOrdered(a: seq<int>) returns (ordered: bool)
    ensures ordered <==> Ordered(a)
  {
    var index := 0;
    while index < |a| - 1
      invariant 0 <= index <= if |a| == 0 then 0 else |a| - 1
      invariant forall j :: 0 <= j < index ==> a[j] < a[j + 1]
    {
      if a[index] >= a[index + 1] {
        return false;
      }
      index := index + 1;
    }
    return true;
  }
}
