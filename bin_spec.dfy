/**
 * The abstract content of a bin counter store: a sequence of counters, a
 * touch that increments the counter selected by index mod length, and the
 * replay of a whole value list. Shared by the Go store (benchmarks/main.go)
 * and the C++ store (cppexperiments/testhle.cc).
 */
module BinSpec {

  /** Mathematical sum of the bins. */
  function Sum(s: seq<int>): (r: int)
  {
    if s == [] then 0 else Sum(s[..|s| - 1]) + s[|s| - 1]
  }

  /** All counters zero. */
  function Zeros(n: nat): (r: seq<int>)
    ensures |r| == n && forall k :: 0 <= k < n ==> r[k] == 0
  {
    seq(n, _ => 0)
  }

  /** One touch: bin i mod n goes up by one; an empty store is left alone. */
  function Touched(bins: seq<int>, i: nat): (r: seq<int>)
    ensures |r| == |bins|
    ensures |bins| > 0 ==> r[i % |bins|] == bins[i % |bins|] + 1
    ensures forall k :: 0 <= k < |bins| && (|bins| == 0 || k != i % |bins|) ==> r[k] == bins[k]
  {
    if |bins| == 0 then bins else bins[i % |bins| := bins[i % |bins|] + 1]
  }

  /** Touch every value of vals, in order. */
  function Replayed(bins: seq<int>, vals: seq<nat>): (r: seq<int>)
    ensures |r| == |bins|
  {
    if vals == [] then bins
    else Touched(Replayed(bins, vals[..|vals| - 1]), vals[|vals| - 1])
  }

  /** How many of vals select bin k of n bins. */
  function Hits(vals: seq<nat>, n: nat, k: nat): (c: nat)
    ensures c <= |vals|
  {
    if vals == [] then 0
    else Hits(vals[..|vals| - 1], n, k) + (if n > 0 && vals[|vals| - 1] % n == k then 1 else 0)
  }

  predicate NonNegative(s: seq<int>)
  {
    forall k :: 0 <= k < |s| ==> 0 <= s[k]
  }

  lemma {:induction false} SumZeros(n: nat)
    ensures Sum(Zeros(n)) == 0
  {
    if n > 0 {
      assert Zeros(n)[..n - 1] == Zeros(n - 1);
      SumZeros(n - 1);
    }
  }

  /** Raising one element by d raises the sum by d. */
  lemma {:induction false} SumUpdate(s: seq<int>, k: nat, d: int)
    requires k < |s|
    ensures Sum(s[k := s[k] + d]) == Sum(s) + d
  {
    var t := s[k := s[k] + d];
    if k == |s| - 1 {
      assert t[..|t| - 1] == s[..|s| - 1];
    } else {
      assert t[..|t| - 1] == s[..|s| - 1][k := s[k] + d];
      SumUpdate(s[..|s| - 1], k, d);
    }
  }

  /** Each element of a non-negative sequence is at most the sum. */
  lemma {:induction false} ElementAtMostSum(s: seq<int>, k: nat)
    requires NonNegative(s) && k < |s|
    ensures s[k] <= Sum(s)
  {
    var p := s[..|s| - 1];
    if k < |s| - 1 {
      ElementAtMostSum(p, k);
    }
    SumNonNegative(p);
  }

  lemma {:induction false} SumNonNegative(s: seq<int>)
    requires NonNegative(s)
    ensures Sum(s) >= 0
  {
    if s != [] {
      SumNonNegative(s[..|s| - 1]);
    }
  }

  /** Each touch of a non-empty store raises the total by exactly one. */
  lemma {:induction false} TouchedSum(bins: seq<int>, i: nat)
    requires |bins| > 0
    ensures Sum(Touched(bins, i)) == Sum(bins) + 1
  {
    var b := i % |bins|;
    assert Touched(bins, i) == bins[b := bins[b] + 1];
    SumUpdate(bins, b, 1);
  }

  /** Replaying k values on a non-empty store raises the total by exactly k. */
  lemma {:induction false} ReplayedSum(bins: seq<int>, vals: seq<nat>)
    requires |bins| > 0
    ensures Sum(Replayed(bins, vals)) == Sum(bins) + |vals|
  {
    if vals != [] {
      ReplayedSum(bins, vals[..|vals| - 1]);
      TouchedSum(Replayed(bins, vals[..|vals| - 1]), vals[|vals| - 1]);
    }
  }

  /** After a replay, each bin holds its old value plus the number of values that selected it. */
  lemma {:induction false} ReplayedHits(bins: seq<int>, vals: seq<nat>, k: nat)
    requires k < |bins|
    ensures Replayed(bins, vals)[k] == bins[k] + Hits(vals, |bins|, k)
  {
    if vals != [] {
      ReplayedHits(bins, vals[..|vals| - 1], k);
    }
  }

  /** Replaying keeps counters non-negative. */
  lemma {:induction false} ReplayedNonNegative(bins: seq<int>, vals: seq<nat>)
    requires NonNegative(bins)
    ensures NonNegative(Replayed(bins, vals))
  {
    if vals != [] {
      ReplayedNonNegative(bins, vals[..|vals| - 1]);
    }
  }
}
