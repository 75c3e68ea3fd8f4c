/**
 * The Go benchmark's bin counter store (benchmarks/main.go): a slice of
 * int32 counters with a backing array whose length is the slice capacity,
 * the per-goroutine replay loop, and the round's correctness check.
 */
module BinCounter {
  import opened Words
  import opened BinSpec
  import opened Sync
  import opened RandBuffer

  /** Go's Touch on the bin contents: bin i mod n goes up by one, wrapping at 2^31. */
  function Bump(bins: seq<int32>, i: nat): (r: seq<int32>)
    ensures |r| == |bins|
  {
    if |bins| == 0 then bins else bins[i % |bins| := Wrap32(bins[i % |bins|] as int + 1)]
  }

  /** Touch each value of vals, in order, with Go's int32 counters. */
  function Replay(bins: seq<int32>, vals: seq<nat>): (r: seq<int32>)
    ensures |r| == |bins|
  {
    if vals == [] then bins else Bump(Replay(bins, vals[..|vals| - 1]), vals[|vals| - 1])
  }

  /** The sum TotalSum accumulates: every bin converted to uint64, without wrap. */
  function SumU64(s: seq<int32>): (r: int)
  {
    if s == [] then 0 else SumU64(s[..|s| - 1]) + ToUint64(s[|s| - 1])
  }

  /** Values the replay loop accepts: int32 values that index a bin (a negative one would make Go panic). */
  predicate Operands(vals: seq<int>)
  {
    forall k :: 0 <= k < |vals| ==> 0 <= vals[k] < TWO31
  }

  /** The values of the first n goroutines, goroutine after goroutine. */
  function ValsUpTo(workers: seq<RandValues>, n: nat): (r: seq<nat>)
    reads workers
    requires n <= |workers|
    requires forall g :: 0 <= g < |workers| ==> Operands(workers[g].vals)
  {
    if n == 0 then []
    else
      var last := workers[n - 1];
      assert Operands(last.vals);
      ValsUpTo(workers, n - 1) + last.vals
  }

  /** Every goroutine's values, goroutine after goroutine. */
  function AllVals(workers: seq<RandValues>): (r: seq<nat>)
    reads workers
    requires forall g :: 0 <= g < |workers| ==> Operands(workers[g].vals)
  {
    ValsUpTo(workers, |workers|)
  }

  /** The number of operations of a round. */
  function TotalOps(workers: seq<RandValues>): (r: nat)
    reads workers
    requires forall g :: 0 <= g < |workers| ==> Operands(workers[g].vals)
  {
    |AllVals(workers)|
  }

  /** Without overflow a Go touch is the mathematical touch. */
  lemma {:induction false} BumpIsTouched(bins: seq<int32>, i: nat)
    requires |bins| > 0 && bins[i % |bins|] < TWO31 - 1
    ensures Bump(bins, i) == Touched(bins, i)
  {
  }

  /**
   * While the total stays below 2^31, no non-negative counter wraps, so the
   * Go replay is the mathematical replay.
   */
  lemma {:induction false} ReplayNoWrap(bins: seq<int32>, vals: seq<nat>)
    requires NonNegative(bins) && Sum(bins) + |vals| < TWO31
    ensures Replay(bins, vals) == Replayed(bins, vals)
  {
    if vals != [] {
      var init := vals[..|vals| - 1];
      ReplayNoWrap(bins, init);
      var r := Replayed(bins, init);
      if |bins| > 0 {
        var b := vals[|vals| - 1] % |bins|;
        ReplayedNonNegative(bins, init);
        ReplayedSum(bins, init);
        ElementAtMostSum(r, b);
        BumpIsTouched(Replay(bins, init), vals[|vals| - 1]);
      }
    }
  }

  /** Replaying two value lists one after the other is replaying their concatenation. */
  lemma {:induction false} ReplayAppend(bins: seq<int32>, a: seq<nat>, b: seq<nat>)
    ensures Replay(bins, a + b) == Replay(Replay(bins, a), b)
  {
    if b == [] {
      assert a + b == a;
    } else {
      assert (a + b)[..|a + b| - 1] == a + b[..|b| - 1];
      ReplayAppend(bins, a, b[..|b| - 1]);
    }
  }

  /**
   * A replay that cannot wrap raises each bin by the number of values that
   * select it, and the total by the number of values.
   */
  lemma {:induction false} ReplayCounts(bins: seq<int32>, vals: seq<nat>)
    requires |bins| > 0 && NonNegative(bins) && Sum(bins) + |vals| < TWO31
    ensures NonNegative(Replay(bins, vals)) && Sum(Replay(bins, vals)) == Sum(bins) + |vals|
    ensures forall k :: 0 <= k < |bins| ==> Replay(bins, vals)[k] == bins[k] + Hits(vals, |bins|, k)
  {
    ReplayRaisesTotal(bins, vals);
    ReplayNoWrap(bins, vals);
    forall k | 0 <= k < |bins|
      ensures Replay(bins, vals)[k] == bins[k] + Hits(vals, |bins|, k)
    {
      ReplayedHits(bins, vals, k);
    }
  }

  /**
   * A round from cleared bins: below 2^31 values every bin ends up holding
   * the number of values that select it, and the total is the number of values.
   */
  lemma {:induction false} RoundFromZeros(n: nat, vals: seq<nat>)
    requires n > 0 && |vals| < TWO31
    ensures NonNegative(Replay(Zeros(n), vals)) && Sum(Replay(Zeros(n), vals)) == |vals|
    ensures SumU64(Replay(Zeros(n), vals)) == |vals|
    ensures forall k :: 0 <= k < n ==> Replay(Zeros(n), vals)[k] == Hits(vals, n, k)
  {
    SumZeros(n);
    ReplayCounts(Zeros(n), vals);
    SumU64NonNegative(Replay(Zeros(n), vals));
  }

  /**
   * What the benchmark's check sees after a round from cleared bins: the
   * uint64 total is the number of values when no counter can wrap, and
   * zero when there are no bins.
   */
  lemma {:induction false} RoundOutcome(bins: seq<int32>, n: nat, vals: seq<nat>, s: int)
    requires bins == Replay(Zeros(n), vals) && s == SumU64(bins) % TWO64
    ensures n > 0 && |vals| < TWO31 ==> s == |vals| && forall k :: 0 <= k < n ==> bins[k] == Hits(vals, n, k)
    ensures n == 0 ==> s == 0
  {
    if n > 0 && |vals| < TWO31 {
      RoundFromZeros(n, vals);
      assert SumU64(bins) == |vals| < TWO64;
    }
  }

  /** A replay on a non-empty store whose total stays below 2^31 raises the total by the number of values. */
  lemma ReplayRaisesTotal(bins: seq<int32>, vals: seq<nat>)
    requires |bins| > 0 && NonNegative(bins) && Sum(bins) + |vals| < TWO31
    ensures NonNegative(Replay(bins, vals)) && Sum(Replay(bins, vals)) == Sum(bins) + |vals|
  {
    ReplayNoWrap(bins, vals);
    ReplayedSum(bins, vals);
    ReplayedNonNegative(bins, vals);
  }

  /** Adding the next bin to a wrapped running total wraps like the full sum. */
  lemma {:induction false} SumU64Step(s: seq<int32>, acc: int)
    requires |s| > 0 && acc == SumU64(s[..|s| - 1]) % TWO64
    ensures (acc + ToUint64(s[|s| - 1])) % TWO64 == SumU64(s) % TWO64
  {
    var p := SumU64(s[..|s| - 1]);
    var q := p / TWO64;
    assert p == q * TWO64 + acc;
    assert SumU64(s) == acc + ToUint64(s[|s| - 1]) + q * TWO64;
  }

  lemma {:induction false} SumU64NonNegative(s: seq<int32>)
    requires NonNegative(s)
    ensures SumU64(s) == Sum(s)
  {
    if s != [] {
      SumU64NonNegative(s[..|s| - 1]);
    }
  }

  lemma {:induction false} SumU64Zeros(n: nat)
    ensures SumU64(Zeros(n)) == 0
  {
    SumU64NonNegative(Zeros(n));
    SumZeros(n);
  }

  class BinTouchCounter {
    /** The backing array; its length is the slice's capacity. */
    var buf: array<int32>
    /** The slice's length. */
    var len: nat

    ghost predicate Valid()
      reads this
    {
      len <= buf.Length
    }

    /** The bins, bins[0:len]. */
    function Bins(): (r: seq<int32>)
      reads this, buf
      requires Valid()
    {
      buf[..len]
    }

    /** NewBinTouchCounter: numBins zeroed bins. */
    constructor (numBins: nat)
      ensures Valid() && fresh(buf)
      ensures Bins() == Zeros(numBins) && buf.Length == numBins
    {
      buf := new int32[numBins](_ => 0);
      len := numBins;
    }

    /**
     * Above the capacity a zeroed array is allocated and the old bins are
     * copied; otherwise the slice is re-cut over the same array, which
     * exposes whatever the array held beyond the old length.
     */
    method Resize(numBins: nat)
      requires Valid()
      modifies this
      ensures Valid() && |Bins()| == numBins
      ensures forall k :: 0 <= k < old(len) && k < numBins ==> Bins()[k] == old(Bins()[k])
      ensures numBins > old(buf.Length) ==>
        fresh(buf) && buf.Length == numBins && Bins() == old(Bins()) + Zeros(numBins - old(len))
      ensures numBins <= old(buf.Length) ==> buf == old(buf) && Bins() == old(buf[..numBins])
    {
      if numBins > buf.Length {
        var nb := new int32[numBins](_ => 0);
        forall k | 0 <= k < len {
          nb[k] := buf[k];
        }
        assert nb[..] == buf[..len] + Zeros(numBins - len);
        buf := nb;
      }
      len := numBins;
    }

    /** Sets every bin to zero; the length and the spare capacity are untouched. */
    method Clear()
      requires Valid()
      modifies buf
      ensures Valid() && Bins() == Zeros(len)
      ensures buf[len..] == old(buf[len..])
    {
      for i := 0 to len
        invariant buf[..i] == Zeros(i)
        invariant buf[len..] == old(buf[len..])
      {
        buf[i] := 0;
        assert buf[..i + 1] == buf[..i] + [0];
      }
    }

    /** The sum of all bins as uint64 (each int32 converted, additions modulo 2^64). */
    method TotalSum() returns (sum: uint64)
      requires Valid()
      ensures sum == SumU64(Bins()) % TWO64
    {
      sum := 0;
      for i := 0 to len
        invariant sum == SumU64(buf[..i]) % TWO64
      {
        assert buf[..i + 1][..i] == buf[..i];
        SumU64Step(buf[..i + 1], sum);
        sum := (sum + ToUint64(buf[i])) % TWO64;
      }
    }

    /** Increments bin binIndex mod len; a store without bins is left alone. */
    method Touch(binIndex: int)
      requires Valid() && binIndex >= 0
      modifies buf
      ensures Valid() && Bins() == Bump(old(Bins()), binIndex)
      ensures buf[len..] == old(buf[len..])
    {
      if len == 0 {
        return;
      }
      var b := binIndex % len;
      buf[b] := Wrap32(buf[b] as int + 1);
    }
  }

  /** One goroutine's replay: touch every value of its buffer, each under the lock. */
  method GoRoutine(values: RandValues, btc: BinTouchCounter, m: Mutex)
    requires btc.Valid() && !m.held && Operands(values.vals)
    modifies btc.buf, m
    ensures btc.Valid() && !m.held
    ensures btc.Bins() == Replay(old(btc.Bins()), values.vals)
    ensures btc.buf[btc.len..] == old(btc.buf[btc.len..])
  {
    var vals := values.GetAll();
    for k := 0 to |vals|
      invariant !m.held && btc.Valid()
      invariant btc.Bins() == Replay(old(btc.Bins()), vals[..k])
      invariant btc.buf[btc.len..] == old(btc.buf[btc.len..])
    {
      var index := vals[k];
      m.Lock();
      btc.Touch(index);
      m.Unlock();
      assert vals[..k + 1][..k] == vals[..k];
    }
    assert vals[..|vals|] == vals;
  }

  /**
   * Every goroutine's replay, one after another: the bins become the replay
   * of all values, goroutine after goroutine. ReplayCounts says what that
   * replay holds when no counter can wrap.
   */
  method ReplayAll(btc: BinTouchCounter, workers: seq<RandValues>, m: Mutex)
    requires btc.Valid() && !m.held
    requires forall g :: 0 <= g < |workers| ==> Operands(workers[g].vals)
    modifies btc.buf, m
    ensures btc.Valid() && !m.held && btc.len == old(btc.len)
    ensures btc.Bins() == Replay(old(btc.Bins()), AllVals(workers))
  {
    ghost var start := btc.Bins();
    for g := 0 to |workers|
      invariant btc.Valid() && !m.held && btc.len == old(btc.len)
      invariant btc.Bins() == Replay(start, ValsUpTo(workers, g))
    {
      ghost var done, next := ValsUpTo(workers, g), ValsUpTo(workers, g + 1);
      assert next == done + workers[g].vals;
      ReplayAppend(start, done, workers[g].vals);
      GoRoutine(workers[g], btc, m);
      assert ValsUpTo(workers, g + 1) == next;
    }
  }

  /**
   * The timed part of a round on cleared bins: every goroutine's replay,
   * then the comparison of the total with the number of operations.
   */
  method RunRound(btc: BinTouchCounter, workers: seq<RandValues>, m: Mutex) returns (s: uint64, ok: bool)
    requires btc.Valid() && !m.held && btc.Bins() == Zeros(btc.len)
    requires forall g :: 0 <= g < |workers| ==> Operands(workers[g].vals)
    modifies btc.buf, m
    ensures btc.Valid() && btc.len == old(btc.len) && !m.held
    ensures btc.Bins() == Replay(Zeros(btc.len), AllVals(workers))
    ensures btc.len > 0 && TotalOps(workers) < TWO31 ==>
      && s == TotalOps(workers) && ok
      && forall k :: 0 <= k < btc.len ==> btc.Bins()[k] == Hits(AllVals(workers), btc.len, k)
    ensures ok <==> s == TotalOps(workers)
    ensures btc.len == 0 ==> s == 0
  {
    ghost var all := AllVals(workers);
    ReplayAll(btc, workers, m);
    assert AllVals(workers) == all;
    s := btc.TotalSum();
    RoundOutcome(btc.Bins(), btc.len, all, s);
    ok := s == TotalOps(workers);
  }

  /**
   * One round of the Go benchmark run sequentially: resize and clear the
   * store, replay every goroutine's buffer, and compare the total with the
   * number of operations.
   */
  method CheckedRound(btc: BinTouchCounter, numBins: nat, workers: seq<RandValues>, m: Mutex)
    returns (s: uint64, ok: bool)
    requires btc.Valid() && !m.held
    requires forall g :: 0 <= g < |workers| ==> Operands(workers[g].vals)
    modifies btc, btc.buf, m
    ensures btc.Valid() && |btc.Bins()| == numBins && !m.held
    ensures btc.Bins() == Replay(Zeros(numBins), AllVals(workers))
    ensures numBins > 0 && TotalOps(workers) < TWO31 ==>
      && s == TotalOps(workers) && ok
      && forall k :: 0 <= k < numBins ==> btc.Bins()[k] == Hits(AllVals(workers), numBins, k)
    ensures ok <==> s == TotalOps(workers)
    ensures numBins == 0 ==> s == 0
  {
    btc.Resize(numBins);
    btc.Clear();
    s, ok := RunRound(btc, workers, m);
  }
}
