/**
 * The pre-generated operand buffer of the Go benchmark (benchmarks/rand.go).
 * Values produced by math/rand are oracle inputs: `draws` lists what the
 * generator returns, in order.
 */
module RandBuffer {
  import opened Words

  /** rand.Int31 yields a non-negative int32. */
  predicate Int31Draws(draws: seq<int>)
  {
    forall k :: 0 <= k < |draws| ==> 0 <= draws[k] < TWO31
  }

  /** The value rand.Int31n(mod) yields from the draw d (bounded by mod). */
  function Int31n(d: int, mod: int): (r: int)
    requires 0 <= d && 0 < mod
    ensures 0 <= r < mod
  {
    d % mod
  }

  class RandValues {
    var vals: seq<int>

    constructor ()
      ensures vals == []
    {
      vals := [];
    }

    function Len(): (n: nat)
      reads this
      ensures n == |GetAll()|
    {
      |vals|
    }

    function GetAll(): (r: seq<int>)
      reads this
      ensures r == vals
    {
      vals
    }

    /** Appends vs after the current contents; returns the receiver. */
    method Put(vs: seq<int>) returns (r: RandValues)
      modifies this
      ensures r == this
      ensures vals == old(vals) + vs
    {
      vals := vals + vs;
      r := this;
    }

    /** Empties the buffer; returns the receiver. */
    method Clear() returns (r: RandValues)
      modifies this
      ensures r == this && vals == [] && Len() == 0
    {
      vals := vals[0..0];
      r := this;
    }

    /** Appends count values of rand.Int31; the drawn values are the oracle draws. */
    method AddSparseInt32(count: nat, draws: seq<int>) returns (r: RandValues)
      requires |draws| >= count && Int31Draws(draws)
      modifies this
      ensures r == this
      ensures |vals| == |old(vals)| + count
      ensures vals[..|old(vals)|] == old(vals)
      ensures vals[|old(vals)|..] == draws[..count]
      ensures forall k :: |old(vals)| <= k < |vals| ==> 0 <= vals[k] < TWO31
    {
      var i := 0;
      while i < count
        invariant 0 <= i <= count
        invariant vals == old(vals) + draws[..i]
      {
        vals := vals + [draws[i]];
        i := i + 1;
        assert draws[..i] == draws[..i - 1] + [draws[i - 1]];
      }
      assert vals[|old(vals)|..] == draws[..count];
      r := this;
    }

    /** Appends count values of rand.Int31n(mod); rand.Int31n panics unless mod > 0. */
    method AddUniformInt32(count: nat, mod: int32, draws: seq<int>) returns (r: RandValues)
      requires mod > 0
      requires |draws| >= count && Int31Draws(draws)
      modifies this
      ensures r == this
      ensures |vals| == |old(vals)| + count
      ensures vals[..|old(vals)|] == old(vals)
      ensures forall k :: 0 <= k < count ==> vals[|old(vals)| + k] == Int31n(draws[k], mod)
      ensures forall k :: |old(vals)| <= k < |vals| ==> 0 <= vals[k] < mod
    {
      var i := 0;
      while i < count
        invariant 0 <= i <= count
        invariant |vals| == |old(vals)| + i
        invariant vals[..|old(vals)|] == old(vals)
        invariant forall k :: 0 <= k < i ==> vals[|old(vals)| + k] == Int31n(draws[k], mod)
      {
        vals := vals + [Int31n(draws[i], mod)];
        i := i + 1;
      }
      forall k | |old(vals)| <= k < |vals|
        ensures 0 <= vals[k] < mod
      {
        assert vals[|old(vals)| + (k - |old(vals)|)] == Int31n(draws[k - |old(vals)|], mod);
      }
      r := this;
    }
  }
}
