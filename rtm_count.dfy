/**
 * The RTM collision experiment (cppexperiments/testrtm.cc): each thread
 * tries `loops` transactions that increment one shared counter, counts its
 * successes and failures and records the status of each failure; the main
 * thread then tallies the abort flags and sums the outcomes.
 *
 * The hardware is an oracle: hw[i] is what _xbegin() yields for iteration
 * i, XBEGIN_STARTED when the transaction commits and its abort status when
 * it aborts (an abort rolls the increment back and resumes at _xbegin()).
 */
module RtmCount {
  import opened RtmStatus

  /** The global `counter`. */
  class Counter {
    var value: nat

    constructor ()
      ensures value == 0
    {
      value := 0;
    }
  }

  /** `struct result`. */
  class Result {
    var success: nat
    var failure: nat
    var statuses: array<status>

    constructor ()
      ensures success == 0 && failure == 0 && statuses.Length == 0
    {
      success, failure := 0, 0;
      statuses := new status[0];
    }
  }

  /** Number of iterations whose transaction committed. */
  function Commits(hw: seq<status>): (n: nat)
    ensures n <= |hw|
  {
    if hw == [] then 0
    else Commits(hw[..|hw| - 1]) + (if hw[|hw| - 1] == XBEGIN_STARTED then 1 else 0)
  }

  /** Number of iterations whose transaction aborted. */
  function Aborts(hw: seq<status>): (n: nat)
    ensures n <= |hw|
  {
    if hw == [] then 0
    else Aborts(hw[..|hw| - 1]) + (if hw[|hw| - 1] == XBEGIN_STARTED then 0 else 1)
  }

  /** Every iteration is either a success or a failure. */
  lemma {:induction false} CommitsPlusAborts(hw: seq<status>)
    ensures Commits(hw) + Aborts(hw) == |hw|
  {
    if hw != [] {
      CommitsPlusAborts(hw[..|hw| - 1]);
    }
  }

  /** The statuses array after a thread: failures overwrite their slot, successes leave what was there. */
  function Recorded(hw: seq<status>, init: seq<status>): (r: seq<status>)
    requires |init| == |hw|
    ensures |r| == |hw|
  {
    seq(|hw|, i requires 0 <= i < |hw| => if hw[i] == XBEGIN_STARTED then init[i] else hw[i])
  }

  /** How many statuses have the flag set. */
  function CountFlag(st: seq<status>, flag: status): (n: nat)
    ensures n <= |st|
  {
    if st == [] then 0
    else CountFlag(st[..|st| - 1], flag) + (if Has(st[|st| - 1], flag) then 1 else 0)
  }

  /** The six per-flag tallies printed for one thread. */
  datatype AbortTally = AbortTally(explicit: nat, retry: nat, conflict: nat, capacity: nat, debug: nat, nested: nat)

  function TallyOf(st: seq<status>): (r: AbortTally)
  {
    AbortTally(CountFlag(st, XABORT_EXPLICIT), CountFlag(st, XABORT_RETRY), CountFlag(st, XABORT_CONFLICT),
               CountFlag(st, XABORT_CAPACITY), CountFlag(st, XABORT_DEBUG), CountFlag(st, XABORT_NESTED))
  }

  /** The loop of thread_func over an already allocated statuses array. */
  method RunAttempts(statuses: array<status>, counter: Counter, hw: seq<status>) returns (success: nat, failed: nat)
    requires statuses.Length == |hw|
    modifies statuses, counter
    ensures success == Commits(hw) && failed == Aborts(hw) && success + failed == |hw|
    ensures counter.value == old(counter.value) + success
    ensures statuses[..] == Recorded(hw, old(statuses[..]))
  {
    success, failed := 0, 0;
    for i := 0 to |hw|
      invariant success == Commits(hw[..i]) && failed == Aborts(hw[..i])
      invariant counter.value == old(counter.value) + success
      invariant forall k :: 0 <= k < |hw| ==>
        statuses[k] == if k < i && hw[k] != XBEGIN_STARTED then hw[k] else old(statuses[k])
    {
      assert hw[..i + 1][..i] == hw[..i];
      var status := hw[i];
      if status == XBEGIN_STARTED {
        counter.value := counter.value + 1;
        success := success + 1;
      } else {
        failed := failed + 1;
        statuses[i] := status;
      }
    }
    assert hw[..|hw|] == hw;
    CommitsPlusAborts(hw);
  }

  /**
   * thread_func as written: the statuses array is allocated fresh and not
   * initialised, so `junk` stands for whatever the new array holds.
   */
  method ThreadFunc(loops: nat, res: Result, counter: Counter, hw: seq<status>, junk: seq<status>)
    requires |hw| == loops && |junk| == loops
    modifies res, counter
    ensures fresh(res.statuses) && res.statuses[..] == Recorded(hw, junk)
    ensures res.success == Commits(hw) && res.failure == Aborts(hw)
    ensures res.success + res.failure == loops
    ensures counter.value == old(counter.value) + res.success
  {
    var st := new status[loops](k requires 0 <= k < loops => junk[k]);
    res.statuses := st;
    assert st[..] == junk;
    var success, failed := RunAttempts(st, counter, hw);
    res.success := success;
    res.failure := failed;
  }

  /** thread_func with the statuses array value-initialised (`new unsigned[loops]()`). */
  method ThreadFuncZeroed(loops: nat, res: Result, counter: Counter, hw: seq<status>)
    requires |hw| == loops
    modifies res, counter
    ensures fresh(res.statuses) && res.statuses[..] == Recorded(hw, seq(loops, _ => 0))
    ensures res.success == Commits(hw) && res.failure == Aborts(hw)
    ensures res.success + res.failure == loops
    ensures counter.value == old(counter.value) + res.success
  {
    var st := new status[loops](_ => 0);
    res.statuses := st;
    assert st[..] == seq(loops, _ => 0);
    var success, failed := RunAttempts(st, counter, hw);
    res.success := success;
    res.failure := failed;
  }

  /** The tally loop of main over statuses[0..loops-1]. */
  method Tally(statuses: array<status>, loops: nat) returns (t: AbortTally)
    requires loops <= statuses.Length
    ensures t == TallyOf(statuses[..loops])
    ensures t.explicit <= loops && t.retry <= loops && t.conflict <= loops
    ensures t.capacity <= loops && t.debug <= loops && t.nested <= loops
  {
    var explicit, retry, conflict, capacity, debug, nested := 0, 0, 0, 0, 0, 0;
    for run := 0 to loops
      invariant AbortTally(explicit, retry, conflict, capacity, debug, nested) == TallyOf(statuses[..run])
    {
      assert statuses[..run + 1][..run] == statuses[..run];
      var status := statuses[run];
      if Has(status, XABORT_EXPLICIT) { explicit := explicit + 1; }
      if Has(status, XABORT_RETRY) { retry := retry + 1; }
      if Has(status, XABORT_CONFLICT) { conflict := conflict + 1; }
      if Has(status, XABORT_CAPACITY) { capacity := capacity + 1; }
      if Has(status, XABORT_DEBUG) { debug := debug + 1; }
      if Has(status, XABORT_NESTED) { nested := nested + 1; }
    }
    t := AbortTally(explicit, retry, conflict, capacity, debug, nested);
  }

  /**
   * As written, a tally can exceed the thread's failures: one committed
   * iteration leaves its uninitialised slot behind, and the tally loop reads it.
   */
  lemma TallyCanExceedFailures()
    ensures CountFlag(Recorded([XBEGIN_STARTED], [0xFFFF_FFFF]), XABORT_EXPLICIT) == 1
    ensures Aborts([XBEGIN_STARTED]) == 0
  {
    var r := Recorded([XBEGIN_STARTED], [0xFFFF_FFFF]);
    assert r == [0xFFFF_FFFF];
    assert r[..0] == [];
  }

  /** With zeroed statuses every tally counts failures only, so it is at most the failure count. */
  lemma {:induction false} ZeroedTallyAtMostFailures(hw: seq<status>, flag: status)
    ensures CountFlag(Recorded(hw, seq(|hw|, _ => 0)), flag) <= Aborts(hw)
  {
    if hw != [] {
      var p := hw[..|hw| - 1];
      var r := Recorded(hw, seq(|hw|, _ => 0));
      assert r[..|r| - 1] == Recorded(p, seq(|p|, _ => 0));
      ZeroedTallyAtMostFailures(p, flag);
    }
  }

  /** Per-thread outcome, as main reads it from `res[tid]`. */
  datatype Outcome = Outcome(success: nat, failure: nat)

  function SumSuccess(outs: seq<Outcome>): (r: nat)
  {
    if outs == [] then 0 else SumSuccess(outs[..|outs| - 1]) + outs[|outs| - 1].success
  }

  function SumFailure(outs: seq<Outcome>): (r: nat)
  {
    if outs == [] then 0 else SumFailure(outs[..|outs| - 1]) + outs[|outs| - 1].failure
  }

  /** If every thread accounted for all its loops, the totals account for num_threads * loops. */
  lemma {:induction false} TotalsAccount(outs: seq<Outcome>, loops: nat)
    requires forall t :: 0 <= t < |outs| ==> outs[t].success + outs[t].failure == loops
    ensures SumSuccess(outs) + SumFailure(outs) == |outs| * loops
  {
    if outs != [] {
      TotalsAccount(outs[..|outs| - 1], loops);
    }
  }

  /** The summing loop of main over the threads' results. */
  method SumOutcomes(outs: seq<Outcome>, loops: nat) returns (success: nat, failure: nat)
    ensures success == SumSuccess(outs) && failure == SumFailure(outs)
    ensures (forall t :: 0 <= t < |outs| ==> outs[t].success + outs[t].failure == loops) ==>
      success + failure == |outs| * loops
  {
    success, failure := 0, 0;
    for tid := 0 to |outs|
      invariant success == SumSuccess(outs[..tid]) && failure == SumFailure(outs[..tid])
    {
      assert outs[..tid + 1][..tid] == outs[..tid];
      success := success + outs[tid].success;
      failure := failure + outs[tid].failure;
    }
    assert outs[..|outs|] == outs;
    if forall t :: 0 <= t < |outs| ==> outs[t].success + outs[t].failure == loops {
      TotalsAccount(outs, loops);
    }
  }
}
