/**
 * The two AtomicContext implementations of the library: RTMContext
 * (rtm.go), which runs a commiter inside an RTM transaction and falls back
 * to a lock, and LockedContext (lockedcontext.go), which always uses the
 * lock. The contract both owe (interfaces.go) is that each Atomic call
 * executes the commiter exactly once, atomically with respect to the other
 * commiters of the same context.
 *
 * The hardware is an oracle `hw`: hw[k] is the outcome of the k-th
 * transaction attempt of this call, XBEGIN_STARTED when the transaction
 * runs to its commit and the abort status otherwise (an aborted
 * transaction's effects are rolled back and TxBegin returns that status).
 * Ghost steps record what the context did, for stating exactly-once and
 * lock discipline.
 */
module Contexts {
  import opened Words
  import opened Sync
  import opened RtmStatus

  datatype Step = Acquire | SetFallback | Commit(locked: bool) | ClearFallback | Release

  /** Number of commiter executions in a run of steps. */
  function CommitCount(steps: seq<Step>): (n: nat)
    ensures n <= |steps|
  {
    if steps == [] then 0
    else CommitCount(steps[..|steps| - 1]) + (if steps[|steps| - 1].Commit? then 1 else 0)
  }

  /** Recording one more step adds one to the count exactly when the step is a commiter execution. */
  lemma CommitCountPush(steps: seq<Step>, step: Step)
    ensures CommitCount(steps + [step]) == CommitCount(steps) + (if step.Commit? then 1 else 0)
  {
    assert (steps + [step])[..|steps|] == steps;
  }

  /** The fallback path's steps hold one commiter execution. */
  lemma FallbackStepsCount(steps: seq<Step>, locked: bool)
    ensures CommitCount(steps + [Acquire, SetFallback, Commit(locked), ClearFallback, Release]) == CommitCount(steps) + 1
  {
    CommitCountPush(steps, Acquire);
    CommitCountPush(steps + [Acquire], SetFallback);
    CommitCountPush(steps + [Acquire, SetFallback], Commit(locked));
    CommitCountPush(steps + [Acquire, SetFallback, Commit(locked)], ClearFallback);
    CommitCountPush(steps + [Acquire, SetFallback, Commit(locked), ClearFallback], Release);
    assert steps + [Acquire] + [SetFallback] == steps + [Acquire, SetFallback];
    assert steps + [Acquire, SetFallback] + [Commit(locked)] == steps + [Acquire, SetFallback, Commit(locked)];
    assert steps + [Acquire, SetFallback, Commit(locked)] + [ClearFallback]
      == steps + [Acquire, SetFallback, Commit(locked), ClearFallback];
    assert steps + [Acquire, SetFallback, Commit(locked), ClearFallback] + [Release]
      == steps + [Acquire, SetFallback, Commit(locked), ClearFallback, Release];
  }

  /** Every commiter execution in the steps happened while the lock was held. */
  predicate AllLocked(steps: seq<Step>)
  {
    forall k :: 0 <= k < |steps| && steps[k].Commit? ==> steps[k].locked
  }

  /** A status on which Atomic stops retrying: a started transaction, or an abort without the retry bit. */
  predicate Decides(s: status)
  {
    s == XBEGIN_STARTED || !Has(s, XABORT_RETRY)
  }

  /** Index of the attempt that decides the call; |hw| when none does. */
  function Attempts(hw: seq<status>): (n: nat)
    ensures n <= |hw|
    ensures n < |hw| ==> Decides(hw[n])
    ensures forall k :: 0 <= k < n ==> !Decides(hw[k])
  {
    if hw == [] then 0
    else if Decides(hw[0]) then 0
    else 1 + Attempts(hw[1..])
  }

  /** How an Atomic call ends: committed in a transaction, or under the lock after the given abort. */
  datatype Path = Transactional | LockFallback(abort: status)

  /**
   * The path an Atomic call takes. A transaction that starts while the
   * fallback flag is set aborts itself explicitly, which takes the lock path.
   * A call commits transactionally exactly when its deciding attempt started
   * and the flag was clear; while the flag is set no call commits
   * transactionally (it commits under the lock instead); and the
   * lock path never carries a status that asks for a retry.
   */
  function Resolve(hw: seq<status>, fallback: int32): (r: Path)
    requires Attempts(hw) < |hw|
    ensures r == Transactional <==> hw[Attempts(hw)] == XBEGIN_STARTED && fallback == 0
    ensures fallback != 0 ==> r.LockFallback?
    ensures r.LockFallback? ==> !Has(r.abort, XABORT_RETRY)
  {
    var s := hw[Attempts(hw)];
    if s != XBEGIN_STARTED then LockFallback(s)
    else if fallback != 0 then LockFallback(XABORT_STATUS)
    else Transactional
  }

  /** An abort with the retry bit leads back to TxBegin: it does not change how the call ends. */
  lemma {:induction false} ResolveSkipsRetry(hw: seq<status>, fallback: int32)
    requires |hw| > 0 && hw[0] != XBEGIN_STARTED && Has(hw[0], XABORT_RETRY)
    requires Attempts(hw[1..]) < |hw| - 1
    ensures Attempts(hw) < |hw| && Resolve(hw, fallback) == Resolve(hw[1..], fallback)
  {
    assert !Decides(hw[0]);
    assert Attempts(hw) == 1 + Attempts(hw[1..]);
  }

  /** Whether an Atomic call that ended on `path` counts a capacity abort. */
  function CapacityStep(path: Path): (r: nat)
  {
    if path.LockFallback? && Has(path.abort, XABORT_CAPACITY) then 1 else 0
  }

  class RTMContext {
    var fallback: int32
    const lock: Mutex
    var capacityaborts: nat
    ghost var log: seq<Step>

    /** NewRTMContexDefault: a fresh sync.Mutex as the fallback lock. */
    constructor Default()
      ensures fallback == 0 && capacityaborts == 0 && log == []
      ensures fresh(lock) && !lock.held
    {
      fallback := 0;
      capacityaborts := 0;
      lock := new Mutex();
      log := [];
    }

    /** NewRTMContex: the given locker as the fallback lock. */
    constructor (l: Mutex)
      ensures lock == l && fallback == 0 && capacityaborts == 0 && log == []
    {
      fallback := 0;
      capacityaborts := 0;
      lock := l;
      log := [];
    }

    method CapacityAborts() returns (n: nat)
      ensures n == capacityaborts
    {
      n := capacityaborts;
    }

    /** The fallback path: the commiter runs under the lock with the fallback flag set. */
    method RunLocked<T>(mem: Shared<T>, commiter: T -> T)
      requires !lock.held
      modifies this, lock, mem
      ensures mem.state == commiter(old(mem.state)) && mem.runs == old(mem.runs) + 1
      ensures fallback == 0 && capacityaborts == old(capacityaborts) && !lock.held
      ensures log == old(log) + [Acquire, SetFallback, Commit(true), ClearFallback, Release]
      ensures CommitCount(log) == CommitCount(old(log)) + 1
    {
      lock.Lock();
      // SetAndFence32
      fallback := 1;
      mem.Run(commiter);
      ghost var locked := lock.held;
      fallback := 0;
      lock.Unlock();
      FallbackStepsCount(log, locked);
      log := log + [Acquire, SetFallback, Commit(locked), ClearFallback, Release];
    }

    /** Atomic: run the commiter on `mem` in a transaction, retrying on retry aborts, else under the lock. */
    method Atomic<T>(mem: Shared<T>, commiter: T -> T, hw: seq<status>) returns (path: Path)
      requires Attempts(hw) < |hw|
      requires !lock.held
      modifies this, lock, mem
      ensures path == Resolve(hw, old(fallback))
      ensures mem.state == commiter(old(mem.state)) && mem.runs == old(mem.runs) + 1
      ensures capacityaborts == old(capacityaborts) + CapacityStep(path)
      ensures fallback == if path.LockFallback? then 0 else old(fallback)
      ensures !lock.held
      ensures log == old(log) + if path.Transactional?
        then [Commit(false)]
        else [Acquire, SetFallback, Commit(true), ClearFallback, Release]
      ensures CommitCount(log) == CommitCount(old(log)) + 1
    {
      var pos := 0;
      var status: status := hw[0];
      while true
        invariant pos <= Attempts(hw)
        invariant status == hw[pos]
        decreases Attempts(hw) - pos
      {
        if status == XBEGIN_STARTED || !Has(status, XABORT_RETRY) {
          break;
        }
        pos := pos + 1;
        status := hw[pos];
      }
      assert pos == Attempts(hw);
      if status == XBEGIN_STARTED && fallback != 0 {
        // TxAbort: the transaction ends with an explicit abort and TxBegin returns its status.
        status := XABORT_STATUS;
      }
      if status == XBEGIN_STARTED {
        mem.Run(commiter);
        CommitCountPush(log, Commit(false));
        log := log + [Commit(false)];
        path := Transactional;
      } else {
        if Has(status, XABORT_CAPACITY) {
          capacityaborts := capacityaborts + 1;
        }
        RunLocked(mem, commiter);
        path := LockFallback(status);
      }
    }
  }

  class LockedContext {
    const lock: Mutex
    ghost var log: seq<Step>

    /** NewLockedContext. */
    constructor (l: Mutex)
      ensures lock == l && log == []
    {
      lock := l;
      log := [];
    }

    /** Atomic: Lock, the commiter, Unlock. */
    method Atomic<T>(mem: Shared<T>, commiter: T -> T)
      requires !lock.held
      modifies this, lock, mem
      ensures mem.state == commiter(old(mem.state)) && mem.runs == old(mem.runs) + 1
      ensures !lock.held
      ensures log == old(log) + [Acquire, Commit(true), Release]
      ensures CommitCount(log) == CommitCount(old(log)) + 1
      ensures AllLocked(old(log)) ==> AllLocked(log)
    {
      lock.Lock();
      CommitCountPush(log, Acquire);
      log := log + [Acquire];
      mem.Run(commiter);
      CommitCountPush(log, Commit(lock.held));
      log := log + [Commit(lock.held)];
      lock.Unlock();
      CommitCountPush(log, Release);
      log := log + [Release];
    }
  }
}
