/**
 * The lock-word primitives and spin mutexes of locks_amd64.go. A lock is one
 * int32 word: 0 free, 1 held.
 *
 * Other threads are an oracle: a schedule `sched` lists the value the word
 * holds at each of this thread's successive accesses (another thread's
 * store lands between two of our accesses). A thread running alone sees its
 * own last value at every access.
 */
module LockWords {
  import opened Words

  /** How many tries SpinMutex and SpinHLEMutex give one count-lock call. */
  const LockAttempts: int32 := 200

  /** An int32 in memory that several threads share. */
  class Word {
    var val: int32

    constructor (v: int32)
      ensures val == v
    {
      val := v;
    }
  }

  /** The stores of other threads that land before our next access. */
  method Interfere(w: Word, v: int32)
    modifies w
    ensures w.val == v
  {
    w.val := v;
  }

  // ---------------------------------------------------------------------
  // Atomic primitives: one indivisible access each
  // ---------------------------------------------------------------------

  /** LOCK XCHG of 1: writes 1 and returns the previous value. */
  method Lock1XCHG32(w: Word) returns (prev: int32)
    modifies w
    ensures prev == old(w.val) && w.val == 1
  {
    prev := w.val;
    w.val := 1;
  }

  /** atomic.SwapInt32. */
  method SwapInt32(w: Word, v: int32) returns (prev: int32)
    modifies w
    ensures prev == old(w.val) && w.val == v
  {
    prev := w.val;
    w.val := v;
  }

  /** atomic.CompareAndSwapInt32. */
  method CompareAndSwapInt32(w: Word, expected: int32, v: int32) returns (swapped: bool)
    modifies w
    ensures swapped <==> old(w.val) == expected
    ensures w.val == if swapped then v else old(w.val)
  {
    swapped := w.val == expected;
    if swapped {
      w.val := v;
    }
  }

  /** XACQUIRE LOCK XCHG of 1: returns 0 exactly when it took a free lock; the word is 1 afterwards. */
  method HLETryLock(w: Word) returns (r: int32)
    modifies w
    ensures r == old(w.val) && w.val == 1
    ensures r == 0 <==> old(w.val) == 0
  {
    r := w.val;
    w.val := 1;
  }

  /** XRELEASE store of 0. */
  method HLEUnlock(w: Word)
    modifies w
    ensures w.val == 0
  {
    w.val := 0;
  }

  // ---------------------------------------------------------------------
  // Schedules
  // ---------------------------------------------------------------------

  /** The schedule that a thread running alone sees: the word keeps value v. */
  function Alone(v: int32, n: nat): (s: seq<int32>)
    ensures |s| == n && forall k :: 0 <= k < n ==> s[k] == v
  {
    seq(n, _ => v)
  }

  /** Some access finds the word free. */
  predicate FreeAhead(sched: seq<int32>)
  {
    exists j :: 0 <= j < |sched| && sched[j] == 0
  }

  /** Two successive accesses find the word free. */
  predicate FreePairAhead(sched: seq<int32>)
  {
    exists j :: 0 <= j < |sched| - 1 && sched[j] == 0 && sched[j + 1] == 0
  }

  /** The first access that finds the word free; |sched| if none does. This is where a CAS loop succeeds. */
  function FirstFree(sched: seq<int32>, pos: nat): (r: nat)
    requires pos <= |sched|
    ensures pos <= r <= |sched|
    ensures r < |sched| ==> sched[r] == 0
    ensures forall k :: pos <= k < r ==> sched[k] != 0
    decreases |sched| - pos
  {
    if pos == |sched| then pos
    else if sched[pos] == 0 then pos
    else FirstFree(sched, pos + 1)
  }

  /**
   * A read-then-swap loop started with a read at access pos: the access at
   * which its swap finds the word free, |sched| if the schedule runs out
   * first. A read that finds the word held is repeated; one that finds it
   * free is followed by the swap; a swap that finds it held goes back to
   * reading.
   */
  function SwapAt(sched: seq<int32>, pos: nat): (r: nat)
    requires pos <= |sched|
    ensures r <= |sched|
    ensures r < |sched| ==> pos < r && sched[r - 1] == 0 && sched[r] == 0
    decreases |sched| - pos
  {
    if pos + 1 >= |sched| then |sched|
    else if sched[pos] != 0 then SwapAt(sched, pos + 1)
    else if sched[pos + 1] == 0 then pos + 1
    else SwapAt(sched, pos + 2)
  }

  /** A free pair ahead of the read position is never skipped: the loop's swap succeeds at or before it. */
  lemma {:induction false} SwapAtPair(sched: seq<int32>, pos: nat, j: nat)
    requires pos <= j && j + 1 < |sched| && sched[j] == 0 && sched[j + 1] == 0
    ensures SwapAt(sched, pos) <= j + 1
    decreases j - pos
  {
    if sched[pos] != 0 {
      SwapAtPair(sched, pos + 1, j);
    } else if sched[pos + 1] != 0 {
      SwapAtPair(sched, pos + 2, j);
    }
  }

  lemma SwapAtSucceeds(sched: seq<int32>)
    requires FreePairAhead(sched)
    ensures SwapAt(sched, 0) < |sched|
  {
    var j :| 0 <= j < |sched| - 1 && sched[j] == 0 && sched[j + 1] == 0;
    SwapAtPair(sched, 0, j);
  }

  /**
   * A count-lock call with `attempts` tries started at access pos: the
   * attempts left when it returns. A try reads the word; when it reads 0 it
   * swaps in a 1; a try that does not take the lock costs one attempt, and
   * the call returns as soon as a swap finds the word free.
   */
  function CountLockLeft(sched: seq<int32>, pos: nat, attempts: nat): (r: nat)
    requires pos + 2 * attempts <= |sched|
    ensures r <= attempts
    decreases attempts
  {
    if attempts == 0 then 0
    else if sched[pos] != 0 then CountLockLeft(sched, pos + 1, attempts - 1)
    else if sched[pos + 1] == 0 then attempts
    else CountLockLeft(sched, pos + 2, attempts - 1)
  }

  /**
   * Alone, a count-lock keeps all its attempts on a free word and uses them
   * all up on a held one.
   */
  lemma {:induction false} CountLockAlone(sched: seq<int32>, pos: nat, attempts: nat, v: int32)
    requires pos + 2 * attempts <= |sched|
    requires forall k :: pos <= k < |sched| ==> sched[k] == v
    ensures CountLockLeft(sched, pos, attempts) == if v == 0 then attempts else 0
    decreases attempts
  {
    if attempts > 0 && v != 0 {
      CountLockAlone(sched, pos + 1, attempts - 1, v);
    }
  }

  /** A free pair within reach of the remaining tries is taken. */
  lemma {:induction false} CountLockPair(sched: seq<int32>, pos: nat, attempts: nat, j: nat)
    requires pos + 2 * attempts <= |sched|
    requires pos <= j < pos + attempts && sched[j] == 0 && sched[j + 1] == 0
    ensures CountLockLeft(sched, pos, attempts) > 0
    decreases attempts
  {
    if sched[pos] != 0 {
      CountLockPair(sched, pos + 1, attempts - 1, j);
    } else if sched[pos + 1] != 0 {
      CountLockPair(sched, pos + 2, attempts - 1, j);
    }
  }

  /** Alone on a free word, the first round of SpinMutex or SpinHLEMutex takes the lock. */
  lemma AloneFreeAcquires()
    ensures Acquires(Alone(0, 2 * LockAttempts))
  {
    CountLockAlone(Alone(0, 2 * LockAttempts), 0, LockAttempts, 0);
  }

  /** Alone on a held word, no round ever takes the lock: Lock cannot return. */
  lemma AloneHeldNeverAcquires()
    ensures !Acquires(Alone(1, 2 * LockAttempts))
  {
    CountLockAlone(Alone(1, 2 * LockAttempts), 0, LockAttempts, 1);
  }

  /** A round of LockAttempts tries that takes the lock. */
  predicate Acquires(round: seq<int32>)
  {
    |round| == 2 * LockAttempts && CountLockLeft(round, 0, LockAttempts) > 0
  }

  /** The first round from `from` on that takes the lock; |rounds| if none does. */
  function FirstAcquiring(rounds: seq<seq<int32>>, from: nat): (r: nat)
    requires from <= |rounds|
    ensures from <= r <= |rounds|
    ensures r < |rounds| ==> Acquires(rounds[r])
    ensures forall q :: from <= q < r ==> !Acquires(rounds[q])
    decreases |rounds| - from
  {
    if from == |rounds| then from
    else if Acquires(rounds[from]) then from
    else FirstAcquiring(rounds, from + 1)
  }

  // ---------------------------------------------------------------------
  // Spin loops over the primitives
  // ---------------------------------------------------------------------

  /** SpinCountLock: at most `attempts` tries with XCHG; attempts left over mean the lock was taken. */
  method SpinCountLock(w: Word, attempts: int32, sched: seq<int32>) returns (left: int32, ghost got: bool)
    requires attempts > 0 && |sched| >= 2 * attempts
    modifies w
    ensures left == CountLockLeft(sched, 0, attempts as nat)
    ensures 0 <= left <= attempts
    ensures got <==> left > 0
    ensures got ==> w.val == 1
  {
    left := attempts;
    got := false;
    var pos := 0;
    while left > 0
      invariant 0 <= left <= attempts && pos + 2 * left <= |sched|
      invariant CountLockLeft(sched, pos, left as nat) == CountLockLeft(sched, 0, attempts as nat)
      decreases left
    {
      Interfere(w, sched[pos]);
      if w.val == 0 {
        Interfere(w, sched[pos + 1]);
        var prev := Lock1XCHG32(w);
        if prev == 0 {
          got := true;
          return;
        }
        pos := pos + 2;
      } else {
        pos := pos + 1;
      }
      left := left - 1;
    }
  }

  /** HLESpinCountLock: the same tries, each made with HLETryLock. */
  method HLESpinCountLock(w: Word, attempts: int32, sched: seq<int32>) returns (left: int32, ghost got: bool)
    requires attempts > 0 && |sched| >= 2 * attempts
    modifies w
    ensures left == CountLockLeft(sched, 0, attempts as nat)
    ensures 0 <= left <= attempts
    ensures got <==> left > 0
    ensures got ==> w.val == 1
  {
    left := attempts;
    got := false;
    var pos := 0;
    while left > 0
      invariant 0 <= left <= attempts && pos + 2 * left <= |sched|
      invariant CountLockLeft(sched, pos, left as nat) == CountLockLeft(sched, 0, attempts as nat)
      decreases left
    {
      Interfere(w, sched[pos]);
      if w.val != 0 {
        pos := pos + 1;
      } else {
        Interfere(w, sched[pos + 1]);
        var r := HLETryLock(w);
        if r == 0 {
          got := true;
          return;
        }
        pos := pos + 2;
      }
      left := left - 1;
    }
  }

  /**
   * SpinLockAtomics: spin on a plain read, then atomic.SwapInt32. It leaves
   * only through a swap that returned 0, made at access `at`, which is
   * where the schedule's first free read-and-swap pair lies.
   */
  method SpinLockAtomics(w: Word, sched: seq<int32>) returns (ghost at: nat, ghost prev: int32)
    requires FreePairAhead(sched)
    modifies w
    ensures at == SwapAt(sched, 0) && at < |sched|
    ensures prev == sched[at] && prev == 0
    ensures w.val == 1
  {
    SwapAtSucceeds(sched);
    ghost var done := SwapAt(sched, 0);
    var pos := 0;
    while true
      invariant pos < done && SwapAt(sched, pos) == done
      decreases done - pos
    {
      Interfere(w, sched[pos]);
      while w.val != 0
        invariant pos < done && SwapAt(sched, pos) == done && w.val == sched[pos]
        decreases done - pos
      {
        pos := pos + 1;
        Interfere(w, sched[pos]);
      }
      Interfere(w, sched[pos + 1]);
      var was := SwapInt32(w, 1);
      if was == 0 {
        at, prev := pos + 1, was;
        break;
      }
      pos := pos + 2;
    }
  }

  /** SpinMutexBasic: CAS 0 to 1 until it succeeds. */
  class SpinMutexBasic {
    const word: Word

    constructor ()
      ensures fresh(word) && word.val == 0
    {
      word := new Word(0);
    }

    /** Returns through the CAS made at access `at`, the first access that finds the word free. */
    method Lock(sched: seq<int32>) returns (ghost at: nat, ghost won: bool)
      requires FreeAhead(sched)
      modifies word
      ensures at == FirstFree(sched, 0) && at < |sched| && sched[at] == 0
      ensures won && word.val == 1
    {
      ghost var done := FirstFree(sched, 0);
      var pos := 0;
      Interfere(word, sched[pos]);
      var swapped := CompareAndSwapInt32(word, 0, 1);
      while !swapped
        invariant pos <= done < |sched|
        invariant swapped ==> word.val == 1 && sched[pos] == 0
        invariant !swapped ==> pos < done
        decreases done - pos
      {
        pos := pos + 1;
        Interfere(word, sched[pos]);
        swapped := CompareAndSwapInt32(word, 0, 1);
      }
      at, won := pos, swapped;
    }

    method Unlock()
      modifies word
      ensures word.val == 0
    {
      word.val := 0;
    }
  }

  /** SpinMutex: count-lock rounds of LockAttempts tries, yielding between rounds. */
  class SpinMutex {
    const word: Word

    constructor ()
      ensures fresh(word) && word.val == 0
    {
      word := new Word(0);
    }

    /**
     * `rounds` holds the schedule of each count-lock call; some round must
     * take the lock. Lock returns after round `r`, the first whose
     * count-lock leaves attempts over.
     */
    method Lock(rounds: seq<seq<int32>>) returns (ghost r: nat)
      requires forall r :: 0 <= r < |rounds| ==> |rounds[r]| == 2 * LockAttempts
      requires exists r :: 0 <= r < |rounds| && Acquires(rounds[r])
      modifies word
      ensures r == FirstAcquiring(rounds, 0)
      ensures r < |rounds| && Acquires(rounds[r])
      ensures forall q :: 0 <= q < r ==> !Acquires(rounds[q])
      ensures word.val == 1 && IsLocked()
    {
      ghost var first := FirstAcquiring(rounds, 0);
      var round := 0;
      while true
        invariant round <= first < |rounds|
        invariant FirstAcquiring(rounds, round) == first
        decreases first - round
      {
        var attempts := LockAttempts;
        var left, got := SpinCountLock(word, attempts, rounds[round]);
        if left > 0 {
          r := round;
          return;
        }
        round := round + 1;
      }
    }

    method Unlock()
      modifies word
      ensures word.val == 0 && !IsLocked()
    {
      word.val := 0;
    }

    predicate IsLocked()
      reads this, word
      ensures word.val == 0 ==> !IsLocked()
    {
      word.val == 1
    }
  }

  /** SpinHLEMutex: SpinMutex with HLE tries and an HLE release. */
  class SpinHLEMutex {
    const word: Word

    constructor ()
      ensures fresh(word) && word.val == 0
    {
      word := new Word(0);
    }

    /** Returns after round `r`, the first whose HLE count-lock leaves attempts over. */
    method Lock(rounds: seq<seq<int32>>) returns (ghost r: nat)
      requires forall r :: 0 <= r < |rounds| ==> |rounds[r]| == 2 * LockAttempts
      requires exists r :: 0 <= r < |rounds| && Acquires(rounds[r])
      modifies word
      ensures r == FirstAcquiring(rounds, 0)
      ensures r < |rounds| && Acquires(rounds[r])
      ensures forall q :: 0 <= q < r ==> !Acquires(rounds[q])
      ensures word.val == 1
    {
      ghost var first := FirstAcquiring(rounds, 0);
      var round := 0;
      while true
        invariant round <= first < |rounds|
        invariant FirstAcquiring(rounds, round) == first
        decreases first - round
      {
        var attempts := LockAttempts;
        var left, got := HLESpinCountLock(word, attempts, rounds[round]);
        if left > 0 {
          r := round;
          return;
        }
        round := round + 1;
      }
    }

    method Unlock()
      modifies word
      ensures word.val == 0
    {
      HLEUnlock(word);
    }
  }

  /** RTMMutex: spin on a plain read, then CAS 0 to 1. */
  class RTMMutex {
    const word: Word

    constructor ()
      ensures fresh(word) && word.val == 0
    {
      word := new Word(0);
    }

    /** Returns through a CAS that swapped, made at access `at`, where the schedule's first free read-and-CAS pair lies. */
    method Lock(sched: seq<int32>) returns (ghost at: nat, ghost won: bool)
      requires FreePairAhead(sched)
      modifies word
      ensures at == SwapAt(sched, 0) && at < |sched| && sched[at] == 0
      ensures won && word.val == 1
    {
      SwapAtSucceeds(sched);
      ghost var done := SwapAt(sched, 0);
      var pos := 0;
      while true
        invariant pos < done && SwapAt(sched, pos) == done
        decreases done - pos
      {
        Interfere(word, sched[pos]);
        while word.val != 0
          invariant pos < done && SwapAt(sched, pos) == done && word.val == sched[pos]
          decreases done - pos
        {
          pos := pos + 1;
          Interfere(word, sched[pos]);
        }
        Interfere(word, sched[pos + 1]);
        var swapped := CompareAndSwapInt32(word, 0, 1);
        if swapped {
          at, won := pos + 1, swapped;
          break;
        }
        pos := pos + 2;
      }
    }

    method Unlock()
      modifies word
      ensures word.val == 0
    {
      word.val := 0;
    }
  }
}
