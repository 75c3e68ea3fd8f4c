/**
 * The C++ HLE experiment (cppexperiments/testhle.cc): four lock strategies
 * chosen when the set is built, a set of int bins touched under the lock,
 * the per-thread operand array, and one thread's replay.
 */
module HleBench {
  import opened Words
  import opened BinSpec
  import opened LockWords

  /** The CustomMutex subclasses, as a closed variant. */
  datatype LockKind = NoMutex | SystemMutex | SpinMutex | SpinHLEMutex {
    /** gettype(). */
    function Name(): (r: string)
      ensures |r| > 5 && r[|r| - 5..] == "Mutex"
    {
      match this
      case NoMutex => "NoMutex"
      case SystemMutex => "SystemMutex"
      case SpinMutex => "SpinMutex"
      case SpinHLEMutex => "SpinHLEMutex"
    }
  }

  /** Every strategy reports a different name. */
  lemma NamesDistinct(a: LockKind, b: LockKind)
    requires a != b
    ensures a.Name() != b.Name()
  {
  }

  /**
   * What lock() needs from the other threads to return: the platform mutex
   * blocks until it finds itself free; the spin locks need a read and the
   * following exchange to find the word free.
   */
  predicate CanAcquire(kind: LockKind, sched: seq<int32>)
  {
    match kind
    case NoMutex => true
    case SystemMutex => FreeAhead(sched)
    case _ => FreePairAhead(sched)
  }

  class CustomMutex {
    const kind: LockKind
    /** The spin locks' `val`; for SystemMutex, whether std::mutex is held (1) or not (0). */
    const word: Word

    constructor (kind: LockKind)
      ensures this.kind == kind && fresh(word) && word.val == 0
    {
      this.kind := kind;
      word := new Word(0);
    }

    /**
     * lock(). The ghost result `at` is the access at which the lock is
     * taken: the first free access for std::mutex, the first free
     * read-and-exchange pair for the spin locks.
     */
    method Lock(sched: seq<int32>) returns (ghost at: nat)
      requires CanAcquire(kind, sched)
      modifies word
      ensures kind == NoMutex ==> word.val == old(word.val)
      ensures kind == SystemMutex ==> at == FirstFree(sched, 0)
      ensures kind == SpinMutex || kind == SpinHLEMutex ==> at == SwapAt(sched, 0)
      ensures kind != NoMutex ==> at < |sched| && sched[at] == 0 && word.val == 1
    {
      at := 0;
      match kind
      case NoMutex =>
      case SystemMutex =>
        var pos := FirstFree(sched, 0);
        Interfere(word, sched[pos]);
        word.val := 1;
        at := pos;
      case SpinMutex =>
        ghost var prev;
        at, prev := SpinAcquire(sched, false);
      case SpinHLEMutex =>
        ghost var prev;
        at, prev := SpinAcquire(sched, true);
    }

    /**
     * The spin loop of SpinMutex::lock (elide false: __sync_lock_test_and_set)
     * and SpinHLEMutex::lock (elide true: exchange with the HLE acquire hint).
     * It leaves only through an exchange that returned 0, made at access
     * `at`, where the schedule's first free read-and-exchange pair lies.
     */
    method SpinAcquire(sched: seq<int32>, elide: bool) returns (ghost at: nat, ghost prev: int32)
      requires FreePairAhead(sched)
      modifies word
      ensures at == SwapAt(sched, 0) && at < |sched|
      ensures prev == sched[at] && prev == 0
      ensures word.val == 1
    {
      SwapAtSucceeds(sched);
      ghost var done := SwapAt(sched, 0);
      var pos := 0;
      while true
        invariant pos < done && SwapAt(sched, pos) == done
        decreases done - pos
      {
        Interfere(word, sched[pos]);
        while word.val != 0
          invariant pos < done && SwapAt(sched, pos) == done && word.val == sched[pos]
          decreases done - pos
        {
          pos := pos + 1;
          Interfere(word, sched[pos]);
        }
        Interfere(word, sched[pos + 1]);
        var was;
        if elide {
          was := HLETryLock(word);
        } else {
          was := Lock1XCHG32(word);
        }
        if was == 0 {
          at, prev := pos + 1, was;
          break;
        }
        pos := pos + 2;
      }
    }

    method Unlock()
      modifies word
      ensures kind == NoMutex ==> word.val == old(word.val)
      ensures kind != NoMutex ==> word.val == 0
    {
      match kind
      case NoMutex =>
      case SystemMutex =>
        word.val := 0;
      case SpinMutex =>
        word.val := 0;
      case SpinHLEMutex =>
        HLEUnlock(word);
    }
  }

  class MySet {
    const numbins: nat
    const values: array<int>
    const m: CustomMutex

    /** Between touches of a single thread nobody holds the lock. */
    ghost predicate Valid()
      reads this, m, m.word
    {
      values.Length == numbins && m.word.val == 0
    }

    /** `new int[numbins]` leaves the bins uninitialised: `garbage` is what they hold. */
    constructor (numbins: nat, kind: LockKind, garbage: seq<int>)
      requires |garbage| == numbins
      ensures Valid() && fresh(values) && fresh(m) && fresh(m.word)
      ensures this.numbins == numbins && m.kind == kind && values[..] == garbage
    {
      this.numbins := numbins;
      values := new int[numbins](k requires 0 <= k < numbins => garbage[k]);
      m := new CustomMutex(kind);
    }

    /** Increments bin binindex % numbins under the lock. */
    method Touch(binindex: nat)
      requires Valid() && numbins > 0
      modifies values, m.word
      ensures Valid()
      ensures values[..] == Touched(old(values[..]), binindex)
    {
      var bin := binindex % numbins;
      var alone := Alone(m.word.val, 2);
      assert alone[0] == 0 && alone[1] == 0;
      ghost var at := m.Lock(alone);
      values[bin] := values[bin] + 1;
      m.Unlock();
    }

    method Len() returns (n: nat)
      requires Valid()
      ensures n == values.Length
    {
      n := numbins;
    }

    method GetLockType() returns (name: string)
      ensures name == m.kind.Name()
    {
      name := m.kind.Name();
    }
  }

  /** One thread's parameters: `loops` operands drawn from rand() before timing starts. */
  class Params {
    const tid: int
    const loops: nat
    const vals: array<nat>

    constructor (tid: int, loops: nat, draws: seq<nat>)
      requires |draws| >= loops
      ensures this.tid == tid && this.loops == loops && fresh(vals)
      ensures vals.Length == loops && vals[..] == draws[..loops]
    {
      this.tid := tid;
      this.loops := loops;
      var a := new nat[loops];
      for i := 0 to loops
        invariant a[..i] == draws[..i]
      {
        a[i] := draws[i];
        assert a[..i + 1] == a[..i] + [draws[i]];
      }
      vals := a;
    }
  }

  /** thread_func: touches vals[0..loops-1] in order; the bins rise by exactly loops in total. */
  method ThreadFunc(par: Params, s: MySet)
    requires s.Valid() && s.numbins > 0 && par.vals.Length == par.loops
    modifies s.values, s.m.word
    ensures s.Valid()
    ensures s.values[..] == Replayed(old(s.values[..]), par.vals[..])
    ensures Sum(s.values[..]) == Sum(old(s.values[..])) + par.loops
    ensures forall k :: 0 <= k < s.numbins ==> s.values[k] == old(s.values[k]) + Hits(par.vals[..], s.numbins, k)
  {
    var loops := par.loops;
    for i := 0 to loops
      invariant s.Valid()
      invariant s.values[..] == Replayed(old(s.values[..]), par.vals[..i])
    {
      s.Touch(par.vals[i]);
      assert par.vals[..i + 1][..i] == par.vals[..i];
    }
    assert par.vals[..loops] == par.vals[..];
    ReplayedSum(old(s.values[..]), par.vals[..]);
    forall k | 0 <= k < s.numbins
      ensures s.values[k] == old(s.values[k]) + Hits(par.vals[..], s.numbins, k)
    {
      ReplayedHits(old(s.values[..]), par.vals[..], k);
    }
  }
}
