/**
 * Go's sync.Locker, as the benchmarks and the atomic contexts use it, and the
 * shared memory a commiter function updates. In a sequential model a locker
 * is a flag: locking a held Go mutex would block forever, unlocking a free
 * one is a run-time error.
 */
module Sync {

  class Mutex {
    var held: bool

    constructor ()
      ensures !held
    {
      held := false;
    }

    method Lock()
      requires !held
      modifies this
      ensures held
    {
      held := true;
    }

    method Unlock()
      requires held
      modifies this
      ensures !held
    {
      held := false;
    }
  }

  /**
   * The memory a commiter closes over. `runs` counts the commiter executions
   * whose effect took place (aborted transactions leave no effect).
   */
  class Shared<T> {
    var state: T
    ghost var runs: nat

    constructor (init: T)
      ensures state == init && runs == 0
    {
      state := init;
      runs := 0;
    }

    /** One execution of the commiter. */
    method Run(commiter: T -> T)
      modifies this
      ensures state == commiter(old(state)) && runs == old(runs) + 1
    {
      state := commiter(state);
      runs := runs + 1;
    }
  }
}
