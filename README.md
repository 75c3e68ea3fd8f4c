# safetyfast TSX lock benchmarks, modelled in Dafny

safetyfast is a small Go library and a set of benchmarks for Intel TSX.
TSX has two parts: Hardware Lock Elision (HLE) and Restricted
Transactional Memory (RTM). This project models the parts of the
repository whose behaviour can be stated and proved:

- **Bin counter store and benchmark round** (`bin_spec.dfy`, `bin_counter.dfy`, `words.dfy`).
  - The Go store is a slice of `int32` counters with a backing array.
  - Touch increments bin `i mod n`, with explicit two's-complement wrap-around.
  - Resize either reallocates or re-slices. Clear zeroes the bins.
  - TotalSum sums the bins as `uint64`, modulo 2^64.
  - A goroutine replays its operands under a lock. A round's check compares the total with the number of operations.
  - Both stores are specified by a mathematical store: `Touched`, `Replayed`, `Sum`, `Hits`.
- **Operand buffer** (`rand_values.dfy`). `RandValues` appends values drawn from `math/rand`; the draws are an input sequence.
- **Plot helpers** (`perf_plot.dfy`). `PerfPlot` keeps its series in first-seen order, and `addCommas` groups digits.
- **Lock-word primitives and spin mutexes** (`lock_words.dfy`).
  - A lock is one `int32` word: 0 is free, 1 is held.
  - The other threads are a schedule: the value the word holds at each of this thread's accesses.
  - The spin loops are proved against functions of that schedule. `SwapAt` gives where a read-then-swap loop succeeds. `FirstFree` gives where a CAS loop succeeds. `CountLockLeft` gives how many tries a count-lock has left, and `FirstAcquiring` gives the first count-lock round that keeps tries.
  - Each `Lock` returns, as ghost results, the access or round at which it succeeds. Its contract equates that access or round with the schedule function, so the lock is taken exactly where the schedule says.
- **C++ HLE experiment** (`hle_set.dfy`). It covers the four `CustomMutex` strategies, the `MySet` bins touched under the lock, the per-thread operand array and one thread's replay.
- **C++ RTM experiment** (`rtm_count.dfy`, `rtm_status.dfy`).
  - Each thread's success and failure counts, the shared counter, the recorded abort statuses, the per-flag tallies and the totals.
  - The abort status bits follow section 16.3.5 of the Intel 64 and IA-32 Architectures Software Developer's Manual, Volume 1.
- **Atomic contexts** (`contexts.dfy`, `sync.dfy`).
  - `RTMContext.Atomic` retries on retry aborts, counts capacity aborts and otherwise falls back to the lock with the fallback flag set.
  - `LockedContext.Atomic` takes the lock, runs the commiter and releases the lock.
  - Both are proved to apply the commiter exactly once per call. A ghost step log records the lock discipline.

The hardware and the other threads are inputs to the model:

- the results of `_xbegin`/`TxBegin` are a sequence of statuses;
- `rand()` and `math/rand` results are draws;
- the stores of other threads are the lock-word schedule.

## Model

| member | source | states |
|---|---|---|
| `Words.Wrap32` | benchmarks/main.go:92 | The result is a valid int32, equal to the input exactly when the input is in range, and congruent to it modulo 2^32 |
| `Words.ToUint64` | benchmarks/main.go:82 | Converting a non-negative int32 keeps it; a negative one becomes value + 2^64 |
| `BinSpec.Zeros` | benchmarks/main.go:57 | n bins, all zero |
| `BinSpec.Touched` | benchmarks/main.go:87-93 | Same length; on a non-empty store exactly bin i mod n goes up by one and every other bin is unchanged; an empty store is unchanged |
| `BinSpec.SumZeros` | benchmarks/main.go:73-77 | A cleared store totals zero |
| `BinSpec.TouchedSum` | benchmarks/main.go:87-93 | On a non-empty store each touch raises the total by exactly one |
| `BinSpec.ReplayedSum` | benchmarks/main.go:95-104 | Replaying k values on a non-empty store raises the total by exactly k |
| `BinSpec.ReplayedHits` | cppexperiments/testhle.cc:185-192 | After a replay each bin holds its old value plus the number of values that selected it |
| `BinSpec.ReplayedNonNegative` | benchmarks/main.go:95-104 | Replaying keeps non-negative counters non-negative |
| `BinCounter.BumpIsTouched` | benchmarks/main.go:92 | Unless the counter is at the int32 maximum, Go's wrapping increment is the mathematical touch |
| `BinCounter.ReplayNoWrap` | benchmarks/main.go:95-104 | While the total stays below 2^31, replaying with int32 counters equals the mathematical replay (no counter wraps) |
| `BinCounter.ReplayRaisesTotal` | benchmarks/main.go:95-104 | A replay that stays below 2^31 keeps the counters non-negative and raises the total by the number of values |
| `BinCounter.SumU64NonNegative` | benchmarks/main.go:79-85 | For non-negative bins, the uint64 conversion sum is the mathematical sum |
| `BinCounter.SumU64Zeros` | benchmarks/main.go:73-85 | A cleared store sums to zero as uint64 |
| `BinCounter.SumU64Step` | benchmarks/main.go:79-85 | Adding the next converted bin to the running total modulo 2^64 gives the longer prefix's total modulo 2^64 |
| `BinCounter.ReplayAppend` | benchmarks/main.go:258-262 | Replaying one value list and then another equals replaying their concatenation |
| `BinCounter.ReplayCounts` | benchmarks/main.go:87-104 | On a non-empty, non-negative store whose total plus the number of values stays below 2^31: the counters stay non-negative, the total rises by the number of values, and each bin rises by the number of values that select it |
| `BinCounter.RoundFromZeros` | benchmarks/main.go:236-262 | From n > 0 cleared bins and fewer than 2^31 values: each bin holds the number of values that select it, and both the total and the uint64 total equal the number of values |
| `BinCounter.RoundOutcome` | benchmarks/main.go:280-283 | The uint64 total checked against `totalOps` (line 266) after a round from cleared bins equals the number of values when there are bins and fewer than 2^31 values; each bin then holds its hit count. With no bins the total is 0 |
| `BinCounter.BinTouchCounter.constructor` | benchmarks/main.go:55-59 | numBins zeroed bins over a fresh backing array of that capacity |
| `BinCounter.BinTouchCounter.Resize` | benchmarks/main.go:61-71 | The length becomes numBins. Above the capacity: a fresh array holding the old bins followed by zeros. Otherwise: the same array re-cut, which exposes its old contents up to numBins. Bins below both lengths keep their values |
| `BinCounter.BinTouchCounter.Clear` | benchmarks/main.go:73-77 | Every bin is zero, and the spare capacity is untouched |
| `BinCounter.BinTouchCounter.TotalSum` | benchmarks/main.go:79-85 | The uint64 sum of the bins, each bin converted, modulo 2^64 |
| `BinCounter.BinTouchCounter.Touch` | benchmarks/main.go:87-93 | The bins become Go's wrapping touch of the old bins; no-op when there are no bins |
| `BinCounter.GoRoutine` | benchmarks/main.go:95-104 | The bins become the replay of the goroutine's values in order; the lock is free again |
| `BinCounter.ReplayAll` | benchmarks/main.go:258-262 | The bins become the replay of every goroutine's values, goroutine after goroutine (`AllVals`). The length is kept and the lock is free |
| `BinCounter.RunRound` | benchmarks/main.go:241-283 | On cleared bins the bins become the replay of all values from zero. The check passes exactly when TotalSum equals the operation count. With bins and fewer than 2^31 operations it passes and each bin holds the number of operations that select it. With no bins the sum is 0 |
| `BinCounter.CheckedRound` | benchmarks/main.go:236-283 | After Resize, Clear and all replays, the bins are the replay of all values over numBins zeros. The check passes exactly when TotalSum equals the operation count. With bins and fewer than 2^31 operations it passes and each bin holds the number of operations that select it. With no bins the sum is 0 |
| `RandBuffer.Int31n` | benchmarks/rand.go:53 | A draw reduced into [0, mod) |
| `RandBuffer.RandValues.constructor` | benchmarks/rand.go:7-10 | An empty buffer |
| `RandBuffer.RandValues.Len` | benchmarks/rand.go:12-14 | The number of values GetAll returns |
| `RandBuffer.RandValues.GetAll` | benchmarks/rand.go:21-23 | The buffer's contents |
| `RandBuffer.RandValues.Put` | benchmarks/rand.go:16-19 | The values are appended after the old contents; the receiver is returned |
| `RandBuffer.RandValues.Clear` | benchmarks/rand.go:32-35 | The buffer is empty; the receiver is returned |
| `RandBuffer.RandValues.AddSparseInt32` | benchmarks/rand.go:37-42 | count draws are appended in order, all in [0, 2^31); the old contents are kept |
| `RandBuffer.RandValues.AddUniformInt32` | benchmarks/rand.go:51-56 | count values are appended, the k-th being Int31n of the k-th draw, all in [0, mod); the old contents are kept |
| `Graph.Len` | benchmarks/graph.go:22-24 | The number of metrics in the series |
| `Graph.ReverseReverse` | benchmarks/graph.go:122-125 | Reversing twice gives back the string |
| `Graph.AddCommas` | benchmarks/graph.go:112-127 | The two loops produce exactly Commas(s): a comma in front of each character that starts a group of three counted from the right |
| `Graph.CommasLength` | benchmarks/graph.go:112-127 | The result is len(s) + len(s)/3 long: one comma per full group of three |
| `Graph.CommasStrip` | benchmarks/graph.go:112-127 | Removing all commas from the result equals removing all commas from the input |
| `Graph.CommasRoundTrip` | benchmarks/graph.go:112-127 | For a comma-free input, removing the commas gives back the input |
| `Graph.CommasSplit` | benchmarks/graph.go:112-127 | Groups count from the right: a suffix of whole groups is grouped independently |
| `Graph.CommasLastGroup` | benchmarks/graph.go:112-127 | A comma stands immediately before the last three characters |
| `Graph.ShortUnchanged` | benchmarks/graph.go:112-127 | Strings shorter than three characters are returned unchanged |
| `Graph.CommasLeadingComma` | benchmarks/graph.go:112-127 | A non-empty comma-free input gets a leading comma exactly when its length is a multiple of three |
| `Graph.CommasLeadingCommaExample` | benchmarks/graph.go:112-127 | "123" gives ",123" and "123456" gives ",123,456" |
| `Graph.GroupThousandsShape` | benchmarks/graph.go:109 | The intended grouping has one comma per gap between groups and starts with the first digit |
| `Graph.GroupThousandsStrip` | benchmarks/graph.go:109 | Removing the commas from the intended grouping of a comma-free string gives it back |
| `Graph.GroupThousandsFixesCommas` | benchmarks/graph.go:112-127 | addCommas is the intended grouping, plus a leading comma exactly when the length is a non-zero multiple of three |
| `Graph.PerfPlot.constructor` | benchmarks/graph.go:35-39 | No series and an empty order |
| `Graph.PerfPlot.Clear` | benchmarks/graph.go:41-44 | No series and an empty order |
| `Graph.PerfPlot.AddMetric` | benchmarks/graph.go:46-58 | The metric is appended to its series. A new series is created and added to the end of the order. Other series are unchanged. The order lists every series exactly once |
| `LockWords.Lock1XCHG32` | locks_amd64.go:17-19 | Writes 1 and returns the old value |
| `LockWords.SwapInt32` | locks_amd64.go:79 | Writes v and returns the old value |
| `LockWords.CompareAndSwapInt32` | locks_amd64.go:104 | Swaps exactly when the word held the expected value; otherwise the word is unchanged |
| `LockWords.HLETryLock` | locks_amd64.go:41-43 | Returns 0 exactly when the word was free; the word is 1 afterwards |
| `LockWords.HLEUnlock` | locks_amd64.go:63-65 | The word is 0 |
| `LockWords.FirstFree` | locks_amd64.go:103-107 | The first access at or after pos that finds the word free; every earlier access found it held |
| `LockWords.SwapAt` | locks_amd64.go:72-83 | Where a read-then-swap loop succeeds: a read and the swap right after it both find the word free |
| `LockWords.SwapAtPair` | locks_amd64.go:72-83 | The loop never skips a pair of free accesses: it succeeds at or before one |
| `LockWords.SwapAtSucceeds` | locks_amd64.go:72-83 | If a free pair lies ahead, the loop succeeds within the schedule |
| `LockWords.CountLockLeft` | locks_amd64.go:33-39 | The attempts left when a count-lock returns, never more than it started with |
| `LockWords.CountLockAlone` | locks_amd64.go:55-61 | Running alone, a count-lock keeps all attempts on a free word and uses up all attempts on a held word |
| `LockWords.CountLockPair` | locks_amd64.go:33-39 | A free pair within reach of the remaining tries is taken, so attempts are left |
| `LockWords.AloneFreeAcquires` | locks_amd64.go:116-129 | Alone on a free word, the first round of SpinMutex takes the lock |
| `LockWords.AloneHeldNeverAcquires` | locks_amd64.go:116-129 | Alone on a held word, no round takes the lock, so Lock never returns |
| `LockWords.SpinCountLock` | locks_amd64.go:33-39 | Attempts left = CountLockLeft of the schedule, within [0, attempts]; attempts left means the lock was taken and the word is 1 |
| `LockWords.HLESpinCountLock` | locks_amd64.go:55-61 | The same as SpinCountLock, with HLE tries; if attempts is 0 on return, the lock was not taken |
| `LockWords.SpinLockAtomics` | locks_amd64.go:72-83 | Returns at access `at == SwapAt(sched, 0)`, the schedule's first free read-and-swap pair, inside the schedule; the swap made there returned 0 and the word is 1 |
| `LockWords.SpinMutexBasic.constructor` | locks_amd64.go:99-101 | The word starts free |
| `LockWords.SpinMutexBasic.Lock` | locks_amd64.go:103-107 | Returns at access `at == FirstFree(sched, 0)`, the first access that finds the word free; the CAS there swapped and the word is 1 |
| `LockWords.SpinMutexBasic.Unlock` | locks_amd64.go:109-111 | The word is 0 |
| `LockWords.SpinMutex.constructor` | locks_amd64.go:113 | The word starts free |
| `LockWords.FirstAcquiring` | locks_amd64.go:116-129 | The first round at or after `from` whose count-lock keeps attempts; every earlier round from `from` on fails; \|rounds\| if none succeeds |
| `LockWords.SpinMutex.Lock` | locks_amd64.go:116-129 | Returns after round `r == FirstAcquiring(rounds, 0)`: that round's count-lock keeps attempts and every earlier round fails. The word is 1 and IsLocked holds |
| `LockWords.SpinMutex.IsLocked` | locks_amd64.go:135-137 | A free word (0) is never reported locked; Lock leaves it true and Unlock leaves it false |
| `LockWords.SpinMutex.Unlock` | locks_amd64.go:131-137 | The word is 0 and IsLocked is false |
| `LockWords.SpinHLEMutex.constructor` | locks_amd64.go:165 | The word starts free |
| `LockWords.SpinHLEMutex.Lock` | locks_amd64.go:167-182 | Returns after round `r == FirstAcquiring(rounds, 0)`: that round's HLE count-lock keeps attempts and every earlier round fails. The word is 1 |
| `LockWords.SpinHLEMutex.Unlock` | locks_amd64.go:184-186 | The word is 0 |
| `LockWords.RTMMutex.constructor` | locks_amd64.go:188-192 | The word starts free |
| `LockWords.RTMMutex.Lock` | locks_amd64.go:194-212 | Spins on reads, then CAS. Returns at access `at == SwapAt(sched, 0)`, the first free read-and-CAS pair, inside the schedule; that CAS swapped and the word is 1 |
| `LockWords.RTMMutex.Unlock` | locks_amd64.go:214-216 | The word is 0 |
| `HleBench.LockKind.Name` | cppexperiments/testhle.cc:51-121 | The gettype() name of each strategy; every name ends in "Mutex". NamesDistinct shows the four differ |
| `HleBench.NamesDistinct` | cppexperiments/testhle.cc:49-121 | The four strategies report pairwise different gettype() names |
| `HleBench.CustomMutex.constructor` | cppexperiments/testhle.cc:79 | The lock word starts free |
| `HleBench.CustomMutex.Lock` | cppexperiments/testhle.cc:59-111 | NoMutex leaves the word alone. The other strategies hold the lock on return, taken at ghost access `at`: `FirstFree(sched, 0)` for std::mutex and `SwapAt(sched, 0)` for the two spin locks, where the schedule shows the word free |
| `HleBench.CustomMutex.SpinAcquire` | cppexperiments/testhle.cc:81-111 | Returns at access `at == SwapAt(sched, 0)`, the first free read-and-exchange pair, inside the schedule; the exchange made there returned 0 and the word is 1 |
| `HleBench.CustomMutex.Unlock` | cppexperiments/testhle.cc:66-117 | NoMutex leaves the word alone; the other strategies free it |
| `HleBench.MySet.constructor` | cppexperiments/testhle.cc:132-136 | numbins bins holding whatever `new int[]` left there; the lock is free |
| `HleBench.MySet.Touch` | cppexperiments/testhle.cc:142-147 | The bins become the mathematical touch of binindex; the lock is free again |
| `HleBench.MySet.Len` | cppexperiments/testhle.cc:149-151 | The number of bins |
| `HleBench.MySet.GetLockType` | cppexperiments/testhle.cc:153-156 | The lock strategy's name |
| `HleBench.Params.constructor` | cppexperiments/testhle.cc:166-171 | loops operands, the first loops draws in order |
| `HleBench.ThreadFunc` | cppexperiments/testhle.cc:184-192 | The bins become the replay of the operands. The total rises by exactly loops. Each bin rises by the number of operands that select it |
| `RtmCount.Counter.constructor` | cppexperiments/testrtm.cc:40 | The counter starts at 0 |
| `RtmCount.Result.constructor` | cppexperiments/testrtm.cc:34-38 | A result with no statuses and counts of 0. In C++ `new result` (line 103) leaves the counts indeterminate, but the thread assigns both (lines 74-75) before anything reads them |
| `RtmCount.Commits` | cppexperiments/testrtm.cc:58-65 | The number of committed attempts, at most the number of attempts |
| `RtmCount.Aborts` | cppexperiments/testrtm.cc:66-71 | The number of aborted attempts, at most the number of attempts |
| `RtmCount.CommitsPlusAborts` | cppexperiments/testrtm.cc:56-75 | Every attempt is counted exactly once, as a success or a failure |
| `RtmCount.CountFlag` | cppexperiments/testrtm.cc:138-139 | The number of statuses with the flag, at most the number of statuses |
| `RtmCount.RunAttempts` | cppexperiments/testrtm.cc:56-72 | success = commits and failed = aborts, summing to loops. The counter rises by exactly success. Only failed slots are written, each with its status |
| `RtmCount.ThreadFunc` | cppexperiments/testrtm.cc:47-79 | As written: a fresh statuses array whose committed slots keep their uninitialised contents. success + failure = loops, and the counter rises by success |
| `RtmCount.ThreadFuncZeroed` | cppexperiments/testrtm.cc:47-79 | Corrected: the same counts, with committed slots left at zero |
| `RtmCount.Tally` | cppexperiments/testrtm.cc:138-150 | The six tallies count the statuses with each flag among the first loops slots; each tally is at most loops |
| `RtmCount.TallyCanExceedFailures` | cppexperiments/testrtm.cc:50 | One committed attempt over an uninitialised slot of all ones: the explicit tally is 1 but the failure count is 0 |
| `RtmCount.ZeroedTallyAtMostFailures` | cppexperiments/testrtm.cc:138-150 | With zero-initialised statuses, every tally is at most the thread's failure count |
| `RtmCount.TotalsAccount` | cppexperiments/testrtm.cc:107 | If every thread accounts for its loops, the totals add up to num_threads * loops |
| `RtmCount.SumOutcomes` | cppexperiments/testrtm.cc:122-125 | The summed successes and failures; together they equal num_threads * loops when every thread accounts for its loops |
| `Contexts.CommitCountPush` | interfaces.go:6-8 | Recording a step adds one commiter execution exactly when the step is one |
| `Contexts.FallbackStepsCount` | rtm.go:65-69 | The fallback path holds exactly one commiter execution |
| `Contexts.Attempts` | rtm.go:47-59 | The attempt that ends the retry loop: every earlier status is an abort with the retry bit; this one started or lacks the retry bit |
| `Contexts.Resolve` | rtm.go:47-69 | The path of a call. It commits transactionally exactly when its deciding attempt started and the flag was clear. While the flag is set no call commits transactionally; it commits under the lock instead. The lock path never carries a status with the retry bit |
| `Contexts.ResolveSkipsRetry` | rtm.go:56-59 | An abort with the retry bit goes back to TxBegin without changing how the call ends |
| `Contexts.RTMContext.Default` | rtm.go:22-26 | A fresh free lock, fallback 0, no capacity aborts |
| `Contexts.RTMContext.constructor` | rtm.go:30-34 | The given lock, fallback 0, no capacity aborts |
| `Contexts.RTMContext.CapacityAborts` | rtm.go:40-42 | The capacity-abort count; nothing changes |
| `Contexts.RTMContext.RunLocked` | rtm.go:65-69 | The commiter runs once while the lock is held and the flag is set. Afterwards the flag is 0 and the lock is free |
| `Contexts.RTMContext.Atomic` | rtm.go:46-72 | The path is Resolve of the statuses. The commiter is applied exactly once. Capacity aborts rise by one exactly on a fallback with the capacity bit. The flag is 0 after a fallback, and the lock is free |
| `Contexts.LockedContext.constructor` | lockedcontext.go:11-15 | The context uses the given lock |
| `Contexts.LockedContext.Atomic` | lockedcontext.go:20-24 | Lock, then the commiter applied exactly once while the lock is held, then Unlock; the lock is free afterwards |

## Left out

- Threads, goroutines, `WaitGroup`/join, timing, flag parsing and the `main` drivers of the Go benchmark and the C++ experiments are not modelled. A round runs its goroutines one after another (`ReplayAll`), and other threads appear only through the schedules and status sequences.
- `Pause`, `runtime.Gosched` and `_mm_pause` are scheduling hints with no effect on state, so they are not modelled.
- The bodies of the assembly functions are not part of this model. `Lock1XCHG8`/`Lock1XCHG64`, `SpinLock`, `HLESpinLock` and `SpinMutexASM`/`SpinLockASM` are not modelled, because they repeat the modelled 32-bit loops.
- LockWords.SpinCountLock: how attempts are counted (one attempt per read that finds the word held or per failed exchange) comes from the doc comments, not from the assembly.
- LockWords.HLESpinCountLock: the same attempt counting is taken from the doc comments, not from the assembly.
- LockWords.SpinMutex.Lock: its rounds rest on that attempt counting, which comes from the doc comments, not from the assembly.
- LockWords.SpinHLEMutex.Lock: its rounds rest on that attempt counting, which comes from the doc comments, not from the assembly.
- `SetAndFence32` is not part of this model. `RTMContext.RunLocked` sets the flag to 1.
- `Shuffle`, `AddSparseInt64`, `AddUniformInt64`, the `Uint32`/`Uint64` variants and the float variants of `RandValues` are not modelled: the benchmark never calls them.
- BinCounter.RunRound: the sum is compared with the total length of the goroutines' buffers, not with `numGoRoutines * numOpsPerGoRoutine` (main.go:266). The two agree because main.go:203-205 fills every buffer with exactly `numOpsPerGoRoutine` values; the model does not require equal buffer lengths.
- BinCounter.CheckedRound: compares with the total buffer length for the same reason as RunRound.
- BinCounter.BinTouchCounter.constructor: takes `numBins` as a `nat`. Go's `make` panics on a negative size (main.go:57), and the benchmark only passes positive sizes (main.go:234-237); the panic is not modelled.
- BinCounter.BinTouchCounter.Resize: takes `numBins` as a `nat` for the same reason (main.go:65); the panic on a negative size is not modelled.
- RandBuffer.Int31n: the rejection sampling of `rand.Int31n` is not modelled; only its range is.
- RandBuffer.RandValues.AddUniformInt32: requires `mod > 0`, because `rand.Int31n` panics for `n <= 0`; the panic is not modelled.
- `Plot`, `Metrics.XY`, `pwr2Ticks.Ticks` and `OpenPlot` are not modelled: they only draw, save and open a file.
- Graph.AddCommas: characters stand for bytes. Go's `string(s[i])` turns a byte of 0x80 or more into a two-byte UTF-8 sequence, which the model does not reproduce.
- BinCounter.BinTouchCounter.Touch: requires `binIndex >= 0`. Go's truncating `%` gives a negative index, and then a panic, for a negative operand that is not a multiple of the length; a negative multiple selects bin 0. The benchmark only passes non-negative values from `RandValues` (main.go:100, :115, :126, :142, :150, :165), so negative operands are not modelled.
- HleBench.MySet.Touch: requires `numbins > 0`, because `binindex % 0` is undefined in C++.
- The C++ `int` bins and `unsigned long long` counts are unbounded here. Signed overflow is undefined in C++, so it is not modelled.
- RtmCount.SumOutcomes: the sums are unbounded; the 64-bit wrap of `unsigned long long` is not modelled.
- Contexts.RTMContext.Atomic: `capacityaborts` is a `nat`, so the uint64 wrap after 2^64 aborts is not modelled.
- Contexts.RTMContext.Atomic: the hardware status sequence must contain a deciding status. A transaction that keeps aborting with the retry bit loops forever in Go.
- The 8-bit `XABORT` code in the status is not modelled; an explicit abort is just the explicit bit.
- `sync.Locker` is modelled as one mutex class. Locking a held Go mutex blocks, so `Lock` requires the mutex to be free.
- `GoRoutineRTMWithPause`, `GoRoutineRTMNoPause` and `GoRoutineRTMWithLibrary` are not modelled: they repeat the control flow of `RTMContext.Atomic` around `Touch`.
- The experiments' reporting (percentages as `long double`, `printf`) is not modelled.

## Findings

| source | as written | input that shows it | evidently intended | confidence | as-written member | corrected member |
|---|---|---|---|---|---|---|
| cppexperiments/testrtm.cc:50 | `res->statuses = new unsigned[loops]` is not initialised; only failed iterations write their slot, yet the tally loop (lines 141-150) reads every slot | loops = 1, the attempt commits, the fresh slot holds 0xFFFFFFFF: explicit tally 1, failure count 0 | every abort tally counts failed attempts only, so it is at most the failure count (the array value-initialised) | not executed | `RtmCount.TallyCanExceedFailures` | `RtmCount.ZeroedTallyAtMostFailures` |
| benchmarks/graph.go:112-127 | a comma is appended after every third character counted from the right, including after the leftmost group | "123" gives ",123"; "123456" gives ",123,456" | commas only between groups: "123", "123,456" | not executed | `Graph.CommasLeadingCommaExample` | `Graph.GroupThousandsFixesCommas` |
