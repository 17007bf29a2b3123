/**
 * The adaptive thread pool of `ServiceExecutorSilly`, taken one step at a
 * time: the counters `tasksExecuting` and `threadsRunning`, the list of
 * worker threads (newest first), the tasks posted to the reactor, and
 * each worker's count of the tasks it has finished.
 *
 * Threads are ids. `AddThread` puts a new one on the list; `StartRoutine`
 * is that thread entering its routine; `RunTask` is one posted task run by
 * a worker; `WorkerStep` is one return from `run_for` followed by the
 * worker's decision to keep going or to leave.
 */
module ServiceExecutorSilly {
  import opened Base

  type ThreadId = nat
  type TaskId = nat

  /** The defaults of the three server parameters. */
  const DefaultReserveThreads: int := 4
  const DefaultIdleTimeoutMillis: int := 5000
  const DefaultThreadAgeLimit: int := 512

  const ShutdownRefusal: Status := Status(BadValue, "Executor not accepting new tasks due to shutdown")

  /** `std::max(reserve, 1)`: the fewest running threads idleness leaves. */
  function Floor(reserve: int): (f: int)
    ensures f >= 1 && f >= reserve
    ensures f == reserve || f == 1
  {
    if reserve > 1 then reserve else 1
  }

  /**
   * The condition of `start()`'s loop as written: it runs while the count
   * of added threads differs from the reserve.
   */
  predicate StartLoopContinuesAsWritten(reserve: int, added: nat)
  {
    added != reserve
  }

  /**
   * `start()`'s loop as written, from `added` threads and for at most
   * `steps` more iterations: the number of threads added once its
   * condition fails, or none if it is still running after those
   * iterations.
   */
  function StartLoopAsWritten(reserve: int, added: nat, steps: nat): Option<nat>
    decreases steps
  {
    if !StartLoopContinuesAsWritten(reserve, added) then Some(added)
    else if steps == 0 then None
    else StartLoopAsWritten(reserve, added + 1, steps - 1)
  }

  /**
   * With a negative reserve the loop as written never reaches its exit:
   * however many iterations it is given, it is still adding threads (in
   * the source, until the 32-bit counter overflows).
   */
  lemma {:induction false} AsWrittenStartNeverStopsOnNegativeReserve(reserve: int, added: nat, steps: nat)
    requires reserve < 0
    ensures StartLoopAsWritten(reserve, added, steps) == None
    decreases steps
  {
    if steps > 0 {
      AsWrittenStartNeverStopsOnNegativeReserve(reserve, added + 1, steps - 1);
    }
  }

  /**
   * With a reserve of zero or more the loop as written stops after adding
   * exactly the corrected count, given enough iterations.
   */
  lemma {:induction false} AsWrittenStartAddsReserve(reserve: int, added: nat, steps: nat)
    requires added <= reserve && reserve - added <= steps
    ensures StartLoopAsWritten(reserve, added, steps) == Some(StartThreadCount(reserve))
    decreases steps
  {
    if added < reserve {
      AsWrittenStartAddsReserve(reserve, added + 1, steps - 1);
    }
  }

  /** How many threads `start()` adds with the loop bound meant as `i < reserve`: none for a negative reserve. */
  function StartThreadCount(reserve: int): (n: nat)
    ensures reserve >= 0 ==> n == reserve
    ensures reserve < 0 ==> n == 0
  {
    if reserve > 0 then reserve else 0
  }

  /**
   * How many threads `schedule` starts: enough that the running threads
   * cover the floor plus every executing task, and none when they already
   * do.
   */
  function SpawnCount(reserve: int, tasksExecuting: int, threadsRunning: int): (n: nat)
    ensures threadsRunning + n >= Floor(reserve) + tasksExecuting
    ensures n > 0 ==> threadsRunning + n == Floor(reserve) + tasksExecuting
    ensures n == 0 <==> threadsRunning >= Floor(reserve) + tasksExecuting
  {
    var needed := Floor(reserve) + tasksExecuting - threadsRunning;
    if needed > 0 then needed else 0
  }

  /** What a worker does after one `run_for`. */
  datatype Decision =
    | KeepRunning
    | ExitOnShutdown
    | RetireAndReplace
    | ExitIdle

  /**
   * The worker's decision: leave on shutdown; after running handlers,
   * retire in favour of a new thread once it has finished `ageLimit`
   * tasks; after an idle timeout, leave only while more threads run than
   * the floor.
   */
  function Decide(isRunning: bool, handlersRun: nat, tasksExecuted: nat, ageLimit: int,
                  threadsRunning: int, reserve: int): (d: Decision)
    ensures d == ExitOnShutdown <==> !isRunning
    ensures d == RetireAndReplace <==> isRunning && handlersRun > 0 && tasksExecuted >= ageLimit
    ensures d == ExitIdle <==> isRunning && handlersRun == 0 && threadsRunning > Floor(reserve)
    ensures d == KeepRunning <==>
      isRunning && (if handlersRun > 0 then tasksExecuted < ageLimit else threadsRunning <= Floor(reserve))
  {
    if !isRunning then ExitOnShutdown
    else if handlersRun > 0 then
      (if tasksExecuted >= ageLimit then RetireAndReplace else KeepRunning)
    else if threadsRunning > Floor(reserve) then ExitIdle
    else KeepRunning
  }

  /**
   * The number of running threads after `timeouts` idle timeouts, each
   * taken by one running worker in turn, with no task arriving.
   */
  function AfterIdleTimeouts(threadsRunning: int, timeouts: nat, reserve: int): int
    decreases timeouts
  {
    if timeouts == 0 then threadsRunning
    else
      var d := Decide(true, 0, 0, 0, threadsRunning, reserve);
      AfterIdleTimeouts(if d == ExitIdle then threadsRunning - 1 else threadsRunning, timeouts - 1, reserve)
  }

  /**
   * Idle timeouts only shrink the pool, and never below the floor: a pool
   * above the floor shrinks to exactly the floor given enough timeouts.
   */
  lemma {:induction false} IdleShrinkStopsAtFloor(threadsRunning: int, timeouts: nat, reserve: int)
    ensures AfterIdleTimeouts(threadsRunning, timeouts, reserve) <= threadsRunning
    ensures threadsRunning >= Floor(reserve) ==> AfterIdleTimeouts(threadsRunning, timeouts, reserve) >= Floor(reserve)
    ensures threadsRunning <= Floor(reserve) ==> AfterIdleTimeouts(threadsRunning, timeouts, reserve) == threadsRunning
    ensures threadsRunning - timeouts >= Floor(reserve) ==>
      AfterIdleTimeouts(threadsRunning, timeouts, reserve) == threadsRunning - timeouts
    decreases timeouts
  {
    if timeouts > 0 {
      var d := Decide(true, 0, 0, 0, threadsRunning, reserve);
      IdleShrinkStopsAtFloor(if d == ExitIdle then threadsRunning - 1 else threadsRunning, timeouts - 1, reserve);
    }
  }

  /** `_threads.erase(where)`: the list without the exiting thread's own entry. */
  function Erase(threads: seq<ThreadId>, t: ThreadId): (r: seq<ThreadId>)
    ensures multiset(r) == multiset(threads) - multiset{t}
    ensures |r| == if t in threads then |threads| - 1 else |threads|
    ensures forall u :: u in r ==> u in threads
    decreases |threads|
  {
    if threads == [] then []
    else
      assert threads == [threads[0]] + threads[1..];
      if threads[0] == t then threads[1..]
      else [threads[0]] + Erase(threads[1..], t)
  }

  predicate Distinct(threads: seq<ThreadId>)
  {
    forall i, j :: 0 <= i < j < |threads| ==> threads[i] != threads[j]
  }

  /** Erasing one entry of a list of distinct threads removes that thread and keeps the others distinct. */
  lemma {:induction false} EraseDistinct(threads: seq<ThreadId>, t: ThreadId)
    requires Distinct(threads)
    ensures Distinct(Erase(threads, t)) && t !in Erase(threads, t)
    ensures forall u :: u != t ==> (u in Erase(threads, t) <==> u in threads)
    decreases |threads|
  {
    if threads != [] {
      assert threads == [threads[0]] + threads[1..];
      if threads[0] == t {
        assert t !in threads[1..];
      } else {
        EraseDistinct(threads[1..], t);
        var r := Erase(threads, t);
        assert r == [threads[0]] + Erase(threads[1..], t);
        assert threads[0] !in threads[1..];
        forall i, j | 0 <= i < j < |r| ensures r[i] != r[j] {
          if i == 0 {
            assert r[j] in Erase(threads[1..], t);
          }
        }
      }
    }
  }

  class ServiceExecutor {
    const reserveThreads: int
    const idleTimeoutMillis: int
    const ageLimit: int
    var isRunning: bool
    /** Whether `_ioContext->stop()` has been called. */
    var reactorStopped: bool
    var tasksExecuting: int
    var threadsRunning: int
    /** `_threads`, newest first. */
    var threads: seq<ThreadId>
    /** The threads that have entered their routine and not yet left it. */
    var started: set<ThreadId>
    /** Each thread's own count of the tasks it has finished. */
    var tasksExecuted: map<ThreadId, nat>
    /** The wrapped tasks posted to the reactor and not yet run, oldest first. */
    var posted: seq<TaskId>
    /** How often an exiting thread has notified the shutdown waiter. */
    var deathNotifications: nat
    var nextThread: ThreadId

    /** The thread list and the running count agree. */
    ghost predicate ThreadsValid()
      reads this
    {
      threadsRunning == |started| &&
      (forall t :: t in started ==> t in threads) &&
      Distinct(threads) &&
      (forall t :: t in threads ==> t < nextThread && t in tasksExecuted) &&
      (forall u :: u in tasksExecuted ==> u < nextThread)
    }

    /** Threads added since `old`: their ids are new and their counts start at zero; older counts are kept. */
    twostate predicate AddedFresh(added: nat)
      reads this
    {
      added <= |threads| && nextThread >= old(nextThread) &&
      (forall k :: 0 <= k < added ==> threads[k] >= old(nextThread) && threads[k] in tasksExecuted && tasksExecuted[threads[k]] == 0) &&
      (forall u :: u in old(tasksExecuted) ==> u in tasksExecuted && tasksExecuted[u] == old(tasksExecuted)[u])
    }

    ghost predicate Valid()
      reads this
    {
      ThreadsValid() && tasksExecuting == |posted|
    }

    constructor (reserve: int := DefaultReserveThreads, idleTimeout: int := DefaultIdleTimeoutMillis,
                 limit: int := DefaultThreadAgeLimit)
      ensures Valid() && !isRunning && !reactorStopped && threads == [] && posted == []
      ensures reserveThreads == reserve && idleTimeoutMillis == idleTimeout && ageLimit == limit
      ensures tasksExecuting == 0 && threadsRunning == 0
    {
      reserveThreads, idleTimeoutMillis, ageLimit := reserve, idleTimeout, limit;
      isRunning, reactorStopped := false, false;
      tasksExecuting, threadsRunning := 0, 0;
      threads, started, tasksExecuted, posted := [], {}, map[], [];
      deathNotifications, nextThread := 0, 0;
    }

    /**
     * `_addThread`: a new thread at the front of the list, with a task
     * count of its own starting at zero. It has not entered its routine
     * yet, so `threadsRunning` is unchanged.
     */
    method AddThread() returns (t: ThreadId)
      requires ThreadsValid() && isRunning
      modifies this`threads, this`tasksExecuted, this`nextThread
      ensures ThreadsValid()
      ensures t == old(nextThread) && t !in old(threads)
      ensures threads == [t] + old(threads)
      ensures tasksExecuted == old(tasksExecuted)[t := 0]
      ensures nextThread == t + 1
    {
      t := nextThread;
      nextThread := nextThread + 1;
      threads := [t] + threads;
      tasksExecuted := tasksExecuted[t := 0];
    }

    /**
     * `n` calls of `_addThread`, the loop `start()` and `schedule` share:
     * `n` new threads in front of the old ones, each with a new id and no
     * tasks executed, every earlier count kept.
     */
    method AddThreads(n: nat)
      requires ThreadsValid() && isRunning
      modifies this`threads, this`tasksExecuted, this`nextThread
      ensures ThreadsValid()
      ensures |threads| == |old(threads)| + n && threads[n..] == old(threads)
      ensures forall k :: 0 <= k < n ==> threads[k] !in old(threads) && tasksExecuted[threads[k]] == 0
      ensures forall u :: u in old(tasksExecuted) ==> u in tasksExecuted && tasksExecuted[u] == old(tasksExecuted)[u]
    {
      var i := 0;
      while i < n
        invariant 0 <= i <= n
        invariant ThreadsValid()
        invariant |threads| == |old(threads)| + i && threads[i..] == old(threads)
        invariant AddedFresh(i)
      {
        var t := AddThread();
        i := i + 1;
        assert threads[i..] == old(threads);
      }
    }

    /**
     * `start()`: only on a stopped executor; sets running and adds
     * `reserveThreads` threads, none when the reserve is negative (the
     * loop is bounded by `i < reserve`, not by `i != reserve` as written).
     */
    method Start() returns (r: Status)
      requires Valid() && !isRunning
      modifies this`isRunning, this`threads, this`tasksExecuted, this`nextThread
      ensures Valid() && isRunning && r == StatusOK
      ensures |threads| == |old(threads)| + StartThreadCount(reserveThreads)
      ensures threads[StartThreadCount(reserveThreads)..] == old(threads)
      ensures forall k :: 0 <= k < StartThreadCount(reserveThreads) ==>
        threads[k] !in old(threads) && tasksExecuted[threads[k]] == 0
      ensures forall u :: u in old(tasksExecuted) ==> u in tasksExecuted && tasksExecuted[u] == old(tasksExecuted)[u]
    {
      isRunning := true;
      AddThreads(StartThreadCount(reserveThreads));
      r := StatusOK;
    }

    /**
     * `schedule`: refused after shutdown with nothing changed. Otherwise
     * one more task is executing, threads are added until the running ones
     * cover the floor plus every executing task, and the task is posted.
     */
    method Schedule(task: TaskId) returns (r: Status)
      requires Valid()
      modifies this`tasksExecuting, this`threads, this`tasksExecuted, this`nextThread, this`posted
      ensures Valid()
      ensures !old(isRunning) ==>
        r == ShutdownRefusal && tasksExecuting == old(tasksExecuting) &&
        threads == old(threads) && posted == old(posted) &&
        tasksExecuted == old(tasksExecuted) && nextThread == old(nextThread)
      ensures old(isRunning) ==>
        r == StatusOK && tasksExecuting == old(tasksExecuting) + 1 &&
        posted == old(posted) + [task] &&
        |threads| == |old(threads)| + SpawnCount(reserveThreads, tasksExecuting, threadsRunning) &&
        threads[|threads| - |old(threads)|..] == old(threads)
      ensures old(isRunning) ==>
        (forall k :: 0 <= k < |threads| - |old(threads)| ==> threads[k] !in old(threads) && tasksExecuted[threads[k]] == 0) &&
        (forall u :: u in old(tasksExecuted) ==> u in tasksExecuted && tasksExecuted[u] == old(tasksExecuted)[u])
    {
      if !isRunning {
        return ShutdownRefusal;
      }
      tasksExecuting := tasksExecuting + 1;
      var needed := Floor(reserveThreads) + tasksExecuting - threadsRunning;
      if needed > 0 {
        AddThreads(needed);
      }
      posted := posted + [task];
      return StatusOK;
    }

    /** The thread enters its routine: one more thread running. */
    method StartRoutine(t: ThreadId)
      requires Valid() && t in threads && t !in started
      modifies this`threadsRunning, this`started
      ensures Valid() && threadsRunning == old(threadsRunning) + 1 && started == old(started) + {t}
    {
      threadsRunning := threadsRunning + 1;
      started := started + {t};
    }

    /**
     * A worker runs the oldest posted task. Its guard lowers
     * `tasksExecuting` however the task ends; the worker's own count goes
     * up only when the task returns normally.
     */
    method RunTask(t: ThreadId, returnedNormally: bool) returns (task: TaskId)
      requires Valid() && t in started && posted != []
      modifies this`tasksExecuting, this`posted, this`tasksExecuted
      ensures Valid()
      ensures task == old(posted[0]) && posted == old(posted[1..])
      ensures tasksExecuting == old(tasksExecuting) - 1
      ensures tasksExecuted == if returnedNormally then old(tasksExecuted)[t := old(tasksExecuted[t]) + 1]
                               else old(tasksExecuted)
    {
      task := posted[0];
      posted := posted[1..];
      tasksExecuting := tasksExecuting - 1;
      if returnedNormally {
        tasksExecuted := tasksExecuted[t := tasksExecuted[t] + 1];
      }
    }

    /**
     * A thread leaves its routine: its guard lowers `threadsRunning` (if it
     * had entered the routine), it erases exactly its own entry, and it
     * notifies the shutdown waiter.
     */
    method ExitThread(t: ThreadId)
      requires Valid() && t in threads
      modifies this`threadsRunning, this`started, this`threads, this`deathNotifications
      ensures Valid()
      ensures threads == Erase(old(threads), t) && t !in threads && |threads| == |old(threads)| - 1
      ensures started == old(started) - {t}
      ensures threadsRunning == if t in old(started) then old(threadsRunning) - 1 else old(threadsRunning)
      ensures deathNotifications == old(deathNotifications) + 1
    {
      if t in started {
        threadsRunning := threadsRunning - 1;
        started := started - {t};
      }
      EraseDistinct(threads, t);
      ghost var before := threads;
      threads := Erase(threads, t);
      assert forall u :: u in threads ==> u in before;
      assert forall u :: u in started ==> u in threads;
      deathNotifications := deathNotifications + 1;
    }

    /**
     * One return from `run_for` having run `handlersRun` handlers, and the
     * worker's decision. Retiring adds the replacement before the worker
     * leaves, so the list keeps its length; an idle exit happens only above
     * the floor.
     */
    method WorkerStep(t: ThreadId, handlersRun: nat) returns (d: Decision)
      requires Valid() && t in started
      modifies this`threadsRunning, this`started, this`threads, this`deathNotifications
      modifies this`tasksExecuted, this`nextThread
      ensures Valid()
      ensures d == Decide(old(isRunning), handlersRun, old(tasksExecuted[t]), ageLimit,
                          old(threadsRunning), reserveThreads)
      ensures d == KeepRunning ==>
        threads == old(threads) && threadsRunning == old(threadsRunning) && started == old(started) &&
        deathNotifications == old(deathNotifications)
      ensures d != KeepRunning ==> deathNotifications == old(deathNotifications) + 1
      ensures d != RetireAndReplace ==> tasksExecuted == old(tasksExecuted) && nextThread == old(nextThread)
      ensures d == RetireAndReplace ==>
        tasksExecuted == old(tasksExecuted)[old(nextThread) := 0] && nextThread == old(nextThread) + 1
      ensures d == ExitIdle ==> old(threadsRunning) - 1 >= Floor(reserveThreads)
      ensures d != KeepRunning ==>
        t !in threads && started == old(started) - {t} && threadsRunning == old(threadsRunning) - 1
      ensures d == ExitOnShutdown || d == ExitIdle ==> threads == Erase(old(threads), t)
      ensures d == RetireAndReplace ==>
        |threads| == |old(threads)| && threads == Erase([old(nextThread)] + old(threads), t)
    {
      d := Decide(isRunning, handlersRun, tasksExecuted[t], ageLimit, threadsRunning, reserveThreads);
      match d
      case KeepRunning =>
      case ExitOnShutdown =>
        ExitThread(t);
      case ExitIdle =>
        ExitThread(t);
      case RetireAndReplace =>
        var replacement := AddThread();
        ExitThread(t);
    }

    /**
     * `shutdown()`: nothing to do on a stopped executor. Otherwise running
     * is cleared and the reactor stopped; every worker then sees the
     * shutdown and leaves, and the call returns once the list is empty.
     * Tasks still posted are never run.
     */
    method Shutdown() returns (r: Status)
      requires Valid()
      modifies this`isRunning, this`reactorStopped, this`threadsRunning, this`started
      modifies this`threads, this`deathNotifications
      ensures Valid() && r == StatusOK && !isRunning
      ensures !old(isRunning) ==>
        reactorStopped == old(reactorStopped) && threads == old(threads) &&
        threadsRunning == old(threadsRunning) && started == old(started) &&
        deathNotifications == old(deathNotifications)
      ensures old(isRunning) ==>
        reactorStopped && threads == [] && threadsRunning == 0 && started == {} &&
        deathNotifications == old(deathNotifications) + |old(threads)|
      ensures posted == old(posted) && tasksExecuting == old(tasksExecuting)
    {
      if !isRunning {
        return StatusOK;
      }
      isRunning := false;
      reactorStopped := true;
      while threads != []
        invariant Valid() && !isRunning && reactorStopped
        invariant deathNotifications == old(deathNotifications) + |old(threads)| - |threads|
        decreases |threads|
      {
        ExitThread(threads[0]);
      }
      assert started == {};
      return StatusOK;
    }
  }
}
