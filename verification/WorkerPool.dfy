/**
 * The bounded queue, the workers, the per-repository locks and the writer table of
 * the connected service. Each method is one stretch of code between two awaits, so
 * any sequence of calls is an interleaving of requests and workers.
 */
module WorkerPool {
  import opened Outcomes
  import opened OperatorCodes
  import opened PythonSequences
  import opened TaskLifecycle

  const QUEUE_FULL := "bounded dispatch queue is full"

  /** What the pool needs of an operator task. */
  datatype Job = Job(repository: string, write: bool, status: TaskStatus, hasReceipt: bool)

  /** `Executing` is the time between entering `_execute` and leaving its `finally`. */
  datatype Worker = Idle | Waiting(task: string) | Executing(task: string, holdsRow: bool)

  // ---------------------------------------------------------------- invariant

  ghost predicate JobsKnown(jobs: map<string, Job>, queue: seq<string>, workers: seq<Worker>) {
    && (forall t :: t in queue ==> t in jobs)
    && (forall i :: 0 <= i < |workers| && !workers[i].Idle? ==> workers[i].task in jobs)
  }

  /** A repository is locked exactly by the worker running one of its tasks. */
  ghost predicate LocksMatch(jobs: map<string, Job>, workers: seq<Worker>, locks: map<string, nat>) {
    && (forall i :: 0 <= i < |workers| && workers[i].Executing? ==>
          workers[i].task in jobs && jobs[workers[i].task].repository in locks
          && locks[jobs[workers[i].task].repository] == i)
    && (forall r :: r in locks ==> locks[r] < |workers| && RunsIn(jobs, workers[locks[r]], r))
  }

  ghost predicate RunsIn(jobs: map<string, Job>, w: Worker, repository: string) {
    w.Executing? && w.task in jobs && jobs[w.task].repository == repository
  }

  ghost predicate RowsMatch(jobs: map<string, Job>, workers: seq<Worker>, locks: map<string, nat>,
                            rows: map<string, string>) {
    && (forall i :: 0 <= i < |workers| && workers[i].Executing? ==>
          workers[i].task in jobs && workers[i].holdsRow == jobs[workers[i].task].write)
    && (forall r :: r in rows ==> r in locks && locks[r] < |workers| && workers[locks[r]] == Executing(rows[r], true))
    && (forall i :: 0 <= i < |workers| && workers[i].Executing? && workers[i].holdsRow ==>
          workers[i].task in jobs && jobs[workers[i].task].repository in rows
          && rows[jobs[workers[i].task].repository] == workers[i].task)
  }

  ghost function RunningTasks(workers: seq<Worker>): set<string> {
    set i | 0 <= i < |workers| && workers[i].Executing? :: workers[i].task
  }

  /** The part of a job that never changes. */
  ghost predicate SameTasks(before: map<string, Job>, after: map<string, Job>) {
    forall t :: t in before ==> t in after && after[t].repository == before[t].repository
                                && after[t].write == before[t].write
  }

  // ---------------------------------------------- what the invariant amounts to

  /** Never two executions in one repository, nor two of one task, even if the task was queued twice. */
  lemma OneExecutionPerRepository(jobs: map<string, Job>, workers: seq<Worker>, locks: map<string, nat>, i: nat, j: nat)
    requires LocksMatch(jobs, workers, locks) && i < |workers| && j < |workers| && workers[i].Executing?
             && workers[j].Executing?
    requires jobs[workers[i].task].repository == jobs[workers[j].task].repository
    ensures i == j
  {
    assert locks[jobs[workers[i].task].repository] == i;
  }

  /** No more executions than workers. */
  lemma {:induction false} ActiveIsBounded(workers: seq<Worker>)
    ensures |RunningTasks(workers)| <= |workers|
  {
    if workers != [] {
      var init, last := workers[..|workers| - 1], workers[|workers| - 1];
      ActiveIsBounded(init);
      assert RunningTasks(workers) == RunningTasks(init) + if last.Executing? then {last.task} else {} by {
        forall t ensures t in RunningTasks(workers) <==>
          t in RunningTasks(init) || (last.Executing? && t == last.task) {
          if t in RunningTasks(init) {
            var i :| 0 <= i < |init| && init[i].Executing? && init[i].task == t;
            assert workers[i] == init[i];
          }
        }
      }
    }
  }

  /** The writer row of a repository is held exactly while a writing execution runs there, by that execution's task. */
  lemma RowHeldExactlyWhileWriting(jobs: map<string, Job>, workers: seq<Worker>, locks: map<string, nat>,
                                   rows: map<string, string>, repository: string)
    requires LocksMatch(jobs, workers, locks) && RowsMatch(jobs, workers, locks, rows)
    ensures repository in rows <==> exists i :: 0 <= i < |workers| && RunsIn(jobs, workers[i], repository)
                                                && jobs[workers[i].task].write
    ensures forall i :: 0 <= i < |workers| && RunsIn(jobs, workers[i], repository) && jobs[workers[i].task].write ==>
              repository in rows && rows[repository] == workers[i].task
  {
    if repository in rows {
      var i := locks[repository];
      assert workers[i].Executing? && RunsIn(jobs, workers[i], repository);
    }
  }

  // ------------------------------------------------------------- single updates

  lemma StatusKeeps(before: map<string, Job>, after: map<string, Job>, queue: seq<string>, workers: seq<Worker>,
                    locks: map<string, nat>, rows: map<string, string>)
    requires SameTasks(before, after)
    requires JobsKnown(before, queue, workers) && LocksMatch(before, workers, locks)
             && RowsMatch(before, workers, locks, rows)
    ensures JobsKnown(after, queue, workers) && LocksMatch(after, workers, locks)
            && RowsMatch(after, workers, locks, rows)
  {
    forall r | r in locks ensures RunsIn(after, workers[locks[r]], r) {
      assert RunsIn(before, workers[locks[r]], r);
    }
  }

  /** An idle or waiting worker may become idle or waiting. */
  lemma OutsideKeeps(jobs: map<string, Job>, queue: seq<string>, workers: seq<Worker>, locks: map<string, nat>,
                     rows: map<string, string>, i: nat, w: Worker)
    requires JobsKnown(jobs, queue, workers) && LocksMatch(jobs, workers, locks)
             && RowsMatch(jobs, workers, locks, rows)
    requires i < |workers| && !workers[i].Executing? && !w.Executing? && (w.Waiting? ==> w.task in jobs)
    ensures var after := workers[i := w];
            JobsKnown(jobs, queue, after) && LocksMatch(jobs, after, locks) && RowsMatch(jobs, after, locks, rows)
            && RunningTasks(after) == RunningTasks(workers)
  {
    var after := workers[i := w];
    forall r | r in locks ensures locks[r] != i && after[locks[r]] == workers[locks[r]] {
      assert RunsIn(jobs, workers[locks[r]], r);
    }
    SameRunning(workers, after, i);
  }

  lemma SameRunning(workers: seq<Worker>, after: seq<Worker>, i: nat)
    requires i < |workers| == |after| && !workers[i].Executing? && !after[i].Executing?
             && after == workers[i := after[i]]
    ensures RunningTasks(after) == RunningTasks(workers)
  {
    forall t ensures t in RunningTasks(after) <==> t in RunningTasks(workers) {
      if t in RunningTasks(workers) {
        var k :| 0 <= k < |workers| && workers[k].Executing? && workers[k].task == t;
        assert after[k] == workers[k];
      }
    }
  }

  lemma EnterKeeps(jobs: map<string, Job>, queue: seq<string>, workers: seq<Worker>, locks: map<string, nat>,
                   rows: map<string, string>, i: nat, t: string)
    requires JobsKnown(jobs, queue, workers) && LocksMatch(jobs, workers, locks)
             && RowsMatch(jobs, workers, locks, rows)
    requires i < |workers| && !workers[i].Executing? && t in jobs && jobs[t].repository !in locks
    ensures var after := workers[i := Executing(t, jobs[t].write)];
            var locks' := locks[jobs[t].repository := i];
            var rows' := if jobs[t].write then rows[jobs[t].repository := t] else rows;
            JobsKnown(jobs, queue, after) && LocksMatch(jobs, after, locks') && RowsMatch(jobs, after, locks', rows')
            && RunningTasks(after) == RunningTasks(workers) + {t}
  {
    var repo := jobs[t].repository;
    var after := workers[i := Executing(t, jobs[t].write)];
    var locks' := locks[repo := i];
    forall r | r in locks ensures locks[r] != i && after[locks[r]] == workers[locks[r]] {
      assert RunsIn(jobs, workers[locks[r]], r);
    }
    forall r | r in locks' ensures locks'[r] < |after| && RunsIn(jobs, after[locks'[r]], r) {
      if r != repo { assert RunsIn(jobs, workers[locks[r]], r); }
    }
    RunningAfterEnter(workers, i, t, jobs[t].write);
  }

  lemma RunningAfterEnter(workers: seq<Worker>, i: nat, t: string, write: bool)
    requires i < |workers| && !workers[i].Executing?
    ensures RunningTasks(workers[i := Executing(t, write)]) == RunningTasks(workers) + {t}
  {
    var after := workers[i := Executing(t, write)];
    forall u ensures u in RunningTasks(after) <==> u in RunningTasks(workers) || u == t {
      if u in RunningTasks(workers) {
        var k :| 0 <= k < |workers| && workers[k].Executing? && workers[k].task == u;
        assert after[k] == workers[k];
      }
      if u == t { assert after[i].Executing? && after[i].task == t; }
    }
  }

  lemma LeaveKeeps(jobs: map<string, Job>, queue: seq<string>, workers: seq<Worker>, locks: map<string, nat>,
                   rows: map<string, string>, i: nat)
    requires JobsKnown(jobs, queue, workers) && LocksMatch(jobs, workers, locks)
             && RowsMatch(jobs, workers, locks, rows)
    requires i < |workers| && workers[i].Executing?
    ensures workers[i].task in jobs
    ensures var repo := jobs[workers[i].task].repository;
            var after := workers[i := Idle];
            var locks' := locks - {repo};
            var rows' := if workers[i].holdsRow then rows - {repo} else rows;
            JobsKnown(jobs, queue, after) && LocksMatch(jobs, after, locks') && RowsMatch(jobs, after, locks', rows')
            && RunningTasks(after) == RunningTasks(workers) - {workers[i].task}
  {
    var repo := jobs[workers[i].task].repository;
    var after := workers[i := Idle];
    var locks' := locks - {repo};
    forall k | 0 <= k < |after| && after[k].Executing? ensures jobs[after[k].task].repository != repo {
      if jobs[workers[k].task].repository == repo { OneExecutionPerRepository(jobs, workers, locks, i, k); }
    }
    forall r | r in locks' ensures RunsIn(jobs, after[locks'[r]], r) {
      assert RunsIn(jobs, workers[locks[r]], r);
    }
    RunningAfterLeave(jobs, workers, locks, i);
  }

  lemma RunningAfterLeave(jobs: map<string, Job>, workers: seq<Worker>, locks: map<string, nat>, i: nat)
    requires LocksMatch(jobs, workers, locks) && i < |workers| && workers[i].Executing?
    ensures RunningTasks(workers[i := Idle]) == RunningTasks(workers) - {workers[i].task}
  {
    var after := workers[i := Idle];
    forall u ensures u in RunningTasks(after) <==> u in RunningTasks(workers) && u != workers[i].task {
      if u in RunningTasks(workers) && u != workers[i].task {
        var k :| 0 <= k < |workers| && workers[k].Executing? && workers[k].task == u;
        assert after[k] == workers[k];
      }
      if u in RunningTasks(after) {
        var k: nat :| k < |after| && after[k].Executing? && after[k].task == u;
        assert workers[k] == after[k];
        if u == workers[i].task { OneExecutionPerRepository(jobs, workers, locks, i, k); }
      }
    }
  }

  class ConnectedService {
    const capacity: nat
    var jobs: map<string, Job>
    var queue: seq<string>
    var workers: seq<Worker>
    /** Repository locks and the worker inside each. */
    var locks: map<string, nat>
    /** Executions that can be cancelled. */
    var active: set<string>
    /** The store's writer rows: repository to task. */
    var rows: map<string, string>

    constructor (capacity: nat, workerCount: nat)
      requires capacity > 0
      ensures Valid() && this.capacity == capacity && |workers| == workerCount
      ensures jobs == map[] && queue == [] && forall w :: w in workers ==> w == Idle
    {
      this.capacity := capacity;
      jobs, queue, locks, active, rows := map[], [], map[], {}, map[];
      workers := seq(workerCount, _ => Idle);
      new;
      assert RunningTasks(workers) == {};
    }

    ghost predicate Valid()
      reads this
    {
      && |queue| <= capacity && JobsKnown(jobs, queue, workers) && LocksMatch(jobs, workers, locks)
      && RowsMatch(jobs, workers, locks, rows) && active == RunningTasks(workers)
    }

    // ------------------------------------------------------------------ requests

    /** The operator knows the task; its repository and sandbox never change. */
    method Register(taskId: string, repository: string, write: bool)
      requires Valid()
      modifies `jobs
      ensures Valid() && jobs == if taskId in old(jobs) then old(jobs)
              else old(jobs)[taskId := Job(repository, write, Pending, false)]
    {
      if taskId !in jobs {
        StatusKeeps(jobs, jobs[taskId := Job(repository, write, Pending, false)], queue, workers, locks, rows);
        jobs := jobs[taskId := Job(repository, write, Pending, false)];
      }
    }

    /** Verification, manual relay and failures move a task's status at any time. */
    method SetStatus(taskId: string, status: TaskStatus, hasReceipt: bool)
      requires Valid() && taskId in jobs
      modifies `jobs
      ensures Valid() && jobs == old(jobs)[taskId := old(jobs)[taskId].(status := status, hasReceipt := hasReceipt)]
    {
      var after := jobs[taskId := jobs[taskId].(status := status, hasReceipt := hasReceipt)];
      StatusKeeps(jobs, after, queue, workers, locks, rows);
      jobs := after;
    }

    /** `put_nowait` raises when the queue is full. */
    method PutNowait(taskId: string)
      requires Valid() && taskId in jobs && |queue| < capacity
      modifies `queue
      ensures Valid() && queue == old(queue) + [taskId]
      ensures Distinct(old(queue)) ==> (Distinct(queue) <==> taskId !in old(queue))
    {
      AppendKeepsDistinctIff(queue, taskId);
      queue := queue + [taskId];
    }

    /** `dispatch` and `dispatch_existing` once the task exists, is bound and has a plan. */
    method Dispatch(taskId: string) returns (r: Result<()>)
      requires Valid()
      modifies `jobs, `queue
      ensures Valid()
      ensures Distinct(old(queue)) ==> (Distinct(queue) <==> queue == old(queue) || taskId !in old(queue))
      ensures taskId !in old(jobs) ==> r.Err? && jobs == old(jobs) && queue == old(queue)
      ensures taskId in old(jobs) ==>
                var j := old(jobs)[taskId];
                var replay := j.hasReceipt || j.status == Queued || j.status == Running;
                && (r.Err? <==> !replay && |old(queue)| == capacity)
                && (if replay || r.Err? then jobs == old(jobs) && queue == old(queue)
                    else jobs == old(jobs)[taskId := j.(status := Queued)] && queue == old(queue) + [taskId])
    {
      if taskId !in jobs {
        return Err(UNKNOWN_TASK);
      }
      var j := jobs[taskId];
      if j.hasReceipt || j.status == Queued || j.status == Running {
        return Ok(());
      }
      if |queue| == capacity {
        return Err(QUEUE_FULL);
      }
      SetStatus(taskId, Queued, j.hasReceipt);
      PutNowait(taskId);
      r := Ok(());
    }

    /** The operator's transition back to pending is not undone when the queue turns out to be full. */
    method ContinueTask(taskId: string, guardAllows: bool) returns (r: Result<()>)
      requires Valid()
      modifies `jobs, `queue
      ensures Valid()
      ensures Distinct(old(queue)) ==> (Distinct(queue) <==> queue == old(queue) || taskId !in old(queue))
      ensures taskId in old(jobs) ==>
                var j := old(jobs)[taskId];
                var continuable := j.status == AwaitingApproval || (j.status == Failed && guardAllows);
                && (r.Ok? <==> continuable && |old(queue)| < capacity)
                && (!continuable ==> jobs == old(jobs) && queue == old(queue))
                && (continuable && r.Err? ==> jobs == old(jobs)[taskId := j.(status := Pending)] && queue == old(queue))
                && (r.Ok? ==> jobs == old(jobs)[taskId := j.(status := Queued)] && queue == old(queue) + [taskId])
      ensures taskId !in old(jobs) ==> r.Err? && jobs == old(jobs) && queue == old(queue)
    {
      if taskId !in jobs {
        return Err(UNKNOWN_TASK);
      }
      var j := jobs[taskId];
      if !(j.status == AwaitingApproval || (j.status == Failed && guardAllows)) {
        return Err(NOT_CONTINUABLE);
      }
      SetStatus(taskId, Pending, j.hasReceipt);
      if |queue| == capacity {
        return Err(QUEUE_FULL);
      }
      SetStatus(taskId, Queued, j.hasReceipt);
      PutNowait(taskId);
      r := Ok(());
    }

    /** `interrupted` tells the running execution, if any, to stop; a queued entry stays queued. */
    method Cancel(taskId: string) returns (interrupted: bool, r: Result<()>)
      requires Valid()
      modifies `jobs
      ensures Valid() && interrupted == (taskId in active)
      ensures r.Ok? <==> taskId in old(jobs) && old(jobs)[taskId].status != Verified
      ensures jobs == if r.Ok? then old(jobs)[taskId := old(jobs)[taskId].(status := Cancelled)] else old(jobs)
    {
      interrupted := taskId in active;
      if taskId !in jobs {
        return interrupted, Err(UNKNOWN_TASK);
      }
      if jobs[taskId].status == Verified {
        return interrupted, Err(VERIFIED_CANNOT_BE_CANCELLED);
      }
      SetStatus(taskId, Cancelled, jobs[taskId].hasReceipt);
      r := Ok(());
    }

    // ------------------------------------------------------------------- workers

    /** `await self._queue.get()`; a task cancelled by now is dropped. */
    method WorkerTakes(i: nat)
      requires Valid() && i < |workers| && workers[i].Idle? && queue != []
      modifies `queue, `workers
      ensures Valid() && queue == old(queue)[1..]
      ensures workers == old(workers)[i := if jobs[old(queue)[0]].status == Cancelled then Idle
                                      else Waiting(old(queue)[0])]
    {
      var taskId := queue[0];
      assert taskId in queue;
      queue := queue[1..];
      if jobs[taskId].status != Cancelled {
        OutsideKeeps(jobs, queue, workers, locks, rows, i, Waiting(taskId));
        workers := workers[i := Waiting(taskId)];
      }
    }

    /** The store refuses a row another task holds. */
    method AcquireRow(repository: string, taskId: string) returns (ok: bool)
      modifies `rows
      ensures ok <==> repository !in old(rows) || old(rows)[repository] == taskId
      ensures rows == if ok then old(rows)[repository := taskId] else old(rows)
    {
      if repository in rows && rows[repository] != taskId {
        return false;
      }
      rows := rows[repository := taskId];
      ok := true;
    }

    method ReleaseRow(repository: string, taskId: string)
      modifies `rows
      ensures rows == if repository in old(rows) && old(rows)[repository] == taskId then old(rows) - {repository}
              else old(rows)
    {
      if repository in rows && rows[repository] == taskId {
        rows := rows - {repository};
      }
    }

    /** The lock is free: enter, take the writer row if the task writes, and start. The row is never found busy. */
    method WorkerEnters(i: nat) returns (busy: bool)
      requires Valid() && i < |workers| && workers[i].Waiting? && jobs[workers[i].task].repository !in locks
      modifies `jobs, `workers, `locks, `rows, `active
      ensures Valid() && !busy
      ensures var t := old(workers)[i].task;
              workers == old(workers)[i := Executing(t, old(jobs)[t].write)] && active == old(active) + {t}
              && jobs == old(jobs)[t := old(jobs)[t].(status := Running)]
    {
      var taskId := workers[i].task;
      var job := jobs[taskId];
      EnterKeeps(jobs, queue, workers, locks, rows, i, taskId);
      assert job.repository !in rows;
      locks := locks[job.repository := i];
      busy := false;
      if job.write {
        var acquired := AcquireRow(job.repository, taskId);
        busy := !acquired;
      }
      workers := workers[i := Executing(taskId, job.write)];
      active := active + {taskId};
      SetStatus(taskId, Running, job.hasReceipt);
    }

    /** Completion, failure, timeout or cancellation: whatever it was, `finally` runs. */
    method WorkerLeaves(i: nat, status: TaskStatus, hasReceipt: bool)
      requires Valid() && i < |workers| && workers[i].Executing?
      modifies `jobs, `workers, `locks, `rows, `active
      ensures Valid() && workers == old(workers)[i := Idle] && active == old(active) - {old(workers)[i].task}
      ensures old(workers)[i].task in old(jobs) && old(jobs)[old(workers)[i].task].repository !in rows
      ensures jobs == old(jobs)[old(workers)[i].task := old(jobs)[old(workers)[i].task].(status := status,
                                                                                         hasReceipt := hasReceipt)]
    {
      var w := workers[i];
      LeaveKeeps(jobs, queue, workers, locks, rows, i);
      var repository := jobs[w.task].repository;
      active := active - {w.task};
      if w.holdsRow {
        ReleaseRow(repository, w.task);
      }
      locks := locks - {repository};
      workers := workers[i := Idle];
      SetStatus(w.task, status, hasReceipt);
    }
  }

  /** Cancelling a queued task and dispatching it again leaves it in the queue twice. */
  method QueuedTwice() returns (s: ConnectedService)
    ensures s.Valid() && s.queue == ["T", "T"]
  {
    s := new ConnectedService(2, 1);
    s.Register("T", "owner/repository", true);
    var first := s.Dispatch("T");
    var interrupted, cancelled := s.Cancel("T");
    var second := s.Dispatch("T");
  }
}
