/** The operator and its retry guard together: a recorded failure and the `continue_task` it blocks. */
module GuardedOperator {
  import opened Outcomes
  import opened Ordering
  import opened OperatorCodes
  import opened TaskLifecycle
  import Guard = RetryGuard

  /** The fields of a record that its retry state hashes; the scope is hashed sorted. */
  function FieldsOf(t: Task, repository: string): Guard.HashedFields {
    Guard.HashedFields(t.request.projectId, repository, t.request.branch, t.request.expectedHead, t.blocker,
                       t.failureCode, t.provider, t.host, t.executor, Sort(TextLeq, t.request.scope))
  }

  ghost predicate Refused(guard: Guard.FailureRetryGuardStore, hash: Guard.HashedFields -> string, t: Task,
                          repository: string)
    reads guard
  {
    t.status == Failed && Guard.RefusesRetry(guard.registries, guard.observations, hash, FieldsOf(t, repository))
  }

  /** `fail_task`, whose transition tells the guard about a known blocker. */
  method FailTask(operator: OperatorService, guard: Guard.FailureRetryGuardStore, hash: Guard.HashedFields -> string,
                  repository: string, taskId: string, code: string, timedOut: bool, id: string, evidence: seq<string>)
    returns (r: Result<Task>)
    requires operator.ValidExcept(taskId) && guard.Valid() && forall x :: x in guard.observations ==> x.id != id
    modifies operator`tasks, guard`observations, guard`clock
    ensures operator.Valid() && guard.Valid() && Guard.Step(old(guard.History()), guard.History())
    ensures old(operator.FilesMatchExcept(taskId)) ==> operator.FilesMatch()
    ensures r.Ok? <==> taskId in old(operator.tasks)
    ensures r.Ok? ==> r.value == FailedWith(old(operator.tasks)[taskId], code, timedOut)
                      && operator.tasks == old(operator.tasks)[taskId := r.value]
    ensures r.Ok? && !timedOut && code != ""
            && Guard.HasFingerprint(guard.registries, code, r.value.request.projectId) ==>
              Refused(guard, hash, r.value, repository)
    ensures r.Err? ==> operator.tasks == old(operator.tasks) && guard.observations == old(guard.observations)
  {
    r := operator.FailTask(taskId, code, timedOut);
    if r.Ok? {
      hide Guard.Blind, Guard.HasFingerprint, Guard.UniqueIds, Guard.Chronological, Sort;
      var recorded := Guard.RecordTaskFailure(guard, hash, FieldsOf(r.value, repository), taskId, id, evidence);
    } else {
      StandsStill(guard.History());
    }
  }

  lemma StandsStill(v: Guard.View)
    ensures Guard.Step(v, v)
  {
  }

  /**
   * `continue_task` with the guard's own answer: without an override, a failed task may continue exactly if it is not
   * refused.
   */
  method ContinueTask(operator: OperatorService, guard: Guard.FailureRetryGuardStore,
                      hash: Guard.HashedFields -> string, repository: string, taskId: string, override: Option<string>,
                      overrideAuthority: Option<string>)
    returns (r: Result<Task>)
    requires operator.Valid() && guard.Valid()
    modifies operator`tasks, guard`decisions, guard`clock
    ensures operator.Valid() && guard.Valid() && Guard.Step(old(guard.History()), guard.History())
    ensures old(operator.FilesMatch()) ==> operator.FilesMatch()
    ensures override.None? ==>
              (r.Ok? <==>
                 && taskId in old(operator.tasks) && old(operator.tasks)[taskId].status in {AwaitingApproval, Failed}
                 && !old(Refused(guard, hash, operator.tasks[taskId], repository)))
    ensures r.Ok? ==> taskId in old(operator.tasks)
                      && r.value == Transitioned(old(operator.tasks)[taskId], Pending, TASK_CONTINUED, None)
                      && operator.tasks == old(operator.tasks)[taskId := r.value]
    ensures r.Err? ==> operator.tasks == old(operator.tasks)
  {
    hide Guard.Blind, Guard.HasFingerprint, Guard.UniqueIds, Guard.Chronological, Sort;
    var allowed := true;
    if taskId in operator.tasks && operator.tasks[taskId].status == Failed {
      allowed := Guard.MayContinue(guard, hash, FieldsOf(operator.tasks[taskId], repository), taskId, override,
                                   overrideAuthority);
    } else {
      StandsStill(guard.History());
    }
    r := operator.ContinueTask(taskId, allowed);
  }
}
