/**
 * The operator's task table: creation, authorization, dispatch (which lets other
 * calls in while the executor runs), manual relay, verification and failure. Every
 * record keeps its history, and `verified` stands for an accepted decision.
 */
module TaskLifecycle {
  import opened Outcomes
  import opened PythonText
  import opened PythonSequences
  import opened ScopeOverlap
  import opened TaskScope
  import opened EvidenceAcceptance
  import opened OperatorCodes

  datatype TaskStatus =
    | Pending | Queued | Running | AwaitingApproval | PendingVerification | Verified | Failed | TimedOut | Cancelled

  /** The envelope a caller submits; `text` stands for the fields nothing here depends on. */
  datatype Request = Request(taskId: string, projectId: string, branch: string, expectedHead: string,
                             authorityReference: string, idempotencyKey: string, failureCode: Option<string>,
                             manualFallback: bool, needsAuthorization: bool, scope: seq<string>, workspaceWrite: bool,
                             relayProvider: string, mode: ProviderMode, requirements: seq<Kind>, text: string)

  datatype ProviderMode = ReadOnlyMode | MutatingMode | OtherMode

  datatype Event = Event(kind: string, status: TaskStatus)

  datatype Closeout = Closeout(projectId: string, taskId: string, head: string)

  datatype Task = Task(request: Request, failureCode: Option<string>, authorized: bool, status: TaskStatus,
                       lastEvent: string, blocker: Option<string>, provider: Option<string>, manualRelay: bool,
                       thread: Option<string>, receipt: Option<string>, beforeHead: Option<string>,
                       afterHead: Option<string>, changedFiles: seq<string>, tests: seq<string>,
                       acceptance: Option<Decision>, closeout: Option<Closeout>, verification: Option<string>,
                       host: Option<string>, executor: Option<string>, events: seq<Event>)

  /** The adapters a persisted tool plan selected. */
  datatype Plan = Plan(blocked: bool, blockers: seq<string>, modeAdapter: Option<string>, adapters: seq<string>,
                       governedRelay: bool)

  /** What `dispatch_task` remembers while it awaits the executor. */
  datatype Ticket = Ticket(taskId: string, providerRuntime: bool, selected: Option<string>, workspaceWrite: bool)

  datatype Response = Response(executor: string, thread: string, receipt: string, beforeHead: string, afterHead: string,
                               tests: seq<string>)

  datatype Begun = Settled(task: Task) | Awaiting(ticket: Ticket)

  datatype VerificationRequest = VerificationRequest(head: string, receipt: string, ciSuccess: bool,
                                                     uat: Option<Evidence>, closeout: Option<Closeout>)

  const WORKSPACE_BRANCH := "agent/workspace-manager-foundation-v1"
  const WORKSPACE_PROJECT := "PALWAKF_WORKSPACE_MANAGER"
  const PROOF_TASK := "PALWAKF_WORKSPACE_MANAGER_SELF_HOSTED_LAST_EXECUTION_CARD_V1"
  const SUSPENDED := "AUTONOMOUS_DEVELOPMENT_SUSPENDED_BY_POLICY"

  predicate Truthy(s: Option<string>) { s.Some? && s.value != "" }

  /** No text and the empty text count as nothing. */
  lemma NotTruthy(s: Option<string>)
    ensures !Truthy(s) <==> s in {None, Some("")}
  {
  }

  predicate Violations(reading: ClassReading, t: Task, files: seq<string>) {
    exists f :: f in files && Violates(reading, t.request.scope, f)
  }

  function Transitioned(t: Task, status: TaskStatus, event: string, blocker: Option<string>): Task {
    t.(status := status, lastEvent := event, blocker := blocker, events := t.events + [Event(event, status)])
  }

  /** The record a new envelope starts with. */
  function Created(request: Request): Task {
    Task(request, request.failureCode, false, Pending, TASK_CREATED, request.failureCode, None, false, None, None, None,
         None, [], [], None, None, None, None, None, [Event(TASK_CREATED, Pending)])
  }

  /** The record of a task that nothing has happened to. */
  ghost predicate Untouched(t: Task, request: Request) {
    && t.request == request && t.status == Pending && !t.authorized && t.blocker == request.failureCode
    && t.failureCode == request.failureCode && t.provider.None? && !t.manualRelay && t.thread.None? && t.receipt.None?
    && t.beforeHead.None? && t.afterHead.None? && t.changedFiles == [] && t.tests == [] && t.acceptance.None?
    && t.closeout.None? && t.verification.None? && t.host.None? && t.executor.None?
    && t.lastEvent == TASK_CREATED && t.events == [Event(TASK_CREATED, Pending)]
  }

  /** A transition is noted at the end of the history and touches nothing but status, event and blocker. */
  lemma TransitionFields(t: Task, status: TaskStatus, event: string, blocker: Option<string>)
    ensures var u := Transitioned(t, status, event, blocker);
            && u.status == status && u.lastEvent == event && u.blocker == blocker
            && |u.events| == |t.events| + 1 && u.events[..|t.events|] == t.events
            && u.events[|t.events|] == Event(event, status)
            && t == u.(status := t.status, lastEvent := t.lastEvent, blocker := t.blocker, events := t.events)
  {
  }

  lemma SameFailureCode(t: Task, status: TaskStatus, event: string, blocker: Option<string>)
    ensures Transitioned(t, status, event, blocker).failureCode == t.failureCode
    ensures t == t.(failureCode := t.failureCode)
  {
  }

  // ---------------------------------------------------------------- invariant

  ghost predicate AcceptsFor(d: Decision, required: seq<Kind>, head: string) {
    && d.accepted && d.head == head && d.required == FirstOccurrences(required)
    && d.failed == [] && d.missing == [] && forall k :: k in required ==> k in d.satisfied
  }

  /** An accepted decision for exactly the result's head, and the closeout a material change needs. */
  ghost predicate ProperlyVerified(t: Task) {
    && t.acceptance.Some? && t.afterHead.Some?
    && AcceptsFor(t.acceptance.value, t.request.requirements, t.afterHead.value)
    && (t.changedFiles != [] ==> t.closeout == Some(Closeout(t.request.projectId, t.request.taskId, t.afterHead.value)))
  }

  ghost predicate TaskOk(reading: ClassReading, t: Task) {
    && t.events != [] && t.events[|t.events| - 1] == Event(t.lastEvent, t.status)
    && (t.status == PendingVerification || t.status == Verified ==> !Violations(reading, t, t.changedFiles))
    && (t.status == Verified ==> ProperlyVerified(t))
  }

  /** git's list of the files that differ between two heads; `gitDiff` answers for different ones. */
  function TrueDiff(gitDiff: (string, string) -> seq<string>, before: string, after: string): seq<string> {
    if before == after then [] else gitDiff(before, after)
  }

  /** git may fail, but what it answers is the diff. */
  predicate Answers(gitDiff: (string, string) -> seq<string>, before: string, after: string,
                    diff: Result<seq<string>>) {
    diff.Ok? ==> diff.value == gitDiff(before, after)
  }

  predicate HoldsResult(t: Task) { t.status == PendingVerification || t.status == Verified }

  /** A record that waits for verification or has passed it lists exactly what changed between its heads. */
  predicate FilesTrue(gitDiff: (string, string) -> seq<string>, t: Task) {
    HoldsResult(t) ==> t.beforeHead.Some? && t.afterHead.Some?
                       && t.changedFiles == TrueDiff(gitDiff, t.beforeHead.value, t.afterHead.value)
  }

  ghost predicate AllFilesTrue(gitDiff: (string, string) -> seq<string>, tasks: map<string, Task>) {
    forall id :: id in tasks ==> FilesTrue(gitDiff, tasks[id])
  }

  ghost predicate KeysMatch(tasks: map<string, Task>, index: map<string, string>) {
    && (forall id :: id in tasks ==>
          && tasks[id].request.taskId == id
          && tasks[id].request.idempotencyKey in index && index[tasks[id].request.idempotencyKey] == id)
    && (forall k :: k in index ==> index[k] in tasks && tasks[index[k]].request.idempotencyKey == k)
  }

  ghost predicate AllOk(reading: ClassReading, tasks: map<string, Task>) {
    forall id :: id in tasks ==> TaskOk(reading, tasks[id])
  }

  ghost predicate AllOkBut(reading: ClassReading, tasks: map<string, Task>, taskId: string) {
    forall id :: id in tasks && id != taskId ==> TaskOk(reading, tasks[id])
  }

  ghost predicate AllFilesTrueBut(gitDiff: (string, string) -> seq<string>, tasks: map<string, Task>, taskId: string) {
    forall id :: id in tasks && id != taskId ==> FilesTrue(gitDiff, tasks[id])
  }

  /** A step of one task that keeps its envelope keeps the table. */
  lemma OneTaskSteps(reading: ClassReading, tasks: map<string, Task>, index: map<string, string>, id: string, t: Task)
    requires KeysMatch(tasks, index) && id in tasks && t.request == tasks[id].request
    requires AllOkBut(reading, tasks, id)
    ensures KeysMatch(tasks[id := t], index)
    ensures AllOk(reading, tasks[id := t]) <==> TaskOk(reading, t)
    ensures AllOkBut(reading, tasks[id := t], id)
  {
    hide TaskOk;
    assert tasks[id := t][id] == t;
  }

  /** The same for the files the records list. */
  lemma OneTaskFiles(gitDiff: (string, string) -> seq<string>, tasks: map<string, Task>, id: string, t: Task)
    requires id in tasks && AllFilesTrueBut(gitDiff, tasks, id)
    ensures AllFilesTrue(gitDiff, tasks[id := t]) <==> FilesTrue(gitDiff, t)
    ensures AllFilesTrueBut(gitDiff, tasks[id := t], id)
  {
    hide FilesTrue;
    assert tasks[id := t][id] == t;
  }

  /** Replaying a creation compares the envelopes, but with the failure code the record has by now. */
  predicate SameEnvelope(t: Task, request: Request) { t.request.(failureCode := t.failureCode) == request }

  /** A repeated request must agree with the stored one, but in the failure code with the record. */
  lemma SameEnvelopeIff(t: Task, q: Request)
    ensures SameEnvelope(t, q) <==>
            && q.failureCode == t.failureCode && q.taskId == t.request.taskId && q.projectId == t.request.projectId
            && q.branch == t.request.branch && q.expectedHead == t.request.expectedHead
            && q.authorityReference == t.request.authorityReference
            && q.idempotencyKey == t.request.idempotencyKey && q.manualFallback == t.request.manualFallback
            && q.needsAuthorization == t.request.needsAuthorization && q.scope == t.request.scope
            && q.workspaceWrite == t.request.workspaceWrite && q.relayProvider == t.request.relayProvider
            && q.mode == t.request.mode && q.requirements == t.request.requirements && q.text == t.request.text
  {
  }

  lemma CreatedIsSound(reading: ClassReading, gitDiff: (string, string) -> seq<string>, tasks: map<string, Task>,
                       index: map<string, string>, request: Request)
    requires KeysMatch(tasks, index) && AllOk(reading, tasks) && request.taskId !in tasks
             && request.idempotencyKey !in index
    ensures Created(request).request == request && Untouched(Created(request), request)
    ensures var after := tasks[request.taskId := Created(request)];
            && KeysMatch(after, index[request.idempotencyKey := request.taskId]) && AllOk(reading, after)
            && (AllFilesTrue(gitDiff, tasks) ==> AllFilesTrue(gitDiff, after))
  {
    assert TaskOk(reading, Created(request)) && FilesTrue(gitDiff, Created(request));
    hide TaskOk, FilesTrue;
  }

  /** The idempotency index and the tasks are in one-to-one correspondence. */
  lemma IndexIsBijection(tasks: map<string, Task>, index: map<string, string>)
    requires KeysMatch(tasks, index)
    ensures index.Values == tasks.Keys
    ensures forall j, k :: j in index && k in index && index[j] == index[k] ==> j == k
  {
    forall id ensures id in index.Values <==> id in tasks.Keys {
      if id in tasks { assert index[tasks[id].request.idempotencyKey] == id; }
    }
  }

  // ------------------------------------------- the second half of a dispatch

  /** The fields assigned before the changed files are computed. */
  function WithResult(t: Task, response: Response): Task {
    t.(thread := Some(response.thread), receipt := Some(response.receipt),
       beforeHead := Some(response.beforeHead), afterHead := Some(response.afterHead))
  }

  /** The executor itself is refused before anything of its result is taken over. */
  predicate WrongExecutor(ticket: Ticket, response: Response) {
    ticket.providerRuntime && ticket.selected.Some? && response.executor != ticket.selected.value
  }

  /** `diff` is what git answers for two different heads, an error when git fails. */
  function ChangedBetween(before: string, after: string, diff: Result<seq<string>>): Result<seq<string>> {
    if before == after then Ok([]) else diff
  }

  function ChangedFiles(response: Response, diff: Result<seq<string>>): Result<seq<string>> {
    ChangedBetween(response.beforeHead, response.afterHead, diff)
  }

  /** The record after the executor's answer, whatever the record was by then. */
  function Finished(reading: ClassReading, t: Task, ticket: Ticket, response: Response,
                    diff: Result<seq<string>>): Task {
    if WrongExecutor(ticket, response) then
      Transitioned(t, Failed, EXECUTOR_PROVIDER_MISMATCH,
                   Some(EXECUTOR_PROVIDER_MISMATCH + ":" + ticket.selected.value + "!=" + response.executor))
    else
      match ChangedFiles(response, diff)
      case Err(_) => WithResult(t, response)
      case Ok(files) =>
        var u := WithResult(t, response).(changedFiles := files);
        if ticket.providerRuntime && !ticket.workspaceWrite
           && (response.beforeHead != response.afterHead || files != []) then
          Transitioned(u, Failed, READ_ONLY_PROVIDER_MUTATION, Some(READ_ONLY_PROVIDER_MUTATION))
        else if Violations(reading, u, files) then
          Transitioned(u, Failed, EXECUTION_SCOPE_VIOLATION, Some(EXECUTION_RESULT_OUTSIDE_AUTHORIZED_SCOPE))
        else
          Transitioned(u.(tests := response.tests), PendingVerification, AUTOMATIC_DISPATCH_COMPLETED, None)
  }

  /** A provider that was selected answered, and no other. */
  ghost predicate FromSelected(ticket: Ticket, response: Response) {
    ticket.providerRuntime && ticket.selected.Some? ==> response.executor == ticket.selected.value
  }

  /** A provider that may not write must have left the head where it was. */
  ghost predicate MutationAllowed(ticket: Ticket, response: Response) {
    ticket.providerRuntime && !ticket.workspaceWrite ==> response.beforeHead == response.afterHead
  }

  /** `files` are the changes git names between the heads, and none is outside a scope that was given. */
  ghost predicate FilesInScope(reading: ClassReading, scope: seq<string>, response: Response,
                               diff: Result<seq<string>>) {
    response.beforeHead != response.afterHead && diff.Ok? ==>
      forall f :: f in diff.value ==> !Violates(reading, scope, f)
  }

  /** The right executor, known changes, and all of them allowed. */
  ghost predicate ResultPermitted(reading: ClassReading, scope: seq<string>, ticket: Ticket, response: Response,
                                  diff: Result<seq<string>>) {
    && FromSelected(ticket, response) && MutationAllowed(ticket, response)
    && (response.beforeHead == response.afterHead || diff.Ok?)
    && FilesInScope(reading, scope, response, diff)
  }

  /**
   * What the answer makes of a record, case by case: only a permitted result of the selected provider waits for
   * verification, and every other settled one fails with its own blocker.
   */
  ghost predicate TakenOver(reading: ClassReading, was: Task, ticket: Ticket, response: Response,
                            diff: Result<seq<string>>, t: Task) {
    var settled := FromSelected(ticket, response) && (response.beforeHead == response.afterHead || diff.Ok?);
    && t.request == was.request && t.authorized == was.authorized && t.acceptance == was.acceptance
    && (!FromSelected(ticket, response) ==>
          && t == was.(status := Failed, lastEvent := EXECUTOR_PROVIDER_MISMATCH, blocker := t.blocker,
                       events := t.events)
          && t.blocker == Some(EXECUTOR_PROVIDER_MISMATCH + ":" + ticket.selected.value + "!=" + response.executor))
    && (FromSelected(ticket, response) ==>
          && t.thread == Some(response.thread) && t.receipt == Some(response.receipt)
          && t.beforeHead == Some(response.beforeHead) && t.afterHead == Some(response.afterHead))
    && (settled ==> t.changedFiles == if response.beforeHead == response.afterHead then [] else diff.value)
    && (settled && !MutationAllowed(ticket, response) ==>
          t.status == Failed && t.blocker == Some(READ_ONLY_PROVIDER_MUTATION))
    && (settled && MutationAllowed(ticket, response) && !FilesInScope(reading, was.request.scope, response, diff) ==>
          t.status == Failed && t.blocker == Some(EXECUTION_RESULT_OUTSIDE_AUTHORIZED_SCOPE))
    && (settled && MutationAllowed(ticket, response) && FilesInScope(reading, was.request.scope, response, diff) ==>
          && t.status == PendingVerification && t.blocker == None && t.lastEvent == AUTOMATIC_DISPATCH_COMPLETED
          && t.tests == response.tests)
    && (FromSelected(ticket, response) && !settled ==>
          t.status == was.status && t.events == was.events && t.changedFiles == was.changedFiles)
    && (t.events == was.events || t.events == was.events + [Event(t.lastEvent, t.status)])
  }

  lemma FinishedIsTakenOver(reading: ClassReading, was: Task, ticket: Ticket, response: Response,
                            diff: Result<seq<string>>)
    ensures TakenOver(reading, was, ticket, response, diff, Finished(reading, was, ticket, response, diff))
    ensures HalfFinished(ticket, response, diff) <==>
              FromSelected(ticket, response) && response.beforeHead != response.afterHead && diff.Err?
  {
    if !WrongExecutor(ticket, response) && ChangedFiles(response, diff).Ok? {
      var files := ChangedFiles(response, diff).value;
      SameScope(reading, was, WithResult(was, response).(changedFiles := files), files);
    }
    hide Violates;
  }

  /** The result was half taken over: heads assigned, changed files unknown, status untouched. */
  predicate HalfFinished(ticket: Ticket, response: Response, diff: Result<seq<string>>) {
    !WrongExecutor(ticket, response) && ChangedFiles(response, diff).Err?
  }

  /** A task verified meanwhile would get another head than the one its decision is about. */
  predicate MovesVerified(t: Task, ticket: Ticket, response: Response, diff: Result<seq<string>>) {
    t.status == Verified && HalfFinished(ticket, response, diff) && t.afterHead != Some(response.afterHead)
  }

  /** A result recorded meanwhile would keep its files under heads that differ in other files. */
  predicate KeepsOldFiles(gitDiff: (string, string) -> seq<string>, t: Task, ticket: Ticket, response: Response,
                          diff: Result<seq<string>>) {
    && HoldsResult(t) && HalfFinished(ticket, response, diff)
    && t.changedFiles != TrueDiff(gitDiff, response.beforeHead, response.afterHead)
  }

  /** Field by field, as the executor's answer is taken over; the diff may fail half way. */
  method TakeResult(reading: ClassReading, was: Task, ticket: Ticket, response: Response, diff: Result<seq<string>>)
    returns (t: Task, error: Option<string>)
    ensures t == Finished(reading, was, ticket, response, diff) && TakenOver(reading, was, ticket, response, diff, t)
    ensures error.Some? <==> HalfFinished(ticket, response, diff)
  {
    hide Violations, ChangedBetween, TakenOver;
    FinishedIsTakenOver(reading, was, ticket, response, diff);
    t, error := was, None;
    if WrongExecutor(ticket, response) {
      t := Transitioned(t, Failed, EXECUTOR_PROVIDER_MISMATCH,
                        Some(EXECUTOR_PROVIDER_MISMATCH + ":" + ticket.selected.value + "!=" + response.executor));
      return;
    }
    t := t.(thread := Some(response.thread));
    t := t.(receipt := Some(response.receipt));
    t := t.(beforeHead := Some(response.beforeHead));
    t := t.(afterHead := Some(response.afterHead));
    var files := ChangedFiles(response, diff);
    if files.Err? {
      error := Some(files.code);
      return;
    }
    t := t.(changedFiles := files.value);
    if ticket.providerRuntime && !ticket.workspaceWrite
       && (response.beforeHead != response.afterHead || files.value != []) {
      t := Transitioned(t, Failed, READ_ONLY_PROVIDER_MUTATION, Some(READ_ONLY_PROVIDER_MUTATION));
    } else if Violations(reading, t, t.changedFiles) {
      t := Transitioned(t, Failed, EXECUTION_SCOPE_VIOLATION, Some(EXECUTION_RESULT_OUTSIDE_AUTHORIZED_SCOPE));
    } else {
      t := t.(tests := response.tests);
      t := Transitioned(t, PendingVerification, AUTOMATIC_DISPATCH_COMPLETED, None);
    }
  }

  /**
   * Finishing a dispatch keeps the record sound unless the diff fails for a task that was verified, for another head,
   * meanwhile.
   */
  lemma FinishKeepsTaskIff(reading: ClassReading, t: Task, ticket: Ticket, response: Response,
                           diff: Result<seq<string>>)
    requires TaskOk(reading, t)
    ensures TaskOk(reading, Finished(reading, t, ticket, response, diff)) <==>
              !MovesVerified(t, ticket, response, diff)
  {
    hide Violations, ProperlyVerified;
    if WrongExecutor(ticket, response) {
    } else if ChangedFiles(response, diff).Err? {
      hide *;
      HalfFinishedIff(reading, t, ticket, response, diff);
    } else {
      var u := WithResult(t, response).(changedFiles := ChangedFiles(response, diff).value);
      SameScope(reading, u, Finished(reading, t, ticket, response, diff), u.changedFiles);
    }
  }

  /** What `fail_task` makes of a record. */
  function FailedWith(t: Task, code: string, timedOut: bool): Task {
    Transitioned(t, if timedOut then TimedOut else Failed, if timedOut then TASK_TIMED_OUT
                 else TASK_EXECUTION_FAILED, Some(code))
  }

  lemma FailedIsSound(reading: ClassReading, gitDiff: (string, string) -> seq<string>, t: Task, code: string,
                      timedOut: bool)
    ensures var u := FailedWith(t, code, timedOut);
            && u.request == t.request && TaskOk(reading, u) && FilesTrue(gitDiff, u) && u.blocker == Some(code)
            && (if timedOut then u.status == TimedOut && u.lastEvent == TASK_TIMED_OUT
                else u.status == Failed && u.lastEvent == TASK_EXECUTION_FAILED)
  {
    FailureRepairs(reading, gitDiff, t, if timedOut then TimedOut else Failed, if timedOut then TASK_TIMED_OUT
                   else TASK_EXECUTION_FAILED, Some(code));
  }

  /** A note in the history leaves a record as sound, and its files as true, as they were. */
  lemma NoteKeeps(reading: ClassReading, gitDiff: (string, string) -> seq<string>, t: Task, event: string,
                  blocker: Option<string>)
    requires TaskOk(reading, t)
    ensures var u := Transitioned(t, t.status, event, blocker);
            u.request == t.request && TaskOk(reading, u) && (FilesTrue(gitDiff, t) ==> FilesTrue(gitDiff, u))
  {
    hide Violations, AcceptsFor;
    SameScope(reading, t, Transitioned(t, t.status, event, blocker), t.changedFiles);
  }

  // ------------------------------------------------ what a ticket stands for

  predicate SameButProvider(was: Task, t: Task) { t == was.(provider := t.provider) }

  ghost predicate OnlyTouches(before: map<string, Task>, after: map<string, Task>, taskId: string) {
    after.Keys == before.Keys && forall id :: id in before && id != taskId ==> after[id] == before[id]
  }

  /** One failing transition with a blocker; only a suspension also rewrites the failure code. */
  ghost predicate FailedFrom(was: Task, now: Task) {
    exists event, blocker :: now == Transitioned(was.(failureCode := now.failureCode), Failed, event, Some(blocker))
  }

  /** Refused without a trace, settled as failed, or ready to await with at most the provider recorded. */
  ghost predicate AdmissionOutcome(was: Task, now: Task, r: Result<Begun>) {
    match r
    case Err(_) => SameButProvider(was, now)
    case Ok(Settled(t)) => t == now && FailedFrom(was, now)
    case Ok(Awaiting(ticket)) => SameButProvider(was, now) && IssuedFor(ticket, was)
  }

  /** Every engineering adapter of the plan belongs to the one selected provider. */
  ghost predicate OneProvider(ticket: Ticket, plan: Plan) {
    ticket.selected.Some? && ticket.selected == plan.modeAdapter && forall a :: a in plan.adapters ==>
      Some(a) == plan.modeAdapter
  }

  predicate MayDispatch(t: Task, plan: Plan) {
    && (t.request.needsAuthorization ==> t.authorized) && !plan.blocked
    && t.status != Cancelled && !Truthy(t.receipt) && !Truthy(t.failureCode)
  }

  /** Only an explicitly authorized task ever waits for an executor that may write. */
  predicate IssuedFor(ticket: Ticket, t: Task) {
    && ticket.taskId == t.request.taskId && ticket.workspaceWrite == t.request.workspaceWrite
    && ticket.providerRuntime == IsProviderRuntime(t.request) && ticket.providerRuntime == ticket.selected.Some?
    && (ticket.workspaceWrite ==> t.request.needsAuthorization && t.authorized)
    && (ticket.workspaceWrite && ticket.providerRuntime ==> t.request.scope != [] && t.request.mode != ReadOnlyMode)
    && (ticket.workspaceWrite && !ticket.providerRuntime ==> t.request.taskId == PROOF_TASK)
    && (ticket.providerRuntime && !ticket.workspaceWrite ==> t.request.mode != MutatingMode)
  }

  /** Writing takes an authorized, scoped task in a mode that writes; not writing, a mode that need not. */
  predicate ModeFits(t: Task) {
    if t.request.workspaceWrite
    then t.request.mode != ReadOnlyMode && t.request.needsAuthorization && t.authorized && t.request.scope != []
    else t.request.mode != MutatingMode
  }

  /** A provider task needs a provider and a fitting mode; any other may only write as the proof task without relay. */
  ghost predicate Admissible(t: Task, plan: Plan, certified: bool) {
    if IsProviderRuntime(t.request) then ProviderRefusal(t.request, plan, certified).None? && ModeFits(t)
    else t.request.workspaceWrite ==>
           t.request.taskId == PROOF_TASK && t.request.needsAuthorization && !plan.governedRelay
  }

  /** The executor is awaited exactly under the condition, unless repository readback refuses. */
  ghost predicate AwaitsIff(r: Result<Begun>, condition: bool) {
    && (r.Ok? && r.value.Awaiting? ==> condition)
    && (condition ==> (r.Ok? && r.value.Awaiting?) || r == Err(REPOSITORY_VERIFICATION_FAILED))
  }

  /** An awaited dispatch is planned, open and without result, and may write only with all that takes. */
  lemma AwaitedMeans(ticket: Ticket, t: Task, plan: Plan)
    requires MayDispatch(t, plan) && IssuedFor(ticket, t)
    ensures ticket.taskId == t.request.taskId && !plan.blocked && t.status != Cancelled
    ensures t.receipt in {None, Some("")} && t.failureCode in {None, Some("")}
    ensures t.request.workspaceWrite ==> t.request.needsAuthorization && t.authorized
    ensures t.request.needsAuthorization ==> t.authorized
    ensures ticket.providerRuntime <==> ticket.selected.Some?
    ensures ticket.providerRuntime <==> |t.request.branch| >= 5 && t.request.branch[..5] == "task/"
                                        && t.request.relayProvider != "chatgpt"
    ensures ticket.workspaceWrite == t.request.workspaceWrite
    ensures t.request.workspaceWrite ==>
              if ticket.providerRuntime then t.request.scope != [] && t.request.mode != ReadOnlyMode
              else t.request.taskId == PROOF_TASK
    ensures ticket.providerRuntime && !t.request.workspaceWrite ==> t.request.mode != MutatingMode
  {
  }

  lemma SameScope(reading: ClassReading, t: Task, u: Task, files: seq<string>)
    requires t.request.scope == u.request.scope
    ensures Violations(reading, t, files) <==> Violations(reading, u, files)
  {
  }

  lemma FinishKeepsRequest(reading: ClassReading, t: Task, ticket: Ticket, response: Response,
                           diff: Result<seq<string>>)
    ensures Finished(reading, t, ticket, response, diff).request == t.request
  {
    hide Violations;
  }

  lemma HalfFinishedIff(reading: ClassReading, t: Task, ticket: Ticket, response: Response, diff: Result<seq<string>>)
    requires TaskOk(reading, t) && HalfFinished(ticket, response, diff)
    ensures TaskOk(reading, Finished(reading, t, ticket, response, diff)) <==>
              !MovesVerified(t, ticket, response, diff)
  {
    hide Violations, FirstOccurrences;
    var u := WithResult(t, response);
    assert Finished(reading, t, ticket, response, diff) == u;
    SameScope(reading, t, u, t.changedFiles);
  }

  /**
   * Finishing a dispatch keeps the listed files true unless the diff fails for a record that holds another result's
   * files.
   */
  lemma FinishKeepsFilesIff(reading: ClassReading, gitDiff: (string, string) -> seq<string>, t: Task, ticket: Ticket,
                            response: Response, diff: Result<seq<string>>)
    requires FilesTrue(gitDiff, t) && Answers(gitDiff, response.beforeHead, response.afterHead, diff)
    ensures FilesTrue(gitDiff, Finished(reading, t, ticket, response, diff)) <==>
              !KeepsOldFiles(gitDiff, t, ticket, response, diff)
  {
    hide Violations;
    var u := Finished(reading, t, ticket, response, diff);
    if WrongExecutor(ticket, response) {
    } else if ChangedFiles(response, diff).Err? {
      assert u == WithResult(t, response);
    } else {
      var files := ChangedFiles(response, diff).value;
      assert files == TrueDiff(gitDiff, response.beforeHead, response.afterHead);
      FinishedListsFiles(reading, t, ticket, response, diff);
    }
  }

  lemma FinishedListsFiles(reading: ClassReading, t: Task, ticket: Ticket, response: Response,
                           diff: Result<seq<string>>)
    requires !WrongExecutor(ticket, response) && ChangedFiles(response, diff).Ok?
    ensures var u := Finished(reading, t, ticket, response, diff);
            && u.status in {Failed, PendingVerification} && u.changedFiles == ChangedFiles(response, diff).value
            && u.beforeHead == Some(response.beforeHead) && u.afterHead == Some(response.afterHead)
  {
    hide Violations, ChangedBetween;
  }

  /** Whatever state an interrupted dispatch leaves a record in, the failure that follows makes it sound again. */
  lemma FailureRepairs(reading: ClassReading, gitDiff: (string, string) -> seq<string>, t: Task, status: TaskStatus,
                       event: string, blocker: Option<string>)
    requires status != PendingVerification && status != Verified
    ensures TaskOk(reading, Transitioned(t, status, event, blocker))
            && FilesTrue(gitDiff, Transitioned(t, status, event, blocker))
  {
  }

  class OperatorService {
    const reading: ClassReading
    const agentsAvailable: bool
    /** What `git diff --name-only` answers for two different heads. */
    const gitDiff: (string, string) -> seq<string>
    var tasks: map<string, Task>
    var index: map<string, string>
    /** Receipts of the generated manual packages, by idempotency key. */
    var packages: map<string, string>
    var plans: map<string, Plan>

    constructor (reading: ClassReading, agentsAvailable: bool, gitDiff: (string, string) -> seq<string>)
      ensures Valid() && FilesMatch() && tasks == map[] && index == map[] && packages == map[] && plans == map[]
      ensures this.reading == reading && this.agentsAvailable == agentsAvailable && this.gitDiff == gitDiff
    {
      this.reading, this.agentsAvailable, this.gitDiff := reading, agentsAvailable, gitDiff;
      tasks, index, packages, plans := map[], map[], map[], map[];
    }

    ghost predicate Valid()
      reads this
    {
      KeysMatch(tasks, index) && AllOk(reading, tasks)
    }

    /** Sound but for one task, whose dispatch raised half way. */
    ghost predicate ValidExcept(taskId: string)
      reads this
    {
      KeysMatch(tasks, index) && AllOkBut(reading, tasks, taskId)
    }

    /** Every record that holds a result lists git's diff between its heads. */
    ghost predicate FilesMatch()
      reads this
    {
      AllFilesTrue(gitDiff, tasks)
    }

    ghost predicate FilesMatchExcept(taskId: string)
      reads this
    {
      AllFilesTrueBut(gitDiff, tasks, taskId)
    }

    lemma OkAt(taskId: string)
      requires Valid() && taskId in tasks
      ensures TaskOk(reading, tasks[taskId]) && tasks[taskId].request.taskId == taskId
    {
      hide TaskOk;
    }

    /** Secret scanning may refuse any submitted text. */
    method SecretFree() returns (r: Result<()>)
      ensures r.Err? ==> r.code == SECRET_MATERIAL_REJECTED
    {
      if * { return Err(SECRET_MATERIAL_REJECTED); }
      r := Ok(());
    }

    /** Repository readback may refuse. */
    method VerifyRepository() returns (r: Result<()>)
      ensures r.Err? ==> r.code == REPOSITORY_VERIFICATION_FAILED
    {
      if * { return Err(REPOSITORY_VERIFICATION_FAILED); }
      r := Ok(());
    }

    method GetTask(taskId: string) returns (r: Result<Task>)
      ensures r == if taskId in tasks then Ok(tasks[taskId]) else Err(UNKNOWN_TASK)
    {
      r := if taskId in tasks then Ok(tasks[taskId]) else Err(UNKNOWN_TASK);
    }

    /** Assign a task's record. */
    method Put(taskId: string, t: Task)
      requires Valid() && taskId in tasks && t.request == tasks[taskId].request && TaskOk(reading, t)
      modifies `tasks
      ensures Valid() && tasks == old(tasks)[taskId := t]
      ensures old(FilesMatch()) ==> (FilesMatch() <==> FilesTrue(gitDiff, t))
    {
      hide FilesTrue, TaskOk;
      OneTaskSteps(reading, tasks, index, taskId, t);
      if FilesMatch() {
        OneTaskFiles(gitDiff, tasks, taskId, t);
      }
      tasks := tasks[taskId := t];
    }

    /** A transition to a status that promises nothing about the result. */
    method Transition(taskId: string, base: Task, status: TaskStatus, event: string, blocker: Option<string>)
      returns (t: Task)
      requires Valid() && taskId in tasks && base.request == tasks[taskId].request
      requires status != PendingVerification && status != Verified
      modifies `tasks
      ensures Valid() && t == Transitioned(base, status, event, blocker) && tasks == old(tasks)[taskId := t]
      ensures old(FilesMatch()) ==> FilesMatch()
    {
      hide AllOk, KeysMatch, Violations, AllFilesTrue;
      FailureRepairs(reading, gitDiff, base, status, event, blocker);
      t := Transitioned(base, status, event, blocker);
      Put(taskId, t);
    }

    // ------------------------------------------------------------- the envelope

    method CreateTask(request: Request, allowTaskBranch: bool) returns (r: Result<Task>)
      requires Valid()
      modifies `tasks, `index
      ensures Valid()
      ensures old(FilesMatch()) ==> FilesMatch()
      ensures r.Err? ==> tasks == old(tasks) && index == old(index)
      ensures r.Ok? && request.idempotencyKey !in old(index) ==>
                && request.taskId !in old(tasks) && r.value == Created(request) && Untouched(r.value, request)
                && tasks == old(tasks)[request.taskId := r.value]
                && index == old(index)[request.idempotencyKey := request.taskId]
      ensures request.idempotencyKey in old(index) && (request.branch == WORKSPACE_BRANCH || allowTaskBranch) ==>
                var t := old(tasks)[old(index)[request.idempotencyKey]];
                && (r.Ok? <==> SameEnvelope(t, request))
                && (r.Ok? ==> r.value == t && tasks == old(tasks) && index == old(index))
      ensures request.idempotencyKey !in old(index) && request.taskId in old(tasks) ==> r.Err?
      ensures request.branch != WORKSPACE_BRANCH && !allowTaskBranch ==> r.Err?
      ensures request.idempotencyKey !in old(index) && request.taskId !in old(tasks)
              && (request.branch == WORKSPACE_BRANCH || allowTaskBranch) ==>
                r.Ok? || OutsideRefusal(r.code)
    {
      hide TaskOk, AllOk, AllFilesTrue, FilesTrue, Created, Untouched;
      if request.branch != WORKSPACE_BRANCH && !allowTaskBranch {
        return Err(TASK_BRANCH_REQUIRES_ENGINEERING_RUN_ADAPTER);
      }
      if request.idempotencyKey in index {
        var existing := tasks[index[request.idempotencyKey]];
        if !SameEnvelope(existing, request) {
          return Err(IDEMPOTENCY_KEY_TAKEN);
        }
        return Ok(existing);
      }
      if request.taskId in tasks {
        return Err(TASK_ID_TAKEN);
      }
      var safe :- SecretFree();
      var t := Created(request);
      CreatedIsSound(reading, gitDiff, tasks, index, request);
      tasks := tasks[request.taskId := t];
      index := index[request.idempotencyKey := request.taskId];
      r := Ok(t);
    }

    method AuthorizeTask(taskId: string, expectedHead: string, authorityReference: string) returns (r: Result<Task>)
      requires Valid()
      modifies `tasks
      ensures Valid()
      ensures old(FilesMatch()) ==> FilesMatch()
      ensures r.Ok? <==> taskId in old(tasks) && var q := old(tasks)[taskId].request;
                         q.needsAuthorization && q.expectedHead == expectedHead
                         && q.authorityReference == authorityReference
      ensures r.Ok? ==> r.value.authorized && tasks == old(tasks)[taskId := r.value]
                        && r.value.status == old(tasks)[taskId].status && r.value.request == old(tasks)[taskId].request
      ensures r.Err? ==> tasks == old(tasks)
    {
      var t :- GetTask(taskId);
      if !t.request.needsAuthorization {
        return Err(AUTHORIZATION_NOT_REQUIRED);
      }
      if t.request.expectedHead != expectedHead {
        return Err(AUTHORIZATION_HEAD_MISMATCH);
      }
      if t.request.authorityReference != authorityReference {
        return Err(AUTHORIZATION_REFERENCE_MISMATCH);
      }
      if t.authorized {
        assert tasks == tasks[taskId := t];
        return Ok(t);
      }
      var u := Transitioned(t.(authorized := true), t.status, TASK_AUTHORIZED, None);
      Put(taskId, u);
      r := Ok(u);
    }

    method BindClient(taskId: string, host: string, executor: string) returns (r: Result<Task>)
      requires Valid()
      modifies `tasks
      ensures Valid()
      ensures old(FilesMatch()) ==> FilesMatch()
      ensures r.Ok? <==> taskId in old(tasks)
                         && (Truthy(old(tasks)[taskId].host) ==> old(tasks)[taskId].host == Some(host))
                         && (Truthy(old(tasks)[taskId].executor) ==> old(tasks)[taskId].executor == Some(executor))
      ensures r.Ok? ==> tasks == old(tasks)[taskId := old(tasks)[taskId].(host := Some(host),
                                                                          executor := Some(executor))]
      ensures r.Err? ==> tasks == old(tasks)
    {
      var t :- GetTask(taskId);
      if Truthy(t.host) && t.host != Some(host) {
        return Err(CROSS_HOST_RESUME);
      }
      if Truthy(t.executor) && t.executor != Some(executor) {
        return Err(CROSS_EXECUTOR_RESUME);
      }
      var u := t.(host := Some(host), executor := Some(executor));
      Put(taskId, u);
      r := Ok(u);
    }

    /** `plan` is what routing answers to a request made out to this task and project. */
    method PlanTools(taskId: string, forTask: string, forProject: string, plan: Plan) returns (r: Result<Plan>)
      requires Valid()
      modifies `tasks, `plans
      ensures Valid()
      ensures old(FilesMatch()) ==> FilesMatch()
      ensures r.Ok? <==> taskId in old(tasks) && forTask == taskId
                         && forProject == old(tasks)[taskId].request.projectId == WORKSPACE_PROJECT
      ensures r.Ok? ==> plans == old(plans)[taskId := plan] &&
                        var t := old(tasks)[taskId];
                        tasks == old(tasks)[taskId := Transitioned(t, t.status, TOOL_DECISIONS_PERSISTED,
                                                                   if plan.blockers != [] then Some(plan.blockers[0])
                                                                      else t.blocker)]
      ensures r.Err? ==> tasks == old(tasks) && plans == old(plans)
    {
      hide TaskOk, AllOk, AllFilesTrue, FilesTrue, Transitioned;
      var t :- GetTask(taskId);
      OkAt(taskId);
      if forTask != t.request.taskId || forProject != t.request.projectId {
        return Err(PLAN_FOR_ANOTHER_TASK);
      }
      if t.request.projectId != WORKSPACE_PROJECT {
        return Err(UNKNOWN_PROFILE);
      }
      var blocker := if plan.blockers != [] then Some(plan.blockers[0]) else t.blocker;
      NoteKeeps(reading, gitDiff, t, TOOL_DECISIONS_PERSISTED, blocker);
      if FilesMatch() { FilesAt(taskId); }
      plans := plans[taskId := plan];
      Put(taskId, Transitioned(t, t.status, TOOL_DECISIONS_PERSISTED, blocker));
      r := Ok(plan);
    }

    // ------------------------------------------------------ queue, start, restart

    method QueueTask(taskId: string) returns (r: Result<Task>)
      requires Valid()
      modifies `tasks
      ensures Valid()
      ensures old(FilesMatch()) ==> FilesMatch()
      ensures r.Ok? <==> taskId in old(tasks)
      ensures r.Ok? ==> r.value.status == Queued && tasks == old(tasks)[taskId := r.value]
                        && r.value == if old(tasks)[taskId].status == Queued then old(tasks)[taskId]
                                      else Transitioned(old(tasks)[taskId], Queued, TASK_QUEUED, None)
      ensures r.Err? ==> tasks == old(tasks)
    {
      var t :- GetTask(taskId);
      if t.status == Queued {
        assert tasks == tasks[taskId := t];
        return Ok(t);
      }
      var u := Transition(taskId, t, Queued, TASK_QUEUED, None);
      r := Ok(u);
    }

    /** Unguarded: any status becomes running. */
    method StartTask(taskId: string) returns (r: Result<Task>)
      requires Valid()
      modifies `tasks
      ensures Valid()
      ensures old(FilesMatch()) ==> FilesMatch()
      ensures r.Ok? <==> taskId in old(tasks)
      ensures r.Ok? ==> r.value == Transitioned(old(tasks)[taskId], Running, TASK_EXECUTION_STARTED, None)
                        && tasks == old(tasks)[taskId := r.value]
      ensures r.Err? ==> tasks == old(tasks)
    {
      var t :- GetTask(taskId);
      var u := Transition(taskId, t, Running, TASK_EXECUTION_STARTED, None);
      r := Ok(u);
    }

    /** After a restart nothing is left queued or running, and nothing else changes. */
    method RecoverInterruptedTasks() returns (recovered: set<string>)
      requires Valid()
      modifies `tasks
      ensures Valid()
      ensures old(FilesMatch()) ==> FilesMatch()
      ensures recovered == set id | id in old(tasks) && old(tasks)[id].status in {Queued, Running}
      ensures tasks.Keys == old(tasks).Keys && forall id :: id in tasks ==>
                if id in recovered
                then tasks[id].status == Failed && tasks[id].blocker == Some(SERVICE_RESTART_INTERRUPTED_EXECUTION)
                else tasks[id] == old(tasks)[id]
      ensures tasks == map id | id in old(tasks) :: Recovered(old(tasks)[id])
    {
      hide TaskOk, AllOk, KeysMatch, Transitioned, AllFilesTrue;
      recovered := {};
      ghost var before := tasks;
      var rest := tasks.Keys;
      while rest != {}
        invariant rest <= before.Keys && Valid() && (old(FilesMatch()) ==> FilesMatch())
        invariant recovered == set id | id in before.Keys - rest && before[id].status in {Queued, Running}
        invariant tasks == map id | id in before :: if id in rest then before[id] else Recovered(before[id])
        decreases rest
      {
        var id :| id in rest;
        var t := tasks[id];
        if t.status in {Queued, Running} {
          var u := Transition(id, t, Failed, TASK_RECOVERED_AFTER_RESTART, Some(SERVICE_RESTART_INTERRUPTED_EXECUTION));
          recovered := recovered + {id};
        }
        rest := rest - {id};
      }
      forall id | id in tasks
        ensures if id in recovered
                then tasks[id].status == Failed && tasks[id].blocker == Some(SERVICE_RESTART_INTERRUPTED_EXECUTION)
                else tasks[id] == before[id]
      {
        RecoveredFields(before[id]);
      }
    }

    // ------------------------------------------------------------------ dispatch

    /** Everything up to the await; nothing but a refusal or the selected provider is recorded. */
    method BeginDispatch(taskId: string, certified: bool, orchestratorPresent: bool) returns (r: Result<Begun>)
      requires Valid()
      modifies `tasks
      ensures Valid()
      ensures old(FilesMatch()) ==> FilesMatch()
      ensures OnlyTouches(old(tasks), tasks, taskId)
      ensures r.Err? && taskId in tasks ==> SameButProvider(old(tasks)[taskId], tasks[taskId])
      ensures r.Ok? ==> taskId in tasks && taskId in plans
      ensures r.Ok? && r.value.Awaiting? ==>
                && MayDispatch(old(tasks)[taskId], plans[taskId]) && agentsAvailable
                && SameButProvider(old(tasks)[taskId], tasks[taskId])
                && IssuedFor(r.value.ticket, old(tasks)[taskId])
      ensures taskId in old(tasks) && taskId in plans ==>
                var t, plan := old(tasks)[taskId], plans[taskId];
                AwaitsIff(r, MayDispatch(t, plan) && agentsAvailable && orchestratorPresent
                             && Admissible(t, plan, certified))
      ensures r.Ok? && r.value.Settled? ==>
                r.value.task == tasks[taskId]
                && (tasks[taskId] == old(tasks)[taskId] || FailedFrom(old(tasks)[taskId], tasks[taskId]))
    {
      hide TaskOk, AllOk, KeysMatch, Violations, IssuedFor, Admissible;
      var t :- GetTask(taskId);
      if t.request.needsAuthorization && !t.authorized {
        return Err(UNAUTHORIZED_DISPATCH);
      }
      if taskId !in plans {
        return Err(TOOL_DECISIONS_REQUIRED);
      }
      if plans[taskId].blocked {
        return Err(TOOL_PLAN_BLOCKED);
      }
      if t.status == Cancelled {
        return Err(CANCELLED_CANNOT_BE_DISPATCHED);
      }
      if Truthy(t.receipt) {
        return Ok(Settled(t));
      }
      if Truthy(t.failureCode) || !agentsAvailable {
        var u := Transition(taskId, t, Failed, AUTOMATIC_DISPATCH_FAILED,
                            if Truthy(t.failureCode) then t.failureCode else Some(AUTOMATIC_CHANNEL_UNAVAILABLE));
        return Ok(Settled(u));
      }
      r := Admit(taskId, certified, orchestratorPresent);
    }

    method Admit(taskId: string, certified: bool, orchestratorPresent: bool) returns (r: Result<Begun>)
      requires Valid() && taskId in tasks && taskId in plans
      requires tasks[taskId].request.needsAuthorization ==> tasks[taskId].authorized
      modifies `tasks
      ensures Valid()
      ensures old(FilesMatch()) ==> FilesMatch()
      ensures OnlyTouches(old(tasks), tasks, taskId)
      ensures taskId in tasks && AdmissionOutcome(old(tasks)[taskId], tasks[taskId], r)
      ensures AwaitsIff(r, orchestratorPresent && Admissible(old(tasks)[taskId], plans[taskId], certified))
    {
      ghost var was, admissible := tasks[taskId], Admissible(tasks[taskId], plans[taskId], certified);
      if !IsProviderRuntime(was.request) { AdmissibleProof(was, plans[taskId]); }
      hide *;
      ghost var before := tasks;
      if IsProviderRuntime(tasks[taskId].request) {
        r := AdmitProvider(taskId, certified);
      } else {
        r := AdmitProof(taskId);
        ProofAdmission(before, tasks, taskId, r);
        AwaitsExactly(r, admissible);
      }
      OrchestratorNeeded(was, tasks[taskId], r, admissible, orchestratorPresent);
      if r.Ok? && r.value.Awaiting? && !orchestratorPresent {
        r := Err(ORCHESTRATOR_UNAVAILABLE);
      }
    }

    lemma ProofAdmission(before: map<string, Task>, after: map<string, Task>, taskId: string, r: Result<Begun>)
      requires taskId in before
      requires r.Err? || r.value.Awaiting? ==> after == before
      requires r.Ok? && r.value.Awaiting? ==> IssuedFor(r.value.ticket, before[taskId])
      requires r.Ok? && r.value.Settled? ==>
                 after == before[taskId := r.value.task] && FailedFrom(before[taskId], r.value.task)
      ensures OnlyTouches(before, after, taskId) && taskId in after
              && AdmissionOutcome(before[taskId], after[taskId], r)
    {
      hide IssuedFor, FailedFrom;
      assert before[taskId] == before[taskId].(provider := before[taskId].provider);
    }

    lemma AwaitsExactly(r: Result<Begun>, condition: bool)
      requires r.Ok? && r.value.Awaiting? <==> condition
      ensures AwaitsIff(r, condition)
    {
    }

    lemma OrchestratorNeeded(was: Task, now: Task, r: Result<Begun>, condition: bool, present: bool)
      requires AwaitsIff(r, condition) && AdmissionOutcome(was, now, r)
      ensures var s := if r.Ok? && r.value.Awaiting? && !present then Err(ORCHESTRATOR_UNAVAILABLE) else r;
              AwaitsIff(s, present && condition) && AdmissionOutcome(was, now, s)
    {
    }

    /** Writing needs an authorized, scoped task in a writing mode; not writing needs a mode that does not. */
    method CheckWriteMode(t: Task) returns (r: Result<()>)
      ensures r.Ok? && t.request.workspaceWrite ==>
                t.request.mode != ReadOnlyMode && t.request.needsAuthorization && t.authorized && t.request.scope != []
      ensures r.Ok? && !t.request.workspaceWrite ==> t.request.mode != MutatingMode
      ensures (r.Ok? ==> ModeFits(t)) && (ModeFits(t) ==> r.Ok? || r.code == REPOSITORY_VERIFICATION_FAILED)
    {
      if t.request.workspaceWrite {
        if t.request.mode == ReadOnlyMode {
          return Err(READ_ONLY_PROVIDER_MODE_REQUIRES_READ_ONLY_SANDBOX);
        }
        if !t.request.needsAuthorization || !t.authorized {
          return Err(UNAUTHORIZED_MUTATION);
        }
        if t.request.scope == [] {
          return Err(MUTATING_PROVIDER_TASK_REQUIRES_NONEMPTY_SCOPE);
        }
        r := VerifyRepository();
        return;
      } else if t.request.mode == MutatingMode {
        return Err(MUTATING_PROVIDER_MODE_REQUIRES_WORKSPACE_WRITE);
      }
      r := Ok(());
    }

    /** Either the task fails for want of one eligible, certified provider, or the provider is recorded. */
    method SelectProvider(taskId: string, certified: bool) returns (settled: Option<Task>)
      requires Valid() && taskId in tasks && taskId in plans
      modifies `tasks
      ensures Valid()
      ensures old(FilesMatch()) ==> FilesMatch()
      ensures settled.Some? <==> ProviderRefusal(old(tasks)[taskId].request, plans[taskId], certified).Some?
      ensures settled.Some? ==> FailedFrom(old(tasks)[taskId], settled.value)
                                && tasks == old(tasks)[taskId := settled.value]
      ensures settled.None? ==>
                tasks == old(tasks)[taskId := old(tasks)[taskId].(provider := plans[taskId].modeAdapter)]
    {
      OkAt(taskId);
      hide TaskOk, AllOk, KeysMatch, AllFilesTrue, FilesTrue, ProviderRefusal, FailedFrom, Transitioned;
      var t, plan := tasks[taskId], plans[taskId];
      var refusal := ProviderRefusal(t.request, plan, certified);
      if refusal.Some? {
        var u := Transition(taskId, t, Failed, refusal.value.0, Some(refusal.value.1));
        SettledNow(t, u, refusal.value.0, refusal.value.1);
        settled := Some(u);
      } else {
        ProviderKeepsTask(t, plan.modeAdapter);
        if FilesMatch() { FilesAt(taskId); }
        Put(taskId, t.(provider := plan.modeAdapter));
        settled := None;
      }
    }

    /** A provider task must have one eligible, certified provider throughout its plan. */
    method AdmitProvider(taskId: string, certified: bool) returns (r: Result<Begun>)
      requires Valid() && taskId in tasks && taskId in plans && IsProviderRuntime(tasks[taskId].request)
      modifies `tasks
      ensures Valid()
      ensures old(FilesMatch()) ==> FilesMatch()
      ensures OnlyTouches(old(tasks), tasks, taskId)
      ensures taskId in tasks && AdmissionOutcome(old(tasks)[taskId], tasks[taskId], r)
      ensures r.Ok? && r.value.Awaiting? ==>
                OneProvider(r.value.ticket, plans[taskId]) && tasks[taskId].provider == r.value.ticket.selected
      ensures AwaitsIff(r, Admissible(old(tasks)[taskId], plans[taskId], certified))
    {
      OkAt(taskId);
      var t := tasks[taskId];
      AdmissibleProvider(t, plans[taskId], certified);
      hide *;
      ghost var before := tasks;
      var settled := SelectProvider(taskId, certified);
      OneTouched(before, taskId, tasks[taskId]);
      if settled.Some? {
        SettledAdmission(t, settled.value);
        return Ok(Settled(settled.value));
      }
      NotRefused(t.request, plans[taskId], certified);
      var allowed := CheckWriteMode(t);
      if allowed.Err? {
        RefusedAdmission(t, plans[taskId].modeAdapter, allowed.code);
        return Err(allowed.code);
      }
      AwaitingAdmission(t, plans[taskId].modeAdapter, true);
      r := Ok(Awaiting(Ticket(taskId, true, plans[taskId].modeAdapter, t.request.workspaceWrite)));
    }

    lemma AdmissibleProvider(t: Task, plan: Plan, certified: bool)
      requires IsProviderRuntime(t.request)
      ensures Admissible(t, plan, certified) <==> ProviderRefusal(t.request, plan, certified).None? && ModeFits(t)
      ensures forall r: Result<Begun>, c: bool :: AwaitsIff(r, c) <==>
                (r.Ok? && r.value.Awaiting? ==> c)
                && (c ==> (r.Ok? && r.value.Awaiting?) || r == Err(REPOSITORY_VERIFICATION_FAILED))
    {
    }

    lemma OneTouched(before: map<string, Task>, taskId: string, t: Task)
      requires taskId in before
      ensures OnlyTouches(before, before[taskId := t], taskId)
    {
    }

    lemma SettledNow(was: Task, now: Task, event: string, blocker: string)
      requires now == Transitioned(was, Failed, event, Some(blocker))
      ensures FailedFrom(was, now)
    {
      SameFailureCode(was, Failed, event, Some(blocker));
      assert was.(failureCode := now.failureCode) == was;
    }

    lemma SettledAdmission(was: Task, now: Task)
      requires FailedFrom(was, now)
      ensures AdmissionOutcome(was, now, Ok(Settled(now)))
    {
    }

    lemma FilesAt(taskId: string)
      requires FilesMatch() && taskId in tasks
      ensures FilesTrue(gitDiff, tasks[taskId])
      ensures forall p :: FilesTrue(gitDiff, tasks[taskId].(provider := p))
      ensures forall d :: FilesTrue(gitDiff, tasks[taskId].(acceptance := d))
    {
    }

    lemma RefusedAdmission(was: Task, p: Option<string>, code: string)
      ensures AdmissionOutcome(was, was.(provider := p), Err(code)) && AdmissionOutcome(was, was, Err(code))
    {
    }

    lemma AwaitingAdmission(was: Task, p: Option<string>, providerRuntime: bool)
      requires providerRuntime == IsProviderRuntime(was.request) == p.Some?
      requires was.request.workspaceWrite ==> was.request.needsAuthorization && was.authorized
      requires was.request.workspaceWrite && providerRuntime ==>
                 was.request.scope != [] && was.request.mode != ReadOnlyMode
      requires was.request.workspaceWrite && !providerRuntime ==> was.request.taskId == PROOF_TASK
      requires providerRuntime && !was.request.workspaceWrite ==> was.request.mode != MutatingMode
      ensures var r: Result<Begun> := Ok(Awaiting(Ticket(was.request.taskId, providerRuntime, p,
                                                         was.request.workspaceWrite)));
              AdmissionOutcome(was, was.(provider := p), r) && (p == was.provider ==> AdmissionOutcome(was, was, r))
    {
      assert p == was.provider ==> was == was.(provider := p);
    }

    lemma NotRefused(request: Request, plan: Plan, certified: bool)
      requires ProviderRefusal(request, plan, certified).None?
      ensures plan.modeAdapter.Some?
      ensures forall ticket: Ticket :: ticket.selected == plan.modeAdapter ==> OneProvider(ticket, plan)
    {
    }

    lemma ProviderKeepsTask(t: Task, p: Option<string>)
      requires TaskOk(reading, t)
      ensures TaskOk(reading, t.(provider := p))
    {
      SameScope(reading, t, t.(provider := p), t.changedFiles);
    }

    /** Without a provider, only the governed proof task may write, and not through the patch relay. */
    method AdmitProof(taskId: string) returns (r: Result<Begun>)
      requires Valid() && taskId in tasks && taskId in plans && !IsProviderRuntime(tasks[taskId].request)
      requires tasks[taskId].request.needsAuthorization ==> tasks[taskId].authorized
      modifies `tasks
      ensures Valid()
      ensures old(FilesMatch()) ==> FilesMatch()
      ensures r.Err? ==> tasks == old(tasks)
      ensures r.Ok? && r.value.Awaiting? ==> tasks == old(tasks) && IssuedFor(r.value.ticket, old(tasks)[taskId])
      ensures r.Ok? && r.value.Settled? ==>
                tasks == old(tasks)[taskId := r.value.task] && FailedFrom(old(tasks)[taskId], r.value.task)
                && r.value.task.failureCode == Some(SUSPENDED)
      ensures r.Ok? && r.value.Awaiting? <==>
                Admissible(old(tasks)[taskId], plans[taskId], false)
    {
      OkAt(taskId);
      var t := tasks[taskId];
      AdmissibleProof(t, plans[taskId]);
      hide *;
      NoProviderTicket(t);
      if t.request.workspaceWrite {
        if t.request.taskId != PROOF_TASK || !t.request.needsAuthorization {
          return Err(WRITE_RESTRICTED_TO_PROOF_TASK);
        }
        if plans[taskId].governedRelay {
          var u := t.(failureCode := Some(SUSPENDED));
          u := Transition(taskId, u, Failed, AUTOMATIC_DISPATCH_BLOCKED_BY_PROVIDER_ROLE_POLICY, Some(SUSPENDED));
          SuspendedNow(t, u);
          return Ok(Settled(u));
        }
      }
      r := Ok(Awaiting(Ticket(taskId, false, None, t.request.workspaceWrite)));
    }

    lemma AdmissibleProof(t: Task, plan: Plan)
      requires !IsProviderRuntime(t.request)
      ensures forall c: bool :: Admissible(t, plan, c) <==>
                (t.request.workspaceWrite ==>
                   t.request.taskId == PROOF_TASK && t.request.needsAuthorization && !plan.governedRelay)
    {
    }

    lemma SuspendedNow(t: Task, u: Task)
      requires u == Transitioned(t.(failureCode := Some(SUSPENDED)), Failed,
                                 AUTOMATIC_DISPATCH_BLOCKED_BY_PROVIDER_ROLE_POLICY, Some(SUSPENDED))
      ensures FailedFrom(t, u) && u.failureCode == Some(SUSPENDED)
    {
    }

    lemma NoProviderTicket(t: Task)
      requires !IsProviderRuntime(t.request) && (t.request.needsAuthorization ==> t.authorized)
      ensures !t.request.workspaceWrite || (t.request.taskId == PROOF_TASK && t.request.needsAuthorization) ==>
                IssuedFor(Ticket(t.request.taskId, false, None, t.request.workspaceWrite), t)
    {
    }

    lemma FinishKeepsTableIff(ticket: Ticket, response: Response, diff: Result<seq<string>>)
      requires Valid() && ticket.taskId in tasks
      ensures var t := tasks[ticket.taskId];
              var after := tasks[ticket.taskId := Finished(reading, t, ticket, response, diff)];
              && KeysMatch(after, index) && AllOkBut(reading, after, ticket.taskId)
              && (AllOk(reading, after) <==> !MovesVerified(t, ticket, response, diff))
    {
      hide TaskOk, MovesVerified;
      var t := tasks[ticket.taskId];
      FinishKeepsTaskIff(reading, t, ticket, response, diff);
      FinishKeepsRequest(reading, t, ticket, response, diff);
      hide Finished, KeysMatch;
      OneTaskSteps(reading, tasks, index, ticket.taskId, Finished(reading, t, ticket, response, diff));
    }

    lemma FinishKeepsAllFilesIff(ticket: Ticket, response: Response, diff: Result<seq<string>>)
      requires FilesMatch() && ticket.taskId in tasks && Answers(gitDiff, response.beforeHead, response.afterHead, diff)
      ensures var t := tasks[ticket.taskId];
              var after := tasks[ticket.taskId := Finished(reading, t, ticket, response, diff)];
              && AllFilesTrueBut(gitDiff, after, ticket.taskId)
              && (AllFilesTrue(gitDiff, after) <==> !KeepsOldFiles(gitDiff, t, ticket, response, diff))
    {
      hide FilesTrue, KeepsOldFiles;
      var t := tasks[ticket.taskId];
      FinishKeepsFilesIff(reading, gitDiff, t, ticket, response, diff);
      hide Finished;
      OneTaskFiles(gitDiff, tasks, ticket.taskId, Finished(reading, t, ticket, response, diff));
    }

    lemma FinishedIsSettled(ticket: Ticket, response: Response, diff: Result<seq<string>>)
      requires ticket.taskId in tasks
      ensures var was := tasks[ticket.taskId];
              var t := Finished(reading, was, ticket, response, diff);
              && (!HalfFinished(ticket, response, diff) ==>
                    && t.status in {Failed, PendingVerification}
                    && (t.status == PendingVerification <==>
                          ResultPermitted(reading, was.request.scope, ticket, response, diff)))
              && (HalfFinished(ticket, response, diff) ==>
                    !ResultPermitted(reading, was.request.scope, ticket, response, diff))
              && forall code :: FailedWith(t, code, false).status == Failed
    {
      FinishedIsTakenOver(reading, tasks[ticket.taskId], ticket, response, diff);
      hide FilesInScope;
    }

    /** The executor answered; any other call may have run since the ticket was issued. */
    method FinishDispatch(ticket: Ticket, response: Response, diff: Result<seq<string>>) returns (r: Result<Task>)
      requires Valid() && ticket.taskId in tasks
      modifies `tasks
      ensures tasks == old(tasks)[ticket.taskId := Finished(reading, old(tasks)[ticket.taskId], ticket, response, diff)]
      ensures TakenOver(reading, old(tasks)[ticket.taskId], ticket, response, diff, tasks[ticket.taskId])
      ensures r.Err? <==> HalfFinished(ticket, response, diff)
      ensures r.Ok? ==> r.value == tasks[ticket.taskId] && r.value.status in {Failed, PendingVerification}
      ensures r.Ok? ==> (r.value.status == PendingVerification <==>
                           ResultPermitted(reading, old(tasks)[ticket.taskId].request.scope, ticket, response, diff))
      ensures ValidExcept(ticket.taskId)
      ensures Valid() <==> !MovesVerified(old(tasks)[ticket.taskId], ticket, response, diff)
      ensures Answers(gitDiff, response.beforeHead, response.afterHead, diff) && old(FilesMatch()) ==>
                && FilesMatchExcept(ticket.taskId)
                && (FilesMatch() <==> !KeepsOldFiles(gitDiff, old(tasks)[ticket.taskId], ticket, response, diff))
    {
      hide KeysMatch, AllOk, AllOkBut, AllFilesTrue, AllFilesTrueBut, Finished, MovesVerified, KeepsOldFiles,
      HalfFinished, Answers, TakenOver, ResultPermitted, FailedWith;
      FinishedIsSettled(ticket, response, diff);
      FinishKeepsTableIff(ticket, response, diff);
      if FilesMatch() && Answers(gitDiff, response.beforeHead, response.afterHead, diff) {
        FinishKeepsAllFilesIff(ticket, response, diff);
      }
      var t, error := TakeResult(reading, tasks[ticket.taskId], ticket, response, diff);
      tasks := tasks[ticket.taskId := t];
      r := if error.Some? then Err(error.value) else Ok(t);
    }

    // -------------------------------------------- continue, cancel, fail, verify

    /** `guardAllows` is the retry guard's answer when the blocker is a known failure. */
    method ContinueTask(taskId: string, guardAllows: bool) returns (r: Result<Task>)
      requires Valid()
      modifies `tasks
      ensures Valid()
      ensures old(FilesMatch()) ==> FilesMatch()
      ensures r.Ok? <==> taskId in old(tasks) && (old(tasks)[taskId].status == AwaitingApproval
                                                   || (old(tasks)[taskId].status == Failed && guardAllows))
      ensures r.Ok? ==> r.value == Transitioned(old(tasks)[taskId], Pending, TASK_CONTINUED, None)
                        && tasks == old(tasks)[taskId := r.value]
      ensures r.Err? ==> tasks == old(tasks)
    {
      var t :- GetTask(taskId);
      if t.status != AwaitingApproval && t.status != Failed {
        return Err(NOT_CONTINUABLE);
      }
      if t.status == Failed && !guardAllows {
        return Err(FAILURE_RETRY_BLOCKED);
      }
      var u := Transition(taskId, t, Pending, TASK_CONTINUED, None);
      r := Ok(u);
    }

    method CancelTask(taskId: string) returns (r: Result<Task>)
      requires Valid()
      modifies `tasks
      ensures Valid()
      ensures old(FilesMatch()) ==> FilesMatch()
      ensures r.Ok? <==> taskId in old(tasks) && old(tasks)[taskId].status != Verified
      ensures r.Ok? ==> r.value.status == Cancelled && tasks == old(tasks)[taskId := r.value]
                        && r.value == if old(tasks)[taskId].status == Cancelled then old(tasks)[taskId]
                                      else Transitioned(old(tasks)[taskId], Cancelled, TASK_CANCELLED, None)
      ensures r.Err? ==> tasks == old(tasks)
    {
      var t :- GetTask(taskId);
      if t.status == Cancelled {
        assert tasks == tasks[taskId := t];
        return Ok(t);
      }
      if t.status == Verified {
        return Err(VERIFIED_CANNOT_BE_CANCELLED);
      }
      var u := Transition(taskId, t, Cancelled, TASK_CANCELLED, None);
      r := Ok(u);
    }

    /** The table may be unsound in this one task, if its dispatch has just raised; failing it makes the table sound. */
    method FailTask(taskId: string, code: string, timedOut: bool) returns (r: Result<Task>)
      requires ValidExcept(taskId)
      modifies `tasks
      ensures Valid()
      ensures old(FilesMatchExcept(taskId)) ==> FilesMatch()
      ensures r.Ok? <==> taskId in old(tasks)
      ensures r.Ok? ==> r.value == FailedWith(old(tasks)[taskId], code, timedOut)
                        && tasks == old(tasks)[taskId := r.value]
      ensures r.Ok? ==> r.value.blocker == Some(code)
                        && (if timedOut then r.value.status == TimedOut && r.value.lastEvent == TASK_TIMED_OUT
                            else r.value.status == Failed && r.value.lastEvent == TASK_EXECUTION_FAILED)
      ensures r.Err? ==> tasks == old(tasks)
    {
      hide TaskOk, FilesTrue, FailedWith, KeysMatch;
      var t :- GetTask(taskId);
      var u := FailedWith(t, code, timedOut);
      FailedIsSound(reading, gitDiff, t, code, timedOut);
      OneTaskSteps(reading, tasks, index, taskId, u);
      if FilesMatchExcept(taskId) {
        OneTaskFiles(gitDiff, tasks, taskId, u);
      }
      tasks := tasks[taskId := u];
      r := Ok(u);
    }

    /** The end of a dispatch as the worker runs it: whatever the executor's answer raises fails the task. */
    method SettleDispatch(ticket: Ticket, response: Response, diff: Result<seq<string>>) returns (t: Task)
      requires Valid() && ticket.taskId in tasks
      modifies `tasks
      ensures Valid()
      ensures Answers(gitDiff, response.beforeHead, response.afterHead, diff) && old(FilesMatch()) ==> FilesMatch()
      ensures tasks == old(tasks)[ticket.taskId := t]
      ensures var u := Finished(reading, old(tasks)[ticket.taskId], ticket, response, diff);
              if HalfFinished(ticket, response, diff) then exists code :: t == FailedWith(u, code, false) else t == u
      ensures t.status in {Failed, PendingVerification}
      ensures t.status == PendingVerification <==>
                ResultPermitted(reading, old(tasks)[ticket.taskId].request.scope, ticket, response, diff)
    {
      hide KeysMatch, AllOk, AllOkBut, AllFilesTrue, AllFilesTrueBut, Finished, HalfFinished, FailedWith, Answers,
      TrueDiff, TakenOver, ResultPermitted;
      FinishedIsSettled(ticket, response, diff);
      var finished := FinishDispatch(ticket, response, diff);
      if finished.Err? {
        var failed := FailTask(ticket.taskId, EXECUTION_FAILED + finished.code, false);
        t := failed.value;
      } else {
        t := finished.value;
      }
    }

    /** Piece by piece, the evidence the request amounts to. */
    method CollectEvidence(t: Task, request: VerificationRequest, head: string, testsReference: string)
      returns (r: Result<seq<Evidence>>)
      ensures r.Ok? ==> UatKindOk(request) && r.value == EvidenceOf(t, request, head, testsReference)
      ensures r.Err? && UatKindOk(request) ==> OutsideRefusal(r.code)
    {
      var evidence: seq<Evidence> := [];
      if t.tests != [] {
        evidence := evidence + [Evidence(Tests, true, testsReference, head)];
      }
      evidence := evidence + [Evidence(Ci, request.ciSuccess, request.receipt, head)];
      if request.uat.Some? {
        if request.uat.value.kind != Uat {
          return Err(VERIFICATION_UAT_EVIDENCE_KIND_INVALID);
        }
        evidence := evidence + [request.uat.value];
      }
      if Readback in t.request.requirements {
        var verified :- VerifyRepository();
        evidence := evidence + [Evidence(Readback, true, ReadbackReference(t.request.branch, head), head)];
      }
      r := Ok(evidence);
    }

    /** Evidence is collected and decided on; the decision is kept even when it rejects. */
    method DecideTask(taskId: string, request: VerificationRequest, head: string, testsReference: string)
      returns (r: Result<()>)
      requires Valid() && taskId in tasks && tasks[taskId].status == PendingVerification && head == Lower(head)
      modifies `tasks
      ensures Valid()
      ensures old(FilesMatch()) ==> FilesMatch()
      ensures OnlyTouches(old(tasks), tasks, taskId)
      ensures taskId in tasks && tasks[taskId] == old(tasks)[taskId].(acceptance := tasks[taskId].acceptance)
      ensures r.Ok? ==> Supplied(old(tasks)[taskId], request, head)
                        && tasks[taskId].acceptance.Some?
                        && AcceptsFor(tasks[taskId].acceptance.value, tasks[taskId].request.requirements, head)
      ensures r.Err? && Supplied(old(tasks)[taskId], request, head) ==> OutsideRefusal(r.code)
    {
      hide *;
      var t := tasks[taskId];
      UnsuppliedIff(t, request, head);
      assert t == t.(acceptance := t.acceptance);
      OneTouched(tasks, taskId, t);
      assert tasks == tasks[taskId := t];
      var evidence := CollectEvidence(t, request, head, testsReference);
      if evidence.Err? {
        return Err(evidence.code);
      }
      var evaluated := EvaluateAcceptance(head, t.request.requirements, evidence.value);
      if evaluated.Err? {
        return Err(evaluated.code);
      }
      var decision := evaluated.value;
      AcceptedIffBacked(decision, t, request, head, testsReference);
      var u := t.(acceptance := Some(decision));
      PutDecision(taskId, u);
      OneTouched(old(tasks), taskId, u);
      if !decision.accepted {
        return Err(ACCEPTANCE_EVIDENCE_REJECTED);
      }
      r := Ok(());
    }

    method VerifyTask(taskId: string, request: VerificationRequest, testsReference: string) returns (r: Result<Task>)
      requires Valid()
      modifies `tasks
      ensures Valid()
      ensures old(FilesMatch()) ==> FilesMatch()
      ensures OnlyTouches(old(tasks), tasks, taskId)
      ensures r.Ok? ==> taskId in old(tasks) && Verifiable(old(tasks)[taskId], request) && r.value == tasks[taskId]
                        && r.value == VerifiedFrom(old(tasks)[taskId], r.value.acceptance, request)
      ensures r.Err? && taskId in old(tasks) && Verifiable(old(tasks)[taskId], request) ==> OutsideRefusal(r.code)
      ensures r.Err? && taskId in tasks ==> tasks[taskId] == old(tasks)[taskId].(acceptance := tasks[taskId].acceptance)
    {
      hide Lower, AllOk, KeysMatch, Violations, AllFilesTrue, ProperlyVerified, AcceptsFor, Supplied, OutsideRefusal;
      var t :- GetTask(taskId);
      if t.status != PendingVerification {
        return Err(RESULT_REQUIRED_FIRST);
      }
      var head := Lower(request.head);
      if t.afterHead != Some(head) {
        return Err(VERIFICATION_HEAD_MISMATCH);
      }
      LowerTwice(request.head);
      var safe := SecretFree();
      if safe.Err? {
        RefusedOutside(safe.code);
        return Err(safe.code);
      }
      var decided :- DecideTask(taskId, request, head, testsReference);
      r := CloseVerification(taskId, request, head);
    }

    /** With an accepted decision on record, only the learning closeout can still stop a verification. */
    method CloseVerification(taskId: string, request: VerificationRequest, head: string) returns (r: Result<Task>)
      requires Valid() && taskId in tasks && tasks[taskId].status == PendingVerification && Lower(head) == head
      requires tasks[taskId].afterHead == Some(head) && tasks[taskId].acceptance.Some?
      requires AcceptsFor(tasks[taskId].acceptance.value, tasks[taskId].request.requirements, head)
      modifies `tasks
      ensures Valid()
      ensures old(FilesMatch()) ==> FilesMatch()
      ensures var was := old(tasks)[taskId];
              r.Ok? <==> (was.changedFiles == [] && request.closeout.None?)
                         || request.closeout == Some(Closeout(was.request.projectId, was.request.taskId, head))
      ensures r.Err? ==> tasks == old(tasks)
      ensures r.Ok? ==> tasks == old(tasks)[taskId := r.value]
                        && r.value == VerifiedFrom(old(tasks)[taskId], old(tasks)[taskId].acceptance, request)
                        && r.value.status == Verified && r.value.verification == Some(request.receipt)
                        && (request.closeout.Some? ==> r.value.closeout == request.closeout)
    {
      OkAt(taskId);
      hide Lower, TaskOk, AllOk, KeysMatch, AllFilesTrue, FilesTrue, AcceptsFor;
      var t := tasks[taskId];
      if FilesMatch() { FilesAt(taskId); }
      if t.changedFiles != [] || request.closeout.Some? {
        var closeout :- RequireCloseout(request.closeout, t.request.projectId, t.request.taskId, head);
        t := t.(closeout := Some(closeout));
      }
      t := t.(verification := Some(request.receipt));
      t := Transitioned(t, Verified, TASK_INDEPENDENTLY_VERIFIED, None);
      VerifiedIsSound(reading, gitDiff, old(tasks)[taskId], request, head);
      Put(taskId, t);
      r := Ok(t);
    }

    /** Storing a decision while verification is pending changes nothing else. */
    method PutDecision(taskId: string, t: Task)
      requires Valid() && taskId in tasks && tasks[taskId].status == PendingVerification
      requires t == tasks[taskId].(acceptance := t.acceptance)
      modifies `tasks
      ensures Valid() && tasks == old(tasks)[taskId := t]
      ensures old(FilesMatch()) ==> FilesMatch()
    {
      OkAt(taskId);
      SameScope(reading, tasks[taskId], t, t.changedFiles);
      hide Violations, AllOk, KeysMatch;
      Put(taskId, t);
    }

    method RecordVerificationBlocker(taskId: string, blocker: string) returns (r: Result<Task>)
      requires Valid()
      modifies `tasks
      ensures Valid()
      ensures old(FilesMatch()) ==> FilesMatch()
      ensures r.Ok? <==> taskId in old(tasks) && old(tasks)[taskId].status == PendingVerification
      ensures r.Ok? ==> r.value == Transitioned(old(tasks)[taskId], PendingVerification,
                                                INDEPENDENT_VERIFICATION_BLOCKED, Some(blocker))
                        && tasks == old(tasks)[taskId := r.value]
      ensures r.Err? ==> tasks == old(tasks)
    {
      var t :- GetTask(taskId);
      if t.status != PendingVerification {
        return Err(BLOCKER_REQUIRES_PENDING_VERIFICATION);
      }
      var u := Transitioned(t, PendingVerification, INDEPENDENT_VERIFICATION_BLOCKED, Some(blocker));
      Put(taskId, u);
      r := Ok(u);
    }

    // -------------------------------------------------------------- manual relay

    /** `receipt` is the digest of the canonical envelope. */
    method GenerateManualPackage(taskId: string, receipt: string) returns (r: Result<string>)
      requires Valid()
      modifies `tasks, `packages
      ensures Valid()
      ensures old(FilesMatch()) ==> FilesMatch()
      ensures r.Ok? ==> taskId in old(tasks) && var t := old(tasks)[taskId];
                && (t.request.needsAuthorization ==> t.authorized)
                && (Truthy(t.failureCode) || t.request.manualFallback)
                && t.request.idempotencyKey in packages && packages[t.request.idempotencyKey] == r.value
                && (t.request.idempotencyKey in old(packages) ==> packages == old(packages) && tasks == old(tasks))
                && (t.request.idempotencyKey !in old(packages) ==>
                      packages == old(packages)[t.request.idempotencyKey := receipt]
                      && tasks == old(tasks)[taskId := Transitioned(t.(manualRelay := true), Pending,
                                                                    MANUAL_PACKAGE_GENERATED, t.failureCode)])
      ensures r.Err? ==> tasks == old(tasks) && packages == old(packages)
      ensures taskId in old(tasks) && (old(tasks)[taskId].request.needsAuthorization ==> old(tasks)[taskId].authorized)
              && (Truthy(old(tasks)[taskId].failureCode) || old(tasks)[taskId].request.manualFallback) ==>
                r.Ok? || OutsideRefusal(r.code)
    {
      var t :- GetTask(taskId);
      if t.request.needsAuthorization && !t.authorized {
        return Err(UNAUTHORIZED_PACKAGE);
      }
      if !(Truthy(t.failureCode) || t.request.manualFallback) {
        return Err(MANUAL_FALLBACK_NOT_SELECTED);
      }
      var verified :- VerifyRepository();
      if t.request.idempotencyKey in packages {
        return Ok(packages[t.request.idempotencyKey]);
      }
      var safe :- SecretFree();
      packages := packages[t.request.idempotencyKey := receipt];
      var u := Transition(taskId, t.(manualRelay := true), Pending, MANUAL_PACKAGE_GENERATED, t.failureCode);
      r := Ok(receipt);
    }

    predicate HasPackage(taskId: string, receipt: string)
      reads this
    {
      taskId in tasks && tasks[taskId].request.idempotencyKey in packages
      && packages[tasks[taskId].request.idempotencyKey] == receipt
    }

    method MarkManualDispatched(taskId: string, receipt: string) returns (r: Result<Task>)
      requires Valid()
      modifies `tasks
      ensures Valid()
      ensures old(FilesMatch()) ==> FilesMatch()
      ensures r.Ok? <==> taskId in old(tasks) && old(tasks)[taskId].request.idempotencyKey in packages
                         && packages[old(tasks)[taskId].request.idempotencyKey] == receipt
      ensures r.Ok? ==> tasks == old(tasks)[taskId := r.value]
                        && r.value == if old(tasks)[taskId].lastEvent == USER_RELAY_DISPATCHED then old(tasks)[taskId]
                                      else Transitioned(old(tasks)[taskId], Running, USER_RELAY_DISPATCHED, None)
      ensures r.Err? ==> tasks == old(tasks)
    {
      if !HasPackage(taskId, receipt) {
        return Err(PACKAGE_RECEIPT_MISMATCH);
      }
      var t := tasks[taskId];
      if t.lastEvent == USER_RELAY_DISPATCHED {
        assert tasks == tasks[taskId := t];
        return Ok(t);
      }
      var u := Transition(taskId, t, Running, USER_RELAY_DISPATCHED, None);
      r := Ok(u);
    }

    method RecordManualAck(taskId: string, receipt: string, thread: string) returns (r: Result<Task>)
      requires Valid()
      modifies `tasks
      ensures Valid()
      ensures old(FilesMatch()) ==> FilesMatch()
      ensures r.Ok? ==> old(HasPackage(taskId, receipt)) && tasks == old(tasks)[taskId := r.value]
                        && r.value == if old(tasks)[taskId].thread == Some(thread) then old(tasks)[taskId]
                                      else Transitioned(old(tasks)[taskId].(thread := Some(thread)), Running,
                                                        RELAY_PROVIDER_ACKNOWLEDGED, None)
      ensures r.Err? ==> tasks == old(tasks)
    {
      if !HasPackage(taskId, receipt) {
        return Err(PACKAGE_RECEIPT_MISMATCH);
      }
      var safe :- SecretFree();
      var t := tasks[taskId];
      if t.thread == Some(thread) {
        assert tasks == tasks[taskId := t];
        return Ok(t);
      }
      var u := Transition(taskId, t.(thread := Some(thread)), Running, RELAY_PROVIDER_ACKNOWLEDGED, None);
      r := Ok(u);
    }

    /** Everything a relayed result is checked for, in order; on success git's own list of changed files. */
    method CheckManualResult(t: Task, thread: string, beforeHead: string, afterHead: string, declared: seq<string>,
                             diff: Result<seq<string>>)
      returns (r: Result<seq<string>>)
      ensures r.Ok? ==> Importable(reading, t, thread, beforeHead, afterHead, declared, diff)
                        && r == ChangedBetween(beforeHead, afterHead, diff)
      ensures r.Err? && Importable(reading, t, thread, beforeHead, afterHead, declared, diff) ==> OutsideRefusal(r.code)
    {
      hide Violations, Slashed;
      var verified :- VerifyRepository();
      if beforeHead != t.request.expectedHead {
        return Err(MANUAL_RESULT_BEFORE_HEAD_MISMATCH);
      }
      if t.thread != Some(thread) {
        return Err(MANUAL_RESULT_THREAD_MISMATCH);
      }
      var safe :- SecretFree();
      var actual :- ChangedBetween(beforeHead, afterHead, diff);
      if Violations(reading, t, actual) {
        return Err(EXECUTION_RESULT_OUTSIDE_AUTHORIZED_SCOPE);
      }
      if multiset(Slashed(declared)) != multiset(actual) {
        return Err(MANUAL_RESULT_CHANGED_FILES_MISMATCH_GIT_TRUTH);
      }
      r := Ok(actual);
    }

    /** `diff` is git's own list of changed files; the declared list must agree with it. */
    method ImportManualResult(taskId: string, receipt: string, thread: string, beforeHead: string, afterHead: string,
                              declared: seq<string>, tests: seq<string>, diff: Result<seq<string>>)
      returns (r: Result<Task>)
      requires Valid()
      modifies `tasks
      ensures Valid()
      ensures Answers(gitDiff, beforeHead, afterHead, diff) && old(FilesMatch()) ==> FilesMatch()
      ensures r.Ok? ==> old(HasPackage(taskId, receipt)) && tasks == old(tasks)[taskId := r.value]
                        && r.value.receipt == Some(receipt) && r.value.thread == Some(thread)
                        && r.value.afterHead == Some(afterHead)
      ensures r.Ok? && r.value != old(tasks)[taskId] ==>
                && Importable(reading, old(tasks)[taskId], thread, beforeHead, afterHead, declared, diff)
                && r.value == ResultTaken(old(tasks)[taskId], beforeHead, afterHead,
                                          ChangedBetween(beforeHead, afterHead, diff).value, tests, receipt,
                                          MANUAL_RESULT_IMPORTED)
      ensures r.Err? ==> tasks == old(tasks)
      ensures old(HasPackage(taskId, receipt))
              && Importable(reading, old(tasks)[taskId], thread, beforeHead, afterHead, declared, diff) ==>
                r.Ok? || OutsideRefusal(r.code)
    {
      hide TaskOk, AllOk, KeysMatch, Importable, OutsideRefusal, AllFilesTrue, FilesTrue, Answers, ResultTaken,
      ChangedBetween;
      if !HasPackage(taskId, receipt) {
        return Err(PACKAGE_RECEIPT_MISMATCH);
      }
      var t := tasks[taskId];
      if t.receipt == Some(receipt) && t.thread == Some(thread) && t.afterHead == Some(afterHead) {
        assert tasks == tasks[taskId := t];
        return Ok(t);
      }
      var actual :- CheckManualResult(t, thread, beforeHead, afterHead, declared, diff);
      var u := ResultTaken(t, beforeHead, afterHead, actual, tests, receipt, MANUAL_RESULT_IMPORTED);
      ImportIsSound(reading, gitDiff, t, thread, beforeHead, afterHead, declared, diff, tests, receipt);
      Put(taskId, u);
      r := Ok(u);
    }

    /** The caller says which files changed; nothing here asks git. */
    method RecordExternalResult(taskId: string, beforeHead: string, afterHead: string, files: seq<string>,
                                tests: seq<string>, receipt: string)
      returns (r: Result<Task>)
      requires Valid()
      modifies `tasks
      ensures Valid()
      ensures old(FilesMatch()) ==>
                (FilesMatch() <==> tasks == old(tasks)
                                   || Slashed(files) == TrueDiff(gitDiff, Lower(beforeHead), Lower(afterHead)))
      ensures r.Ok? ==>
                && taskId in old(tasks) && Recordable(reading, old(tasks)[taskId], beforeHead, afterHead, files,
                                                      receipt)
                && tasks == old(tasks)[taskId := r.value]
                && r.value == if old(tasks)[taskId].receipt.Some? then old(tasks)[taskId]
                              else ExternalResult(old(tasks)[taskId], beforeHead, afterHead, files, tests, receipt)
      ensures r.Err? ==> tasks == old(tasks)
      ensures taskId in old(tasks) && Recordable(reading, old(tasks)[taskId], beforeHead, afterHead, files, receipt) ==>
                r.Ok? || OutsideRefusal(r.code)
    {
      hide TaskOk, AllOk, KeysMatch, Violations, Lower, Slashed, AllFilesTrue, FilesTrue, TrueDiff, Transitioned;
      var t :- GetTask(taskId);
      if t.request.needsAuthorization && !t.authorized {
        return Err(UNAUTHORIZED_CHECKPOINT);
      }
      if t.status == Cancelled || t.status == Verified {
        return Err(CHECKPOINT_OF_TERMINAL_TASK);
      }
      if Lower(beforeHead) != Lower(t.request.expectedHead) {
        return Err(CHECKPOINT_BEFORE_HEAD_MISMATCH);
      }
      var normalized := Slashed(files);
      if Violations(reading, t, normalized) {
        return Err(EXECUTION_RESULT_OUTSIDE_AUTHORIZED_SCOPE);
      }
      var safe :- SecretFree();
      if t.receipt.Some? {
        if t.receipt == Some(receipt) && t.beforeHead == Some(Lower(beforeHead))
           && t.afterHead == Some(Lower(afterHead))
           && multiset(t.changedFiles) == multiset(normalized) {
          assert tasks == tasks[taskId := t];
          return Ok(t);
        }
        return Err(EXTERNAL_EXECUTION_RESULT_IDEMPOTENCY_CONFLICT);
      }
      var u := ExternalResult(t, beforeHead, afterHead, files, tests, receipt);
      ExternalIsSound(reading, gitDiff, t, beforeHead, afterHead, files, tests, receipt);
      Put(taskId, u);
      r := Ok(u);
    }
  }

  /** The record a verification leaves: decision, receipt and closeout on file, everything else as it was. */
  function VerifiedFrom(t: Task, acceptance: Option<Decision>, request: VerificationRequest): Task {
    Transitioned(t.(acceptance := acceptance, verification := Some(request.receipt),
                    closeout := if request.closeout.Some? then request.closeout else t.closeout),
                 Verified, TASK_INDEPENDENTLY_VERIFIED, None)
  }

  lemma VerifiedIsSound(reading: ClassReading, gitDiff: (string, string) -> seq<string>, t: Task,
                        request: VerificationRequest, head: string)
    requires TaskOk(reading, t) && t.status == PendingVerification && t.afterHead == Some(head) && t.acceptance.Some?
    requires AcceptsFor(t.acceptance.value, t.request.requirements, head) && CloseoutFits(t, request, head)
    ensures var u := VerifiedFrom(t, t.acceptance, request);
            && u.request == t.request && TaskOk(reading, u) && (FilesTrue(gitDiff, t) ==> FilesTrue(gitDiff, u))
            && u.status == Verified && u.verification == Some(request.receipt) && u.acceptance == t.acceptance
            && (request.closeout.Some? ==> u.closeout == request.closeout)
  {
    hide Violations, AcceptsFor;
    SameScope(reading, t, VerifiedFrom(t, t.acceptance, request), t.changedFiles);
  }

  /** The record an imported or checkpointed result leaves. */
  function ResultTaken(t: Task, beforeHead: string, afterHead: string, files: seq<string>, tests: seq<string>,
                       receipt: string, event: string): Task {
    Transitioned(t.(beforeHead := Some(beforeHead), afterHead := Some(afterHead), changedFiles := files, tests := tests,
                    receipt := Some(receipt)),
                 PendingVerification, event, None)
  }

  /**
   * An external result that may be recorded: authorized, not yet closed, on the granted head, in scope, and the only
   * one.
   */
  predicate Recordable(reading: ClassReading, t: Task, beforeHead: string, afterHead: string, files: seq<string>,
                       receipt: string) {
    && (t.request.needsAuthorization ==> t.authorized) && t.status != Cancelled && t.status != Verified
    && Lower(beforeHead) == Lower(t.request.expectedHead) && !Violations(reading, t, Slashed(files))
    && (t.receipt.Some? ==>
          && t.receipt == Some(receipt) && t.beforeHead == Some(Lower(beforeHead))
          && t.afterHead == Some(Lower(afterHead))
          && multiset(t.changedFiles) == multiset(Slashed(files)))
  }

  function ExternalResult(t: Task, beforeHead: string, afterHead: string, files: seq<string>, tests: seq<string>,
                          receipt: string): Task {
    ResultTaken(t, Lower(beforeHead), Lower(afterHead), Slashed(files), tests, receipt, EXTERNAL_WORKSPACE_CHECKPOINTED)
  }

  lemma ExternalIsSound(reading: ClassReading, gitDiff: (string, string) -> seq<string>, t: Task, beforeHead: string,
                        afterHead: string, files: seq<string>, tests: seq<string>, receipt: string)
    requires !Violations(reading, t, Slashed(files))
    ensures var u := ExternalResult(t, beforeHead, afterHead, files, tests, receipt);
            && TaskOk(reading, u) && u.request == t.request && u != t
            && (FilesTrue(gitDiff, u) <==> Slashed(files) == TrueDiff(gitDiff, Lower(beforeHead), Lower(afterHead)))
  {
    hide Violations, Slashed, Lower, TrueDiff;
    var u := ExternalResult(t, beforeHead, afterHead, files, tests, receipt);
    ResultIsPending(reading, t, u);
    assert |u.events| == |t.events| + 1;
  }

  /**
   * A relayed result that may be taken over: for the granted head and thread, within scope, and with the files git
   * names.
   */
  predicate Importable(reading: ClassReading, t: Task, thread: string, beforeHead: string, afterHead: string,
                       declared: seq<string>, diff: Result<seq<string>>) {
    && beforeHead == t.request.expectedHead && t.thread == Some(thread)
    && var files := ChangedBetween(beforeHead, afterHead, diff);
       files.Ok? && !Violations(reading, t, files.value) && multiset(Slashed(declared)) == multiset(files.value)
  }

  /** A relayed result is taken over only for the head and thread of the task, with git's own files, all in scope. */
  lemma ImportableMeans(reading: ClassReading, t: Task, thread: string, beforeHead: string, afterHead: string,
                        declared: seq<string>, diff: Result<seq<string>>)
    requires Importable(reading, t, thread, beforeHead, afterHead, declared, diff)
    ensures beforeHead == t.request.expectedHead && t.thread == Some(thread)
    ensures beforeHead != afterHead ==>
              diff.Ok? && |diff.value| == |declared| && forall f :: f in diff.value ==>
                !Violates(reading, t.request.scope, f) && exists d :: d in declared && ForwardSlashes(d) == f
    ensures beforeHead == afterHead ==> declared == []
  {
    hide Violates;
    var files := ChangedBetween(beforeHead, afterHead, diff).value;
    SameMultisets(Slashed(declared), files);
    forall f | f in files ensures exists d :: d in declared && ForwardSlashes(d) == f {
      assert f in Slashed(declared);
      var i :| 0 <= i < |declared| && Slashed(declared)[i] == f;
      assert declared[i] in declared;
    }
  }

  lemma SameMultisets(a: seq<string>, b: seq<string>)
    requires multiset(a) == multiset(b)
    ensures |a| == |b| && forall x :: x in a <==> x in b
  {
    assert |multiset(a)| == |a| && |multiset(b)| == |b|;
    forall x ensures x in a <==> x in b {
      assert x in a <==> x in multiset(a);
      assert x in b <==> x in multiset(b);
    }
  }

  /** An external result is recorded only for an authorized, open task, on its head and within its scope, and once. */
  lemma RecordableMeans(reading: ClassReading, t: Task, beforeHead: string, afterHead: string, files: seq<string>,
                        receipt: string)
    requires Recordable(reading, t, beforeHead, afterHead, files, receipt)
    ensures t.request.needsAuthorization ==> t.authorized
    ensures t.status !in {Cancelled, Verified} && Lower(beforeHead) == Lower(t.request.expectedHead)
    ensures forall i :: 0 <= i < |files| ==> !Violates(reading, t.request.scope, ForwardSlashes(files[i]))
    ensures t.receipt.Some? ==> t.receipt == Some(receipt) && t.afterHead == Some(Lower(afterHead))
                                && t.beforeHead == Some(Lower(beforeHead)) && |t.changedFiles| == |files|
  {
    hide Violates, Lower;
    forall i | 0 <= i < |files| ensures !Violates(reading, t.request.scope, ForwardSlashes(files[i])) {
      assert Slashed(files)[i] in Slashed(files);
    }
    if t.receipt.Some? { SameMultisets(t.changedFiles, Slashed(files)); }
  }

  /** Secret scanning and repository readback are not part of the model; they may refuse at any time. */
  predicate OutsideRefusal(code: string) { code == SECRET_MATERIAL_REJECTED || code == REPOSITORY_VERIFICATION_FAILED }

  lemma ImportIsSound(reading: ClassReading, gitDiff: (string, string) -> seq<string>, t: Task, thread: string,
                      beforeHead: string, afterHead: string, declared: seq<string>, diff: Result<seq<string>>,
                      tests: seq<string>, receipt: string)
    requires Importable(reading, t, thread, beforeHead, afterHead, declared, diff)
    ensures var u := ResultTaken(t, beforeHead, afterHead, ChangedBetween(beforeHead, afterHead, diff).value, tests,
                                 receipt, MANUAL_RESULT_IMPORTED);
            && TaskOk(reading, u) && u.request == t.request
            && (t.thread == Some(thread) ==> u.thread == t.thread) && u.receipt == Some(receipt)
            && u.afterHead == Some(afterHead)
            && (Answers(gitDiff, beforeHead, afterHead, diff) ==> FilesTrue(gitDiff, u))
    ensures t.thread == Some(thread)
  {
    hide Violations, Slashed;
    var u := ResultTaken(t, beforeHead, afterHead, ChangedBetween(beforeHead, afterHead, diff).value, tests, receipt,
                         MANUAL_RESULT_IMPORTED);
    ResultIsPending(reading, t, u);
  }

  lemma ResultIsPending(reading: ClassReading, was: Task, t: Task)
    requires t.request == was.request && !Violations(reading, was, t.changedFiles)
    requires t.status == PendingVerification && t.events == was.events + [Event(t.lastEvent, PendingVerification)]
    ensures TaskOk(reading, t) && !Violations(reading, t, t.changedFiles)
  {
    SameScope(reading, was, t, t.changedFiles);
    hide Violations;
  }

  function Recovered(t: Task): Task {
    if t.status in {Queued, Running} then
      Transitioned(t, Failed, TASK_RECOVERED_AFTER_RESTART, Some(SERVICE_RESTART_INTERRUPTED_EXECUTION))
    else t
  }

  lemma RecoveredFields(t: Task)
    ensures var u := Recovered(t);
            if t.status in {Queued, Running}
            then u.status == Failed && u.blocker == Some(SERVICE_RESTART_INTERRUPTED_EXECUTION)
            else u == t
  {
  }

  predicate IsProviderRuntime(request: Request) {
    StartsWith(request.branch, "task/") && request.relayProvider != "chatgpt"
  }

  /** Why the selected provider may not run the task: event and blocker. */
  function ProviderRefusal(request: Request, plan: Plan, certified: bool): Option<(string, string)> {
    if plan.modeAdapter.None? then Some((PROVIDER_SELECTION_FAILED, NO_ELIGIBLE_ENGINEERING_PROVIDER))
    else if request.relayProvider != "auto" && plan.modeAdapter.value != request.relayProvider then
      Some((PROVIDER_SELECTION_FAILED, REQUESTED_PROVIDER_NOT_ELIGIBLE + ":" + request.relayProvider))
    else if exists a :: a in plan.adapters && a != plan.modeAdapter.value then
      Some((PROVIDER_SELECTION_FAILED, PROVIDER_PLAN_SPLIT_NOT_ALLOWED))
    else if !certified then Some((PROVIDER_CERTIFICATION_BLOCKED,
                                  PROVIDER_CERTIFICATION_REQUIRED + ":" + plan.modeAdapter.value))
    else None
  }

  /** A provider passes iff one was selected, it is the one asked for, the whole plan is its, and it is certified. */
  lemma ProviderRefusalIff(request: Request, plan: Plan, certified: bool)
    ensures ProviderRefusal(request, plan, certified).None? <==>
              exists p :: plan.modeAdapter == Some(p) && (request.relayProvider == "auto" || request.relayProvider == p)
                          && (forall a :: a in plan.adapters ==> a == p) && certified
  {
    if plan.modeAdapter.Some? { assert plan.modeAdapter == Some(plan.modeAdapter.value); }
  }

  function Slashed(files: seq<string>): (r: seq<string>)
    ensures |r| == |files|
  {
    seq(|files|, i requires 0 <= i < |files| => ForwardSlashes(files[i]))
  }

  lemma LowerTwice(s: string)
    ensures Lower(Lower(s)) == Lower(s)
  {
  }

  method RequireCloseout(receipt: Option<Closeout>, projectId: string, taskId: string, head: string)
    returns (r: Result<Closeout>)
    ensures r.Ok? <==> receipt == Some(Closeout(projectId, taskId, Lower(head)))
    ensures r.Ok? ==> r.value == receipt.value
  {
    if receipt.None? { return Err(MATERIAL_TASK_LEARNING_CLOSEOUT_REQUIRED); }
    if receipt.value.projectId != projectId { return Err(LEARNING_CLOSEOUT_PROJECT_MISMATCH); }
    if receipt.value.taskId != taskId { return Err(LEARNING_CLOSEOUT_TASK_MISMATCH); }
    if receipt.value.head != Lower(head) { return Err(LEARNING_CLOSEOUT_HEAD_MISMATCH); }
    r := Ok(receipt.value);
  }

  /** What the request itself had to supply for every kind it can supply. */
  predicate Backs(request: VerificationRequest, tests: seq<string>, required: seq<Kind>, head: string) {
    && (Ci in required ==> request.ciSuccess)
    && (Tests in required ==> tests != [])
    && (Uat in required ==> request.uat.Some? && request.uat.value.passed && request.uat.value.head == head)
  }

  lemma RefusedOutside(code: string)
    requires code == SECRET_MATERIAL_REJECTED || code == REPOSITORY_VERIFICATION_FAILED
    ensures OutsideRefusal(code)
  {
  }

  predicate UatKindOk(request: VerificationRequest) { request.uat.Some? ==> request.uat.value.kind == Uat }

  /** Something is required, and the request backs all of it. */
  predicate Supplied(t: Task, request: VerificationRequest, head: string) {
    UatKindOk(request) && t.request.requirements != [] && Backs(request, t.tests, t.request.requirements, head)
  }

  lemma UnsuppliedIff(t: Task, request: VerificationRequest, head: string)
    ensures Supplied(t, request, head) <==>
              UatKindOk(request) && t.request.requirements != []
              && Backs(request, t.tests, t.request.requirements, head)
  {
  }

  /** A material change needs its closeout, and a closeout that is given must be the right one. */
  predicate CloseoutFits(t: Task, request: VerificationRequest, head: string) {
    (t.changedFiles == [] && request.closeout.None?)
    || request.closeout == Some(Closeout(t.request.projectId, t.request.taskId, head))
  }

  /**
   * To be verified, a task needs a result awaiting it at the very head, something required, each requirement met, and
   * for material changes a closeout for this project, task and head.
   */
  lemma VerifiableMeans(t: Task, request: VerificationRequest)
    requires Verifiable(t, request)
    ensures t.status == PendingVerification && t.afterHead == Some(Lower(request.head)) && |t.request.requirements| > 0
    ensures Tests in t.request.requirements ==> |t.tests| > 0
    ensures Ci in t.request.requirements ==> request.ciSuccess
    ensures Uat in t.request.requirements ==>
              exists e :: request.uat == Some(e) && e.kind == Uat && e.passed && e.head == Lower(request.head)
    ensures |t.changedFiles| > 0 || request.closeout.Some? ==>
              exists c :: request.closeout == Some(c) && c.projectId == t.request.projectId
                          && c.taskId == t.request.taskId && c.head == Lower(request.head)
  {
    hide Lower;
  }

  /** The requests that verify a task. */
  predicate Verifiable(t: Task, request: VerificationRequest) {
    var head := Lower(request.head);
    && t.status == PendingVerification && t.afterHead == Some(head)
    && Supplied(t, request, head) && CloseoutFits(t, request, head)
  }

  function ReadbackReference(branch: string, head: string): string { READBACK_PREFIX + branch + "@" + head }

  /**
   * The evidence a request amounts to: recorded tests, the reported CI run, the attached acceptance, a fresh readback.
   */
  function EvidenceOf(t: Task, request: VerificationRequest, head: string, testsReference: string): seq<Evidence> {
    (if t.tests != [] then [Evidence(Tests, true, testsReference, head)] else [])
    + [Evidence(Ci, request.ciSuccess, request.receipt, head)]
    + (if request.uat.Some? then [request.uat.value] else [])
    + (if Readback in t.request.requirements
       then [Evidence(Readback, true, ReadbackReference(t.request.branch, head), head)] else [])
  }

  lemma EvidenceShows(t: Task, request: VerificationRequest, head: string, testsReference: string)
    requires UatKindOk(request)
    ensures var evidence := EvidenceOf(t, request, head, testsReference);
            && (Shows(evidence, head, Tests, true) <==> t.tests != []) && !Shows(evidence, head, Tests, false)
            && (Shows(evidence, head, Ci, true) <==> request.ciSuccess)
            && (Shows(evidence, head, Ci, false) <==> !request.ciSuccess)
            && (forall passed :: Shows(evidence, head, Uat, passed) <==>
                                 request.uat.Some? && request.uat.value.head == head
                                 && request.uat.value.passed == passed)
            && (Shows(evidence, head, Readback, true) <==> Readback in t.request.requirements)
            && !Shows(evidence, head, Readback, false)
  {
    var evidence := EvidenceOf(t, request, head, testsReference);
    var tests, ci := Evidence(Tests, true, testsReference, head),
                     Evidence(Ci, request.ciSuccess, request.receipt, head);
    var readback := Evidence(Readback, true, ReadbackReference(t.request.branch, head), head);
    assert forall e :: e in evidence <==>
                         (e == tests && t.tests != []) || e == ci || Some(e) == request.uat
                         || (e == readback && Readback in t.request.requirements);
  }

  /** A verification is accepted exactly when the request backs every required kind. */
  lemma AcceptedIffBacked(d: Decision, t: Task, request: VerificationRequest, head: string, testsReference: string)
    requires IsDecision(d, head, t.request.requirements, EvidenceOf(t, request, head, testsReference))
             && head == Lower(head) && UatKindOk(request)
    ensures d.accepted <==> Backs(request, t.tests, t.request.requirements, head)
    ensures d.accepted ==> AcceptsFor(d, t.request.requirements, head)
  {
    hide Shows, EvidenceOf, FirstOccurrences;
    EvidenceShows(t, request, head, testsReference);
    var required, evidence := t.request.requirements, EvidenceOf(t, request, head, testsReference);
    if d.accepted { AcceptedIsComplete(d, head, required, evidence); }
    forall k | k in required
      ensures Shows(evidence, head, k, true) && !Shows(evidence, head, k, false) <==>
                match k
                case Tests => t.tests != []
                case Ci => request.ciSuccess
                case Uat => request.uat.Some? && request.uat.value.passed && request.uat.value.head == head
                case Readback => true
    {
    }
  }
}
