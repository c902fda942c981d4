/**
 * Histories of one task record in which a promise of the operator fails, each step being what one call makes of the
 * record.
 */
module TaskHistories {
  import opened Outcomes
  import opened PythonText
  import opened PythonSequences
  import opened ScopeOverlap
  import opened EvidenceAcceptance
  import opened OperatorCodes
  import opened TaskLifecycle

  type Diff = (string, string) -> seq<string>

  /** A planned, authorized task on its way into the executor, as `dispatch_existing` and the worker bring it there. */
  function Dispatched(request: Request, plan: Plan): Task {
    var created := Created(request);
    var authorized := Transitioned(created.(authorized := true), created.status, TASK_AUTHORIZED, None);
    var planned := Transitioned(authorized, authorized.status, TOOL_DECISIONS_PERSISTED,
                                if plan.blockers != [] then Some(plan.blockers[0]) else authorized.blocker);
    var bound := planned.(host := Some("host"), executor := Some("tools"));
    var queued := Transitioned(bound, Queued, TASK_QUEUED, None);
    Transitioned(queued, Running, TASK_EXECUTION_STARTED, None)
  }

  /** The manual relay of the same task: package, relay and acknowledgement. */
  function Relayed(t: Task, thread: string): Task {
    var packaged := Transitioned(t.(manualRelay := true), Pending, MANUAL_PACKAGE_GENERATED, t.failureCode);
    var relayed := Transitioned(packaged, Running, USER_RELAY_DISPATCHED, None);
    Transitioned(relayed.(thread := Some(thread)), Running, RELAY_PROVIDER_ACKNOWLEDGED, None)
  }

  // ------------------------------------- a verified task with another head

  /**
   * An automatic dispatch is out while the same task is relayed by hand, imported and verified; then the dispatch comes
   * back.
   */
  datatype Race = Race(request: Request, plan: Plan, ticket: Ticket, thread: string, receipt: string,
                       verification: VerificationRequest, response: Response)

  function Awaited(x: Race): Task { Dispatched(x.request, x.plan).(provider := x.plan.modeAdapter) }

  function Acknowledged(x: Race): Task { Relayed(Awaited(x), x.thread) }

  /** The relayed result changes nothing: it reports the granted head itself. */
  function Imported(x: Race): Task {
    ResultTaken(Acknowledged(x), x.request.expectedHead, x.request.expectedHead, [], ["pytest"], x.receipt,
                MANUAL_RESULT_IMPORTED)
  }

  function VerifiedBy(x: Race, d: Decision): Task {
    VerifiedFrom(Imported(x).(acceptance := Some(d)), Some(d), x.verification)
  }

  /** Every call of the race is one the service admits, and the executor moved the head. */
  ghost predicate Admitted(reading: ClassReading, x: Race) {
    && x.request.projectId == WORKSPACE_PROJECT && ProviderRefusal(x.request, x.plan, true).None?
    && MayDispatch(Dispatched(x.request, x.plan), x.plan)
    && IssuedFor(x.ticket, Dispatched(x.request, x.plan)) && OneProvider(x.ticket, x.plan) && x.request.manualFallback
    && Importable(reading, Acknowledged(x), x.thread, x.request.expectedHead, x.request.expectedHead, [], Ok([]))
    && Verifiable(Imported(x), x.verification)
    && !WrongExecutor(x.ticket, x.response) && x.response.beforeHead == x.request.expectedHead != x.response.afterHead
  }

  lemma ImportedFields(x: Race)
    ensures var t := Imported(x);
            && t.request == x.request && t.status == PendingVerification && t.changedFiles == []
            && t.tests == ["pytest"]
            && t.beforeHead == t.afterHead == Some(x.request.expectedHead)
            && t.events == Acknowledged(x).events + [Event(t.lastEvent, PendingVerification)]
            && Acknowledged(x).request == x.request && Acknowledged(x).thread == Some(x.thread)
  {
  }

  lemma VerifiedFields(x: Race, d: Decision)
    ensures var t := VerifiedBy(x, d);
            && t.status == Verified && t.request == x.request && t.changedFiles == [] && t.acceptance == Some(d)
            && t.beforeHead == t.afterHead == Some(x.request.expectedHead)
  {
    hide Imported;
    ImportedFields(x);
  }

  /** The relayed result is verified by the book. */
  lemma VerifiedByTheBook(reading: ClassReading, gitDiff: Diff, x: Race, d: Decision)
    requires Admitted(reading, x)
    requires IsDecision(d, x.request.expectedHead, x.request.requirements,
                        EvidenceOf(Imported(x), x.verification, x.request.expectedHead, "tests"))
    ensures TaskOk(reading, VerifiedBy(x, d)) && FilesTrue(gitDiff, VerifiedBy(x, d))
            && d.head == x.request.expectedHead
  {
    hide Imported, Acknowledged, Violations, Lower, IsDecision, AcceptsFor, Dispatched, ProviderRefusal, MayDispatch,
    IssuedFor, OneProvider,
      VerifiedFrom, Backs;
    ImportedFields(x);
    var t, head := Imported(x), x.request.expectedHead;
    ResultIsPending(reading, Acknowledged(x), t);
    LowerTwice(x.verification.head);
    AcceptedIffBacked(d, t, x.verification, head, "tests");
    DecisionHead(d, head, x.request.requirements, EvidenceOf(t, x.verification, head, "tests"));
    var decided := t.(acceptance := Some(d));
    SameScope(reading, t, decided, []);
    VerifiedIsSound(reading, gitDiff, decided, x.verification, head);
  }

  lemma DecisionHead(d: Decision, head: string, required: seq<Kind>, evidence: seq<Evidence>)
    requires IsDecision(d, head, required, evidence) && Lower(head) == head
    ensures d.head == head
  {
  }

  /**
   * However such a race goes in detail: when git then fails, the verified record gets a head its decision is not about,
   * and it lists no files although the heads may differ in some. Failing the task, as the worker does next, mends both.
   */
  lemma RaceCorruptsVerified(reading: ClassReading, gitDiff: Diff, x: Race, d: Decision, code: string)
    requires Admitted(reading, x)
    requires IsDecision(d, x.request.expectedHead, x.request.requirements,
                        EvidenceOf(Imported(x), x.verification, x.request.expectedHead, "tests"))
    ensures TaskOk(reading, VerifiedBy(x, d)) && FilesTrue(gitDiff, VerifiedBy(x, d))
    ensures var u := Finished(reading, VerifiedBy(x, d), x.ticket, x.response, Err(code));
            && u.status == Verified && u.acceptance == Some(d)
            && u.afterHead == Some(x.response.afterHead) != Some(d.head)
            && !TaskOk(reading, u)
            && (FilesTrue(gitDiff, u) <==> gitDiff(x.request.expectedHead, x.response.afterHead) == [])
            && TaskOk(reading, FailedWith(u, code, false)) && FilesTrue(gitDiff, FailedWith(u, code, false))
  {
    hide VerifiedBy, Imported, Acknowledged, Dispatched, TaskOk, FilesTrue, IsDecision, Importable, Verifiable,
    ProviderRefusal, MayDispatch,
      IssuedFor, OneProvider, Violations, FailedWith;
    var t, diff := VerifiedBy(x, d), Err(code);
    VerifiedByTheBook(reading, gitDiff, x, d);
    VerifiedFields(x, d);
    FinishKeepsTaskIff(reading, t, x.ticket, x.response, diff);
    FinishKeepsFilesIff(reading, gitDiff, t, x.ticket, x.response, diff);
    FailedIsSound(reading, gitDiff, Finished(reading, t, x.ticket, x.response, diff), code, false);
  }

  function Head(c: char): string { seq(40, _ => c) }

  function ProviderRequest(): Request {
    Request("TASK-1", WORKSPACE_PROJECT, "task/feature", Head('a'), "authority", "key-00001", None, true, true,
            ["src/*"], true, "codex", MutatingMode, [Ci], "")
  }

  function SomeRace(): Race {
    Race(ProviderRequest(), Plan(false, [], Some("codex"), ["codex"], false),
         Ticket("TASK-1", true, Some("codex"), true), "thread", "manual-package",
         VerificationRequest(Head('a'), "receipt-1", true, None, None),
         Response("codex", "thread-2", "pwk-1", Head('a'), Head('b'), []))
  }

  lemma DispatchedFields(request: Request, plan: Plan)
    ensures var t := Dispatched(request, plan);
            t.request == request && t.authorized && t.status == Running && t.receipt == None
            && t.failureCode == request.failureCode
  {
  }

  lemma RaceIsDispatched(x: Race)
    requires x == SomeRace()
    ensures ProviderRefusal(x.request, x.plan, true).None? && MayDispatch(Dispatched(x.request, x.plan), x.plan)
    ensures IssuedFor(x.ticket, Dispatched(x.request, x.plan)) && OneProvider(x.ticket, x.plan)
  {
    hide Dispatched, Head;
    DispatchedFields(x.request, x.plan);
  }

  lemma RaceIsVerified(x: Race)
    requires x == SomeRace()
    ensures Verifiable(Imported(x), x.verification)
  {
    hide Imported, Acknowledged;
    ImportedFields(x);
    assert Lower(Head('a')) == Head('a');
  }

  lemma RaceIsImported(reading: ClassReading, x: Race)
    ensures Importable(reading, Acknowledged(x), x.thread, x.request.expectedHead, x.request.expectedHead, [], Ok([]))
  {
    hide Acknowledged, Imported;
    ImportedFields(x);
  }

  /** Such a race is possible: a writing provider task on its own branch, relayed by hand while its executor works. */
  lemma RaceIsPossible(reading: ClassReading)
    ensures Admitted(reading, SomeRace())
  {
    var x := SomeRace();
    RaceIsDispatched(x);
    RaceIsImported(reading, x);
    RaceIsVerified(x);
    assert Head('a')[0] != Head('b')[0];
    hide Acknowledged, Imported, Dispatched, Importable, Verifiable, ProviderRefusal, MayDispatch, IssuedFor,
    OneProvider, Head;
  }

  function SomeDecision(): Decision { Decision(Head('a'), [Ci], [Ci], [], [], true) }

  lemma RaceIsDecided(x: Race, d: Decision)
    requires x == SomeRace() && d == SomeDecision()
    ensures IsDecision(d, x.request.expectedHead, x.request.requirements,
                       EvidenceOf(Imported(x), x.verification, x.request.expectedHead, "tests"))
  {
    hide Imported, Shows, EvidenceOf, Acknowledged;
    EvidenceShows(Imported(x), x.verification, x.request.expectedHead, "tests");
    assert FirstOccurrences([Ci]) == [Ci] by {
      assert [Ci][..0] == [];
    }
    assert Lower(Head('a')) == Head('a');
  }

  /** The late answer of an admissible dispatch leaves a record verified for a head nobody verified. */
  lemma LateFinishCorruptsVerified(reading: ClassReading, gitDiff: Diff) returns (x: Race, d: Decision, u: Task)
    ensures Admitted(reading, x) && TaskOk(reading, VerifiedBy(x, d))
    ensures u == Finished(reading, VerifiedBy(x, d), x.ticket, x.response, Err("GIT_DIFF_CHANGED_FILES_UNAVAILABLE"))
    ensures u.status == Verified && u.acceptance == Some(d) && u.afterHead != Some(d.head) && !TaskOk(reading, u)
    ensures FilesTrue(gitDiff, u) <==> gitDiff(Head('a'), Head('b')) == []
  {
    x, d := SomeRace(), SomeDecision();
    RaceIsPossible(reading);
    RaceIsDecided(x, d);
    hide Admitted, TaskOk, VerifiedBy, FilesTrue, Imported, IsDecision, EvidenceOf, Finished;
    u := Finished(reading, VerifiedBy(x, d), x.ticket, x.response, Err("GIT_DIFF_CHANGED_FILES_UNAVAILABLE"));
    RaceCorruptsVerified(reading, gitDiff, x, d, "GIT_DIFF_CHANGED_FILES_UNAVAILABLE");
  }

  // --------------------------------------------- a creation that cannot be replayed

  /**
   * Repeating the request that created a task is accepted exactly while the record still has that request's failure
   * code.
   */
  lemma ReplayIsAcceptedIff(t: Task, request: Request)
    requires t.request == request
    ensures SameEnvelope(t, request) <==> t.failureCode == request.failureCode
  {
    assert request.(failureCode := request.failureCode) == request;
  }

  /** After a suspension, which rewrites the failure code, the task's own request is refused as another envelope. */
  lemma SuspensionEndsReplay(was: Task, now: Task)
    requires FailedFrom(was, now) && now.failureCode == Some(SUSPENDED) && was.request.failureCode != Some(SUSPENDED)
    ensures !SameEnvelope(now, was.request)
  {
    ReplayIsAcceptedIff(now, was.request);
  }

  /**
   * The proof task, authorized and routed through the patch relay, is suspended and then refuses its own creation
   * request.
   */
  lemma SuspendedTaskRefusesReplay() returns (request: Request, plan: Plan, t: Task)
    ensures MayDispatch(Dispatched(request, plan), plan) && !IsProviderRuntime(request) && plan.governedRelay
    ensures request.projectId == WORKSPACE_PROJECT && request.taskId == PROOF_TASK && request.workspaceWrite
            && request.needsAuthorization && request.branch == WORKSPACE_BRANCH
    ensures t == Transitioned(Dispatched(request, plan).(failureCode := Some(SUSPENDED)), Failed,
                              AUTOMATIC_DISPATCH_BLOCKED_BY_PROVIDER_ROLE_POLICY, Some(SUSPENDED))
    ensures SameEnvelope(Dispatched(request, plan), request) && !SameEnvelope(t, request)
  {
    request := Request(PROOF_TASK, WORKSPACE_PROJECT, WORKSPACE_BRANCH, Head('a'), "authority", "key-00001", None,
                       false, true, [], true, "codex", MutatingMode, [Ci], "");
    plan := Plan(false, [], Some("codex"), ["codex"], true);
    t := Transitioned(Dispatched(request, plan).(failureCode := Some(SUSPENDED)), Failed,
                      AUTOMATIC_DISPATCH_BLOCKED_BY_PROVIDER_ROLE_POLICY, Some(SUSPENDED));
    DispatchedFields(request, plan);
    ReplayIsAcceptedIff(Dispatched(request, plan), request);
    assert FailedFrom(Dispatched(request, plan), t);
    SuspensionEndsReplay(Dispatched(request, plan), t);
    assert WORKSPACE_BRANCH[0] == 'a' && "task/"[0] == 't';
  }
}
