/**
 * The four-system L4 protocol: five message handlers with idempotent replay over
 * a run record that carries a hash-chained checkpoint log.
 */
module FourSystemL4 {
  import opened Outcomes
  import opened PythonText

  const EVALUATION_IS_NULL := "AttributeError:get"
  const EVALUATION_KEY_MISSING := "KeyError:evaluation"
  const FOUR_SYSTEM_L4_ACCEPT_REQUIRES_EVALUATION_PASS := "FOUR_SYSTEM_L4_ACCEPT_REQUIRES_EVALUATION_PASS"
  const FOUR_SYSTEM_L4_ACCEPT_REQUIRES_EXECUTION_PASS := "FOUR_SYSTEM_L4_ACCEPT_REQUIRES_EXECUTION_PASS"
  const FOUR_SYSTEM_L4_AGENTIC_AUTO_PROMOTION_DENIED := "FOUR_SYSTEM_L4_AGENTIC_AUTO_PROMOTION_DENIED"
  const FOUR_SYSTEM_L4_AGENTIC_CORRELATION_MISMATCH := "FOUR_SYSTEM_L4_AGENTIC_CORRELATION_MISMATCH"
  const FOUR_SYSTEM_L4_AGENTIC_EXTERNAL_REVIEW_REQUIRED := "FOUR_SYSTEM_L4_AGENTIC_EXTERNAL_REVIEW_REQUIRED"
  const FOUR_SYSTEM_L4_AGENTIC_HEAD_MISMATCH := "FOUR_SYSTEM_L4_AGENTIC_HEAD_MISMATCH"
  const FOUR_SYSTEM_L4_AGENTIC_MUTATION_OBSERVED := "FOUR_SYSTEM_L4_AGENTIC_MUTATION_OBSERVED"
  const FOUR_SYSTEM_L4_AGENTIC_PROJECT_MISMATCH := "FOUR_SYSTEM_L4_AGENTIC_PROJECT_MISMATCH"
  const FOUR_SYSTEM_L4_AGENTIC_REPLAY_CONFLICT := "FOUR_SYSTEM_L4_AGENTIC_REPLAY_CONFLICT"
  const FOUR_SYSTEM_L4_AGENTIC_RESULT_REQUIRED := "FOUR_SYSTEM_L4_AGENTIC_RESULT_REQUIRED"
  const FOUR_SYSTEM_L4_AGENTIC_RUN_ID_MISMATCH := "FOUR_SYSTEM_L4_AGENTIC_RUN_ID_MISMATCH"
  const FOUR_SYSTEM_L4_AGENTIC_STATE_PACKAGE_MISMATCH := "FOUR_SYSTEM_L4_AGENTIC_STATE_PACKAGE_MISMATCH"
  const FOUR_SYSTEM_L4_AGENTIC_TASK_MISMATCH := "FOUR_SYSTEM_L4_AGENTIC_TASK_MISMATCH"
  const FOUR_SYSTEM_L4_DECISION_REPLAY_CONFLICT := "FOUR_SYSTEM_L4_DECISION_REPLAY_CONFLICT"
  const FOUR_SYSTEM_L4_EVALUATION_RUN_MISMATCH := "FOUR_SYSTEM_L4_EVALUATION_RUN_MISMATCH"
  const FOUR_SYSTEM_L4_LEARNING_PROJECT_MISMATCH := "FOUR_SYSTEM_L4_LEARNING_PROJECT_MISMATCH"
  const FOUR_SYSTEM_L4_LEARNING_SOURCE_MISMATCH := "FOUR_SYSTEM_L4_LEARNING_SOURCE_MISMATCH"
  const FOUR_SYSTEM_L4_LEARNING_TASK_MISMATCH := "FOUR_SYSTEM_L4_LEARNING_TASK_MISMATCH"
  const FOUR_SYSTEM_L4_MIND_CANONICAL_WRITE_DENIED := "FOUR_SYSTEM_L4_MIND_CANONICAL_WRITE_DENIED"
  const FOUR_SYSTEM_L4_MIND_CORRELATION_MISMATCH := "FOUR_SYSTEM_L4_MIND_CORRELATION_MISMATCH"
  const FOUR_SYSTEM_L4_MIND_MUTATION_MODE_DENIED := "FOUR_SYSTEM_L4_MIND_MUTATION_MODE_DENIED"
  const FOUR_SYSTEM_L4_MIND_PROJECT_MISMATCH := "FOUR_SYSTEM_L4_MIND_PROJECT_MISMATCH"
  const FOUR_SYSTEM_L4_MIND_REPLAY_CONFLICT := "FOUR_SYSTEM_L4_MIND_REPLAY_CONFLICT"
  const FOUR_SYSTEM_L4_MIND_REVIEW_REQUIRED := "FOUR_SYSTEM_L4_MIND_REVIEW_REQUIRED"
  const FOUR_SYSTEM_L4_MIND_RUN_ID_MISMATCH := "FOUR_SYSTEM_L4_MIND_RUN_ID_MISMATCH"
  const FOUR_SYSTEM_L4_MIND_SOURCE_RUN_MISMATCH := "FOUR_SYSTEM_L4_MIND_SOURCE_RUN_MISMATCH"
  const FOUR_SYSTEM_L4_MIND_TASK_MISMATCH := "FOUR_SYSTEM_L4_MIND_TASK_MISMATCH"
  const FOUR_SYSTEM_L4_OPEN_IDEMPOTENCY_CONFLICT := "FOUR_SYSTEM_L4_OPEN_IDEMPOTENCY_CONFLICT"
  const FOUR_SYSTEM_L4_RUN_NOT_FOUND := "FOUR_SYSTEM_L4_RUN_NOT_FOUND"
  const FOUR_SYSTEM_L4_SOVEREIGN_ACK_REPLAY_CONFLICT := "FOUR_SYSTEM_L4_SOVEREIGN_ACK_REPLAY_CONFLICT"
  const FOUR_SYSTEM_L4_SOVEREIGN_CHECKPOINT_REQUIRED := "FOUR_SYSTEM_L4_SOVEREIGN_CHECKPOINT_REQUIRED"
  const FOUR_SYSTEM_L4_SOVEREIGN_ENVELOPE_HASH_MISMATCH := "FOUR_SYSTEM_L4_SOVEREIGN_ENVELOPE_HASH_MISMATCH"
  const READ_ONLY := "READ_ONLY"

  type Hash = string

  // ----------------------------------------------------------------- messages

  datatype Package = Package(executionRunId: string, projectId: string, taskId: string,
                             statePackageId: string, expectedHead: string, terms: string)

  datatype Execution = Execution(projectId: Option<string>, taskId: Option<string>, statePackageId: Option<string>,
                                 beforeHead: string, changedFiles: Option<seq<string>>, runId: Option<string>,
                                 finalResult: Option<string>)

  datatype Evaluation = Evaluation(runId: Option<string>, passed: Option<bool>)

  datatype LearningBundle = LearningBundle(projectId: Option<string>, taskId: Option<string>, sourceSha: string,
                                           runId: Option<string>)

  /**
   * The `evaluation` entry of a result: the key is missing, holds null (or another empty value), or holds an object.
   */
  datatype EvaluationEntry = Absent | Null | Given(value: Evaluation)

  datatype AgenticResult = AgenticResult(execution: Option<Execution>, evaluation: EvaluationEntry,
                                         bundle: Option<LearningBundle>, promoted: Option<bool>,
                                         reviewRequired: Option<bool>)

  datatype AgenticEnvelope = AgenticEnvelope(workspaceRunId: string, correlationId: string, requestSha: Hash,
                                             resultSha: Hash, resumeToken: string, result: AgenticResult)

  datatype MindReview = MindReview(projectId: Option<string>, taskId: Option<string>, runId: Option<string>,
                                   canonicalWriteAllowed: Option<bool>, mutationMode: Option<string>,
                                   reviewId: Option<string>, conflictCount: Option<int>)

  datatype MindEnvelope = MindEnvelope(workspaceRunId: string, correlationId: string, requestSha: Hash,
                                       resultSha: Hash, resumeToken: string, review: MindReview)

  datatype Ack = Ack(documentId: string, revisionId: string, envelopeSha: Hash)

  datatype Verdict = Accepted | ReworkRequired | Rejected

  datatype Message =
    | Open(package: Package, correlationId: string)
    | Agentic(runId: string, agentic: AgenticEnvelope)
    | Mind(runId: string, mind: MindEnvelope)
    | Acknowledge(runId: string, ack: Ack)
    | Decide(runId: string, verdict: Verdict, reason: string)

  // ------------------------------------------------------------------ hashing

  datatype Stage = Opened | AgenticCompleted | MindReviewCompleted | SovereignAcknowledged | Decided(verdict: Verdict)

  /** Everything the service hashes. The hash itself is a parameter of the model. */
  datatype Preimage =
    | OfPackage(package: Package)
    | OfOpening(runId: string, correlationId: string, authoritySha: Hash)
    | OfAgentic(agentic: AgenticEnvelope)
    | OfAgenticSummary(resultSha: Hash, runOf: Option<string>, finalResult: Option<string>, passed: Option<bool>)
    | OfMind(mind: MindEnvelope)
    | OfMindSummary(resultSha: Hash, reviewId: Option<string>, conflictCount: Option<int>)
    | OfAck(ack: Ack)
    | OfDecision(verdict: Verdict, reason: string)
    | OfLink(previous: Hash, number: nat, stage: Stage, payloadSha: Hash)
    | OfSovereign(runId: string, correlationId: string, stage: Stage, chainSha: Hash, authoritySha: Hash,
                  agenticSha: Hash, mindSha: Hash)

  type Hasher = Preimage -> Hash

  datatype Checkpoint = Checkpoint(number: nat, stage: Stage, payloadSha: Hash, chainSha: Hash)

  datatype Run = Run(workspaceRunId: string, correlationId: string, executionRunId: string, stage: Stage,
                     package: Package, authoritySha: Hash, agentic: Option<AgenticEnvelope>, mind: Option<MindEnvelope>,
                     ack: Option<Ack>, verdict: Option<Verdict>, reason: Option<string>, checkpoints: seq<Checkpoint>)

  function Genesis(): Hash {
    seq(64, i => '0')
  }

  function LastHash(checkpoints: seq<Checkpoint>): Hash {
    if checkpoints == [] then Genesis() else checkpoints[|checkpoints| - 1].chainSha
  }

  function WithCheckpoint(h: Hasher, run: Run, stage: Stage, payload: Preimage): Run {
    var number, payloadSha := |run.checkpoints| + 1, h(payload);
    var link := OfLink(LastHash(run.checkpoints), number, stage, payloadSha);
    run.(stage := stage, checkpoints := run.checkpoints + [Checkpoint(number, stage, payloadSha, h(link))])
  }

  // --------------------------------------------------------------- validation

  function AgenticError(package: Package, result: AgenticResult): Option<string> {
    var none := Execution(None, None, None, "", None, None, None);
    var e := if result.execution.Some? then result.execution.value else none;
    var b := if result.bundle.Some? then result.bundle.value else LearningBundle(None, None, "", None);
    var evaluated := if result.evaluation.Given? then result.evaluation.value.runId else None;
    if e.projectId != Some(package.projectId) then Some(FOUR_SYSTEM_L4_AGENTIC_PROJECT_MISMATCH)
    else if e.taskId != Some(package.taskId) then Some(FOUR_SYSTEM_L4_AGENTIC_TASK_MISMATCH)
    else if e.statePackageId != Some(package.statePackageId) then Some(FOUR_SYSTEM_L4_AGENTIC_STATE_PACKAGE_MISMATCH)
    else if Lower(e.beforeHead) != Lower(package.expectedHead) then Some(FOUR_SYSTEM_L4_AGENTIC_HEAD_MISMATCH)
    else if e.changedFiles != Some([]) then Some(FOUR_SYSTEM_L4_AGENTIC_MUTATION_OBSERVED)
    else if result.promoted != Some(false) then Some(FOUR_SYSTEM_L4_AGENTIC_AUTO_PROMOTION_DENIED)
    else if result.reviewRequired != Some(true) then Some(FOUR_SYSTEM_L4_AGENTIC_EXTERNAL_REVIEW_REQUIRED)
    else if b.projectId != Some(package.projectId) then Some(FOUR_SYSTEM_L4_LEARNING_PROJECT_MISMATCH)
    else if b.taskId != Some(package.taskId) then Some(FOUR_SYSTEM_L4_LEARNING_TASK_MISMATCH)
    else if Lower(b.sourceSha) != Lower(package.expectedHead) then Some(FOUR_SYSTEM_L4_LEARNING_SOURCE_MISMATCH)
    else if evaluated != e.runId then Some(FOUR_SYSTEM_L4_EVALUATION_RUN_MISMATCH)
    else None
  }

  function MindError(package: Package, result: AgenticResult, review: MindReview): Option<string>
    requires result.bundle.Some?
  {
    if review.projectId != Some(package.projectId) then Some(FOUR_SYSTEM_L4_MIND_PROJECT_MISMATCH)
    else if review.taskId != Some(package.taskId) then Some(FOUR_SYSTEM_L4_MIND_TASK_MISMATCH)
    else if review.runId != result.bundle.value.runId then Some(FOUR_SYSTEM_L4_MIND_SOURCE_RUN_MISMATCH)
    else if review.canonicalWriteAllowed != Some(false) then Some(FOUR_SYSTEM_L4_MIND_CANONICAL_WRITE_DENIED)
    else if review.mutationMode != Some(READ_ONLY) then Some(FOUR_SYSTEM_L4_MIND_MUTATION_MODE_DENIED)
    else None
  }

  /** An accepted result observed no mutation, promoted nothing and carries its learning bundle. */
  lemma AcceptedResultIsReadOnly(package: Package, result: AgenticResult)
    requires AgenticError(package, result).None?
    ensures result.execution.Some? && result.execution.value.changedFiles == Some([])
    ensures result.bundle.Some? && result.promoted == Some(false) && result.reviewRequired == Some(true)
    ensures Lower(result.execution.value.beforeHead) == Lower(package.expectedHead) ==
              Lower(result.bundle.value.sourceSha)
  {
  }

  /** What a package asks of a result, field by field. */
  ghost predicate FitsPackage(p: Package, result: AgenticResult) {
    && result.execution.Some? && result.bundle.Some?
    && result.promoted == Some(false) && result.reviewRequired == Some(true)
    && var e, b := result.execution.value, result.bundle.value;
       && e.projectId == b.projectId == Some(p.projectId) && e.taskId == b.taskId == Some(p.taskId)
       && e.statePackageId == Some(p.statePackageId) && e.changedFiles == Some([])
       && Lower(e.beforeHead) == Lower(b.sourceSha) == Lower(p.expectedHead)
       && e.runId == if result.evaluation.Given? then result.evaluation.value.runId else None
  }

  ghost predicate ReviewFits(p: Package, result: AgenticResult, review: MindReview) {
    && result.bundle.Some? && review.runId == result.bundle.value.runId
    && review.projectId == Some(p.projectId) && review.taskId == Some(p.taskId)
    && review.canonicalWriteAllowed == Some(false) && review.mutationMode == Some(READ_ONLY)
  }

  lemma ContentChecks(p: Package, result: AgenticResult, review: MindReview)
    ensures AgenticError(p, result).None? <==> FitsPackage(p, result)
    ensures result.bundle.Some? ==> (MindError(p, result, review).None? <==> ReviewFits(p, result, review))
  {
    hide Lower;
  }

  /** Each refusal names what is wrong with the content. */
  lemma ContentErrors(p: Package, result: AgenticResult, review: MindReview)
    ensures var c, e, b := AgenticError(p, result), result.execution, result.bundle;
            && (c == Some(FOUR_SYSTEM_L4_AGENTIC_PROJECT_MISMATCH) ==>
                  e.None? || e.value.projectId != Some(p.projectId))
            && (c == Some(FOUR_SYSTEM_L4_AGENTIC_TASK_MISMATCH) ==> e.Some? && e.value.taskId != Some(p.taskId))
            && (c == Some(FOUR_SYSTEM_L4_AGENTIC_STATE_PACKAGE_MISMATCH) ==>
                  e.Some? && e.value.statePackageId != Some(p.statePackageId))
            && (c == Some(FOUR_SYSTEM_L4_AGENTIC_HEAD_MISMATCH) ==>
                  e.Some? && Lower(e.value.beforeHead) != Lower(p.expectedHead))
            && (c == Some(FOUR_SYSTEM_L4_AGENTIC_MUTATION_OBSERVED) ==> e.Some? && e.value.changedFiles != Some([]))
            && (c == Some(FOUR_SYSTEM_L4_AGENTIC_AUTO_PROMOTION_DENIED) ==> result.promoted != Some(false))
            && (c == Some(FOUR_SYSTEM_L4_AGENTIC_EXTERNAL_REVIEW_REQUIRED) ==> result.reviewRequired != Some(true))
            && (c == Some(FOUR_SYSTEM_L4_LEARNING_PROJECT_MISMATCH) ==>
                  b.None? || b.value.projectId != Some(p.projectId))
            && (c == Some(FOUR_SYSTEM_L4_LEARNING_TASK_MISMATCH) ==> b.Some? && b.value.taskId != Some(p.taskId))
            && (c == Some(FOUR_SYSTEM_L4_LEARNING_SOURCE_MISMATCH) ==>
                  b.Some? && Lower(b.value.sourceSha) != Lower(p.expectedHead))
  {
    hide Lower;
  }

  function AgenticSummary(e: AgenticEnvelope): Preimage
    requires e.result.execution.Some?
  {
    OfAgenticSummary(e.resultSha, e.result.execution.value.runId, e.result.execution.value.finalResult,
                     if e.result.evaluation.Given? then e.result.evaluation.value.passed else None)
  }

  // ---------------------------------------------------------------- invariant

  datatype LogEntry = LogEntry(stage: Stage, payload: Preimage)

  /** The log a run's contents call for. */
  ghost function Log(run: Run): seq<LogEntry> {
    [LogEntry(Opened, OfOpening(run.workspaceRunId, run.correlationId, run.authoritySha))]
    + (if run.agentic.Some? && run.agentic.value.result.execution.Some?
       then [LogEntry(AgenticCompleted, AgenticSummary(run.agentic.value))] else [])
    + (if run.mind.Some?
       then [LogEntry(MindReviewCompleted, OfMindSummary(run.mind.value.resultSha, run.mind.value.review.reviewId,
                                                         run.mind.value.review.conflictCount))]
       else [])
    + (if run.ack.Some? then [LogEntry(SovereignAcknowledged, OfAck(run.ack.value))] else [])
    + (if run.verdict.Some? && run.reason.Some?
       then [LogEntry(Decided(run.verdict.value), OfDecision(run.verdict.value, run.reason.value))] else [])
  }

  /** The reference chain over a log. */
  ghost function Chain(h: Hasher, log: seq<LogEntry>): (c: seq<Checkpoint>)
    ensures |c| == |log|
  {
    if log == [] then [] else
      var earlier, last := Chain(h, log[..|log| - 1]), log[|log| - 1];
      earlier + [Checkpoint(|log|, last.stage, h(last.payload),
                            h(OfLink(LastHash(earlier), |log|, last.stage, h(last.payload))))]
  }

  /** Each part of a run presupposes the parts before it. */
  ghost predicate Nested(run: Run) {
    && (run.mind.Some? ==> run.agentic.Some?)
    && (run.ack.Some? ==> run.mind.Some?)
    && (run.verdict.Some? ==> run.ack.Some?)
    && (run.verdict.Some? <==> run.reason.Some?)
    && (run.agentic.Some? ==> AgenticError(run.package, run.agentic.value.result).None?)
    && (run.mind.Some? ==> run.agentic.value.result.bundle.Some?
                           && MindError(run.package, run.agentic.value.result, run.mind.value.review).None?)
  }

  /** The envelope a sovereign acknowledgement must quote: it depends on the first three checkpoints only. */
  ghost function EnvelopeSha(h: Hasher, run: Run): Hash
    requires run.agentic.Some? && run.mind.Some? && |run.checkpoints| >= 3
  {
    h(OfSovereign(run.workspaceRunId, run.correlationId, MindReviewCompleted, run.checkpoints[2].chainSha,
                  run.authoritySha, run.agentic.value.resultSha, run.mind.value.resultSha))
  }

  ghost predicate Passed(result: AgenticResult) {
    && result.execution.Some? && result.execution.value.finalResult == Some("PASS")
    && result.evaluation.Given? && result.evaluation.value.passed == Some(true)
  }

  /** The recorded envelopes are this run's own. */
  ghost predicate OwnEnvelopes(run: Run) {
    && (run.agentic.Some? ==> run.agentic.value.workspaceRunId == run.workspaceRunId
                              && run.agentic.value.correlationId == run.correlationId)
    && (run.mind.Some? ==> run.mind.value.workspaceRunId == run.workspaceRunId
                           && run.mind.value.correlationId == run.correlationId)
  }

  ghost predicate RunValid(h: Hasher, run: Run) {
    && Nested(run) && OwnEnvelopes(run)
    && run.workspaceRunId == "l4-" + run.executionRunId && run.package.executionRunId == run.executionRunId
    && run.authoritySha == h(OfPackage(run.package))
    && run.checkpoints == Chain(h, Log(run))
    && run.stage == Log(run)[|Log(run)| - 1].stage
    && (run.ack.Some? ==> |run.checkpoints| >= 3 && run.ack.value.envelopeSha == EnvelopeSha(h, run))
    && (run.verdict.Some? ==> run.agentic.Some? && !run.agentic.value.result.evaluation.Absent?)
    && (run.verdict == Some(Accepted) ==> Passed(run.agentic.value.result))
  }

  ghost predicate AllValid(h: Hasher, runs: map<string, Run>) {
    forall id :: id in runs ==> RunValid(h, runs[id]) && runs[id].workspaceRunId == id
  }

  // ------------------------------------------------------- the protocol steps

  function RunIdFor(package: Package): string { "l4-" + package.executionRunId }

  function NewRun(h: Hasher, package: Package, correlationId: string): Run {
    var id, authoritySha := RunIdFor(package), h(OfPackage(package));
    var run := Run(id, correlationId, package.executionRunId, Opened, package, authoritySha, None, None, None, None,
                   None, []);
    WithCheckpoint(h, run, Opened, OfOpening(id, correlationId, authoritySha))
  }

  function OnAgentic(h: Hasher, run: Run, e: AgenticEnvelope): Result<Run> {
    if e.workspaceRunId != run.workspaceRunId then Err(FOUR_SYSTEM_L4_AGENTIC_RUN_ID_MISMATCH)
    else if e.correlationId != run.correlationId then Err(FOUR_SYSTEM_L4_AGENTIC_CORRELATION_MISMATCH)
    else if run.agentic.Some? then
      if h(OfAgentic(run.agentic.value)) != h(OfAgentic(e)) then Err(FOUR_SYSTEM_L4_AGENTIC_REPLAY_CONFLICT)
         else Ok(run)
    else if AgenticError(run.package, e.result).Some? then Err(AgenticError(run.package, e.result).value)
    else Ok(WithCheckpoint(h, run.(agentic := Some(e)), AgenticCompleted, AgenticSummary(e)))
  }

  function OnMind(h: Hasher, run: Run, e: MindEnvelope): Result<Run>
    requires Nested(run)
  {
    if run.agentic.None? then Err(FOUR_SYSTEM_L4_AGENTIC_RESULT_REQUIRED)
    else if e.workspaceRunId != run.workspaceRunId then Err(FOUR_SYSTEM_L4_MIND_RUN_ID_MISMATCH)
    else if e.correlationId != run.correlationId then Err(FOUR_SYSTEM_L4_MIND_CORRELATION_MISMATCH)
    else if run.mind.Some? then
      if h(OfMind(run.mind.value)) != h(OfMind(e)) then Err(FOUR_SYSTEM_L4_MIND_REPLAY_CONFLICT) else Ok(run)
    else if MindError(run.package, run.agentic.value.result, e.review).Some? then
      Err(MindError(run.package, run.agentic.value.result, e.review).value)
    else Ok(WithCheckpoint(h, run.(mind := Some(e)), MindReviewCompleted,
                           OfMindSummary(e.resultSha, e.review.reviewId, e.review.conflictCount)))
  }

  /** The hash of the envelope offered for sovereign acknowledgement, from the run as it stands. */
  function SovereignSha(h: Hasher, run: Run): Result<Hash>
    requires Nested(run)
  {
    if run.mind.None? then Err(FOUR_SYSTEM_L4_MIND_REVIEW_REQUIRED)
    else Ok(h(OfSovereign(run.workspaceRunId, run.correlationId, run.stage, LastHash(run.checkpoints),
                          run.authoritySha, run.agentic.value.resultSha, run.mind.value.resultSha)))
  }

  function OnAck(h: Hasher, run: Run, a: Ack): Result<Run>
    requires Nested(run)
  {
    if run.ack.Some? then
      if h(OfAck(run.ack.value)) != h(OfAck(a)) then Err(FOUR_SYSTEM_L4_SOVEREIGN_ACK_REPLAY_CONFLICT) else Ok(run)
    else if SovereignSha(h, run).Err? then Err(SovereignSha(h, run).code)
    else if a.envelopeSha != SovereignSha(h, run).value then Err(FOUR_SYSTEM_L4_SOVEREIGN_ENVELOPE_HASH_MISMATCH)
    else Ok(WithCheckpoint(h, run.(ack := Some(a)), SovereignAcknowledged, OfAck(a)))
  }

  function OnDecide(h: Hasher, run: Run, verdict: Verdict, reason: string): Result<Run>
    requires Nested(run)
  {
    if run.ack.None? then Err(FOUR_SYSTEM_L4_SOVEREIGN_CHECKPOINT_REQUIRED)
    else if run.verdict.Some? then
      if run.verdict.value != verdict || run.reason.value != reason then Err(FOUR_SYSTEM_L4_DECISION_REPLAY_CONFLICT)
         else Ok(run)
    else if run.agentic.value.result.evaluation.Absent? then Err(EVALUATION_KEY_MISSING)
    else if verdict == Accepted && run.agentic.value.result.execution.value.finalResult != Some("PASS") then
      Err(FOUR_SYSTEM_L4_ACCEPT_REQUIRES_EXECUTION_PASS)
    else if verdict == Accepted && run.agentic.value.result.evaluation.Null? then Err(EVALUATION_IS_NULL)
    else if verdict == Accepted && run.agentic.value.result.evaluation.value.passed != Some(true) then
      Err(FOUR_SYSTEM_L4_ACCEPT_REQUIRES_EVALUATION_PASS)
    else Ok(WithCheckpoint(h, run.(verdict := Some(verdict), reason := Some(reason)), Decided(verdict),
                           OfDecision(verdict, reason)))
  }

  function RunIdOf(m: Message): string {
    if m.Open? then RunIdFor(m.package) else m.runId
  }

  /** What a message does to the run it names. */
  function Handle(h: Hasher, runs: map<string, Run>, m: Message): Result<Run>
    requires RunIdOf(m) in runs ==> Nested(runs[RunIdOf(m)])
  {
    var id := RunIdOf(m);
    if id !in runs then (if m.Open? then Ok(NewRun(h, m.package, m.correlationId))
                         else Err(FOUR_SYSTEM_L4_RUN_NOT_FOUND))
    else
      var run := runs[id];
      match m
      case Open(package, correlationId) =>
        if run.correlationId != correlationId || run.authoritySha != h(OfPackage(package))
        then Err(FOUR_SYSTEM_L4_OPEN_IDEMPOTENCY_CONFLICT) else Ok(run)
      case Agentic(_, e) => OnAgentic(h, run, e)
      case Mind(_, e) => OnMind(h, run, e)
      case Acknowledge(_, a) => OnAck(h, run, a)
      case Decide(_, verdict, reason) => OnDecide(h, run, verdict, reason)
  }

  /** An accepted message stores its run; a refused one changes nothing. */
  function Deliver(h: Hasher, runs: map<string, Run>, m: Message): map<string, Run>
    requires RunIdOf(m) in runs ==> Nested(runs[RunIdOf(m)])
  {
    if Handle(h, runs, m).Ok? then runs[RunIdOf(m) := Handle(h, runs, m).value] else runs
  }

  // ------------------------------------------------------- validity is kept

  lemma ChainGrows(h: Hasher, log: seq<LogEntry>, entry: LogEntry)
    ensures Chain(h, log + [entry]) == Chain(h, log) + [Checkpoint(|log| + 1, entry.stage, h(entry.payload),
              h(OfLink(LastHash(Chain(h, log)), |log| + 1, entry.stage, h(entry.payload))))]
  {
    assert (log + [entry])[..|log|] == log;
  }

  /** Recording one more part of a run extends its log, its chain and its stage alike. */
  lemma CheckpointFollowsLog(h: Hasher, run: Run, next: Run, stage: Stage, payload: Preimage)
    requires run.checkpoints == Chain(h, Log(run)) == next.checkpoints
    requires Log(next) == Log(run) + [LogEntry(stage, payload)]
    ensures var done := WithCheckpoint(h, next, stage, payload);
            done.checkpoints == Chain(h, Log(done)) && done.stage == Log(done)[|Log(done)| - 1].stage
            && Log(done) == Log(next) && done.checkpoints[..|run.checkpoints|] == run.checkpoints
  {
    ChainGrows(h, Log(run), LogEntry(stage, payload));
    var done := WithCheckpoint(h, next, stage, payload);
    assert Log(done) == Log(next);
  }

  lemma LogLength(run: Run)
    requires Nested(run)
    ensures |Log(run)| == 1 + (if run.agentic.Some? then 1 else 0) + (if run.mind.Some? then 1 else 0)
                            + (if run.ack.Some? then 1 else 0) + (if run.verdict.Some? then 1 else 0)
    ensures run.agentic.Some? ==> run.agentic.value.result.execution.Some?
    ensures run.mind.Some? ==> Log(run)[2].stage == MindReviewCompleted
  {
  }

  lemma HandleKeepsValid(h: Hasher, runs: map<string, Run>, m: Message)
    requires AllValid(h, runs)
    ensures Handle(h, runs, m).Ok? ==> RunValid(h, Handle(h, runs, m).value)
                                       && Handle(h, runs, m).value.workspaceRunId == RunIdOf(m)
    ensures Handle(h, runs, m).Ok? && RunIdOf(m) in runs ==> Extends(runs[RunIdOf(m)], Handle(h, runs, m).value)
  {
    hide RunValid, OnAgentic, OnMind, OnAck, OnDecide;
    var id := RunIdOf(m);
    if id !in runs {
      if m.Open? { NewRunIsValid(h, m.package, m.correlationId); }
    } else {
      match m
      case Open(_, _) =>
      case Agentic(_, e) => AgenticKeepsValid(h, runs[id], e);
      case Mind(_, e) => MindKeepsValid(h, runs[id], e);
      case Acknowledge(_, a) => AckKeepsValid(h, runs[id], a);
      case Decide(_, verdict, reason) => DecideKeepsValid(h, runs[id], verdict, reason);
    }
  }

  lemma NewRunIsValid(h: Hasher, package: Package, correlationId: string)
    ensures RunValid(h, NewRun(h, package, correlationId))
  {
    var run := NewRun(h, package, correlationId);
    var entry := LogEntry(Opened, OfOpening(run.workspaceRunId, correlationId, run.authoritySha));
    assert Log(run) == [entry] == [] + [entry];
    ChainGrows(h, [], entry);
    assert Chain(h, []) == [];
  }

  lemma AgenticKeepsValid(h: Hasher, run: Run, e: AgenticEnvelope)
    requires RunValid(h, run)
    ensures OnAgentic(h, run, e).Ok? ==>
              RunValid(h, OnAgentic(h, run, e).value) && Extends(run, OnAgentic(h, run, e).value)
  {
    var r := OnAgentic(h, run, e);
    LogLength(run);
    if r.Ok? && run.agentic.None? {
      var next := run.(agentic := Some(e));
      assert Log(next) == Log(run) + [LogEntry(AgenticCompleted, AgenticSummary(e))];
      CheckpointFollowsLog(h, run, next, AgenticCompleted, AgenticSummary(e));
    }
  }

  lemma MindKeepsValid(h: Hasher, run: Run, e: MindEnvelope)
    requires RunValid(h, run)
    ensures OnMind(h, run, e).Ok? ==> RunValid(h, OnMind(h, run, e).value) && Extends(run, OnMind(h, run, e).value)
  {
    var r := OnMind(h, run, e);
    LogLength(run);
    if r.Ok? && run.mind.None? {
      var next, payload := run.(mind := Some(e)), OfMindSummary(e.resultSha, e.review.reviewId, e.review.conflictCount);
      assert Log(next) == Log(run) + [LogEntry(MindReviewCompleted, payload)];
      CheckpointFollowsLog(h, run, next, MindReviewCompleted, payload);
    }
  }

  lemma AckKeepsValid(h: Hasher, run: Run, a: Ack)
    requires RunValid(h, run)
    ensures OnAck(h, run, a).Ok? ==> RunValid(h, OnAck(h, run, a).value) && Extends(run, OnAck(h, run, a).value)
  {
    hide Lower, AgenticError, MindError;
    var r := OnAck(h, run, a);
    LogLength(run);
    if r.Ok? && run.ack.None? {
      var next := run.(ack := Some(a));
      assert Log(next) == Log(run) + [LogEntry(SovereignAcknowledged, OfAck(a))];
      CheckpointFollowsLog(h, run, next, SovereignAcknowledged, OfAck(a));
      assert SovereignSha(h, run).value == EnvelopeSha(h, run);
      assert EnvelopeSha(h, r.value) == EnvelopeSha(h, run);
    }
  }

  lemma DecideKeepsValid(h: Hasher, run: Run, verdict: Verdict, reason: string)
    requires RunValid(h, run)
    ensures OnDecide(h, run, verdict, reason).Ok? ==>
              RunValid(h, OnDecide(h, run, verdict, reason).value)
              && Extends(run, OnDecide(h, run, verdict, reason).value)
  {
    var r := OnDecide(h, run, verdict, reason);
    LogLength(run);
    if r.Ok? && run.verdict.None? {
      var next, payload := run.(verdict := Some(verdict), reason := Some(reason)), OfDecision(verdict, reason);
      assert Log(next) == Log(run) + [LogEntry(Decided(verdict), payload)];
      CheckpointFollowsLog(h, run, next, Decided(verdict), payload);
      assert EnvelopeSha(h, r.value) == EnvelopeSha(h, run);
    }
  }

  /** Later states of a run keep its identity, every part received and every checkpoint written. */
  ghost predicate Extends(run: Run, later: Run) {
    && later.workspaceRunId == run.workspaceRunId && later.correlationId == run.correlationId
    && later.package == run.package && later.authoritySha == run.authoritySha
    && (run.agentic.Some? ==> later.agentic == run.agentic)
    && (run.mind.Some? ==> later.mind == run.mind)
    && (run.ack.Some? ==> later.ack == run.ack)
    && (run.verdict.Some? ==> later.verdict == run.verdict && later.reason == run.reason)
    && |run.checkpoints| <= |later.checkpoints| && later.checkpoints[..|run.checkpoints|] == run.checkpoints
  }

  /** Delivery keeps every stored run valid; a stored run has what its handlers read. */
  lemma DeliverKeepsValid(h: Hasher, runs: map<string, Run>, m: Message)
    requires AllValid(h, runs)
    ensures AllValid(h, Deliver(h, runs, m))
    ensures RunIdOf(m) in runs ==> StoredFacts(runs[RunIdOf(m)])
  {
    hide RunValid, Handle;
    HandleKeepsValid(h, runs, m);
    if RunIdOf(m) in runs { ValidRunFacts(h, runs[RunIdOf(m)]); }
  }

  ghost predicate StoredFacts(run: Run) {
    && Nested(run)
    && (run.agentic.Some? ==> run.agentic.value.result.execution.Some? && run.agentic.value.result.bundle.Some?)
    && (run.ack.Some? ==> run.agentic.Some?)
  }

  lemma ValidRunFacts(h: Hasher, run: Run)
    requires RunValid(h, run)
    ensures StoredFacts(run)
  {
  }

  // --------------------------------------------------------------- the service

  class Service {
    const h: Hasher
    var runs: map<string, Run>

    ghost predicate Valid()
      reads this
    {
      AllValid(h, runs)
    }

    constructor (h: Hasher)
      ensures Valid() && runs == map[] && this.h == h
    {
      this.h, runs := h, map[];
    }

    method OpenAuthorityRun(package: Package, correlationId: string) returns (r: Result<Run>)
      requires Valid()
      modifies this
      ensures Valid()
      ensures r == Handle(h, old(runs), Open(package, correlationId))
              && runs == Deliver(h, old(runs), Open(package, correlationId))
    {
      hide AllValid, AgenticError, MindError, WithCheckpoint, Lower;
      DeliverKeepsValid(h, runs, Open(package, correlationId));
      var id, authoritySha := RunIdFor(package), h(OfPackage(package));
      if id in runs {
        var existing := runs[id];
        if existing.correlationId != correlationId || existing.authoritySha != authoritySha {
          return Err(FOUR_SYSTEM_L4_OPEN_IDEMPOTENCY_CONFLICT);
        }
        assert runs == runs[id := existing];
        return Ok(existing);
      }
      var record := Run(id, correlationId, package.executionRunId, Opened, package, authoritySha, None, None, None,
                        None, None, []);
      record := WithCheckpoint(h, record, Opened, OfOpening(id, correlationId, authoritySha));
      runs := runs[id := record];
      r := Ok(record);
    }

    method RecordAgentic(id: string, envelope: AgenticEnvelope) returns (r: Result<Run>)
      requires Valid()
      modifies this
      ensures Valid()
      ensures r == Handle(h, old(runs), Agentic(id, envelope)) && runs == Deliver(h, old(runs), Agentic(id, envelope))
      ensures r.Ok? ==> id in old(runs) && envelope.workspaceRunId == old(runs)[id].workspaceRunId
                        && envelope.correlationId == old(runs)[id].correlationId
    {
      hide AllValid, AgenticError, MindError, WithCheckpoint, Lower;
      DeliverKeepsValid(h, runs, Agentic(id, envelope));
      if id !in runs {
        return Err(FOUR_SYSTEM_L4_RUN_NOT_FOUND);
      }
      var record := runs[id];
      if envelope.workspaceRunId != record.workspaceRunId {
        return Err(FOUR_SYSTEM_L4_AGENTIC_RUN_ID_MISMATCH);
      }
      if envelope.correlationId != record.correlationId {
        return Err(FOUR_SYSTEM_L4_AGENTIC_CORRELATION_MISMATCH);
      }
      if record.agentic.Some? {
        if h(OfAgentic(record.agentic.value)) != h(OfAgentic(envelope)) {
          return Err(FOUR_SYSTEM_L4_AGENTIC_REPLAY_CONFLICT);
        }
        assert runs == runs[id := record];
        return Ok(record);
      }
      var error := AgenticError(record.package, envelope.result);
      if error.Some? {
        return Err(error.value);
      }
      AcceptedResultIsReadOnly(record.package, envelope.result);
      record := record.(agentic := Some(envelope));
      record := WithCheckpoint(h, record, AgenticCompleted, AgenticSummary(envelope));
      runs := runs[id := record];
      r := Ok(record);
    }

    method RecordMind(id: string, envelope: MindEnvelope) returns (r: Result<Run>)
      requires Valid()
      modifies this
      ensures Valid()
      ensures r == Handle(h, old(runs), Mind(id, envelope)) && runs == Deliver(h, old(runs), Mind(id, envelope))
      ensures r.Ok? ==> id in old(runs) && envelope.workspaceRunId == old(runs)[id].workspaceRunId
                        && envelope.correlationId == old(runs)[id].correlationId
    {
      hide AllValid, AgenticError, MindError, WithCheckpoint, Lower;
      DeliverKeepsValid(h, runs, Mind(id, envelope));
      if id !in runs {
        return Err(FOUR_SYSTEM_L4_RUN_NOT_FOUND);
      }
      var record := runs[id];
      if record.agentic.None? {
        return Err(FOUR_SYSTEM_L4_AGENTIC_RESULT_REQUIRED);
      }
      if envelope.workspaceRunId != record.workspaceRunId {
        return Err(FOUR_SYSTEM_L4_MIND_RUN_ID_MISMATCH);
      }
      if envelope.correlationId != record.correlationId {
        return Err(FOUR_SYSTEM_L4_MIND_CORRELATION_MISMATCH);
      }
      if record.mind.Some? {
        if h(OfMind(record.mind.value)) != h(OfMind(envelope)) {
          return Err(FOUR_SYSTEM_L4_MIND_REPLAY_CONFLICT);
        }
        assert runs == runs[id := record];
        return Ok(record);
      }
      var error := MindError(record.package, record.agentic.value.result, envelope.review);
      if error.Some? {
        return Err(error.value);
      }
      record := record.(mind := Some(envelope));
      record := WithCheckpoint(h, record, MindReviewCompleted,
                               OfMindSummary(envelope.resultSha, envelope.review.reviewId,
                                             envelope.review.conflictCount));
      runs := runs[id := record];
      r := Ok(record);
    }

    method AcknowledgeSovereign(id: string, ack: Ack) returns (r: Result<Run>)
      requires Valid()
      modifies this
      ensures Valid()
      ensures r == Handle(h, old(runs), Acknowledge(id, ack)) && runs == Deliver(h, old(runs), Acknowledge(id, ack))
    {
      hide AllValid, AgenticError, MindError, WithCheckpoint, Lower;
      DeliverKeepsValid(h, runs, Acknowledge(id, ack));
      if id !in runs {
        return Err(FOUR_SYSTEM_L4_RUN_NOT_FOUND);
      }
      var record := runs[id];
      if record.ack.Some? {
        if h(OfAck(record.ack.value)) != h(OfAck(ack)) {
          return Err(FOUR_SYSTEM_L4_SOVEREIGN_ACK_REPLAY_CONFLICT);
        }
        assert runs == runs[id := record];
        return Ok(record);
      }
      var expected := SovereignSha(h, record);
      if expected.Err? {
        return Err(expected.code);
      }
      if ack.envelopeSha != expected.value {
        return Err(FOUR_SYSTEM_L4_SOVEREIGN_ENVELOPE_HASH_MISMATCH);
      }
      record := record.(ack := Some(ack));
      record := WithCheckpoint(h, record, SovereignAcknowledged, OfAck(ack));
      runs := runs[id := record];
      r := Ok(record);
    }

    method RecordDecision(id: string, verdict: Verdict, reason: string) returns (r: Result<Run>)
      requires Valid()
      modifies this
      ensures Valid()
      ensures r == Handle(h, old(runs), Decide(id, verdict, reason))
              && runs == Deliver(h, old(runs), Decide(id, verdict, reason))
    {
      hide AllValid, AgenticError, MindError, WithCheckpoint, Lower;
      DeliverKeepsValid(h, runs, Decide(id, verdict, reason));
      if id !in runs {
        return Err(FOUR_SYSTEM_L4_RUN_NOT_FOUND);
      }
      var record := runs[id];
      if record.ack.None? {
        return Err(FOUR_SYSTEM_L4_SOVEREIGN_CHECKPOINT_REQUIRED);
      }
      if record.verdict.Some? {
        if record.verdict.value != verdict || record.reason.value != reason {
          return Err(FOUR_SYSTEM_L4_DECISION_REPLAY_CONFLICT);
        }
        assert runs == runs[id := record];
        return Ok(record);
      }
      var result := record.agentic.value.result;
      if result.evaluation.Absent? {
        return Err(EVALUATION_KEY_MISSING);
      }
      if verdict == Accepted {
        if result.execution.value.finalResult != Some("PASS") {
          return Err(FOUR_SYSTEM_L4_ACCEPT_REQUIRES_EXECUTION_PASS);
        }
        if result.evaluation.Null? {
          return Err(EVALUATION_IS_NULL);
        }
        if result.evaluation.value.passed != Some(true) {
          return Err(FOUR_SYSTEM_L4_ACCEPT_REQUIRES_EVALUATION_PASS);
        }
      }
      record := record.(verdict := Some(verdict), reason := Some(reason));
      record := WithCheckpoint(h, record, Decided(verdict), OfDecision(verdict, reason));
      runs := runs[id := record];
      r := Ok(record);
    }
  }

  // -------------------------------------------------------------- whole runs

  /** The states reached by delivering the messages in order, accepted or not. */
  ghost predicate IsHistory(h: Hasher, messages: seq<Message>, states: seq<map<string, Run>>) {
    && |states| == |messages| + 1 && states[0] == map[]
    && forall t: nat :: t < |messages| ==> DeliveredAt(h, messages, states, t)
  }

  ghost predicate DeliveredAt(h: Hasher, messages: seq<Message>, states: seq<map<string, Run>>, t: nat) {
    && t < |messages| && t + 1 < |states|
    && (RunIdOf(messages[t]) in states[t] ==> Nested(states[t][RunIdOf(messages[t])]))
    && states[t + 1] == Deliver(h, states[t], messages[t])
  }

  /** Every reachable run is valid. */
  lemma {:induction false} HistoriesAreValid(h: Hasher, messages: seq<Message>, states: seq<map<string, Run>>, t: nat)
    requires IsHistory(h, messages, states) && t <= |messages|
    ensures AllValid(h, states[t])
  {
    hide RunValid, Handle, Nested, Extends;
    if t > 0 {
      HistoriesAreValid(h, messages, states, t - 1);
      assert DeliveredAt(h, messages, states, t - 1);
      HandleKeepsValid(h, states[t - 1], messages[t - 1]);
    }
  }

  /** No message is ever undeliverable: every history can go on with any message. */
  lemma HistoryGoesOn(h: Hasher, messages: seq<Message>, states: seq<map<string, Run>>, m: Message)
    requires IsHistory(h, messages, states)
    ensures RunIdOf(m) in states[|messages|] ==> Nested(states[|messages|][RunIdOf(m)])
    ensures IsHistory(h, messages + [m], states + [Deliver(h, states[|messages|], m)])
  {
    hide RunValid, Handle, Nested, Extends, Deliver;
    var last := states[|messages|];
    HistoriesAreValid(h, messages, states, |messages|);
    DeliverKeepsValid(h, last, m);
    var messages', states' := messages + [m], states + [Deliver(h, last, m)];
    forall t: nat | t < |messages'| ensures DeliveredAt(h, messages', states', t) {
      if t < |messages| { assert DeliveredAt(h, messages, states, t); }
    }
  }

  lemma ExtendsItself(run: Run)
    ensures Extends(run, run)
  {
    assert run.checkpoints[..|run.checkpoints|] == run.checkpoints;
  }

  lemma ExtendsIsTransitive(a: Run, b: Run, c: Run)
    requires Extends(a, b) && Extends(b, c)
    ensures Extends(a, c)
  {
    assert c.checkpoints[..|b.checkpoints|][..|a.checkpoints|] == c.checkpoints[..|a.checkpoints|];
  }

  lemma {:induction false} RunsOnlyGrow(h: Hasher, messages: seq<Message>, states: seq<map<string, Run>>, s: nat,
                                        t: nat, id: string)
    requires IsHistory(h, messages, states) && s <= t <= |messages| && id in states[s]
    ensures id in states[t] && Extends(states[s][id], states[t][id])
  {
    hide RunValid, Handle, Nested, Extends;
    if s == t {
      ExtendsItself(states[s][id]);
    } else {
      RunsOnlyGrow(h, messages, states, s, t - 1, id);
      HistoriesAreValid(h, messages, states, t - 1);
      assert DeliveredAt(h, messages, states, t - 1);
      HandleKeepsValid(h, states[t - 1], messages[t - 1]);
      if states[t][id] == states[t - 1][id] {
        ExtendsItself(states[t][id]);
      }
      ExtendsIsTransitive(states[s][id], states[t - 1][id], states[t][id]);
    }
  }

  /** What an accepted message leaves behind makes it, and any later copy of it, a replay. */
  lemma AcceptedStaysAccepted(h: Hasher, runs: map<string, Run>, m: Message, later: map<string, Run>)
    requires AllValid(h, runs) && AllValid(h, later)
    requires Handle(h, runs, m).Ok? && RunIdOf(m) in later
    requires Extends(Handle(h, runs, m).value, later[RunIdOf(m)])
    ensures Handle(h, later, m) == Ok(later[RunIdOf(m)]) && Deliver(h, later, m) == later
  {
    hide RunValid, OnAgentic, OnMind, OnAck, OnDecide, WithCheckpoint;
    var id := RunIdOf(m);
    ValidRunFacts(h, later[id]);
    if id in runs { ValidRunFacts(h, runs[id]); }
    assert later == later[id := later[id]];
    match m
    case Open(package, correlationId) => OpenReplays(h, package, correlationId);
    case Agentic(_, e) => AgenticReplays(h, runs[id], e, later[id]);
    case Mind(_, e) => MindReplays(h, runs[id], e, later[id]);
    case Acknowledge(_, a) => AckReplays(h, runs[id], a, later[id]);
    case Decide(_, verdict, reason) => DecideReplays(h, runs[id], verdict, reason, later[id]);
  }

  lemma OpenReplays(h: Hasher, package: Package, correlationId: string)
    ensures var run := NewRun(h, package, correlationId);
            run.correlationId == correlationId && run.authoritySha == h(OfPackage(package))
  {
  }

  lemma AgenticReplays(h: Hasher, run: Run, e: AgenticEnvelope, later: Run)
    requires OnAgentic(h, run, e).Ok? && Extends(OnAgentic(h, run, e).value, later)
    ensures OnAgentic(h, later, e) == Ok(later)
  {
  }

  lemma MindReplays(h: Hasher, run: Run, e: MindEnvelope, later: Run)
    requires Nested(run) && Nested(later) && OnMind(h, run, e).Ok? && Extends(OnMind(h, run, e).value, later)
    ensures OnMind(h, later, e) == Ok(later)
  {
  }

  lemma AckReplays(h: Hasher, run: Run, a: Ack, later: Run)
    requires Nested(run) && Nested(later) && OnAck(h, run, a).Ok? && Extends(OnAck(h, run, a).value, later)
    ensures OnAck(h, later, a) == Ok(later)
  {
    hide AgenticError, MindError, Lower, LastHash;
  }

  lemma DecideReplays(h: Hasher, run: Run, verdict: Verdict, reason: string, later: Run)
    requires Nested(run) && Nested(later) && OnDecide(h, run, verdict, reason).Ok?
    requires Extends(OnDecide(h, run, verdict, reason).value, later)
    ensures OnDecide(h, later, verdict, reason) == Ok(later)
  {
    hide AgenticError, MindError, Lower, LastHash;
  }

  /** Redelivering any accepted message at any later time changes nothing. */
  lemma RedeliveryChangesNothing(h: Hasher, messages: seq<Message>, states: seq<map<string, Run>>, s: nat, t: nat,
                                 m: Message)
    requires IsHistory(h, messages, states) && s < t <= |messages| && m == messages[s]
    requires RunIdOf(m) in states[s] ==> Nested(states[s][RunIdOf(m)])
    requires Handle(h, states[s], m).Ok?
    ensures RunIdOf(m) in states[t] && Nested(states[t][RunIdOf(m)])
    ensures Handle(h, states[t], m) == Ok(states[t][RunIdOf(m)]) && Deliver(h, states[t], m) == states[t]
  {
    hide RunValid, Handle, Nested;
    assert DeliveredAt(h, messages, states, s);
    HistoriesAreValid(h, messages, states, s);
    HistoriesAreValid(h, messages, states, t);
    RunsOnlyGrow(h, messages, states, s + 1, t, RunIdOf(m));
    ValidRunFacts(h, states[t][RunIdOf(m)]);
    AcceptedStaysAccepted(h, states[s], m, states[t]);
  }

  // --------------------------------------------------------- reading the log

  /** The stages of a valid run are a beginning of the five protocol stages, in order. */
  lemma StagesInOrder(h: Hasher, run: Run, i: nat)
    requires RunValid(h, run) && i < |run.checkpoints|
    ensures |run.checkpoints| <= 5 && run.checkpoints[i].number == i + 1
    ensures match i
            case 0 => run.checkpoints[i].stage == Opened
            case 1 => run.checkpoints[i].stage == AgenticCompleted
            case 2 => run.checkpoints[i].stage == MindReviewCompleted
            case 3 => run.checkpoints[i].stage == SovereignAcknowledged
            case _ => run.verdict.Some? && run.checkpoints[i].stage == Decided(run.verdict.value)
  {
    LogLength(run);
    ChainReadsLog(h, Log(run), i);
  }

  lemma {:induction false} ChainReadsLog(h: Hasher, log: seq<LogEntry>, i: nat)
    requires i < |log|
    ensures Chain(h, log)[i].number == i + 1 && Chain(h, log)[i].stage == log[i].stage
    ensures Chain(h, log)[i].payloadSha == h(log[i].payload)
  {
    if i < |log| - 1 {
      ChainReadsLog(h, log[..|log| - 1], i);
    }
  }

  /** The link hash never gives one value to two different links. */
  ghost predicate LinksCollisionFree(h: Hasher) {
    forall x: Preimage, y: Preimage :: x.OfLink? && y.OfLink? && h(x) == h(y) ==> x == y
  }

  /** Equal final hashes mean equal logs: same length, same stages, same payload hashes. */
  lemma {:induction false} FinalHashFixesLog(h: Hasher, a: seq<LogEntry>, b: seq<LogEntry>)
    requires LinksCollisionFree(h) && a != [] && b != []
    requires LastHash(Chain(h, a)) == LastHash(Chain(h, b))
    ensures Chain(h, a) == Chain(h, b)
  {
    var a', b' := a[..|a| - 1], b[..|b| - 1];
    var x := OfLink(LastHash(Chain(h, a')), |a|, a[|a| - 1].stage, h(a[|a| - 1].payload));
    var y := OfLink(LastHash(Chain(h, b')), |b|, b[|b| - 1].stage, h(b[|b| - 1].payload));
    assert h(x) == h(y);
    if |a| > 1 {
      FinalHashFixesLog(h, a', b');
    }
  }

  /** The hash never gives one value to two different things. */
  ghost predicate CollisionFree(h: Hasher) {
    forall x: Preimage, y: Preimage :: h(x) == h(y) ==> x == y
  }

  /** What each checkpoint of a valid run was made from. */
  lemma LogOf(run: Run)
    requires Nested(run)
    ensures Log(run)[0].payload == OfOpening(run.workspaceRunId, run.correlationId, run.authoritySha)
    ensures run.agentic.Some? ==>
              && run.agentic.value.result.execution.Some? && |Log(run)| > 1
              && var result := run.agentic.value.result;
                 Log(run)[1].payload == OfAgenticSummary(run.agentic.value.resultSha, result.execution.value.runId,
                                                         result.execution.value.finalResult, PassedEntry(result))
    ensures run.mind.Some? ==>
              && |Log(run)| > 2
              && Log(run)[2].payload == OfMindSummary(run.mind.value.resultSha, run.mind.value.review.reviewId,
                                                      run.mind.value.review.conflictCount)
    ensures run.ack.Some? ==> |Log(run)| > 3 && Log(run)[3].payload == OfAck(run.ack.value)
    ensures run.verdict.Some? ==>
              |Log(run)| > 4 && Log(run)[4].payload == OfDecision(run.verdict.value, run.reason.value)
  {
    hide AgenticError, MindError, Lower;
    LogLength(run);
  }

  function PassedEntry(result: AgenticResult): Option<bool> {
    match result.evaluation
    case Given(evaluation) => evaluation.passed
    case _ => None
  }

  /** The last chain hash of a run fixes everything the run was opened with, was told and decided. */
  lemma FinalHashFixesRun(h: Hasher, a: Run, b: Run)
    requires CollisionFree(h) && RunValid(h, a) && RunValid(h, b)
    requires LastHash(a.checkpoints) == LastHash(b.checkpoints)
    ensures a.checkpoints == b.checkpoints && a.stage == b.stage
    ensures a.workspaceRunId == b.workspaceRunId && a.correlationId == b.correlationId && a.package == b.package
    ensures a.ack == b.ack && a.verdict == b.verdict && a.reason == b.reason
    ensures (a.agentic.Some? <==> b.agentic.Some?) && (a.mind.Some? <==> b.mind.Some?)
    ensures a.agentic.Some? ==>
              var x, y := a.agentic.value, b.agentic.value;
              && x.resultSha == y.resultSha && x.result.execution.Some? && y.result.execution.Some?
              && x.result.execution.value.runId == y.result.execution.value.runId
              && x.result.execution.value.finalResult == y.result.execution.value.finalResult
              && PassedEntry(x.result) == PassedEntry(y.result)
    ensures a.mind.Some? ==>
              var x, y := a.mind.value, b.mind.value;
              && x.resultSha == y.resultSha && x.review.reviewId == y.review.reviewId
              && x.review.conflictCount == y.review.conflictCount
  {
    FinalHashFixesLog(h, Log(a), Log(b));
    LogLength(a);
    LogLength(b);
    LogOf(a);
    LogOf(b);
    hide Log, AgenticError, MindError, Lower, EnvelopeSha, Passed;
    forall i: nat | i < |Log(a)| ensures Log(a)[i].payload == Log(b)[i].payload {
      ChainReadsLog(h, Log(a), i);
      ChainReadsLog(h, Log(b), i);
    }
    assert OfPackage(a.package) == OfPackage(b.package);
  }

  /**
   * An accepted run is bound to its authority package, observed no mutation, passed, was reviewed read-only and
   * acknowledged.
   */
  lemma AcceptedRunIsBound(h: Hasher, run: Run)
    requires RunValid(h, run) && run.verdict == Some(Accepted)
    ensures run.agentic.Some? && run.mind.Some? && run.ack.Some? && |run.checkpoints| == 5
    ensures run.ack.value.envelopeSha == EnvelopeSha(h, run)
    ensures run.agentic.value.workspaceRunId == run.mind.value.workspaceRunId == run.workspaceRunId
    ensures run.agentic.value.correlationId == run.mind.value.correlationId == run.correlationId
    ensures var result, review, p := run.agentic.value.result, run.mind.value.review, run.package;
            && Passed(result) && result.bundle.Some?
            && var e, b := result.execution.value, result.bundle.value;
               && e.projectId == b.projectId == review.projectId == Some(p.projectId)
               && e.taskId == b.taskId == review.taskId == Some(p.taskId)
               && e.statePackageId == Some(p.statePackageId)
               && Lower(e.beforeHead) == Lower(b.sourceSha) == Lower(p.expectedHead)
               && e.changedFiles == Some([]) && result.promoted == Some(false) && result.reviewRequired == Some(true)
               && result.evaluation.value.runId == e.runId && review.runId == b.runId
               && review.canonicalWriteAllowed == Some(false) && review.mutationMode == Some(READ_ONLY)
  {
    LogLength(run);
  }

  // ---------------------------------------- what each message does to its run

  /** A repeated message is taken iff it is the recorded one, and then changes nothing. */
  lemma SecondMessage(h: Hasher, runs: map<string, Run>, m: Message)
    requires CollisionFree(h) && AllValid(h, runs) && RunIdOf(m) in runs && Nested(runs[RunIdOf(m)])
    ensures var run, r := runs[RunIdOf(m)], Handle(h, runs, m);
            match m
            case Open(package, correlationId) =>
              r == if correlationId == run.correlationId && package == run.package then Ok(run)
                   else Err(FOUR_SYSTEM_L4_OPEN_IDEMPOTENCY_CONFLICT)
            case Agentic(id, e) =>
              run.agentic.Some? ==>
                r == if e == run.agentic.value then Ok(run)
                     else if e.workspaceRunId != id then Err(FOUR_SYSTEM_L4_AGENTIC_RUN_ID_MISMATCH)
                     else if e.correlationId != run.correlationId then Err(FOUR_SYSTEM_L4_AGENTIC_CORRELATION_MISMATCH)
                     else Err(FOUR_SYSTEM_L4_AGENTIC_REPLAY_CONFLICT)
            case Mind(id, e) =>
              run.mind.Some? ==>
                r == if e == run.mind.value then Ok(run)
                     else if e.workspaceRunId != id then Err(FOUR_SYSTEM_L4_MIND_RUN_ID_MISMATCH)
                     else if e.correlationId != run.correlationId then Err(FOUR_SYSTEM_L4_MIND_CORRELATION_MISMATCH)
                     else Err(FOUR_SYSTEM_L4_MIND_REPLAY_CONFLICT)
            case Acknowledge(_, a) =>
              run.ack.Some? ==>
                r == if a == run.ack.value then Ok(run) else Err(FOUR_SYSTEM_L4_SOVEREIGN_ACK_REPLAY_CONFLICT)
            case Decide(_, verdict, reason) =>
              run.verdict.Some? ==>
                r == if Some(verdict) == run.verdict && Some(reason) == run.reason then Ok(run)
                     else Err(FOUR_SYSTEM_L4_DECISION_REPLAY_CONFLICT)
  {
    hide AgenticError, MindError, WithCheckpoint, Lower, Log, Chain, EnvelopeSha, Passed, SovereignSha;
    var run := runs[RunIdOf(m)];
    assert RunValid(h, run);
    if m.Open? && h(OfPackage(m.package)) == run.authoritySha {
      assert OfPackage(m.package) == OfPackage(run.package);
    }
    if m.Agentic? && run.agentic.Some? && h(OfAgentic(m.agentic)) == h(OfAgentic(run.agentic.value)) {
      assert OfAgentic(m.agentic) == OfAgentic(run.agentic.value);
    }
    if m.Mind? && run.mind.Some? && h(OfMind(m.mind)) == h(OfMind(run.mind.value)) {
      assert OfMind(m.mind) == OfMind(run.mind.value);
    }
    if m.Acknowledge? && run.ack.Some? && h(OfAck(m.ack)) == h(OfAck(run.ack.value)) {
      assert OfAck(m.ack) == OfAck(run.ack.value);
    }
  }

  /** A first agentic result is taken iff it is this run's own and fits the package. */
  lemma FirstAgentic(h: Hasher, runs: map<string, Run>, id: string, e: AgenticEnvelope)
    requires AllValid(h, runs) && id in runs && Nested(runs[id]) && runs[id].agentic.None?
    ensures var run, r := runs[id], Handle(h, runs, Agentic(id, e));
            && (r.Ok? <==> e.workspaceRunId == id && e.correlationId == run.correlationId
                           && FitsPackage(run.package, e.result))
            && (r.Ok? ==> r.value == run.(agentic := Some(e), stage := AgenticCompleted,
                                          checkpoints := r.value.checkpoints))
  {
    ContentChecks(runs[id].package, e.result, MindReview(None, None, None, None, None, None, None));
    hide RunValid, AgenticError, MindError, FitsPackage, Nested;
  }

  /** A first review is taken iff there is a result, the review is this run's own and it fits both. */
  lemma FirstMind(h: Hasher, runs: map<string, Run>, id: string, e: MindEnvelope)
    requires AllValid(h, runs) && id in runs && Nested(runs[id]) && runs[id].mind.None?
    ensures var run, r := runs[id], Handle(h, runs, Mind(id, e));
            && (r.Ok? <==> run.agentic.Some? && e.workspaceRunId == id && e.correlationId == run.correlationId
                           && ReviewFits(run.package, run.agentic.value.result, e.review))
            && (r.Ok? ==> r.value == run.(mind := Some(e), stage := MindReviewCompleted,
                                          checkpoints := r.value.checkpoints))
  {
    ValidRunFacts(h, runs[id]);
    if runs[id].agentic.Some? { ContentChecks(runs[id].package, runs[id].agentic.value.result, e.review); }
    hide RunValid, AgenticError, MindError, ReviewFits, Nested;
  }

  /** Until it is acknowledged, a reviewed run offers the envelope of its first three checkpoints. */
  lemma EnvelopeOffered(h: Hasher, run: Run)
    requires RunValid(h, run) && run.ack.None?
    ensures if run.mind.None? then SovereignSha(h, run).Err?
            else && run.agentic.Some? && |run.checkpoints| == 3
                 && SovereignSha(h, run) == Ok(EnvelopeSha(h, run))
  {
    hide AgenticError, MindError, Lower;
    LogLength(run);
  }

  /** A first acknowledgement is taken iff the review is there and it quotes the envelope of the three checkpoints. */
  lemma FirstAck(h: Hasher, runs: map<string, Run>, id: string, a: Ack)
    requires AllValid(h, runs) && id in runs && Nested(runs[id]) && runs[id].ack.None?
    ensures var run, r := runs[id], Handle(h, runs, Acknowledge(id, a));
            && (run.mind.Some? ==> |run.checkpoints| == 3)
            && (r.Ok? <==> run.mind.Some? && a.envelopeSha == EnvelopeSha(h, run))
            && (r.Ok? ==> r.value == run.(ack := Some(a), stage := SovereignAcknowledged,
                                          checkpoints := r.value.checkpoints))
  {
    hide RunValid, Nested, SovereignSha, EnvelopeSha;
    EnvelopeOffered(h, runs[id]);
  }

  /** What comes of a first decision: it is taken iff the run is acknowledged and the recorded result allows it. */
  ghost predicate FirstDecisionGives(run: Run, verdict: Verdict, reason: string, r: Result<Run>)
    requires run.ack.Some? ==> run.agentic.Some?
  {
    && (r.Ok? <==> run.ack.Some? && !run.agentic.value.result.evaluation.Absent?
                   && (verdict == Accepted ==> Passed(run.agentic.value.result)))
    && (r.Ok? ==> r.value == run.(verdict := Some(verdict), reason := Some(reason), stage := Decided(verdict),
                                  checkpoints := r.value.checkpoints))
  }

  lemma DecisionIsRecorded(h: Hasher, run: Run, verdict: Verdict, reason: string)
    requires RunValid(h, run) && run.verdict.None?
    ensures StoredFacts(run) && FirstDecisionGives(run, verdict, reason, OnDecide(h, run, verdict, reason))
  {
    ValidRunFacts(h, run);
    if run.ack.Some? { VerdictsPossible(h, run, verdict, reason); }
    hide RunValid, AgenticError, MindError, Lower, LastHash, Passed;
  }

  lemma FirstDecision(h: Hasher, runs: map<string, Run>, id: string, verdict: Verdict, reason: string)
    requires AllValid(h, runs) && id in runs && Nested(runs[id]) && runs[id].verdict.None?
    ensures StoredFacts(runs[id])
            && FirstDecisionGives(runs[id], verdict, reason, Handle(h, runs, Decide(id, verdict, reason)))
  {
    hide RunValid, Nested, FirstDecisionGives, OnDecide;
    DecisionIsRecorded(h, runs[id], verdict, reason);
  }

  /** To an unknown run only an opening means anything; it starts the run of its package. */
  lemma UnknownRun(h: Hasher, runs: map<string, Run>, m: Message)
    requires RunIdOf(m) !in runs
    ensures var r := Handle(h, runs, m);
            if m.Open? then r.Ok? && r.value.package == m.package && r.value.correlationId == m.correlationId
                            && RunIdOf(m) == "l4-" + m.package.executionRunId == r.value.workspaceRunId
                            && r.value.stage == Opened && r.value.agentic.None? && r.value.mind.None?
                            && r.value.ack.None? && r.value.verdict.None? && RunValid(h, r.value)
            else RunIdOf(m) == m.runId && r == Err(FOUR_SYSTEM_L4_RUN_NOT_FOUND)
  {
    if m.Open? { NewRunIsValid(h, m.package, m.correlationId); }
    hide RunValid;
  }

  // ------------------------------------------------- which runs can be decided

  /** An acknowledged run without a verdict takes exactly these verdicts, whatever the reason given. */
  lemma VerdictsPossible(h: Hasher, run: Run, verdict: Verdict, reason: string)
    requires RunValid(h, run) && run.ack.Some? && run.verdict.None?
    ensures OnDecide(h, run, verdict, reason).Ok? <==>
              !run.agentic.value.result.evaluation.Absent? && (verdict == Accepted ==> Passed(run.agentic.value.result))
  {
    hide Lower, Chain, Log, EnvelopeSha;
  }

  /**
   * Some decision is possible iff the recorded result has the evaluation key; null is enough, though not for ACCEPTED.
   */
  lemma DecidableIff(h: Hasher, run: Run)
    requires RunValid(h, run) && run.ack.Some? && run.verdict.None?
    ensures (exists verdict, reason :: OnDecide(h, run, verdict, reason).Ok?) <==>
              !run.agentic.value.result.evaluation.Absent?
    ensures run.agentic.value.result.evaluation.Null? ==>
              forall verdict, reason :: OnDecide(h, run, verdict, reason).Ok? <==> verdict != Accepted
  {
    ValidRunFacts(h, run);
    hide OnDecide, RunValid, Passed, Nested;
    forall verdict, reason
      ensures OnDecide(h, run, verdict, reason).Ok? <==>
                !run.agentic.value.result.evaluation.Absent?
                && (verdict == Accepted ==> Passed(run.agentic.value.result))
    {
      VerdictsPossible(h, run, verdict, reason);
    }
    NullIsNotPassed(run.agentic.value.result);
    if !run.agentic.value.result.evaluation.Absent? {
      assert OnDecide(h, run, Rejected, "").Ok?;
    }
  }

  lemma NullIsNotPassed(result: AgenticResult)
    ensures result.evaluation.Null? ==> !Passed(result)
  {
  }

  /**
   * Once a result without the evaluation key is recorded, its run is undecided in every later state of every history.
   */
  lemma MissingEvaluationBlocksDecision(h: Hasher, messages: seq<Message>, states: seq<map<string, Run>>, s: nat,
                                        t: nat, id: string)
    requires IsHistory(h, messages, states) && s <= t <= |messages| && id in states[s]
    requires states[s][id].agentic.Some? && states[s][id].agentic.value.result.evaluation.Absent?
    ensures id in states[t] && states[t][id].verdict.None?
  {
    hide Handle, Nested;
    RunsOnlyGrow(h, messages, states, s, t, id);
    HistoriesAreValid(h, messages, states, t);
    ExtendsKeepsAgentic(states[s][id], states[t][id]);
    DecidedHasEvaluation(h, states[t][id]);
  }

  lemma DecidedHasEvaluation(h: Hasher, run: Run)
    requires RunValid(h, run)
    ensures run.verdict.Some? ==> run.agentic.Some? && !run.agentic.value.result.evaluation.Absent?
  {
  }

  lemma ExtendsKeepsAgentic(run: Run, later: Run)
    requires Extends(run, later) && run.agentic.Some?
    ensures later.agentic == run.agentic
  {
  }

  ghost predicate AcceptedAt(h: Hasher, messages: seq<Message>, states: seq<map<string, Run>>, t: nat) {
    DeliveredAt(h, messages, states, t) && Handle(h, states[t], messages[t]).Ok?
  }

  /** A read-only result for the package with the given evaluation entry. */
  function ResultWith(package: Package, entry: EvaluationEntry, finalResult: Option<string>): AgenticResult {
    var runId := if entry.Given? then entry.value.runId else None;
    AgenticResult(Some(Execution(Some(package.projectId), Some(package.taskId), Some(package.statePackageId),
                                 package.expectedHead, Some([]), runId, finalResult)),
                  entry, Some(LearningBundle(Some(package.projectId), Some(package.taskId), package.expectedHead,
                                             runId)),
                  Some(false), Some(true))
  }

  function ReviewOf(package: Package, result: AgenticResult, reviewId: Option<string>,
                    conflicts: Option<int>): MindReview
    requires result.bundle.Some?
  {
    MindReview(Some(package.projectId), Some(package.taskId), result.bundle.value.runId, Some(false), Some(READ_ONLY),
               reviewId, conflicts)
  }

  lemma ResultIsAccepted(package: Package, entry: EvaluationEntry, finalResult: Option<string>,
                         reviewId: Option<string>, conflicts: Option<int>)
    ensures var result := ResultWith(package, entry, finalResult);
            AgenticError(package, result).None?
            && MindError(package, result, ReviewOf(package, result, reviewId, conflicts)).None?
  {
    hide Lower;
  }

  /** Three messages that belong together and pass their checks. */
  ghost predicate Fit(package: Package, correlationId: string, agentic: AgenticEnvelope, mind: MindEnvelope) {
    && agentic.workspaceRunId == mind.workspaceRunId == RunIdFor(package)
    && agentic.correlationId == mind.correlationId == correlationId
    && AgenticError(package, agentic.result).None? && agentic.result.bundle.Some? && agentic.result.execution.Some?
    && MindError(package, agentic.result, mind.review).None?
  }

  /** The run after each of four messages; the acknowledgement quotes the envelope of the third. */
  lemma FourSteps(h: Hasher, package: Package, correlationId: string, agentic: AgenticEnvelope, mind: MindEnvelope,
                  document: string, revision: string)
    returns (r1: Run, r2: Run, r3: Run, r4: Run, ack: Ack)
    requires Fit(package, correlationId, agentic, mind)
    ensures r1 == NewRun(h, package, correlationId) && OnAgentic(h, r1, agentic) == Ok(r2)
    ensures Nested(r2) && OnMind(h, r2, mind) == Ok(r3)
    ensures Nested(r1) && Nested(r3) && OnAck(h, r3, ack) == Ok(r4)
    ensures r4.ack == Some(ack) && r4.verdict.None? && r4.agentic == Some(agentic) && ack.documentId == document
            && ack.revisionId == revision
  {
    hide AgenticError, MindError, Lower, AgenticSummary, LastHash;
    r1 := NewRun(h, package, correlationId);
    r2 := OnAgentic(h, r1, agentic).value;
    r3 := OnMind(h, r2, mind).value;
    ack := Ack(document, revision, SovereignSha(h, r3).value);
    r4 := OnAck(h, r3, ack).value;
  }

  ghost predicate AllAccepted(h: Hasher, messages: seq<Message>, states: seq<map<string, Run>>) {
    IsHistory(h, messages, states) && forall t: nat :: t < |messages| ==> AcceptedAt(h, messages, states, t)
  }

  /** Fitting messages, whatever the hash, lead to an acknowledged run in four accepted steps. */
  lemma AcknowledgedRunExists(h: Hasher, package: Package, correlationId: string, agentic: AgenticEnvelope,
                              mind: MindEnvelope, document: string, revision: string)
    returns (messages: seq<Message>, states: seq<map<string, Run>>, run: Run)
    requires Fit(package, correlationId, agentic, mind)
    ensures AllAccepted(h, messages, states) && states[|messages|] == map[RunIdFor(package) := run]
    ensures run.ack.Some? && run.verdict.None? && run.agentic == Some(agentic)
    ensures run.ack.value.documentId == document && run.ack.value.revisionId == revision
  {
    var r1, r2, r3, r4, ack := FourSteps(h, package, correlationId, agentic, mind, document, revision);
    hide NewRun, OnAgentic, OnMind, OnAck, Nested, Handle, RunIdFor, AgenticError, MindError;
    var id := RunIdFor(package);
    var m0, m1, m2, m3 := Open(package, correlationId), Agentic(id, agentic), Mind(id, mind), Acknowledge(id, ack);
    OpensAlone(h, package, correlationId);
    AloneAgentic(h, id, r1, agentic);
    AloneMind(h, id, r2, mind);
    AloneAck(h, id, r3, ack);
    messages, states := FourAccepted(h, id, m0, m1, m2, m3, r1, r2, r3, r4);
    run := r4;
  }

  /** For any package and any digests, a result with any evaluation entry, or none, ends in an acknowledged run. */
  lemma AnyEvaluationIsRecorded(h: Hasher, package: Package, correlationId: string, entry: EvaluationEntry,
                                finalResult: Option<string>, digests: (Hash, Hash, Hash, Hash),
                                tokens: (string, string), document: string, revision: string)
    returns (messages: seq<Message>, states: seq<map<string, Run>>, run: Run)
    ensures AllAccepted(h, messages, states) && states[|messages|] == map[RunIdFor(package) := run]
    ensures run.ack.Some? && run.verdict.None? && run.agentic.Some?
            && run.agentic.value.result == ResultWith(package, entry, finalResult)
    ensures run.agentic.value.requestSha == digests.0 && run.agentic.value.resultSha == digests.1
  {
    var id, result := RunIdFor(package), ResultWith(package, entry, finalResult);
    ResultIsAccepted(package, entry, finalResult, None, None);
    var agentic := AgenticEnvelope(id, correlationId, digests.0, digests.1, tokens.0, result);
    var mind := MindEnvelope(id, correlationId, digests.2, digests.3, tokens.1, ReviewOf(package, result, None, None));
    hide AgenticError, MindError, RunIdFor, AllAccepted;
    messages, states, run := AcknowledgedRunExists(h, package, correlationId, agentic, mind, document, revision);
  }

  ghost predicate Takes(h: Hasher, id: string, runs: map<string, Run>, m: Message, next: Run) {
    (RunIdOf(m) in runs ==> Nested(runs[RunIdOf(m)])) && RunIdOf(m) == id && Handle(h, runs, m) == Ok(next)
  }

  lemma OpensAlone(h: Hasher, package: Package, correlationId: string)
    ensures Takes(h, RunIdFor(package), map[], Open(package, correlationId), NewRun(h, package, correlationId))
  {
    hide NewRun, RunIdFor;
  }

  lemma AloneAgentic(h: Hasher, id: string, run: Run, e: AgenticEnvelope)
    requires Nested(run) && OnAgentic(h, run, e).Ok?
    ensures Takes(h, id, map[id := run], Agentic(id, e), OnAgentic(h, run, e).value)
  {
    hide OnAgentic, Nested;
  }

  lemma AloneMind(h: Hasher, id: string, run: Run, e: MindEnvelope)
    requires Nested(run) && OnMind(h, run, e).Ok?
    ensures Takes(h, id, map[id := run], Mind(id, e), OnMind(h, run, e).value)
  {
    hide OnMind, Nested;
  }

  lemma AloneAck(h: Hasher, id: string, run: Run, a: Ack)
    requires Nested(run) && OnAck(h, run, a).Ok?
    ensures Takes(h, id, map[id := run], Acknowledge(id, a), OnAck(h, run, a).value)
  {
    hide OnAck, Nested;
  }

  lemma FourAccepted(h: Hasher, id: string, m0: Message, m1: Message, m2: Message, m3: Message, r1: Run, r2: Run,
                     r3: Run, r4: Run)
    returns (messages: seq<Message>, states: seq<map<string, Run>>)
    requires Takes(h, id, map[], m0, r1) && Takes(h, id, map[id := r1], m1, r2)
    requires Takes(h, id, map[id := r2], m2, r3) && Takes(h, id, map[id := r3], m3, r4)
    ensures AllAccepted(h, messages, states) && states[|messages|] == map[id := r4]
  {
    hide Handle, Nested, RunIdOf;
    messages := [m0, m1, m2, m3];
    states := [map[], map[id := r1], map[id := r2], map[id := r3], map[id := r4]];
    forall t: nat | t < 4 ensures AcceptedAt(h, messages, states, t) {
      assert t == 0 || t == 1 || t == 2 || t == 3;
      assert Takes(h, id, states[t], messages[t], [r1, r2, r3, r4][t]);
    }
  }
}
