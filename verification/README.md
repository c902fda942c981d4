# Verified model of the governance control plane

The orchestrator decides what an engineering task may do, runs it, and records the
outcome. This project models the engines behind those decisions in Dafny and proves
what they promise, for all inputs, all runs and all interleavings.

`dafny verify dfyconfig.toml` checks everything.

| module | engine |
|---|---|
| `CriticalPath`, `Digraph` | longest dependency path over a multigraph, with cycle detection |
| `GitRepository`, `GovernedWrite` | git as a small state machine; the governed workspace write |
| `ExternalCheckpoint` | the resumable checkpoint of an external workspace |
| `ScopeOverlap`, `ScopeLeases`, `MergeQueue` | the parallel development coordinator |
| `SupersessionSearch`, `KnowledgeProvenance`, `DecisionRegistry` | supersession graphs of two registries |
| `FourSystemL4` | five message handlers over a hash-chained log |
| `InstructionResolver`, `VersionKey`, `Ordering` | the active instruction resolver and its version order |
| `EvidenceAcceptance`, `TaskScope`, `TaskLifecycle`, `TaskHistories`, `OperatorCodes` | the operator's task table, and histories that break a promise |
| `WorkerPool` | queue, workers, repository locks and writer rows |
| `RetryGuard`, `GuardedOperator` | the failure retry guard, its two clients, and the operator with it |
| `RateLimiter` | the sliding-window limiter |
| `ImpactAnalysis`, `PolicyDecision`, `ChangeInbox` | impact closure, policy intersection, change inbox |
| `Outcomes`, `PythonText`, `PythonSequences` | shared values and host-language string and tuple operations |

Objects the program updates in place are classes; their methods follow the source step by
step and are proved against a specification. Anything outside the program (git, the remote,
other processes, the state store, verification by others, executors) is nondeterministic: a
command may fail, and a failing command may have taken effect. Hashes are parameters;
freedom from collisions is a hypothesis of the lemmas that need it. Clocks are parameters
or strictly increasing counters, as each statement says.

## What the code does differently from what one would expect

- A wildcard in mid-segment escapes the scope overlap test (`ScopeOverlap.MidSegmentWildcardIsMissed`);
  the test is sound exactly for aligned patterns (`ScopeOverlap.SafeExactlyWhenAligned`,
  `ScopeOverlap.SafeUnderEveryReading`).
- Queue entries with equal times are ordered by id and can overtake (`MergeQueue.EqualTicksCanOvertake`); a
  task enqueued again after integration reuses its id (`MergeQueue.ShadowedRun`), and its new entry is never
  found and holds up its repository (`MergeQueue.AdvanceableIff`, `MergeQueue.IntegrableIff`).
- An agentic result whose `evaluation` key is missing is recorded although no decision can follow; with
  null instead, every verdict but ACCEPTED can (`FourSystemL4.DecidableIff`,
  `FourSystemL4.MissingEvaluationBlocksDecision`, `FourSystemL4.AnyEvaluationIsRecorded`).
- `dispatch_task` assigns the result heads before it computes the changed files. If git then fails
  while a manual relay has verified another head meanwhile, the verified task no longer matches its
  decision or its files (`TaskHistories.LateFinishCorruptsVerified`). `TaskLifecycle.OperatorService.FinishDispatch` says
  exactly when, and `TaskLifecycle.OperatorService.SettleDispatch` that the failure recorded next ends it.
- Repeating a creation request is refused once a policy suspension has rewritten the stored failure
  code (`TaskHistories.SuspendedTaskRefusesReplay`).
- `continue_task` of the service returns the task to pending before it finds the queue full, and a task
  cancelled while queued can be queued again (`WorkerPool.ConnectedService.ContinueTask`, `WorkerPool.QueuedTwice`).
- The retry block follows failure and project, not the task (`RetryGuard.AnotherTaskLiftsBlock`);
  `RetryGuard.RefusesRetryIff` says when it lasts.
- A push that is reported as failed may have published the commit, so the error about a local commit leaves open
  whether the remote moved, while the parent, scope, drift, readback and cleanliness errors settle it
  (`GovernedWrite.GovernanceGate.PublishCommit`).
- A checkpoint that finds itself published already reports success without telling the parent again, even if
  another run has moved the parent back: `ExternalCheckpoint.CheckpointService.Checkpoint` says exactly when, and
  `ExternalCheckpoint.PublishedThenMovedBack` builds such a state.
- Validating the clean tree after a failed publish strands the commit: every checkpoint is refused until a validation
  meets the paths of the commit itself (`ExternalCheckpoint.CheckpointService.Validate`, `ExternalCheckpoint.CheckpointService.CleanValidationStrands`,
  `ExternalCheckpoint.CheckpointService.Attempts`).
- Inbox item ids hash `project:event` without escaping, so two keys can collide whatever the hash
  (`ChangeInbox.CollidingKeysLockTheInbox`, `ChangeInbox.ReadableIff`).
- Impact flows along every edge of the dependency graph, retired ones included (`ImpactAnalysis.StatusIsIgnored`).

## Model

| member | source | states |
|---|---|---|
| CriticalPath.LongestDependencyPath | orchestrator/src/palwakf_orchestrator/portfolio_intelligence.py:736-774 | for any project list and any multigraph of dependencies: the cycle flag is set iff a directed cycle exists; otherwise the list is a directed path and no directed path is longer; the blocker is the earliest key with the most dependencies |
| CriticalPath.BuildAdjacency | orchestrator/src/palwakf_orchestrator/portfolio_intelligence.py:740-745 | the consumer lists hold one entry per dependency, the in-degrees count parallel dependencies, endpoints missing from the project list are added, and both dictionaries keep insertion order |
| CriticalPath.KahnOrder | orchestrator/src/palwakf_orchestrator/portfolio_intelligence.py:747-755 | the order repeats nothing, lists every predecessor before its successor, and each node left out waits for another node left out |
| CriticalPath.ScanChildren | orchestrator/src/palwakf_orchestrator/portfolio_intelligence.py:752-755 | counting a node out of its children keeps in-degrees equal to the remaining multiplicities and enqueues exactly the children that became free |
| CriticalPath.LeftOverMeansCycle | orchestrator/src/palwakf_orchestrator/portfolio_intelligence.py:756-758 | the order is shorter than the node set iff the graph has a cycle |
| CriticalPath.LongestDistances | orchestrator/src/palwakf_orchestrator/portfolio_intelligence.py:760-766 | every edge is relaxed and every positive distance has a parent one step closer |
| CriticalPath.RelaxChildren | orchestrator/src/palwakf_orchestrator/portfolio_intelligence.py:762-766 | one round of relaxation keeps earlier nodes relaxed and distances witnessed by parents |
| CriticalPath.WalkIsBounded | orchestrator/src/palwakf_orchestrator/portfolio_intelligence.py:760-766 | no walk is longer than the distance of its last node |
| CriticalPath.EarliestMaximum | orchestrator/src/palwakf_orchestrator/portfolio_intelligence.py:767-767 | `max` returns the earliest key with the greatest score |
| CriticalPath.WalkParents | orchestrator/src/palwakf_orchestrator/portfolio_intelligence.py:768-772 | following the parents and reversing gives a walk of exactly the distance of its end |
| CriticalPath.ChooseBlocker | orchestrator/src/palwakf_orchestrator/portfolio_intelligence.py:773-773 | the blocker has the most outgoing dependencies and is the first such key |
| Digraph.PredecessorsForceCycle | orchestrator/src/palwakf_orchestrator/portfolio_intelligence.py:756-758 | a nonempty finite node set in which everybody has a predecessor inside holds a cycle |
| SupersessionSearch.Search.Visit | orchestrator/src/palwakf_orchestrator/knowledge_provenance_registry.py:132-141 | the recursive visit terminates; it succeeds only by finishing the id with no cycle through finished ids and with the open set restored, and fails only on a real cycle |
| SupersessionSearch.Search.Run | orchestrator/src/palwakf_orchestrator/knowledge_provenance_registry.py:129-144 | the search over all ids succeeds iff the supersedes relation has no cycle |
| SupersessionSearch.ChainCloses | orchestrator/src/palwakf_orchestrator/knowledge_provenance_registry.py:133-134 | meeting an open id again closes a walk |
| SupersessionSearch.FinishNode | orchestrator/src/palwakf_orchestrator/knowledge_provenance_registry.py:140-141 | an id whose targets are all finished lies on no cycle |
| SupersessionSearch.EverythingFinished | orchestrator/src/palwakf_orchestrator/knowledge_provenance_registry.py:143-144 | when every id is finished no cycle is left |
| KnowledgeProvenance.ValidateRegistry | orchestrator/src/palwakf_orchestrator/knowledge_provenance_registry.py:98-144 | a registry is accepted iff ids are unique, conflicts are mutual, supersession stays within one claim and project with a marked target, every superseded claim is referenced and there is no cycle; the cycle error appears exactly when only the last condition fails |
| KnowledgeProvenance.WellFormedSpelled | orchestrator/src/palwakf_orchestrator/knowledge_provenance_registry.py:98-144 | what an accepted registry is, claim by claim |
| KnowledgeProvenance.ValidateReferences | orchestrator/src/palwakf_orchestrator/knowledge_provenance_registry.py:107-122 | accepts iff all conflict and supersession references resolve |
| KnowledgeProvenance.ValidateCoverage | orchestrator/src/palwakf_orchestrator/knowledge_provenance_registry.py:125-128 | accepts iff every superseded claim is referenced |
| KnowledgeProvenance.SupersededHasLiveSuccessor | orchestrator/src/palwakf_orchestrator/knowledge_provenance_registry.py:98-144 | in an accepted registry a claim still standing reaches every superseded claim |
| DecisionRegistry.ValidateRegistry | orchestrator/src/palwakf_orchestrator/decision_registry.py:73-150 | a registry is accepted iff it is well formed, and the cycle error is never raised |
| DecisionRegistry.WellFormedSpelled | orchestrator/src/palwakf_orchestrator/decision_registry.py:73-150 | what a well-formed registry is, record by record |
| DecisionRegistry.ValidateCurrentUniqueness | orchestrator/src/palwakf_orchestrator/decision_registry.py:88-102 | accepts iff no two current decisions of one conflict key share a project |
| DecisionRegistry.ValidateEdges | orchestrator/src/palwakf_orchestrator/decision_registry.py:104-124 | accepts iff each supersession stays in its key, overlaps in projects, hits a superseded record and goes strictly forward in time |
| DecisionRegistry.ValidateCoverage | orchestrator/src/palwakf_orchestrator/decision_registry.py:126-132 | accepts iff superseded decisions are referenced and current ones are not |
| DecisionRegistry.ForwardInTimeIsAcyclic | orchestrator/src/palwakf_orchestrator/decision_registry.py:104-124 | strictly later supersession already rules out every cycle, so the later search cannot fail |
| DecisionRegistry.OneCurrentDecision | orchestrator/src/palwakf_orchestrator/decision_registry.py:88-102 | in an accepted registry a project sees at most one current decision per conflict key |
| DecisionRegistry.SupersededHasLiveSuccessor | orchestrator/src/palwakf_orchestrator/decision_registry.py:104-150 | a decision that has not been superseded reaches every superseded one |
| DecisionRegistry.BindInstruction | orchestrator/src/palwakf_orchestrator/decision_registry.py:167-191 | an unknown decision is refused as such, and a bound one is current, in scope and names the instruction, key, version and fingerprint |
| DecisionRegistry.BindInstructionIff | orchestrator/src/palwakf_orchestrator/decision_registry.py:167-191 | of a decision on record, binding returns it iff all six checks pass, and otherwise raises the error of the first that fails |
| DecisionRegistry.BindingChecksPass | orchestrator/src/palwakf_orchestrator/decision_registry.py:175-190 | the six checks |
| ScopeOverlap.CommonPathMeansOverlap | orchestrator/src/palwakf_orchestrator/parallel_development_coordinator.py:81-103 | if one path is covered by both of two scopes whose patterns are segment-aligned, the overlap test says so, however bracket classes are read |
| ScopeOverlap.OverlapIff | orchestrator/src/palwakf_orchestrator/parallel_development_coordinator.py:94-103 | two scopes overlap exactly when static prefixes of two of their patterns have a path below both |
| ScopeOverlap.PlainPrefix | orchestrator/src/palwakf_orchestrator/parallel_development_coordinator.py:81-91 | the static prefix of a plain name is the name, also with wildcards below it |
| ScopeOverlap.PlainWithLead | orchestrator/src/palwakf_orchestrator/parallel_development_coordinator.py:81-91 | dots and slashes in front of a plain name do not count |
| ScopeOverlap.MatchesIff | orchestrator/src/palwakf_orchestrator/operator_service.py:1099-1105 | a pattern matches a path iff the path can be cut into one piece for each token of the pattern that fits it: any run, any one, one of a class, the very character |
| ScopeOverlap.TokensSpell | orchestrator/src/palwakf_orchestrator/operator_service.py:1099-1105 | the tokens spell the pattern |
| ScopeOverlap.ClassEndIff | orchestrator/src/palwakf_orchestrator/operator_service.py:1099-1105 | a bracket class closes at the first bracket behind its first member |
| ScopeOverlap.SafeExactlyWhenAligned | orchestrator/src/palwakf_orchestrator/parallel_development_coordinator.py:85-99 | a bracket-free pattern is safe against all aligned patterns iff its first wildcard starts a segment |
| ScopeOverlap.SafeUnderEveryReading | orchestrator/src/palwakf_orchestrator/parallel_development_coordinator.py:85-99 | the same for patterns with bracket classes that close: safe however the classes are read iff the first wildcard starts a segment |
| ScopeOverlap.MidSegmentWildcardIsMissed | orchestrator/src/palwakf_orchestrator/parallel_development_coordinator.py:85-99 | `src/a*` and `src/ab.py` share a path and are reported disjoint |
| ScopeOverlap.MatchFixesLiteral | orchestrator/src/palwakf_orchestrator/parallel_development_coordinator.py:85-91 | a matching path agrees with the pattern up to its first wildcard |
| ScopeOverlap.NormalizedWithWildcard | orchestrator/src/palwakf_orchestrator/parallel_development_coordinator.py:81-91 | normalization keeps the literal beginning of a pattern, less the discarded lead |
| ScopeLeases.LeaseRegistry.Acquire | orchestrator/src/palwakf_orchestrator/parallel_development_coordinator.py:137-172 | a task with an active lease gets that very lease back for the same repository, scope and host and an error otherwise; without one, it is refused iff another task's active lease in the repository has a static prefix that shares a path with one asked for, and else a lease with the next id is appended |
| ScopeLeases.ScopeErrorIff | orchestrator/src/palwakf_orchestrator/parallel_development_coordinator.py:33-54 | a scope is fit iff it has patterns, none blank and no two alike |
| ScopeLeases.LeaseRegistry.Release | orchestrator/src/palwakf_orchestrator/parallel_development_coordinator.py:174-188 | the one active lease of the task is released in place, or there was none |
| ScopeLeases.LeaseIdIsInjective | orchestrator/src/palwakf_orchestrator/parallel_development_coordinator.py:163-163 | task and generation can be read back from a lease id |
| ScopeLeases.IdsAreUnique | orchestrator/src/palwakf_orchestrator/parallel_development_coordinator.py:161-163 | no two leases share an id in any reachable registry |
| ScopeLeases.NoPathIsLeasedTwice | orchestrator/src/palwakf_orchestrator/parallel_development_coordinator.py:137-172 | with aligned scopes, no path belongs to active leases of two tasks in one repository |
| ScopeLeases.GrantKeepsInvariant | orchestrator/src/palwakf_orchestrator/parallel_development_coordinator.py:161-172 | appending a compatible lease keeps exclusion and numbering |
| ScopeLeases.ReleaseKeepsInvariant | orchestrator/src/palwakf_orchestrator/parallel_development_coordinator.py:174-188 | releasing keeps exclusion and numbering and leaves the task without an active lease |
| MergeQueue.Queue.Enqueue | orchestrator/src/palwakf_orchestrator/parallel_development_coordinator.py:190-228 | an open task is inserted by time and id, with its checkpointed commit as candidate, the head it was built on as expected head, and queued iff the repository still shows that head; an identical entry is returned, any other open entry of the task is refused; the order invariant survives iff no integrated or ready entry sorts after the newcomer |
| MergeQueue.ProgressFields | orchestrator/src/palwakf_orchestrator/parallel_development_coordinator.py:239-304 | drift, turn and integration are noted in the evidence, and only integration records a head |
| MergeQueue.Queue.Find | orchestrator/src/palwakf_orchestrator/parallel_development_coordinator.py:306-313 | the first entry with the id, or none exists |
| MergeQueue.Queue.RequireReady | orchestrator/src/palwakf_orchestrator/parallel_development_coordinator.py:230-266 | drift moves the first entry with the id to reconciliation, an unintegrated predecessor refuses it, else it becomes ready; everything else stays |
| MergeQueue.Queue.MarkIntegrated | orchestrator/src/palwakf_orchestrator/parallel_development_coordinator.py:268-304 | succeeds iff authority, evidence and head readback are in order and the first entry with the id is ready; only that entry changes |
| MergeQueue.EnqueueKeepsOrderIff | orchestrator/src/palwakf_orchestrator/parallel_development_coordinator.py:130-135 | insertion keeps "integrated and ready entries have only integrated ones of their repository in front" iff the newcomer sorts after them |
| MergeQueue.EqualTicksCanOvertake | orchestrator/src/palwakf_orchestrator/parallel_development_coordinator.py:190-304 | enqueue, turn and integration of one task and the enqueueing of one with a smaller id, all in one tick, leave an open entry in front of an integrated one |
| MergeQueue.RunsStayOrdered | orchestrator/src/palwakf_orchestrator/parallel_development_coordinator.py:190-304 | in every run with a strictly increasing clock, whatever heads are observed, the queue stays sorted and ordered and each task has one open entry |
| MergeQueue.OneReadyPerRepository | orchestrator/src/palwakf_orchestrator/parallel_development_coordinator.py:230-266 | at most one entry of a repository is ready and integrated entries form a prefix of the repository |
| MergeQueue.EntriesStayOk | orchestrator/src/palwakf_orchestrator/parallel_development_coordinator.py:57-78 | in every run an integrated entry carries its integrated head, and only entries that expect a commit id ever get a turn, so the stored queue can always be read back |
| MergeQueue.IntegratedIsPermanent | orchestrator/src/palwakf_orchestrator/parallel_development_coordinator.py:268-304 | an integrated entry never changes again |
| MergeQueue.AdvanceableIff | orchestrator/src/palwakf_orchestrator/parallel_development_coordinator.py:306-313 | an open entry is found by its id, and can be advanced by some operation, iff no earlier entry has its id |
| MergeQueue.ShadowedRun | orchestrator/src/palwakf_orchestrator/parallel_development_coordinator.py:205-205 | any task enqueued, given its turn, integrated and enqueued again, each entry being what the operation leaves, ends with an open entry behind one with its id |
| MergeQueue.ShadowedEntryStays | orchestrator/src/palwakf_orchestrator/parallel_development_coordinator.py:205-205 | an entry that reuses an earlier id never changes again |
| MergeQueue.ShadowedEntryBlocks | orchestrator/src/palwakf_orchestrator/parallel_development_coordinator.py:306-313 | behind a shadowed open entry nothing of its repository ever integrates, however late it is enqueued |
| MergeQueue.IntegrableIff | orchestrator/src/palwakf_orchestrator/parallel_development_coordinator.py:230-313 | in any reachable queue, some continuation by operations integrates an entry iff neither it nor an open entry of its repository before it is shadowed or, not being ready, expects a head that is no commit id |
| FourSystemL4.Service.OpenAuthorityRun | orchestrator/src/palwakf_orchestrator/four_system_l4.py:172-208 | the stored runs become exactly what delivering the opening message to them gives, and stay valid |
| FourSystemL4.Service.RecordAgentic | orchestrator/src/palwakf_orchestrator/four_system_l4.py:216-274 | the same for the agentic result; an accepted envelope names the run and its correlation |
| FourSystemL4.Service.RecordMind | orchestrator/src/palwakf_orchestrator/four_system_l4.py:276-321 | the same for the mind review; an accepted envelope names the run and its correlation |
| FourSystemL4.Service.AcknowledgeSovereign | orchestrator/src/palwakf_orchestrator/four_system_l4.py:344-369 | the same for the sovereign acknowledgement |
| FourSystemL4.Service.RecordDecision | orchestrator/src/palwakf_orchestrator/four_system_l4.py:371-408 | the same for the decision |
| FourSystemL4.AcceptedResultIsReadOnly | orchestrator/src/palwakf_orchestrator/four_system_l4.py:236-262 | an accepted agentic result observed no mutation, promoted nothing and carries its learning bundle |
| FourSystemL4.ContentChecks | orchestrator/src/palwakf_orchestrator/four_system_l4.py:236-304 | a result or review passes its checks exactly if it fits the package field by field |
| FourSystemL4.ContentErrors | orchestrator/src/palwakf_orchestrator/four_system_l4.py:236-262 | each refusal of a result names what is wrong with it |
| FourSystemL4.SecondMessage | orchestrator/src/palwakf_orchestrator/four_system_l4.py:179-390 | with a collision-free hash, a repeated opening, result, review, acknowledgement or decision is taken iff it is the recorded one, changes nothing then, and otherwise gets its conflict error |
| FourSystemL4.FirstAgentic | orchestrator/src/palwakf_orchestrator/four_system_l4.py:216-274 | a first result is taken iff it names the run and its correlation and fits the package; only that part, the stage and the checkpoints change |
| FourSystemL4.FirstMind | orchestrator/src/palwakf_orchestrator/four_system_l4.py:276-321 | a first review is taken iff a result is there, it names the run and its correlation and fits both |
| FourSystemL4.FirstAck | orchestrator/src/palwakf_orchestrator/four_system_l4.py:323-369 | a first acknowledgement is taken iff the review is there and it quotes the envelope of the first three checkpoints |
| FourSystemL4.FirstDecision | orchestrator/src/palwakf_orchestrator/four_system_l4.py:371-408 | a first decision is taken iff the run is acknowledged, the evaluation key is present and, for ACCEPTED, result and evaluation passed |
| FourSystemL4.UnknownRun | orchestrator/src/palwakf_orchestrator/four_system_l4.py:179-214 | an unknown run can only be opened, and starts with nothing but its package and correlation |
| FourSystemL4.HandleKeepsValid | orchestrator/src/palwakf_orchestrator/four_system_l4.py:172-408 | every accepted message leaves a valid run that extends the old one |
| FourSystemL4.HistoriesAreValid | orchestrator/src/palwakf_orchestrator/four_system_l4.py:144-408 | in every reachable state every run is valid: its envelopes are its own, its checkpoints are the hash chain over the log its contents call for, the acknowledged hash is the envelope recomputed from the first three checkpoints, and ACCEPTED implies PASS and a passed evaluation |
| FourSystemL4.HistoryGoesOn | orchestrator/src/palwakf_orchestrator/four_system_l4.py:172-408 | any message can be delivered in any reachable state |
| FourSystemL4.RunsOnlyGrow | orchestrator/src/palwakf_orchestrator/four_system_l4.py:133-170 | later states of a run keep its identity, parts and checkpoints |
| FourSystemL4.RedeliveryChangesNothing | orchestrator/src/palwakf_orchestrator/four_system_l4.py:172-408 | redelivering any accepted message at any later time returns the stored run and changes nothing |
| FourSystemL4.StagesInOrder | orchestrator/src/palwakf_orchestrator/four_system_l4.py:144-170 | the checkpoint stages are a prefix of the five protocol stages |
| FourSystemL4.ChainReadsLog | orchestrator/src/palwakf_orchestrator/four_system_l4.py:144-170 | each checkpoint records the stage and payload hash of its log entry |
| FourSystemL4.FinalHashFixesLog | orchestrator/src/palwakf_orchestrator/four_system_l4.py:144-170 | with a collision-free link hash, equal final hashes mean equal chains |
| FourSystemL4.FinalHashFixesRun | orchestrator/src/palwakf_orchestrator/four_system_l4.py:144-170 | with a collision-free hash the last chain hash of a valid run fixes its package, correlation, acknowledgement, decision, and of result and review the digests, run id, final result, evaluation outcome, review id and conflicts |
| FourSystemL4.AcceptedRunIsBound | orchestrator/src/palwakf_orchestrator/four_system_l4.py:371-408 | an accepted run is bound to its package and its own two envelopes, read-only, passed, reviewed and acknowledged |
| FourSystemL4.VerdictsPossible | orchestrator/src/palwakf_orchestrator/four_system_l4.py:383-396 | an acknowledged run takes a verdict iff the evaluation key is present and, for ACCEPTED, result and evaluation passed |
| FourSystemL4.DecidableIff | orchestrator/src/palwakf_orchestrator/four_system_l4.py:383-396 | an acknowledged run can be decided iff its result has the evaluation key; with null exactly every verdict but ACCEPTED |
| FourSystemL4.MissingEvaluationBlocksDecision | orchestrator/src/palwakf_orchestrator/four_system_l4.py:236-262 | once a result without the evaluation key is recorded, its run is undecided in every later state of every history |
| FourSystemL4.AcknowledgedRunExists | orchestrator/src/palwakf_orchestrator/four_system_l4.py:172-369 | any package, result and review that fit together lead, whatever the hash, to an acknowledged run in four accepted messages |
| FourSystemL4.AnyEvaluationIsRecorded | orchestrator/src/palwakf_orchestrator/four_system_l4.py:216-369 | for any package and any digests such a run exists with the evaluation key missing, null or holding any evaluation |
| InstructionResolver.Resolve | orchestrator/src/palwakf_orchestrator/pre_l5_instruction_resolver.py:210-407 | succeeds iff ids are unique, no record raises, each surviving conflict group shares one fingerprint and something survives; on success the result is the resolution of the set of records: no surviving record of a key has a higher rank than the active one, at equal rank a later time, then a greater version, then a greater id; on failure the error is the first one the checks meet |
| InstructionResolver.ScreenAll | orchestrator/src/palwakf_orchestrator/pre_l5_instruction_resolver.py:233-293 | the first loop stops at the first record that raises, and otherwise sorts every record into candidates or explained exclusions |
| InstructionResolver.DropSuperseded | orchestrator/src/palwakf_orchestrator/pre_l5_instruction_resolver.py:295-313 | exactly the candidates no candidate supersedes remain; the others are excluded with that reason |
| InstructionResolver.GroupByKey | orchestrator/src/palwakf_orchestrator/pre_l5_instruction_resolver.py:315-321 | the groups partition the remaining records by conflict key |
| InstructionResolver.SelectWinners | orchestrator/src/palwakf_orchestrator/pre_l5_instruction_resolver.py:323-360 | one maximum per group is selected and the rest excluded, or a group with two fingerprints is reported |
| InstructionResolver.GroupOrder | orchestrator/src/palwakf_orchestrator/pre_l5_instruction_resolver.py:337-360 | sorting a group in reverse puts its maximum first and only non-maximal records behind it |
| InstructionResolver.PrecedenceOrder | orchestrator/src/palwakf_orchestrator/pre_l5_instruction_resolver.py:337-346 | rank, time, version and id order records totally |
| InstructionResolver.PrecedenceLeqIff | orchestrator/src/palwakf_orchestrator/pre_l5_instruction_resolver.py:337-346 | rank decides first, then time, then version, then id |
| InstructionResolver.ResolutionReads | orchestrator/src/palwakf_orchestrator/pre_l5_instruction_resolver.py:337-381 | what that means for a resolution, and that it lists active instructions by key and exclusions by id and reason |
| InstructionResolver.CandidateIsGoverned | orchestrator/src/palwakf_orchestrator/pre_l5_instruction_resolver.py:236-293 | a candidate is active, sovereign and in scope, and under a registry a current decision names its very directive |
| InstructionResolver.CandidateIff | orchestrator/src/palwakf_orchestrator/pre_l5_instruction_resolver.py:236-293 | a record is a candidate exactly if it is in scope, active, sovereign and, under a registry, bound to a current decision |
| InstructionResolver.ScreenedOut | orchestrator/src/palwakf_orchestrator/pre_l5_instruction_resolver.py:236-262 | a record of another project or another status is left out with that reason |
| InstructionResolver.OutOfForce | orchestrator/src/palwakf_orchestrator/pre_l5_instruction_resolver.py:275-283 | an active record of the project is left out exactly if its decision is on record and not current |
| InstructionResolver.ResolutionIsUnique | orchestrator/src/palwakf_orchestrator/pre_l5_instruction_resolver.py:367-381 | there is one resolution of a set of records |
| InstructionResolver.OrderDoesNotMatter | orchestrator/src/palwakf_orchestrator/pre_l5_instruction_resolver.py:210-407 | a permutation of the records changes neither success nor the resolution |
| InstructionResolver.EachIdOnce | orchestrator/src/palwakf_orchestrator/pre_l5_instruction_resolver.py:210-407 | each input id appears exactly once across active and excluded |
| InstructionResolver.OneWinnerPerKey | orchestrator/src/palwakf_orchestrator/pre_l5_instruction_resolver.py:325-360 | each conflict key keeps exactly one instruction, the maximum of its group, with the fingerprint of the whole group |
| InstructionResolver.ActiveIsNotSuperseded | orchestrator/src/palwakf_orchestrator/pre_l5_instruction_resolver.py:295-313 | no candidate supersedes an active instruction |
| VersionKey.VersionSortKey | orchestrator/src/palwakf_orchestrator/pre_l5_instruction_resolver.py:194-204 | the loop builds the key: one chunk per maximal run |
| VersionKey.PartsSplit | orchestrator/src/palwakf_orchestrator/pre_l5_instruction_resolver.py:196-198 | the parts are the maximal runs of digits and non-digits and lose nothing |
| VersionKey.DigitRunsCompareByValue | orchestrator/src/palwakf_orchestrator/pre_l5_instruction_resolver.py:199-201 | chunks of digit runs of any length and any leading zeros compare by numeric value |
| VersionKey.ChunkOrder | orchestrator/src/palwakf_orchestrator/pre_l5_instruction_resolver.py:200-203 | chunks are totally ordered |
| VersionKey.KeyLeqTotal | orchestrator/src/palwakf_orchestrator/pre_l5_instruction_resolver.py:194-204 | keys are totally ordered |
| VersionKey.KeyLeqTransitive | orchestrator/src/palwakf_orchestrator/pre_l5_instruction_resolver.py:194-204 | the key order is transitive |
| VersionKey.KeyLeqIff | orchestrator/src/palwakf_orchestrator/pre_l5_instruction_resolver.py:194-204 | a key comes first if it is a beginning of the other or smaller where they first differ |
| VersionKey.TextComesFirst | orchestrator/src/palwakf_orchestrator/pre_l5_instruction_resolver.py:200-203 | other text compares by code point and comes before digits |
| VersionKey.EqualKeys | orchestrator/src/palwakf_orchestrator/pre_l5_instruction_resolver.py:194-204 | two versions have one key iff their parts agree up to letter case and leading zeros |
| Ordering.SortForgetsOrder | orchestrator/src/palwakf_orchestrator/pre_l5_instruction_resolver.py:365-379 | without ties `sorted` forgets the order of its input |
| GitRepository.Git.CommitIndex | orchestrator/src/palwakf_orchestrator/governance.py:310-318 | a commit makes one fresh commit whose parent and tree hooks may have changed; a failing one may have committed |
| GitRepository.Git.Push | orchestrator/src/palwakf_orchestrator/governance.py:357-369 | a push without force moves the remote only to a descendant of what was there; a failing one may have moved it |
| GitRepository.Git.Add | orchestrator/src/palwakf_orchestrator/governance.py:302-302 | staging touches only the given paths; a failing one may have staged part of them |
| GitRepository.Git.Reset | orchestrator/src/palwakf_orchestrator/governance.py:319-322 | unstaging takes the given paths from the head |
| GitRepository.Git.DirtyPaths | orchestrator/src/palwakf_orchestrator/governance.py:400-408 | the paths in which worktree and index differ |
| GitRepository.Git.StagedPaths | orchestrator/src/palwakf_orchestrator/governance.py:303-303 | the paths in which index and head differ |
| GovernedWrite.GovernanceGate.VerifyRepository | orchestrator/src/palwakf_orchestrator/governance.py:190-228 | certifies one head, local and remote, on the requested branch with the expected prefix, with nothing staged, a worktree that was clean when asked, no command failed and, for a write, the hosted repository not refusing; each refusal names what is wrong |
| GovernedWrite.GovernanceGate.VerifyResultRepository | orchestrator/src/palwakf_orchestrator/governance.py:230-245 | a read-only dispatch changes nothing and must come back to its starting head with nothing staged and a worktree that was clean when asked; a writing one succeeds only as below |
| GovernedWrite.GovernanceGate.CompleteWorkspaceWrite | orchestrator/src/palwakf_orchestrator/governance.py:247-389 | returns only with one new commit on the starting head, whose paths are the reported dirty set and in scope, published without force after seeing the remote unchanged, read back, with a clean tree, no command failed and the hosted repository was consulted three times without refusing; a commit is tried only with a checked index that differs from the head in exactly the dirty paths; every failure, if `reset` worked, leaves nothing, one local commit with the remote unmoved by this code, or the validated commit published; the errors raised before the push mean that nothing was published, those after it that the commit was |
| GovernedWrite.GovernanceGate.AuthorizedDirtyPaths | orchestrator/src/palwakf_orchestrator/governance.py:252-298 | everything checked before the index is touched: branch, heads, remote, hosted repository, empty index, a nonempty dirty set within scope |
| GovernedWrite.GovernanceGate.StageAndCommit | orchestrator/src/palwakf_orchestrator/governance.py:300-322 | a commit is tried only with a checked index that differs from the head in exactly the dirty paths; a failed attempt either committed or staged nothing outside the dirty paths |
| GovernedWrite.GovernanceGate.PublishDirty | orchestrator/src/palwakf_orchestrator/governance.py:300-389 | the three failure shapes from the first change of the index on |
| GovernedWrite.GovernanceGate.CheckCandidate | orchestrator/src/palwakf_orchestrator/governance.py:324-343 | only a commit on the starting head with exactly the dirty paths passes |
| GovernedWrite.GovernanceGate.RequireRemote | orchestrator/src/palwakf_orchestrator/governance.py:345-378 | the remote is seen at the head and the hosted repository agrees, or it is not, or it refuses, or a command fails |
| GovernedWrite.GovernanceGate.PublishCommit | orchestrator/src/palwakf_orchestrator/governance.py:324-389 | the remote moves only to a validated commit, after the remote was seen unchanged; parent, scope and drift errors mean it did not move, readback and cleanliness errors that it did, and after the error about a local commit it moved by a fast-forward or not at all |
| GovernedWrite.ScopeIsRequired | orchestrator/src/palwakf_orchestrator/governance.py:418-431 | a write has a scope iff a pattern is not blank or it is the bootstrap card on its own branch |
| GovernedWrite.EveryPathIsInBootstrapScope | orchestrator/src/palwakf_orchestrator/governance.py:427-430 | the bootstrap scope covers every path |
| GovernedWrite.PublishedKeepsHistory | orchestrator/src/palwakf_orchestrator/governance.py:357-369 | publishing drops nothing that was on the remote branch |
| ExternalCheckpoint.CheckpointService.Checkpoint | orchestrator/src/palwakf_orchestrator/external_execution_workspace.py:318-473 | keeps, at any failure, the invariant that at most one commit was made, only a commit on the expected head with exactly the validated paths is ever published or recorded, and the branch moves only from an ancestor after being seen absent or unchanged; refused without a trace unless the repository is external, the branch is the parent's, the run is authorized, its parent stands at the starting head or at the recorded result, both sides may write sources and a successful validation is stored, or when the stored validation is not about the commit already there; a commit is tried only with an index that passed the check and differs from the head in the validated paths, and records or repository change only if no other task held the writer row; success means no git command failed, remote readback, local head and operator result are that commit; the parent is then left elsewhere iff it stood elsewhere and the stored status was published with the branch seen at the commit; the writer row is given back |
| ExternalCheckpoint.CheckpointService.Admit | orchestrator/src/palwakf_orchestrator/external_execution_workspace.py:323-331 | what is checked first: it passes only a run that may checkpoint, on its own branch, and gives the validated paths |
| ExternalCheckpoint.CheckpointService.AuthorityIff | orchestrator/src/palwakf_orchestrator/external_execution_workspace.py:475-526 | the authority checks pass exactly for an authorized external run on the parent's branch whose parent stands where it should, and for a checkpoint only if both sides may write sources |
| ExternalCheckpoint.CheckpointService.Attempts | orchestrator/src/palwakf_orchestrator/external_execution_workspace.py:318-473 | the same, with the same condition on the parent, over any number of attempts with new validations, authorization, verification, cancellation, other writers, remote moves and other runs writing the parent in between; a run that may never write, or is not and never becomes authorized, commits and publishes nothing, and one that may not checkpoint and that nobody changes leaves every record as it was |
| ExternalCheckpoint.PublishedThenMovedBack | orchestrator/src/palwakf_orchestrator/external_execution_workspace.py:318-340 | a consistent stored state, published, authorized and with the parent back at the starting head, which the checks of a checkpoint accept |
| ExternalCheckpoint.CheckpointService.Validate | orchestrator/src/palwakf_orchestrator/external_execution_workspace.py:244-316 | only an authorized external run on the parent's branch whose parent stands at the starting head; stores the dirty paths as validated, and after a commit the run is resumable iff these are the paths of the commit |
| ExternalCheckpoint.CheckpointService.CleanValidationStrands | orchestrator/src/palwakf_orchestrator/external_execution_workspace.py:342-360 | after a validation of the clean tree only a commit that changes nothing is resumable |
| ExternalCheckpoint.CheckpointService.CheckpointAsWriter | orchestrator/src/palwakf_orchestrator/external_execution_workspace.py:362-473 | the locked part with the blocked record and the release in `finally` |
| ExternalCheckpoint.CheckpointService.CommitAndPublish | orchestrator/src/palwakf_orchestrator/external_execution_workspace.py:369-466 | commits on a fresh head or resumes with the commit already there, publishes it and records it with operator, parent and status |
| ExternalCheckpoint.CheckpointService.CommitOrResume | orchestrator/src/palwakf_orchestrator/external_execution_workspace.py:369-407 | a commit to publish, made now or by an earlier attempt, with the branch seen absent, at the expected head or at that commit |
| ExternalCheckpoint.CheckpointService.Examine | orchestrator/src/palwakf_orchestrator/external_execution_workspace.py:342-360 | on the expected head the dirty set must be the validated set, in scope; otherwise the tree must be clean and the head a validated commit, and the drift error means that it is not |
| ExternalCheckpoint.CheckpointService.CommitValidated | orchestrator/src/palwakf_orchestrator/external_execution_workspace.py:377-395 | a commit can come into being only here and only once, tried with a checked index that differs from the head in exactly the dirty paths |
| ExternalCheckpoint.CheckpointService.CheckCandidate | orchestrator/src/palwakf_orchestrator/external_execution_workspace.py:388-395 | passes exactly a commit on the expected head with the validated paths |
| ExternalCheckpoint.CheckpointService.Publish | orchestrator/src/palwakf_orchestrator/external_execution_workspace.py:408-421 | publishes unless already there and succeeds only on readback |
| ExternalCheckpoint.CheckpointService.AssertExistingWorkspace | orchestrator/src/palwakf_orchestrator/external_execution_workspace.py:528-549 | the branch is right and the head is the expected one or its child |
| ExternalCheckpoint.CheckpointService.PublishedMeans | orchestrator/src/palwakf_orchestrator/external_execution_workspace.py:333-340 | a checkpointed status stands for a commit with the validated paths that the operator has recorded, and the parent too as long as nobody else writes its record |
| ExternalCheckpoint.CheckpointService.SaveBlocked | orchestrator/src/palwakf_orchestrator/external_execution_workspace.py:792-823 | the blocked record keeps the validation and any checkpoint |
| ExternalCheckpoint.CheckpointService.AcquireWriter | orchestrator/src/palwakf_orchestrator/persistence.py:113-124 | the row is taken unless another task holds it |
| ExternalCheckpoint.CheckpointService.ReleaseWriter | orchestrator/src/palwakf_orchestrator/persistence.py:126-130 | only the own row is released |
| ExternalCheckpoint.CheckpointService.RecordResult | orchestrator/src/palwakf_orchestrator/operator_service.py:856-914 | recorded once and only for an authorized task that is not cancelled or verified and within scope; a repeated result must be the same |
| ExternalCheckpoint.CheckpointService.CheckpointTask | orchestrator/src/palwakf_orchestrator/engineering_os_service.py:127-172 | the parent learns the published head or is unchanged, as it is when integrated, cancelled or superseded |
| EvidenceAcceptance.EvaluateAcceptance | orchestrator/src/palwakf_orchestrator/evidence_acceptance_engine.py:42-77 | satisfied, failed and missing hold exactly the required kinds with a pass, a fail, neither; accepted iff every required kind has a pass and no fail for that head; no requirement is an error |
| EvidenceAcceptance.OneFailureRejects | orchestrator/src/palwakf_orchestrator/evidence_acceptance_engine.py:64-69 | one failing piece for a required kind outweighs any number of passes |
| TaskLifecycle.OperatorService.CreateTask | orchestrator/src/palwakf_orchestrator/operator_service.py:153-194 | a new key creates one pending task to which nothing has happened; a known key returns its task iff the stored envelope, with its present failure code, equals the request |
| TaskLifecycle.SameEnvelopeIff | orchestrator/src/palwakf_orchestrator/operator_service.py:160-192 | a repeated request must agree in every field, the failure code with the one the record has by now |
| TaskLifecycle.TransitionFields | orchestrator/src/palwakf_orchestrator/operator_service.py:1123-1186 | a transition is noted at the end of the history and touches nothing but status, event and blocker |
| TaskLifecycle.OperatorService.AuthorizeTask | orchestrator/src/palwakf_orchestrator/operator_service.py:209-233 | succeeds iff head and authority match a task that needs authorization; the status stays |
| TaskLifecycle.OperatorService.BindClient | orchestrator/src/palwakf_orchestrator/operator_service.py:235-258 | rebinding to another host or executor is refused |
| TaskLifecycle.OperatorService.PlanTools | orchestrator/src/palwakf_orchestrator/operator_service.py:924-992 | a plan made out to this task and project, the one with a profile, is stored and noted without changing the status |
| TaskLifecycle.OperatorService.QueueTask | orchestrator/src/palwakf_orchestrator/operator_service.py:260-271 | any status becomes queued |
| TaskLifecycle.OperatorService.StartTask | orchestrator/src/palwakf_orchestrator/operator_service.py:273-286 | any status becomes running |
| TaskLifecycle.OperatorService.RecoverInterruptedTasks | orchestrator/src/palwakf_orchestrator/operator_service.py:288-309 | exactly the queued and running tasks fail; nothing else changes |
| TaskLifecycle.OperatorService.BeginDispatch | orchestrator/src/palwakf_orchestrator/operator_service.py:311-454 | awaits exactly an authorized, planned, uncancelled task without result or failure code, with agents and orchestrator at hand and admitted as a provider or proof task, unless readback refuses; before that nothing but a refusal or the provider is recorded |
| TaskLifecycle.AwaitedMeans | orchestrator/src/palwakf_orchestrator/operator_service.py:311-424 | what an awaited dispatch is known to be: planned, open, without result, authorized if it must be or may write, and writing only with scope and mode or as the proof task |
| TaskLifecycle.ProviderRefusalIff | orchestrator/src/palwakf_orchestrator/operator_service.py:338-391 | a provider passes iff one was selected, it is the one asked for, the whole plan is its, and it is certified |
| TaskLifecycle.OperatorService.AdmitProvider | orchestrator/src/palwakf_orchestrator/operator_service.py:337-403 | admitted exactly with one eligible, certified provider throughout the plan and a fitting mode, writing with scope and authorization, unless readback refuses |
| TaskLifecycle.OperatorService.SelectProvider | orchestrator/src/palwakf_orchestrator/operator_service.py:338-391 | the task fails for want of one eligible, certified provider, or that provider is recorded |
| TaskLifecycle.OperatorService.AdmitProof | orchestrator/src/palwakf_orchestrator/operator_service.py:404-424 | without a provider a task is admitted exactly if it does not write or is the authorized proof task without the patch relay |
| TaskLifecycle.OperatorService.FinishDispatch | orchestrator/src/palwakf_orchestrator/operator_service.py:455-513 | the record takes the answer over: it waits for verification iff the selected provider answered, the head moved only if writing was allowed, and git names the changes and all are in scope; otherwise it fails with the blocker of the first of these; all other records stay sound; the table stays sound iff the diff does not fail for a task verified at another head meanwhile, and the listed files stay true to git iff it does not fail for a record holding a result with other files |
| TaskLifecycle.OperatorService.SettleDispatch | orchestrator/src/palwakf_orchestrator/connected_service.py:364-380 | with the failure the worker records when the dispatch raises, the record waits for verification under the same condition and fails otherwise; the table is sound and the listed files are true again, whatever happened |
| TaskLifecycle.TakeResult | orchestrator/src/palwakf_orchestrator/operator_service.py:455-513 | field by field the answer is taken over, also when the diff fails half way |
| TaskLifecycle.FinishedIsTakenOver | orchestrator/src/palwakf_orchestrator/operator_service.py:455-513 | what a wrong executor, an unknown diff, a mutation by a read-only provider, a file out of scope and a permitted result each make of the record |
| TaskLifecycle.FinishKeepsTaskIff | orchestrator/src/palwakf_orchestrator/operator_service.py:464-513 | the exact condition under which finishing a dispatch keeps a record sound |
| TaskHistories.LateFinishCorruptsVerified | orchestrator/src/palwakf_orchestrator/operator_service.py:464-468 | an admitted race of an automatic dispatch with a manual relay, and the record it leaves: verified, with a head its decision is not about |
| TaskHistories.RaceCorruptsVerified | orchestrator/src/palwakf_orchestrator/operator_service.py:464-468 | the same for every admitted race: the verified record becomes unsound, its files true only if git sees no difference, and failing it mends both |
| TaskHistories.RaceIsPossible | orchestrator/src/palwakf_orchestrator/operator_service.py:311-454 | every call of that race passes the checks of the service |
| TaskLifecycle.FinishKeepsFilesIff | orchestrator/src/palwakf_orchestrator/operator_service.py:464-513 | a record holding a result lists what git names between its heads; finishing a dispatch keeps that iff the diff does not fail while other files are listed |
| TaskHistories.SuspendedTaskRefusesReplay | orchestrator/src/palwakf_orchestrator/operator_service.py:404-424 | a concrete proof task, authorized, planned and suspended, refuses the request that created it |
| TaskLifecycle.OperatorService.ContinueTask | orchestrator/src/palwakf_orchestrator/operator_service.py:553-585 | only an awaiting task, or a failed one the guard lets through, returns to pending |
| TaskLifecycle.OperatorService.CancelTask | orchestrator/src/palwakf_orchestrator/operator_service.py:587-599 | every task but a verified one can be cancelled, repeatedly |
| TaskLifecycle.OperatorService.FailTask | orchestrator/src/palwakf_orchestrator/operator_service.py:601-615 | any status becomes failed or timed out with the code as blocker; a table unsound in this one task becomes sound |
| TaskLifecycle.OperatorService.VerifyTask | orchestrator/src/palwakf_orchestrator/operator_service.py:617-704 | verification succeeds exactly for the verifiable requests, unless secret scanning or readback refuses: pending verification, the result head, every required kind backed and a fitting closeout; a refusal changes at most the stored decision |
| TaskLifecycle.VerifiableMeans | orchestrator/src/palwakf_orchestrator/operator_service.py:617-704 | what a verified task needed: a result awaiting it at the very head, each requirement met, and a closeout for material changes |
| TaskLifecycle.OperatorService.DecideTask | orchestrator/src/palwakf_orchestrator/operator_service.py:629-680 | evidence is collected and decided on; accepted exactly when the request backs every required kind, and the decision is kept either way |
| TaskLifecycle.OperatorService.CloseVerification | orchestrator/src/palwakf_orchestrator/operator_service.py:682-704 | with an accepted decision only a missing or foreign learning closeout stops a verification |
| TaskLifecycle.OperatorService.CollectEvidence | orchestrator/src/palwakf_orchestrator/operator_service.py:629-662 | piece by piece the evidence the request amounts to, refused only for a foreign kind of acceptance evidence or by readback |
| TaskLifecycle.EvidenceShows | orchestrator/src/palwakf_orchestrator/operator_service.py:629-662 | which kinds that evidence shows passed or failed for the head |
| TaskLifecycle.RequireCloseout | orchestrator/src/palwakf_orchestrator/learning_closeout_gate.py:141-156 | the receipt must name the same project, task and head |
| TaskLifecycle.AcceptedIffBacked | orchestrator/src/palwakf_orchestrator/operator_service.py:664-680 | over the collected evidence the decision accepts iff the request backs every required kind |
| TaskLifecycle.OperatorService.RecordVerificationBlocker | orchestrator/src/palwakf_orchestrator/operator_service.py:706-720 | the status stays pending verification |
| TaskLifecycle.OperatorService.GenerateManualPackage | orchestrator/src/palwakf_orchestrator/operator_service.py:722-779 | one package per idempotency key, exactly for an authorized task that failed or chose the relay, unless readback or secret scanning refuses; generating it returns the task to pending |
| TaskLifecycle.OperatorService.MarkManualDispatched | orchestrator/src/palwakf_orchestrator/operator_service.py:781-795 | with the right receipt any status becomes running |
| TaskLifecycle.OperatorService.RecordManualAck | orchestrator/src/palwakf_orchestrator/operator_service.py:797-813 | with the right receipt a new thread makes any status running |
| TaskLifecycle.OperatorService.ImportManualResult | orchestrator/src/palwakf_orchestrator/operator_service.py:815-854 | taken over exactly when head and thread are the granted ones and the declared files are git's own and in scope, unless secret scanning or readback refuses; the listed files stay true to git |
| TaskLifecycle.ImportableMeans | orchestrator/src/palwakf_orchestrator/operator_service.py:827-840 | an imported result is for the head and thread of the task, with git's own files, all in scope |
| TaskLifecycle.OperatorService.CheckManualResult | orchestrator/src/palwakf_orchestrator/operator_service.py:827-840 | the checks of a relayed result accept exactly the importable ones |
| TaskLifecycle.OperatorService.RecordExternalResult | orchestrator/src/palwakf_orchestrator/operator_service.py:856-914 | recorded exactly when authorized, open, on the expected head and in scope, and only once; the listed files stay true to git iff the caller's are |
| TaskLifecycle.RecordableMeans | orchestrator/src/palwakf_orchestrator/operator_service.py:863-900 | a recorded external result is for an authorized, open task, on its head and within its scope, and the only one |
| TaskLifecycle.OneTaskSteps | orchestrator/src/palwakf_orchestrator/operator_service.py:1123-1186 | a step of one task that keeps its envelope keeps the table sound iff the new record is |
| TaskLifecycle.OneTaskFiles | orchestrator/src/palwakf_orchestrator/operator_service.py:1123-1186 | the same for the files the records list |
| TaskScope.SegmentsJoin | orchestrator/src/palwakf_orchestrator/operator_service.py:1095-1099 | the segments of a path contain no slash and joined give the path back |
| TaskScope.ViolatesIff | orchestrator/src/palwakf_orchestrator/operator_service.py:1088-1106 | a scope forbids a path that is empty, absolute, has a parent segment or a drive letter, or that no pattern matches |
| TaskLifecycle.IndexIsBijection | orchestrator/src/palwakf_orchestrator/operator_service.py:160-192 | idempotency keys and tasks are in one-to-one correspondence |
| WorkerPool.ConnectedService.Dispatch | orchestrator/src/palwakf_orchestrator/connected_service.py:137-202 | a replay changes nothing; a full queue refuses before the status changes; else the task is queued once more; a queue without repeats stays so iff nothing is appended or the task was not in it |
| WorkerPool.ConnectedService.ContinueTask | orchestrator/src/palwakf_orchestrator/connected_service.py:204-231 | a full queue refuses after the task has already gone back to pending; repeats in the queue as for dispatch |
| WorkerPool.ConnectedService.PutNowait | orchestrator/src/palwakf_orchestrator/connected_service.py:169-170 | never called on a full queue |
| WorkerPool.ConnectedService.Cancel | orchestrator/src/palwakf_orchestrator/connected_service.py:244-253 | a running execution is told to stop even if the task then refuses to be cancelled |
| WorkerPool.ConnectedService.WorkerTakes | orchestrator/src/palwakf_orchestrator/connected_service.py:336-342 | the oldest entry leaves the queue; a task cancelled by then is dropped |
| WorkerPool.ConnectedService.WorkerEnters | orchestrator/src/palwakf_orchestrator/connected_service.py:343-361 | with the repository lock free the writer row is never found busy |
| WorkerPool.ConnectedService.WorkerLeaves | orchestrator/src/palwakf_orchestrator/connected_service.py:382-385 | whatever happened, the execution, the lock and the writer row are given up together |
| WorkerPool.ConnectedService.AcquireRow | orchestrator/src/palwakf_orchestrator/persistence.py:113-124 | the row is refused only while another task holds it |
| WorkerPool.ConnectedService.ReleaseRow | orchestrator/src/palwakf_orchestrator/persistence.py:126-130 | only the holder's row is removed |
| WorkerPool.OneExecutionPerRepository | orchestrator/src/palwakf_orchestrator/connected_service.py:343-346 | never two executions in one repository nor of one task |
| WorkerPool.ActiveIsBounded | orchestrator/src/palwakf_orchestrator/connected_service.py:363-364 | no more executions than workers |
| WorkerPool.RowHeldExactlyWhileWriting | orchestrator/src/palwakf_orchestrator/connected_service.py:349-385 | a repository's writer row is held exactly while a writing execution runs there, by its task |
| WorkerPool.EnterKeeps | orchestrator/src/palwakf_orchestrator/connected_service.py:343-364 | entering keeps locks and rows matched to the executions |
| WorkerPool.LeaveKeeps | orchestrator/src/palwakf_orchestrator/connected_service.py:382-385 | leaving keeps locks and rows matched to the executions |
| WorkerPool.QueuedTwice | orchestrator/src/palwakf_orchestrator/connected_service.py:160-170 | cancel and dispatch again leave a task in the queue twice |
| RetryGuard.FailureRetryGuardStore.ImportRegistry | orchestrator/src/palwakf_orchestrator/failure_retry_guard.py:204-233 | a known revision must be identical and does not become current again |
| RetryGuard.FailureRetryGuardStore.RequireFingerprint | orchestrator/src/palwakf_orchestrator/failure_retry_guard.py:247-254 | succeeds iff in the current registry the first record of the failure names the project or every project |
| RetryGuard.FailureRetryGuardStore.RecordFailure | orchestrator/src/palwakf_orchestrator/failure_retry_guard.py:256-301 | a new id appends one observation later than all before; a known id returns its observation iff all else is the same |
| RetryGuard.FailureRetryGuardStore.LatestRelevantObservation | orchestrator/src/palwakf_orchestrator/failure_retry_guard.py:303-316 | the greatest relevant observation by time and id |
| RetryGuard.FailureRetryGuardStore.EvaluateRetry | orchestrator/src/palwakf_orchestrator/failure_retry_guard.py:338-397 | refused iff the latest relevant observation has this state and no override is given; every answer is recorded |
| RetryGuard.FailureRetryGuardStore.RequireRetryAllowed | orchestrator/src/palwakf_orchestrator/failure_retry_guard.py:399-419 | raises exactly on a refusal, which is recorded nevertheless |
| RetryGuard.AppendDecides | orchestrator/src/palwakf_orchestrator/failure_retry_guard.py:303-316 | a relevant newcomer is the latest, an irrelevant one changes nothing |
| RetryGuard.StaysBlind | orchestrator/src/palwakf_orchestrator/failure_retry_guard.py:303-348 | over any run, a blocked state stays blocked until something newer is observed for the failure and project |
| RetryGuard.BlindIff | orchestrator/src/palwakf_orchestrator/failure_retry_guard.py:303-316 | a state is blocked iff the last relevant observation on the list has it |
| RetryGuard.BlindLaterIff | orchestrator/src/palwakf_orchestrator/failure_retry_guard.py:303-348 | at any later moment of a run a state is blocked iff the last relevant observation since has it, or there is none since and it was blocked before |
| RetryGuard.RunStaysSound | orchestrator/src/palwakf_orchestrator/failure_retry_guard.py:256-301 | ids stay unique and times ascending over any run |
| RetryGuard.RecordTaskFailure | orchestrator/src/palwakf_orchestrator/operator_service.py:1157-1184 | a failing transition with a known blocker makes its state the latest observed |
| RetryGuard.MayContinue | orchestrator/src/palwakf_orchestrator/operator_service.py:565-578 | without an override a failed task is refused exactly in a blocked state |
| RetryGuard.FailedTaskStaysRefused | orchestrator/src/palwakf_orchestrator/operator_service.py:553-585 | a failed task is refused in every later state with the same hashed fields, a registry binding and nothing newer observed |
| RetryGuard.RefusesRetryIff | orchestrator/src/palwakf_orchestrator/operator_service.py:553-585 | at any later moment of a run a task is refused iff the registry binds its blocker and the last relevant observation since, of whichever task, or else the earlier block, has its state |
| RetryGuard.FailThenAsk | orchestrator/src/palwakf_orchestrator/operator_service.py:553-585 | right after one task failed, one with the same blocker and project may continue iff its state is another one |
| GuardedOperator.FailTask | orchestrator/src/palwakf_orchestrator/operator_service.py:601-615 | failing a task with a known blocker makes `continue_task` refuse it |
| GuardedOperator.ContinueTask | orchestrator/src/palwakf_orchestrator/operator_service.py:553-585 | without an override a task continues iff it awaits approval, or failed and is not refused by the guard |
| RetryGuard.ChangedFieldLiftsBlock | orchestrator/src/palwakf_orchestrator/operator_service.py:537-551 | with a collision-free hash any changed field lifts the block |
| RetryGuard.AnotherTaskLiftsBlock | orchestrator/src/palwakf_orchestrator/failure_retry_guard.py:303-316 | import, failure, refusal, another task's failure in another state, and the first task may continue: the block belongs to failure and project |
| RetryGuard.RouteAfter403 | orchestrator/src/palwakf_orchestrator/github_execution_channel.py:275-345 | the inconsistency error needs a replayed observation id; a fresh one never meets it |
| RetryGuard.ReplayIsInconsistentIff | orchestrator/src/palwakf_orchestrator/github_execution_channel.py:299-317 | a replayed observation is contradicted iff the project's last 403 was observed in another permission state |
| RateLimiter.BoundedRateLimiter.Require | orchestrator/src/palwakf_orchestrator/auth.py:137-144 | admitted iff fewer than the limit were admitted in the preceding 60 seconds; the deque is the live suffix of the history |
| RateLimiter.Expire | orchestrator/src/palwakf_orchestrator/auth.py:140-141 | exactly the expired admissions leave the front |
| RateLimiter.BoundedRateLimiter.NeverTooMany | orchestrator/src/palwakf_orchestrator/auth.py:132-144 | no 60-second window of a client's history holds more than the limit |
| RateLimiter.WindowHoldsAtMostLimit | orchestrator/src/palwakf_orchestrator/auth.py:137-144 | admissions a limit apart span a window, so no window holds more |
| RateLimiter.LiveIsRecent | orchestrator/src/palwakf_orchestrator/auth.py:140-142 | the length of the deque is the number of recent admissions |
| ImpactAnalysis.DownstreamProjects | orchestrator/src/palwakf_orchestrator/cross_project_impact_analysis.py:139-153 | the worklist ends, on cyclic graphs too, with exactly the projects reachable from the seeds less the seeds |
| ImpactAnalysis.ClosureIsComplete | orchestrator/src/palwakf_orchestrator/cross_project_impact_analysis.py:139-153 | a set closed under the flow holds everything downstream |
| ImpactAnalysis.EveryEdgeCarriesImpact | orchestrator/src/palwakf_orchestrator/cross_project_impact_analysis.py:139-153 | a retired or superseded edge carries impact to its consumer |
| ImpactAnalysis.StatusIsIgnored | orchestrator/src/palwakf_orchestrator/cross_project_impact_analysis.py:139-153 | graphs that differ only in edge status have the same projects downstream |
| ImpactAnalysis.Analyze | orchestrator/src/palwakf_orchestrator/cross_project_impact_analysis.py:156-205 | one decision per project in graph order; binding errors in order of the checks; a failing classification is the only other error |
| ImpactAnalysis.NoImpactIff | orchestrator/src/palwakf_orchestrator/cross_project_impact_analysis.py:176-188 | NO_IMPACT iff the project is not the source and no affected project reaches it |
| ImpactAnalysis.DirectIsNeverNoImpact | orchestrator/src/palwakf_orchestrator/cross_project_impact_analysis.py:107-136 | a directly affected project is never untouched, and informational only in the listed cases |
| ImpactAnalysis.DirectByKind | orchestrator/src/palwakf_orchestrator/cross_project_impact_analysis.py:107-136 | without an answer from the inbox, retired contracts and moved boundaries block, deprecated contracts are deferred, and dependency, runtime and breaking changes need revalidation |
| ImpactAnalysis.InboxDecides | orchestrator/src/palwakf_orchestrator/cross_project_impact_analysis.py:94-118 | an answered inbox item decides alone |
| ImpactAnalysis.BindingErrorIff | orchestrator/src/palwakf_orchestrator/cross_project_impact_analysis.py:164-174 | an analysis starts iff graph and contracts are the ones of the event and all its projects are in the graph |
| PolicyDecision.Decide | orchestrator/src/palwakf_orchestrator/policy_decision_engine.py:142-258 | allowed iff every field and permission is known, each layer is there exactly once and known, each list of accepted values holds "*" or the request's value, and every layer holds every requested permission; otherwise the verdict on the request and the facts of its layers |
| PolicyDecision.Index | orchestrator/src/palwakf_orchestrator/policy_decision_engine.py:164-169 | the last rule of each kind and the kinds that repeat |
| PolicyDecision.ScopeFailures | orchestrator/src/palwakf_orchestrator/policy_decision_engine.py:206-212 | exactly the rules out of scope, one line per mismatched field in order |
| PolicyDecision.Intersect | orchestrator/src/palwakf_orchestrator/policy_decision_engine.py:224-226 | what every layer grants |
| PolicyDecision.AllowIff | orchestrator/src/palwakf_orchestrator/policy_decision_engine.py:142-258 | the same condition, layer by layer |
| PolicyDecision.UnknownIff | orchestrator/src/palwakf_orchestrator/policy_decision_engine.py:117-121 | a value is unknown iff it is missing, blank, or a sentinel in any letter case between blanks |
| PolicyDecision.InScopeIff | orchestrator/src/palwakf_orchestrator/policy_decision_engine.py:124-127 | a rule matches iff each list it has holds "*" or the request's value |
| PolicyDecision.DeniersAreGuilty | orchestrator/src/palwakf_orchestrator/policy_decision_engine.py:164-250 | a denial names exactly the layers that are missing or repeated, else unknown, else out of scope, else withholding a requested permission |
| PolicyDecision.ScopeReasons | orchestrator/src/palwakf_orchestrator/policy_decision_engine.py:206-222 | the reasons of a scope denial are one line for each field that some layer's list leaves out |
| PolicyDecision.EffectiveIsIntersection | orchestrator/src/palwakf_orchestrator/policy_decision_engine.py:224-227 | on ALLOW the effective permissions are what all rules grant and hold all that is requested |
| PolicyDecision.DenialIsExplained | orchestrator/src/palwakf_orchestrator/policy_decision_engine.py:147-250 | every denial names a denier and a reason |
| PolicyDecision.OrderDoesNotMatter | orchestrator/src/palwakf_orchestrator/policy_decision_engine.py:164-258 | no output depends on the order of the layers |
| PolicyDecision.NarrowingNeverAllows | orchestrator/src/palwakf_orchestrator/policy_decision_engine.py:142-258 | narrowing a layer never turns a denial into an allowance |
| ChangeInbox.ProjectChangeInboxStore.IngestEvent | orchestrator/src/palwakf_orchestrator/project_change_inbox.py:190-209 | old items stay, each affected project but the source gets its item and is reported once and in order, a conflicting replay stores nothing, an unreadable inbox refuses, and with a collision-free hash the inbox stays readable iff no fresh key concatenates like an old one |
| ChangeInbox.ProjectChangeInboxStore.SyncRegistry | orchestrator/src/palwakf_orchestrator/project_change_inbox.py:182-188 | afterwards every event is delivered; a second sync changes nothing |
| ChangeInbox.ProjectChangeInboxStore.Transition | orchestrator/src/palwakf_orchestrator/project_change_inbox.py:211-252 | moves one item iff status, project, evidence and resolution allow it; evidence is extended |
| ChangeInbox.ProjectChangeInboxStore.Snapshot | orchestrator/src/palwakf_orchestrator/project_change_inbox.py:85-92 | readable iff item ids are unique |
| ChangeInbox.Refusal | orchestrator/src/palwakf_orchestrator/project_change_inbox.py:222-236 | the first check that fails, none iff the move is allowed |
| ChangeInbox.MayFollowIff | orchestrator/src/palwakf_orchestrator/project_change_inbox.py:136-157 | a status may change to any other but open, never from resolved, and not from a demanded revalidation to a mere acknowledgement |
| ChangeInbox.ExactlyOne | orchestrator/src/palwakf_orchestrator/project_change_inbox.py:190-209 | a delivered event has exactly one item per affected project |
| ChangeInbox.RunsEvolve | orchestrator/src/palwakf_orchestrator/project_change_inbox.py:136-252 | over any run resolved items are frozen, evidence grows by extension and nothing returns to open |
| ChangeInbox.MoveKeeps | orchestrator/src/palwakf_orchestrator/project_change_inbox.py:238-252 | a permitted move keeps keys unique and items sound |
| ChangeInbox.ReadableIff | orchestrator/src/palwakf_orchestrator/project_change_inbox.py:113-114 | with a collision-free hash the inbox is readable iff its `project:event` strings are pairwise different |
| ChangeInbox.FreshTextsDiffer | orchestrator/src/palwakf_orchestrator/project_change_inbox.py:190-209 | adding the fresh items of an event keeps the strings different iff none of them equals the string of another item |
| ChangeInbox.NoColonIsReadable | orchestrator/src/palwakf_orchestrator/project_change_inbox.py:113-114 | with a collision-free hash and no colon in project ids it is always readable |
| ChangeInbox.CollidingKeysLockTheInbox | orchestrator/src/palwakf_orchestrator/project_change_inbox.py:113-114 | two events whose keys concatenate alike leave an inbox that cannot be read or changed |
| PythonSequences.FirstOccurrencesExtends | orchestrator/src/palwakf_orchestrator/project_change_inbox.py:243-245 | extending deduplicated evidence keeps it as a prefix |

## Left out

- GitRepository.Git.DirtyPaths: the two git listings behind it are read at one moment; quoting of unusual path names is not modelled.
- GitRepository.Git.CommitIndex: hooks may change what is committed, but a commit that fails without effect leaves the index alone.
- GovernedWrite.GovernanceGate.VerifyRepository: the hosted-repository gate is a check that may refuse; its own rules are not part of this model. Letter case of commit ids is normalized beforehand.
- ExternalCheckpoint.CheckpointService.Attempts: preparing a workspace and applying files to it are not part of the sequence; path sets are compared, as in the code, not file contents; repository naming rules and secret scanning of the recorded text are assumed checked.
- ScopeOverlap.SafeExactlyWhenAligned: stated for patterns without bracket classes, because under one fixed reading a class may match nothing and then misses nothing; `SafeUnderEveryReading` covers classes, and an opening bracket that never closes, a literal to `fnmatch` and a wildcard to the prefix test, is left to the soundness half, `CommonPathMeansOverlap`, which has no restriction.
- CriticalPath.LongestDependencyPath: which of several longest paths is returned is not stated.
- VersionKey.VersionSortKey: case folding and digits outside ASCII are not modelled.
- InstructionResolver.Resolve: the digest of the result is not modelled.
- FourSystemL4.Service.RecordAgentic: time stamps and resume tokens are carried but not interpreted.
- TaskLifecycle.OperatorService.BeginDispatch: capability routing, provider certification and the executor are inputs; task records are values in a map rather than shared objects, and a persistence failure after a change in memory leaves that change, as stated for the successful call.
- TaskLifecycle.OperatorService.SettleDispatch: requests that arrive between the error of a dispatch and the failure recorded for it are not modelled; they are calls on a table that is sound but for that task.
- TaskLifecycle.OperatorService.RecordExternalResult: time stamps and durations of tasks are not modelled.
- WorkerPool.ConnectedService.WorkerEnters: for a pool without crash, restart or external checkpoint; a worker that dies is one that stays idle; stopping the service and polling of continuous integration are not modelled.
- RetryGuard.FailureRetryGuardStore.EvaluateRetry: the decision id is not modelled, so every evaluation appends a decision; snapshots of one revision are compared as values instead of by hash.
- RetryGuard.RouteAfter403: the blockers of the local route are an input.
- RateLimiter.BoundedRateLimiter.Require: time is a real number; rounding of floating-point clocks is not modelled.
- PolicyDecision.Decide: the input fingerprint is not modelled; upper-casing outside ASCII is not modelled.
- ChangeInbox.ProjectChangeInboxStore.Snapshot: the integrity hash over the stored items is assumed to match.
- KnowledgeProvenance.ValidateRegistry: registry hashes and field patterns are assumed checked.
- Capability routing, skill admission, tool health, readiness and incidents: routing picks the first listed adapter that is available, permitted and certified; admission intersects a few permission sets; health and readiness map recorded facts to a status; incidents move through a fixed sequence of statuses.
- HTTP routes, interface serving, tokens and cookies: plumbing without a property of this kind.
- Fairness of the merge queue, permanence of cancelled and verified, and recovery of writer rows after a crash: not guaranteed by the code.
