/** Event names, blockers and refusals of the operator, as they are recorded or raised. */
module OperatorCodes {
  const ACCEPTANCE_EVIDENCE_REJECTED := "ACCEPTANCE_EVIDENCE_REJECTED"
  const AUTOMATIC_CHANNEL_UNAVAILABLE := "AUTOMATIC_CHANNEL_UNAVAILABLE"
  const AUTOMATIC_DISPATCH_BLOCKED_BY_PROVIDER_ROLE_POLICY := "AUTOMATIC_DISPATCH_BLOCKED_BY_PROVIDER_ROLE_POLICY"
  const AUTOMATIC_DISPATCH_COMPLETED := "AUTOMATIC_DISPATCH_COMPLETED"
  const AUTOMATIC_DISPATCH_FAILED := "AUTOMATIC_DISPATCH_FAILED"
  const EXECUTION_RESULT_OUTSIDE_AUTHORIZED_SCOPE := "EXECUTION_RESULT_OUTSIDE_AUTHORIZED_SCOPE"
  const EXECUTION_SCOPE_VIOLATION := "EXECUTION_SCOPE_VIOLATION"
  const EXECUTOR_PROVIDER_MISMATCH := "EXECUTOR_PROVIDER_MISMATCH"
  const EXTERNAL_EXECUTION_RESULT_IDEMPOTENCY_CONFLICT := "EXTERNAL_EXECUTION_RESULT_IDEMPOTENCY_CONFLICT"
  const EXTERNAL_WORKSPACE_CHECKPOINTED := "EXTERNAL_WORKSPACE_CHECKPOINTED"
  const FAILURE_RETRY_BLOCKED := "FAILURE_RETRY_BLOCKED"
  const INDEPENDENT_VERIFICATION_BLOCKED := "INDEPENDENT_VERIFICATION_BLOCKED"
  const LEARNING_CLOSEOUT_HEAD_MISMATCH := "LEARNING_CLOSEOUT_HEAD_MISMATCH"
  const LEARNING_CLOSEOUT_PROJECT_MISMATCH := "LEARNING_CLOSEOUT_PROJECT_MISMATCH"
  const LEARNING_CLOSEOUT_TASK_MISMATCH := "LEARNING_CLOSEOUT_TASK_MISMATCH"
  const MANUAL_PACKAGE_GENERATED := "MANUAL_PACKAGE_GENERATED"
  const MANUAL_RESULT_CHANGED_FILES_MISMATCH_GIT_TRUTH := "MANUAL_RESULT_CHANGED_FILES_MISMATCH_GIT_TRUTH"
  const MANUAL_RESULT_IMPORTED := "MANUAL_RESULT_IMPORTED"
  const MATERIAL_TASK_LEARNING_CLOSEOUT_REQUIRED := "MATERIAL_TASK_LEARNING_CLOSEOUT_REQUIRED"
  const MUTATING_PROVIDER_MODE_REQUIRES_WORKSPACE_WRITE := "MUTATING_PROVIDER_MODE_REQUIRES_WORKSPACE_WRITE"
  const MUTATING_PROVIDER_TASK_REQUIRES_NONEMPTY_SCOPE := "MUTATING_PROVIDER_TASK_REQUIRES_NONEMPTY_SCOPE"
  const NO_ELIGIBLE_ENGINEERING_PROVIDER := "NO_ELIGIBLE_ENGINEERING_PROVIDER"
  const PROVIDER_CERTIFICATION_BLOCKED := "PROVIDER_CERTIFICATION_BLOCKED"
  const PROVIDER_CERTIFICATION_REQUIRED := "PROVIDER_CERTIFICATION_REQUIRED"
  const PROVIDER_PLAN_SPLIT_NOT_ALLOWED := "PROVIDER_PLAN_SPLIT_NOT_ALLOWED"
  const PROVIDER_SELECTION_FAILED := "PROVIDER_SELECTION_FAILED"
  const READ_ONLY_PROVIDER_MODE_REQUIRES_READ_ONLY_SANDBOX := "READ_ONLY_PROVIDER_MODE_REQUIRES_READ_ONLY_SANDBOX"
  const READ_ONLY_PROVIDER_MUTATION := "READ_ONLY_PROVIDER_MUTATION"
  const RELAY_PROVIDER_ACKNOWLEDGED := "RELAY_PROVIDER_ACKNOWLEDGED"
  const REPOSITORY_VERIFICATION_FAILED := "REPOSITORY_VERIFICATION_FAILED"
  const REQUESTED_PROVIDER_NOT_ELIGIBLE := "REQUESTED_PROVIDER_NOT_ELIGIBLE"
  const SECRET_MATERIAL_REJECTED := "SECRET_MATERIAL_REJECTED"
  const SERVICE_RESTART_INTERRUPTED_EXECUTION := "SERVICE_RESTART_INTERRUPTED_EXECUTION"
  const TASK_AUTHORIZED := "TASK_AUTHORIZED"
  const TASK_BRANCH_REQUIRES_ENGINEERING_RUN_ADAPTER := "TASK_BRANCH_REQUIRES_ENGINEERING_RUN_ADAPTER"
  const TASK_CANCELLED := "TASK_CANCELLED"
  const TASK_CONTINUED := "TASK_CONTINUED"
  const TASK_CREATED := "TASK_CREATED"
  const TASK_EXECUTION_FAILED := "TASK_EXECUTION_FAILED"
  const TASK_EXECUTION_STARTED := "TASK_EXECUTION_STARTED"
  const TASK_INDEPENDENTLY_VERIFIED := "TASK_INDEPENDENTLY_VERIFIED"
  const TASK_QUEUED := "TASK_QUEUED"
  const TASK_RECOVERED_AFTER_RESTART := "TASK_RECOVERED_AFTER_RESTART"
  const TASK_TIMED_OUT := "TASK_TIMED_OUT"
  const TOOL_DECISIONS_PERSISTED := "TOOL_DECISIONS_PERSISTED"
  const USER_RELAY_DISPATCHED := "USER_RELAY_DISPATCHED"
  const VERIFICATION_UAT_EVIDENCE_KIND_INVALID := "VERIFICATION_UAT_EVIDENCE_KIND_INVALID"

  const AUTHORIZATION_HEAD_MISMATCH := "authorization HEAD does not match task authority"
  const AUTHORIZATION_NOT_REQUIRED := "task does not require explicit authorization"
  const AUTHORIZATION_REFERENCE_MISMATCH := "authorization reference does not match task authority"
  const BLOCKER_REQUIRES_PENDING_VERIFICATION := "verification blocker requires pending verification"
  const CANCELLED_CANNOT_BE_DISPATCHED := "cancelled task cannot be dispatched"
  const CHECKPOINT_BEFORE_HEAD_MISMATCH := "external checkpoint before_head does not match task authority"
  const CHECKPOINT_OF_TERMINAL_TASK := "external checkpoint rejected for terminal operator task"
  const CROSS_EXECUTOR_RESUME := "cross-executor resume rejected: explicit migration handshake is required"
  const CROSS_HOST_RESUME := "cross-host resume rejected: explicit migration handshake is required"
  const EXECUTION_FAILED := "EXECUTION_FAILED:GovernanceError:"
  const IDEMPOTENCY_KEY_TAKEN := "idempotency key already belongs to a different envelope"
  const MANUAL_FALLBACK_NOT_SELECTED := "manual fallback requires an automatic failure or explicit selection"
  const MANUAL_RESULT_BEFORE_HEAD_MISMATCH := "manual result before_head does not match task authority"
  const MANUAL_RESULT_THREAD_MISMATCH := "manual result thread reference does not match acknowledgement"
  const NOT_CONTINUABLE := "task is not in a continuable state"
  const ORCHESTRATOR_UNAVAILABLE := "automatic orchestrator is unavailable"
  const PACKAGE_RECEIPT_MISMATCH := "manual package receipt is missing or does not match"
  const READBACK_PREFIX := "repository-readback:"
  const RESULT_REQUIRED_FIRST := "executor completion or manual result is required first"
  const TASK_ID_TAKEN := "task_id already exists with a different idempotency key"
  const TOOL_DECISIONS_REQUIRED := "tool decisions must be persisted before dispatch"
  const PLAN_FOR_ANOTHER_TASK := "tool plan request does not match persisted task"
  const UNKNOWN_PROFILE := "unknown project capability profile"
  const TOOL_PLAN_BLOCKED := "tool plan contains a blocked required capability"
  const UNAUTHORIZED_CHECKPOINT := "explicit task authorization is required before external checkpoint"
  const UNAUTHORIZED_DISPATCH := "explicit task authorization is required before dispatch"
  const UNAUTHORIZED_MUTATION := "explicit task authorization is required for provider source mutation"
  const UNAUTHORIZED_PACKAGE := "explicit task authorization is required before manual package"
  const UNKNOWN_TASK := "unknown task"
  const VERIFICATION_HEAD_MISMATCH := "verification receipt HEAD does not match task result"
  const VERIFIED_CANNOT_BE_CANCELLED := "verified task cannot be cancelled"
  const WRITE_RESTRICTED_TO_PROOF_TASK := "workspace-write is restricted to the governed proof task"
}
