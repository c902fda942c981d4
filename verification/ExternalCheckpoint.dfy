/**
 * Checkpointing an external workspace: commit the validated paths once, publish
 * the commit without force, read it back, and record it with the operator task
 * and its parent. Every git and store step may fail, and the next attempt
 * resumes from whatever the failed one left behind.
 */
module ExternalCheckpoint {
  import opened Outcomes
  import opened ScopeOverlap
  import opened TaskScope
  import opened GitRepository
  import opened OperatorCodes
  import TaskLifecycle

  const EXTERNAL_CHECKPOINT_COMMIT_SCOPE_MISMATCH := "EXTERNAL_CHECKPOINT_COMMIT_SCOPE_MISMATCH"
  const EXTERNAL_CHECKPOINT_LOCAL_COMMIT_DRIFT := "EXTERNAL_CHECKPOINT_LOCAL_COMMIT_DRIFT"
  const EXTERNAL_CHECKPOINT_LOCAL_HEAD_AND_DIRTY_DRIFT := "EXTERNAL_CHECKPOINT_LOCAL_HEAD_AND_DIRTY_DRIFT"
  const EXTERNAL_CHECKPOINT_PARENT_MISMATCH := "EXTERNAL_CHECKPOINT_PARENT_MISMATCH"
  const EXTERNAL_CHECKPOINT_REMOTE_READBACK_MISMATCH := "EXTERNAL_CHECKPOINT_REMOTE_READBACK_MISMATCH"
  const EXTERNAL_CHECKPOINT_REQUIRES_SOURCE_CHANGE := "EXTERNAL_CHECKPOINT_REQUIRES_SOURCE_CHANGE"
  const EXTERNAL_CHECKPOINT_REQUIRES_SUCCESSFUL_VALIDATION := "EXTERNAL_CHECKPOINT_REQUIRES_SUCCESSFUL_VALIDATION"
  const EXTERNAL_CHECKPOINT_STAGED_SCOPE_MISMATCH := "EXTERNAL_CHECKPOINT_STAGED_SCOPE_MISMATCH"
  const EXTERNAL_CHECKPOINT_WORKTREE_NOT_CLEAN := "EXTERNAL_CHECKPOINT_WORKTREE_NOT_CLEAN"
  const EXTERNAL_EXECUTION_AUTHORITY_DRIFT := "EXTERNAL_EXECUTION_AUTHORITY_DRIFT"
  const EXTERNAL_EXECUTION_REQUIRES_EXPLICIT_AUTHORIZATION := "EXTERNAL_EXECUTION_REQUIRES_EXPLICIT_AUTHORIZATION"
  const EXTERNAL_EXECUTION_REQUIRES_EXPLICIT_SOURCE_SCOPE := "EXTERNAL_EXECUTION_REQUIRES_EXPLICIT_SOURCE_SCOPE"
  const EXTERNAL_EXECUTION_REQUIRES_EXTERNAL_REPOSITORY := "EXTERNAL_EXECUTION_REQUIRES_EXTERNAL_REPOSITORY"
  const EXTERNAL_EXECUTION_RUN_AUTHORITY_STALE := "EXTERNAL_EXECUTION_RUN_AUTHORITY_STALE"
  const EXTERNAL_EXECUTION_SOURCE_WRITE_NOT_AUTHORIZED := "EXTERNAL_EXECUTION_SOURCE_WRITE_NOT_AUTHORIZED"
  const EXTERNAL_REMOTE_TASK_BRANCH_DRIFT := "EXTERNAL_REMOTE_TASK_BRANCH_DRIFT"
  const EXTERNAL_WORKSPACE_BRANCH_DRIFT := "EXTERNAL_WORKSPACE_BRANCH_DRIFT"
  const EXTERNAL_WORKSPACE_CHANGED_AFTER_VALIDATION := "EXTERNAL_WORKSPACE_CHANGED_AFTER_VALIDATION"
  const EXTERNAL_WORKSPACE_HEAD_DRIFT := "EXTERNAL_WORKSPACE_HEAD_DRIFT"
  const EXTERNAL_WORKSPACE_PREFIX := "external-workspace:"
  const REPOSITORY_WRITER_BUSY := "REPOSITORY_WRITER_BUSY"
  const TASK_STATE_REJECTS_WIP_CHECKPOINT := "TASK_STATE_REJECTS_WIP_CHECKPOINT"
  const STORE_FAILED := "STATE_STORE_FAILED"

  /** What the run was authorized for; nothing here changes between attempts. */
  datatype Task = Task(run: string, taskId: string, branch: string, expectedHead: Sha, scope: seq<string>,
                       workspaceWrite: bool, external: bool, parentBranch: string, baseSha: Sha,
                       parentSourceWrite: bool)

  datatype Operator = Operator(authorized: bool, status: TaskLifecycle.TaskStatus, beforeHead: Option<Sha>,
                               afterHead: Option<Sha>, changedFiles: set<string>, receipt: Option<string>)

  datatype ParentStatus = Ready | Checkpointed | Integrated | ParentCancelled | Superseded

  datatype Parent = Parent(latestRemote: Option<Sha>, status: ParentStatus)

  datatype Lifecycle = Validated | Blocked | Published

  datatype Validation = Validation(allPassed: bool, paths: set<string>)

  datatype Status = Status(lifecycle: Lifecycle, validation: Option<Validation>, checkpointSha: Option<Sha>)

  function Receipt(run: string, sha: Sha): string { EXTERNAL_WORKSPACE_PREFIX + run + ":" + sha }

  function AuthorityHead(task: Task, parent: Parent): Sha {
    if parent.latestRemote.Some? then parent.latestRemote.value else task.baseSha
  }

  function PathsOf(status: Option<Status>): Option<set<string>> {
    if status.Some? && status.value.validation.Some? then Some(status.value.validation.value.paths) else None
  }

  // ---------------------------------------------------------------- invariant

  /** A commit on the expected head whose paths are exactly the validated ones. */
  ghost predicate IsCheckpoint(commits: Commits, task: Task, paths: Option<set<string>>, c: Sha) {
    && task.expectedHead in commits && c in commits && commits[c].parent == Some(task.expectedHead)
    && paths == Some(Diff(commits[task.expectedHead].tree, commits[c].tree))
  }

  /** Either nothing was committed yet, or the head is the only commit ever made. */
  ghost predicate CommitsOnce(task: Task, commits: Commits, head: Sha, made: seq<Sha>) {
    && task.expectedHead in commits
    && (made == [] ==> head == task.expectedHead)
    && (made != [] ==> made == [head] && head != task.expectedHead)
  }

  /** To the local head, from an ancestor, and only after seeing the branch absent or still at the expected head. */
  ghost predicate IsSafeMove(task: Task, commits: Commits, head: Sha, m: Move) {
    && m.branch == task.branch && m.to == head && FastForward(commits, m.from, m.to)
    && (m.seen.None? || m.seen == Some(task.expectedHead))
  }

  ghost predicate PublishesOnlyTheCheckpoint(task: Task, paths: Option<set<string>>, commits: Commits, head: Sha,
                                             made: seq<Sha>, moves: seq<Move>) {
    && (forall m :: m in moves ==> IsSafeMove(task, commits, head, m))
    && (moves != [] ==> made == [head] && IsCheckpoint(commits, task, paths, head))
  }

  ghost predicate Recorded(reading: ClassReading, task: Task, paths: Option<set<string>>, commits: Commits, head: Sha,
                           made: seq<Sha>, operator: Operator) {
    && made == [head] && IsCheckpoint(commits, task, paths, head)
    && operator.receipt == Some(Receipt(task.run, head)) && operator.beforeHead == Some(task.expectedHead)
    && operator.afterHead == Some(head) && Some(operator.changedFiles) == paths
    && InScope(reading, task.scope, operator.changedFiles)
  }

  predicate IsPublished(status: Option<Status>) { status.Some? && status.value.lifecycle == Published }

  /** The parent stands where the run started, or where its recorded result is; a published status means the latter. */
  ghost predicate ParentFollows(task: Task, head: Sha, operator: Operator, parent: Parent, status: Option<Status>) {
    && (AuthorityHead(task, parent) == task.expectedHead
        || (operator.receipt.Some? && parent.latestRemote == Some(head)))
    && (IsPublished(status) ==> parent.latestRemote == Some(head))
  }

  lemma NothingYet(reading: ClassReading, task: Task, paths: Option<set<string>>, commits: Commits, head: Sha,
                   made: seq<Sha>, moves: seq<Move>, operator: Operator)
    requires head == task.expectedHead
    requires CommitsOnce(task, commits, head, made)
             && PublishesOnlyTheCheckpoint(task, paths, commits, head, made, moves)
    requires operator.receipt.Some? ==> Recorded(reading, task, paths, commits, head, made, operator)
    ensures made == [] && moves == [] && operator.receipt.None?
  {
  }

  /** A fresh commit on a head that was never published. */
  lemma FirstCommit(task: Task, paths: Option<set<string>>, before: Commits, commits: Commits, head: Sha)
    requires task.expectedHead in before && head !in before && head in commits
             && commits == before[head := commits[head]]
    ensures CommitsOnce(task, commits, head, [head])
            && PublishesOnlyTheCheckpoint(task, paths, commits, head, [head], [])
  {
  }

  lemma MoveKeepsPublishing(task: Task, paths: Option<set<string>>, commits: Commits, head: Sha, made: seq<Sha>,
                            before: seq<Move>, moves: seq<Move>)
    requires made == [head] && IsCheckpoint(commits, task, paths, head)
    requires PublishesOnlyTheCheckpoint(task, paths, commits, head, made, before)
    requires |moves| == |before| + 1 && moves[..|before|] == before
    requires IsSafeMove(task, commits, head, moves[|before|])
    ensures PublishesOnlyTheCheckpoint(task, paths, commits, head, made, moves)
  {
    hide IsSafeMove, IsCheckpoint;
    assert moves == before + [moves[|before|]];
  }

  /** Once something was published or recorded, only the very same paths can be agreed on again. */
  lemma SamePathsAgain(reading: ClassReading, task: Task, old': Option<set<string>>, paths: Option<set<string>>,
                       commits: Commits, head: Sha, made: seq<Sha>, moves: seq<Move>, operator: Operator)
    requires CommitsOnce(task, commits, head, made)
             && PublishesOnlyTheCheckpoint(task, old', commits, head, made, moves)
    requires operator.receipt.Some? ==> Recorded(reading, task, old', commits, head, made, operator)
    requires head == task.expectedHead || IsCheckpoint(commits, task, paths, head)
    ensures PublishesOnlyTheCheckpoint(task, paths, commits, head, made, moves)
    ensures operator.receipt.Some? ==> Recorded(reading, task, paths, commits, head, made, operator)
  {
    if head == task.expectedHead { NothingYet(reading, task, old', commits, head, made, moves, operator); }
  }

  /** What a service finds in the stores, and in a repository with this history, when it is started. */
  ghost predicate Consistent(reading: ClassReading, task: Task, paths: Option<set<string>>, commits: Commits, head: Sha,
                             made: seq<Sha>, moves: seq<Move>, operator: Operator, status: Option<Status>) {
    && CommitsOnce(task, commits, head, made) && PublishesOnlyTheCheckpoint(task, paths, commits, head, made, moves)
    && (operator.receipt.Some? ==> Recorded(reading, task, paths, commits, head, made, operator))
    && (IsPublished(status) ==> operator.receipt.Some? && status.value.checkpointSha == Some(head)
                                && PathsOf(status) == paths)
  }

  class CheckpointService {
    const task: Task
    const git: Git
    const reading: ClassReading
    var operator: Operator
    var parent: Parent
    var status: Option<Status>
    /** The task holding the writer row of this repository. */
    var writer: Option<string>
    ghost var failedReleases: nat
    /** The validated paths that the publication and the records were checked against. */
    ghost var agreed: Option<set<string>>

    constructor (task: Task, git: Git, reading: ClassReading, operator: Operator, parent: Parent,
                 validation: Option<Validation>)
      requires git.Valid() && git.head == task.expectedHead && git.made == [] && git.moves == []
      requires operator.receipt.None? && AuthorityHead(task, parent) == task.expectedHead
      ensures Valid() && Followed()
      ensures this.task == task && this.git == git && this.operator == operator && this.parent == parent
      ensures writer == None && failedReleases == 0 && status == Some(Status(Validated, validation, None))
    {
      this.task, this.git, this.reading, this.operator, this.parent := task, git, reading, operator, parent;
      status := Some(Status(Validated, validation, None));
      writer, failedReleases, agreed := None, 0, None;
    }

    /** A service started on stored records. */
    constructor Restored(task: Task, git: Git, reading: ClassReading, operator: Operator, parent: Parent,
                         status: Option<Status>, writer: Option<string>, ghost agreed: Option<set<string>>)
      requires git.Valid() && Consistent(reading, task, agreed, git.commits, git.head, git.made, git.moves, operator,
                                         status)
      ensures Valid() && this.task == task && this.git == git && this.reading == reading && this.operator == operator
      ensures this.parent == parent && this.status == status && this.writer == writer && failedReleases == 0
    {
      this.task, this.git, this.reading, this.operator, this.parent := task, git, reading, operator, parent;
      this.status, this.writer, this.failedReleases, this.agreed := status, writer, 0, agreed;
    }

    ghost predicate Valid()
      reads this, git
    {
      git.Valid() && Consistent(reading, task, agreed, git.commits, git.head, git.made, git.moves, operator, status)
    }

    /** Holds as long as nobody else writes the parent's record. */
    ghost predicate Followed()
      reads this, git
    {
      ParentFollows(task, git.head, operator, parent, status)
    }

    ghost predicate HeadIsCheckpoint()
      reads this, git
    {
      git.made == [git.head] && IsCheckpoint(git.commits, task, agreed, git.head)
    }

    /** The parent stands where the run started or, if that counts, where the operator has recorded its result. */
    ghost predicate ParentAllows(allowCompleted: bool)
      reads this
    {
      var at := if parent.latestRemote.None? then task.baseSha else parent.latestRemote.value;
      at == task.expectedHead
      || (allowCompleted && operator.afterHead == Some(at)
          && operator.status in {TaskLifecycle.PendingVerification, TaskLifecycle.Verified})
    }

    /** What no attempt can change: an external repository, the parent's own branch, and leave to write sources. */
    ghost predicate MayEverWrite() {
      task.external && task.branch == task.parentBranch && task.parentSourceWrite && task.workspaceWrite
    }

    ghost predicate MayCheckpoint()
      reads this
    {
      && MayEverWrite() && operator.authorized && ParentAllows(true)
      && status.Some? && status.value.validation.Some? && status.value.validation.value.allPassed
    }

    twostate predicate NothingDone()
      reads this, git
    {
      && operator == old(operator) && parent == old(parent) && status == old(status) && writer == old(writer)
      && git.made == old(git.made) && git.moves == old(git.moves) && git.head == old(git.head)
      && git.commits == old(git.commits) && git.index == old(git.index)
    }

    /** A commit was only tried with an index that was checked and that differed from the head in these paths. */
    twostate predicate OfferedOnly(paths: Option<set<string>>)
      reads this, git
    {
      git.made != old(git.made) ==>
        && task.expectedHead in old(git.commits) && git.offered == git.checked
        && Some(Diff(old(git.commits)[task.expectedHead].tree, git.offered)) == paths
    }

    /** There is something to commit still, or the commit is the one the stored validation is about. */
    ghost predicate Resumable()
      reads this, git
    {
      git.head == task.expectedHead || IsCheckpoint(git.commits, task, PathsOf(status), git.head)
    }

    // ------------------------------------------------------ between two attempts

    /**
     * Authorization, verification, cancellation and other tasks' writers may come and go; other runs may write the
     * parent.
     */
    method OthersAct(operatorToo: bool, parentToo: bool)
      requires Valid()
      modifies this`operator, this`parent, this`writer, git`work, git`remote, git`failures
      ensures Valid()
      ensures operator == old(operator).(status := operator.status, authorized := operator.authorized)
      ensures !operatorToo ==> operator == old(operator)
      ensures !parentToo ==> parent == old(parent) && (old(Followed()) ==> Followed())
    {
      var s: TaskLifecycle.TaskStatus := *;
      var authorized: bool := *;
      if operatorToo { operator := operator.(status := s, authorized := authorized); }
      if parentToo { parent := *; }
      writer := *;
      git.Drift();
    }

    // ------------------------------------------------------------- the protocol

    /** Why the run may not act; after its result was recorded the parent may stand there. */
    function Authority(allowCompleted: bool): (r: Result<()>)
      reads this
    {
      if !task.external then Err(EXTERNAL_EXECUTION_REQUIRES_EXTERNAL_REPOSITORY)
      else if task.branch != task.parentBranch then Err(EXTERNAL_EXECUTION_AUTHORITY_DRIFT)
      else if !operator.authorized then Err(EXTERNAL_EXECUTION_REQUIRES_EXPLICIT_AUTHORIZATION)
      else if AuthorityHead(task, parent) != task.expectedHead && !(allowCompleted && Completed())
              then Err(EXTERNAL_EXECUTION_RUN_AUTHORITY_STALE)
      else Ok(())
    }

    predicate Completed()
      reads this
    {
      && operator.afterHead == Some(AuthorityHead(task, parent))
      && (operator.status == TaskLifecycle.PendingVerification || operator.status == TaskLifecycle.Verified)
    }

    function CheckAuthority(): (r: Result<()>)
      reads this
    {
      var authority := Authority(true);
      if authority.Err? then authority
      else if !task.parentSourceWrite || !task.workspaceWrite then Err(EXTERNAL_EXECUTION_SOURCE_WRITE_NOT_AUTHORIZED)
      else Ok(())
    }

    /** The checks pass exactly for an authorized run that may write sources and whose parent is where it should be. */
    lemma AuthorityIff(allowCompleted: bool)
      ensures Authority(allowCompleted).Ok? <==>
              task.external && task.branch == task.parentBranch && operator.authorized && ParentAllows(allowCompleted)
      ensures CheckAuthority().Ok? <==> MayEverWrite() && operator.authorized && ParentAllows(true)
    {
    }

    /** Unlike the operator's scope check, this one wants patterns as soon as there are paths. */
    function CheckScope(paths: set<string>): (r: Result<()>)
      ensures r.Ok? <==> forall p :: p in paths ==> Covers(reading, task.scope, p)
    {
      if task.scope == [] && paths != {} then
        assert exists p :: p in paths;
        Err(EXTERNAL_EXECUTION_REQUIRES_EXPLICIT_SOURCE_SCOPE)
      else if exists p :: p in paths && !Covers(reading, task.scope, p)
              then Err(EXECUTION_RESULT_OUTSIDE_AUTHORIZED_SCOPE)
      else Ok(())
    }

    method AssertExistingWorkspace() returns (r: Result<()>)
      requires Valid()
      modifies git`work, git`remote, git`failures
      ensures r.Ok? ==> git.branch == task.branch && git.failures == old(git.failures)
      ensures r.Ok? ==> git.head == task.expectedHead || git.commits[git.head].parent == Some(task.expectedHead)
    {
      var branch :- git.CurrentBranch();
      if branch != task.branch {
        return Err(EXTERNAL_WORKSPACE_BRANCH_DRIFT);
      }
      var head :- git.RevParseHead();
      if head != task.expectedHead {
        var parentSha := git.RevParseParent();
        if parentSha != Ok(task.expectedHead) {
          return Err(EXTERNAL_WORKSPACE_HEAD_DRIFT);
        }
      }
      r := Ok(());
    }

    /** What is left to do: commit these paths, or only publish the commit already there. */
    method Examine(paths: set<string>) returns (r: Result<set<string>>)
      requires Valid() && PathsOf(status) == Some(paths)
      modifies git`work, git`remote, git`failures, git`reported
      ensures r.Ok? && git.head == task.expectedHead ==>
                r.value == paths && paths != {} && forall p :: p in paths ==> Covers(reading, task.scope, p)
      ensures r.Ok? && git.head != task.expectedHead ==>
                r.value == {} && IsCheckpoint(git.commits, task, PathsOf(status), git.head)
      ensures r.Ok? ==> git.failures == old(git.failures)
      ensures r.Err? && r.code == EXTERNAL_CHECKPOINT_LOCAL_COMMIT_DRIFT ==> !Resumable()
    {
      var head :- git.RevParseHead();
      var dirty :- git.StatusPaths();
      if head == task.expectedHead {
        if dirty != paths {
          return Err(EXTERNAL_WORKSPACE_CHANGED_AFTER_VALIDATION);
        }
        if dirty == {} {
          return Err(EXTERNAL_CHECKPOINT_REQUIRES_SOURCE_CHANGE);
        }
        var scoped :- CheckScope(dirty);
      } else {
        if dirty != {} {
          return Err(EXTERNAL_CHECKPOINT_LOCAL_HEAD_AND_DIRTY_DRIFT);
        }
        var parentSha :- git.RevParseParent();
        var committed :- git.DiffCommits(task.expectedHead, head);
        if parentSha != task.expectedHead || committed != paths {
          return Err(EXTERNAL_CHECKPOINT_LOCAL_COMMIT_DRIFT);
        }
      }
      r := Ok(dirty);
    }

    /** Refused while another task holds the row. */
    method AcquireWriter() returns (r: Result<bool>)
      modifies `writer
      ensures r.Ok? && r.value ==> writer == Some(task.taskId)
                                   && (old(writer) == None || old(writer) == Some(task.taskId))
      ensures !(r.Ok? && r.value) ==> writer == old(writer)
    {
      if * { return Err(STORE_FAILED); }
      if writer.Some? && writer.value != task.taskId {
        return Ok(false);
      }
      writer := Some(task.taskId);
      r := Ok(true);
    }

    method ReleaseWriter() returns (r: Result<()>)
      modifies `writer, `failedReleases
      ensures r.Ok? ==> failedReleases == old(failedReleases) && writer == if old(writer) == Some(task.taskId) then None
              else old(writer)
      ensures r.Err? ==> failedReleases == old(failedReleases) + 1
    {
      if * {
        failedReleases := failedReleases + 1;
        return Err(STORE_FAILED);
      }
      if writer == Some(task.taskId) { writer := None; }
      r := Ok(());
    }

    /** Stage and commit the validated paths; only here can a commit come into being. */
    method CommitValidated(dirty: set<string>) returns (r: Result<Sha>)
      requires Valid() && git.head == task.expectedHead && agreed == PathsOf(status) == Some(dirty) && dirty != {}
      modifies git`work, git`remote, git`failures, git`checked, git`offered, git`index, git`head, git`commits, git`made
      ensures Valid() && OfferedOnly(Some(dirty)) && (r.Ok? ==> git.failures == old(git.failures))
      ensures old(Followed()) ==> Followed()
      ensures r.Ok? ==> r.value == git.head != task.expectedHead && HeadIsCheckpoint()
    {
      hide Diff, Overlay, WellFormed, FastForward, CommitsOnce, PublishesOnlyTheCheckpoint, Recorded, IsCheckpoint;
      NothingYet(reading, task, agreed, git.commits, git.head, git.made, git.moves, operator);
      var added :- git.Add(dirty);
      var staged :- git.StagedPaths();
      if staged != dirty {
        return Err(EXTERNAL_CHECKPOINT_STAGED_SCOPE_MISMATCH);
      }
      var checked :- git.CheckStaged();
      var committing := git.CommitIndex();
      if committing.Err? {
        if git.made != old(git.made) {
          assert git.made == [git.head];
          FirstCommit(task, agreed, old(git.commits), git.commits, git.head);
        }
        return Err(committing.code);
      }
      FirstCommit(task, agreed, old(git.commits), git.commits, git.head);
      assert git.made == [git.head];
      r := CheckCandidate(dirty);
    }

    /** Re-examine what was really committed; hooks may have interfered. */
    method CheckCandidate(dirty: set<string>) returns (r: Result<Sha>)
      requires git.Valid() && task.expectedHead in git.commits
      modifies git`work, git`remote, git`failures
      ensures r.Ok? ==> r.value == git.head && IsCheckpoint(git.commits, task, Some(dirty), git.head)
      ensures r.Ok? ==> git.failures == old(git.failures)
      ensures r.Err? && git.failures == old(git.failures) ==> !IsCheckpoint(git.commits, task, Some(dirty), git.head)
    {
      hide Diff, WellFormed;
      var candidate :- git.RevParseHead();
      var commitParent :- git.RevParseParent();
      if commitParent != task.expectedHead {
        return Err(EXTERNAL_CHECKPOINT_PARENT_MISMATCH);
      }
      var committed :- git.DiffCommits(task.expectedHead, candidate);
      if committed != dirty {
        return Err(EXTERNAL_CHECKPOINT_COMMIT_SCOPE_MISMATCH);
      }
      r := Ok(candidate);
    }

    /** Publish unless it is there already, then read it back. */
    method Publish(candidate: Sha, remoteBefore: Option<Sha>) returns (r: Result<()>)
      requires Valid() && candidate == git.head && HeadIsCheckpoint()
      requires git.seen == remoteBefore && (remoteBefore.None? || remoteBefore.value in {task.expectedHead, candidate})
      modifies git`work, git`remote, git`failures, git`moves, git`seen
      ensures Valid()
      ensures old(Followed()) ==> Followed()
      ensures r.Ok? ==> git.seen == Some(git.head) && git.failures == old(git.failures)
      ensures git.moves == old(git.moves) || git.Moved(task.branch)
    {
      hide Diff, WellFormed, CommitsOnce, Recorded, PublishesOnlyTheCheckpoint, IsCheckpoint, FastForward;
      if remoteBefore != Some(candidate) {
        var pushed := git.Push(task.branch);
        if git.moves != old(git.moves) {
          MoveKeepsPublishing(task, agreed, git.commits, git.head, git.made, old(git.moves), git.moves);
        }
        if pushed.Err? {
          return Err(pushed.code);
        }
      }
      var remoteAfter :- git.LsRemote(task.branch);
      if remoteAfter != Some(candidate) {
        return Err(EXTERNAL_CHECKPOINT_REMOTE_READBACK_MISMATCH);
      }
      r := Ok(());
    }

    /** Idempotent for the same receipt; the in-memory record changes even if persisting it then fails. */
    method RecordResult(candidate: Sha, files: set<string>) returns (r: Result<()>)
      requires Valid() && candidate == git.head && HeadIsCheckpoint() && agreed == Some(files)
      modifies `operator
      ensures Valid()
      ensures old(Followed()) ==> Followed()
      ensures r.Ok? ==> operator.receipt.Some?
      ensures operator == old(operator) ||
              operator == old(operator).(beforeHead := Some(task.expectedHead), afterHead := Some(candidate),
                                         changedFiles := files, receipt := Some(Receipt(task.run, candidate)),
                                                         status := TaskLifecycle.PendingVerification)
      ensures old(operator.receipt).Some? ==> operator == old(operator)
      ensures !old(operator).authorized || old(operator).status in {TaskLifecycle.Cancelled, TaskLifecycle.Verified}
              || !InScope(reading, task.scope, files) ==>
                r.Err? && operator == old(operator)
      ensures old(operator).receipt.Some? ==>
                (r.Ok? <==> operator.authorized && operator.status !in {TaskLifecycle.Cancelled, TaskLifecycle.Verified}
                            && InScope(reading, task.scope, files))
    {
      if !operator.authorized {
        return Err(UNAUTHORIZED_CHECKPOINT);
      }
      if operator.status == TaskLifecycle.Cancelled || operator.status == TaskLifecycle.Verified {
        return Err(CHECKPOINT_OF_TERMINAL_TASK);
      }
      if !InScope(reading, task.scope, files) {
        return Err(EXECUTION_RESULT_OUTSIDE_AUTHORIZED_SCOPE);
      }
      if operator.receipt.Some? {
        if operator.receipt == Some(Receipt(task.run, candidate)) && operator.beforeHead == Some(task.expectedHead)
           && operator.afterHead == Some(candidate) && operator.changedFiles == files {
          return Ok(());
        }
        return Err(EXTERNAL_EXECUTION_RESULT_IDEMPOTENCY_CONFLICT);
      }
      operator := operator.(beforeHead := Some(task.expectedHead), afterHead := Some(candidate), changedFiles := files,
                            receipt := Some(Receipt(task.run, candidate)), status := TaskLifecycle.PendingVerification);
      if * { return Err(STORE_FAILED); }
      r := Ok(());
    }

    /** The parent learns the published head; a failing save may still have been stored. */
    method CheckpointTask(candidate: Sha) returns (r: Result<()>)
      requires Valid() && candidate == git.head && operator.receipt.Some?
      modifies `parent
      ensures Valid()
      ensures old(Followed()) ==> Followed()
      ensures r.Ok? ==> parent.latestRemote == Some(candidate)
      ensures parent == old(parent) || parent == old(parent).(latestRemote := Some(candidate), status := Checkpointed)
      ensures old(parent).status in {Integrated, ParentCancelled, Superseded} ==> r.Err? && parent == old(parent)
    {
      if parent.status in {Integrated, ParentCancelled, Superseded} {
        return Err(TASK_STATE_REJECTS_WIP_CHECKPOINT);
      }
      var stored: bool, reported: bool := *, *;
      if stored || !reported {
        parent := parent.(latestRemote := Some(candidate), status := Checkpointed);
      }
      r := if reported then Err(STORE_FAILED) else Ok(());
    }

    method SaveStatus(next: Status) returns (r: Result<()>)
      modifies `status
      ensures r.Ok? ==> status == Some(next)
      ensures status == old(status) || status == Some(next)
    {
      var stored: bool, reported: bool := *, *;
      if stored || !reported { status := Some(next); }
      r := if reported then Err(STORE_FAILED) else Ok(());
    }

    /** Keeps the validation and any earlier checkpoint. */
    method SaveBlocked() returns (r: Result<()>)
      requires Valid() && status.Some?
      modifies `status
      ensures Valid() && status.Some?
      ensures old(Followed()) ==> Followed()
      ensures status.value == old(status.value) || status.value == old(status.value).(lifecycle := Blocked)
    {
      if * { return Err(STORE_FAILED); }
      r := SaveStatus(status.value.(lifecycle := Blocked));
    }

    /** The part that runs under the writer row. */
    method CommitAndPublish(dirty: set<string>, paths: set<string>) returns (r: Result<Sha>)
      requires Valid() && status.Some? && agreed == PathsOf(status) == Some(paths)
      requires git.head == task.expectedHead ==> dirty == paths && paths != {}
      requires git.head != task.expectedHead ==>
                 dirty == {} && IsCheckpoint(git.commits, task, PathsOf(status), git.head)
      modifies this`operator, this`parent, this`status, git
      ensures Valid() && status.Some? && status.value.validation == old(status.value.validation)
      ensures OfferedOnly(Some(paths)) && (r.Ok? ==> git.failures == old(git.failures) && git.reported == {})
      ensures old(git.head) != task.expectedHead ==> git.head == old(git.head)
      ensures old(Followed()) ==> Followed()
      ensures r.Ok? ==> r.value == git.head && status.value.lifecycle == Published
                        && parent.latestRemote == Some(git.head) && git.seen == Some(git.head)
    {
      hide Diff, WellFormed, FastForward, CommitsOnce, IsCheckpoint, Receipt, Recorded, PublishesOnlyTheCheckpoint,
      ParentFollows;
      var candidate, remoteBefore :- CommitOrResume(dirty, paths);
      r := PublishAndRecord(candidate, remoteBefore, paths);
    }

    /** The commit there is to publish, made now or by an earlier attempt, while the branch is absent or as expected. */
    method CommitOrResume(dirty: set<string>, paths: set<string>) returns (r: Result<Sha>, remoteBefore: Option<Sha>)
      requires Valid() && agreed == PathsOf(status) == Some(paths)
      requires git.head == task.expectedHead ==> dirty == paths && paths != {}
      requires git.head != task.expectedHead ==> IsCheckpoint(git.commits, task, PathsOf(status), git.head)
      modifies git
      ensures Valid() && OfferedOnly(Some(paths)) && git.moves == old(git.moves)
      ensures old(Followed()) ==> Followed()
      ensures old(git.head) != task.expectedHead ==> git.head == old(git.head)
      ensures r.Ok? ==>
                && r.value == git.head && HeadIsCheckpoint() && git.failures == old(git.failures)
                && git.seen == remoteBefore
                && (remoteBefore.None? || remoteBefore.value in {task.expectedHead, git.head})
    {
      assert git.head != task.expectedHead ==> git.made == [git.head];
      hide Diff, WellFormed, FastForward, CommitsOnce, IsCheckpoint, Receipt, Recorded, PublishesOnlyTheCheckpoint,
      ParentFollows;
      remoteBefore := None;
      remoteBefore :- git.LsRemote(task.branch);
      if git.head == task.expectedHead {
        if remoteBefore.Some? && remoteBefore.value != task.expectedHead {
          return Err(EXTERNAL_REMOTE_TASK_BRANCH_DRIFT), remoteBefore;
        }
        r := CommitValidated(dirty);
      } else {
        var files :- git.DiffCommits(task.expectedHead, git.head);
        if remoteBefore.Some? && remoteBefore.value != task.expectedHead && remoteBefore.value != git.head {
          return Err(EXTERNAL_REMOTE_TASK_BRANCH_DRIFT), remoteBefore;
        }
        r := Ok(git.head);
      }
    }

    method PublishAndRecord(candidate: Sha, remoteBefore: Option<Sha>, paths: set<string>) returns (r: Result<Sha>)
      requires Valid() && status.Some? && agreed == PathsOf(status) == Some(paths)
      requires candidate == git.head && HeadIsCheckpoint()
      requires git.seen == remoteBefore && (remoteBefore.None? || remoteBefore.value in {task.expectedHead, candidate})
      modifies this`operator, this`parent, this`status
      modifies git`work, git`remote, git`failures, git`moves, git`seen, git`reported
      ensures r.Ok? ==> git.failures == old(git.failures) && git.reported == {}
      ensures Valid() && status.Some? && status.value.validation == old(status.value.validation)
      ensures old(Followed()) ==> Followed()
      ensures r.Ok? ==> r.value == git.head && status.value.lifecycle == Published
                        && parent.latestRemote == Some(git.head) && git.seen == Some(git.head)
    {
      hide Diff, WellFormed, FastForward, CommitsOnce, IsCheckpoint, Receipt, PublishesOnlyTheCheckpoint, Recorded,
      ParentFollows, PathsOf;
      var published :- Publish(candidate, remoteBefore);
      var recorded :- RecordResult(candidate, paths);
      var checkpointed :- CheckpointTask(candidate);
      var dirtyAfter :- git.StatusPaths();
      if dirtyAfter != {} {
        return Err(EXTERNAL_CHECKPOINT_WORKTREE_NOT_CLEAN);
      }
      var saved :- SavePublished(candidate);
      r := Ok(candidate);
    }

    method SavePublished(candidate: Sha) returns (r: Result<()>)
      requires Valid() && status.Some? && candidate == git.head && operator.receipt.Some?
               && parent.latestRemote == Some(candidate) && agreed == PathsOf(status)
      modifies `status
      ensures Valid() && status.Some? && status.value.validation == old(status.value.validation)
      ensures old(Followed()) ==> Followed()
      ensures r.Ok? ==> status.value.lifecycle == Published
    {
      hide Diff, WellFormed, FastForward, CommitsOnce, IsCheckpoint, Receipt, PublishesOnlyTheCheckpoint, Recorded;
      r := SaveStatus(status.value.(lifecycle := Published, checkpointSha := Some(candidate)));
    }

    /** What a published status stands for. */
    lemma PublishedMeans()
      requires Valid() && IsPublished(status)
      ensures HeadIsCheckpoint() && status.value.checkpointSha == Some(git.head) && agreed == PathsOf(status)
      ensures git.head != task.expectedHead
      ensures operator.afterHead == Some(git.head) && (Followed() ==> parent.latestRemote == Some(git.head))
      ensures Some(operator.changedFiles) == PathsOf(status) && InScope(reading, task.scope, operator.changedFiles)
    {
      hide IsCheckpoint, InScope;
    }

    /**
     * `looked` is the branch head read while the stored status says published. A success leaves the
     * parent elsewhere exactly when that head was the checkpoint and the parent stood elsewhere already.
     */
    method Checkpoint() returns (r: Result<Sha>, ghost looked: Option<Sha>)
      requires Valid()
      modifies this, git
      ensures Valid() && PathsOf(status) == PathsOf(old(status))
      ensures old(git.head) != task.expectedHead ==> git.head == old(git.head)
      ensures old(Followed()) ==> Followed()
      ensures r.Ok? ==>
                && r.value == git.head && git.seen == Some(git.head) && HeadIsCheckpoint() && agreed == PathsOf(status)
                && operator.afterHead == Some(git.head)
                && Some(operator.changedFiles) == PathsOf(status) && InScope(reading, task.scope, operator.changedFiles)
                && IsPublished(status)
      ensures r.Ok? && old(Followed()) ==> parent.latestRemote == Some(git.head)
      ensures r.Ok? ==>
                (parent.latestRemote == Some(git.head) <==>
                   old(parent).latestRemote == Some(git.head)
                   || !(IsPublished(old(status)) && looked == Some(old(git.head))))
      ensures IsPublished(old(status)) && looked == Some(old(git.head)) ==>
                r == Ok(old(git.head)) && parent == old(parent)
                && AuthorityHead(task, parent) in {task.expectedHead, git.head}
      ensures !old(Resumable()) ==> r.Err? && NothingDone()
      ensures !old(MayCheckpoint()) ==> r.Err? && NothingDone()
      ensures OfferedOnly(PathsOf(status)) && (r.Ok? ==> git.failures == old(git.failures))
      ensures r.Ok? && !(IsPublished(old(status)) && looked == Some(old(git.head))) ==> git.reported == {}
      ensures operator != old(operator) || parent != old(parent) || status != old(status) || git.made != old(git.made)
              || git.moves != old(git.moves) ==>
                old(writer) == None || old(writer) == Some(task.taskId)
      ensures r.Ok? ==> failedReleases == old(failedReleases)
      ensures failedReleases == old(failedReleases) ==>
                writer == old(writer) || (writer == None && (old(writer) == None || old(writer) == Some(task.taskId)))
    {
      looked := None;
      hide Diff, WellFormed, FastForward, IsCheckpoint, PublishesOnlyTheCheckpoint, InScope, Recorded, ParentFollows,
      MayEverWrite;
      var admitted := Admit();
      if admitted.Err? { return Err(admitted.code), looked; }
      if status.value.lifecycle == Published && status.value.checkpointSha.Some? {
        PublishedMeans();
        var current := git.RevParseHead();
        if current.Err? { return Err(current.code), looked; }
        var remote := git.LsRemote(task.branch);
        if remote.Err? { return Err(remote.code), looked; }
        looked := remote.value;
        if current.value == status.value.checkpointSha.value && remote.value == status.value.checkpointSha {
          return current, looked;
        }
      }
      var paths := admitted.value;
      var dirty := Examine(paths);
      if dirty.Err? { return Err(dirty.code), looked; }
      SamePathsAgain(reading, task, agreed, Some(paths), git.commits, git.head, git.made, git.moves, operator);
      agreed := Some(paths);
      r := CheckpointAsWriter(dirty.value, paths);
      if r.Ok? { PublishedMeans(); }
    }

    /** The checks made before anything else; they give the validated paths. */
    method Admit() returns (r: Result<set<string>>)
      requires Valid()
      modifies git`work, git`remote, git`failures
      ensures r.Ok? ==> git.failures == old(git.failures)
      ensures r.Ok? ==> MayCheckpoint() && Some(r.value) == PathsOf(status) && git.branch == task.branch
      ensures r.Ok? ==> git.head == task.expectedHead || git.commits[git.head].parent == Some(task.expectedHead)
    {
      AuthorityIff(true);
      hide Authority, CheckAuthority, ParentAllows, MayEverWrite, WellFormed, FastForward, Recorded,
      PublishesOnlyTheCheckpoint;
      var authority := CheckAuthority();
      if authority.Err? { return Err(authority.code); }
      var existing :- AssertExistingWorkspace();
      if status.None? || status.value.validation.None? || !status.value.validation.value.allPassed {
        return Err(EXTERNAL_CHECKPOINT_REQUIRES_SUCCESSFUL_VALIDATION);
      }
      r := Ok(status.value.validation.value.paths);
    }

    method CheckpointAsWriter(dirty: set<string>, paths: set<string>) returns (r: Result<Sha>)
      requires Valid() && status.Some? && agreed == PathsOf(status) == Some(paths)
      requires git.head == task.expectedHead ==> dirty == paths && paths != {}
      requires git.head != task.expectedHead ==>
                 dirty == {} && IsCheckpoint(git.commits, task, PathsOf(status), git.head)
      modifies this`operator, this`parent, this`status, this`writer, this`failedReleases, git
      ensures Valid() && status.Some? && PathsOf(status) == PathsOf(old(status))
      ensures OfferedOnly(PathsOf(status)) && (r.Ok? ==> git.failures == old(git.failures) && git.reported == {})
      ensures operator != old(operator) || parent != old(parent) || status != old(status) || git.made != old(git.made)
              || git.moves != old(git.moves) ==>
                old(writer) == None || old(writer) == Some(task.taskId)
      ensures r.Ok? ==> failedReleases == old(failedReleases)
      ensures old(git.head) != task.expectedHead ==> git.head == old(git.head)
      ensures old(Followed()) ==> Followed()
      ensures r.Ok? ==> r.value == git.head && git.seen == Some(git.head) && status.value.lifecycle == Published
                        && parent.latestRemote == Some(git.head)
      ensures failedReleases == old(failedReleases) ==>
                writer == old(writer) || (writer == None && (old(writer) == None || old(writer) == Some(task.taskId)))
    {
      hide Diff, WellFormed, FastForward, CommitsOnce, IsCheckpoint, PublishesOnlyTheCheckpoint, InScope, Recorded,
      ParentFollows;
      var acquired :- AcquireWriter();
      if !acquired {
        return Err(REPOSITORY_WRITER_BUSY);
      }
      r := CommitAndPublish(dirty, paths);
      if r.Err? {
        var blocked := SaveBlocked();
        if blocked.Err? { r := Err(blocked.code); }
      }
      var released := ReleaseWriter();
      if released.Err? { r := Err(released.code); }
    }

    /** Checks the worktree as it is and stores its dirty paths as the validated ones, also after a commit. */
    method Validate() returns (r: Result<()>)
      requires Valid()
      modifies this`status, git`work, git`remote, git`failures, git`reported
      ensures Valid() && (old(Followed()) ==> Followed())
      ensures status == old(status) || (!IsPublished(status) && PathsOf(status) == Some(git.reported)
                                        && AuthorityHead(task, parent) == task.expectedHead)
      ensures r.Ok? ==> PathsOf(status) == Some(git.reported) && forall p :: p in git.reported ==>
                Covers(reading, task.scope, p)
      ensures !(task.external && task.branch == task.parentBranch && operator.authorized && ParentAllows(false)) ==>
                r.Err? && status == old(status)
      ensures r.Ok? && git.head != task.expectedHead ==>
                (Resumable() <==> git.reported == Diff(git.commits[task.expectedHead].tree, git.commits[git.head].tree))
    {
      hide WellFormed, FastForward, Diff, Recorded, PublishesOnlyTheCheckpoint, Covers;
      AuthorityIff(false);
      var authority := Authority(false);
      if authority.Err? { return Err(authority.code); }
      var existing :- AssertExistingWorkspace();
      var dirty :- git.StatusPaths();
      var scoped := CheckScope(dirty);
      if scoped.Err? { return Err(scoped.code); }
      var allPassed: bool := *;
      var changed :- git.StatusPaths();
      scoped := CheckScope(changed);
      if scoped.Err? { return Err(scoped.code); }
      r := SaveStatus(Status(if allPassed then Validated else Blocked, Some(Validation(allPassed, changed)), None));
    }

    /** A validation of the clean tree strands every commit that changes anything. */
    lemma CleanValidationStrands()
      requires Valid() && git.head != task.expectedHead && PathsOf(status) == Some({})
      ensures Resumable() ==> git.commits[task.expectedHead].tree == git.commits[git.head].tree
    {
      if Resumable() { SameTree(git.commits[task.expectedHead].tree, git.commits[git.head].tree); }
    }

    /** At most one commit, every move of the branch a safe one to a checkpoint, and a recorded result is the head. */
    lemma ValidMeans()
      requires Valid()
      ensures |git.made| <= 1
      ensures forall m :: m in git.moves ==>
                IsSafeMove(task, git.commits, git.head, m) && IsCheckpoint(git.commits, task, agreed, m.to)
      ensures operator.receipt.Some? ==>
                operator.afterHead == Some(git.head) && IsCheckpoint(git.commits, task, agreed, git.head)
    {
    }

    /**
     * Any number of attempts with anything happening in between: to the operator's record if `operatorToo`, by other
     * runs to the parent's if `parentToo`, and with new validations if `validateToo`. `prior`,
     * `wasPublished` and `looked` are what the last attempt met.
     */
    method Attempts(count: nat, operatorToo: bool, parentToo: bool, validateToo: bool)
      returns (succeeded: bool, ghost prior: Parent, ghost wasPublished: bool, ghost looked: Option<Sha>)
      requires Valid()
      modifies this, git
      ensures Valid() && (!validateToo ==> PathsOf(status) == PathsOf(old(status)))
      ensures |git.made| <= 1
      ensures forall m :: m in git.moves ==>
                IsSafeMove(task, git.commits, git.head, m) && IsCheckpoint(git.commits, task, agreed, m.to)
      ensures succeeded ==> operator.afterHead == Some(git.head)
                            && IsCheckpoint(git.commits, task, PathsOf(status), git.head)
      ensures succeeded ==>
                (parent.latestRemote == Some(git.head) <==>
                   prior.latestRemote == Some(git.head) || !(wasPublished && looked == Some(git.head)))
      ensures !parentToo && old(Followed()) ==> Followed() && (succeeded ==> parent.latestRemote == Some(git.head))
      ensures !validateToo && !old(Resumable()) ==>
                !succeeded && git.made == old(git.made) && git.moves == old(git.moves)
      ensures !MayEverWrite() || (!operatorToo && !old(operator).authorized) ==>
                !succeeded && git.made == old(git.made) && git.moves == old(git.moves)
      ensures !operatorToo && !parentToo && !validateToo && !old(MayCheckpoint()) ==>
                !succeeded && operator == old(operator) && parent == old(parent) && status == old(status)
                && git.made == old(git.made) && git.moves == old(git.moves)
    {
      hide OfferedOnly, WellFormed, FastForward, MayEverWrite, CommitsOnce, PublishesOnlyTheCheckpoint, IsCheckpoint,
      IsSafeMove, Recorded;
      succeeded, prior, wasPublished, looked := false, parent, false, None;
      for i := 0 to count
        invariant Valid() && (!validateToo ==> PathsOf(status) == PathsOf(old(status)))
        invariant succeeded ==> operator.receipt.Some? && agreed == PathsOf(status)
        invariant succeeded ==>
                    (parent.latestRemote == Some(git.head) <==>
                       prior.latestRemote == Some(git.head) || !(wasPublished && looked == Some(git.head)))
        invariant !parentToo && old(Followed()) ==> Followed() && (succeeded ==> parent.latestRemote == Some(git.head))
        invariant !validateToo && !old(Resumable()) ==>
                    !succeeded && !Resumable() && git.made == old(git.made) && git.moves == old(git.moves)
        invariant !MayEverWrite() || (!operatorToo && !old(operator).authorized) ==>
                    !succeeded && git.made == old(git.made) && git.moves == old(git.moves)
        invariant !operatorToo && !old(operator).authorized ==> !operator.authorized
        invariant !operatorToo && !parentToo && !validateToo && !old(MayCheckpoint()) ==>
                    !succeeded && operator == old(operator) && parent == old(parent) && status == old(status)
                    && git.made == old(git.made) && git.moves == old(git.moves)
      {
        OthersAct(operatorToo, parentToo);
        if validateToo {
          var again: bool := *;
          if again { var validated := Validate(); }
        }
        if IsPublished(status) { PublishedMeans(); }
        prior, wasPublished := parent, IsPublished(status);
        var r;
        r, looked := Checkpoint();
        succeeded := r.Ok?;
      }
      ValidMeans();
    }
  }

  // ----------------------------------------- a success the parent does not learn of

  /** The stored state after a checkpoint whose parent another run has moved back to the head the run started from. */
  method PublishedThenMovedBack(reading: ClassReading, path: string, start: Sha, sha: Sha)
    returns (s: CheckpointService)
    requires Covers(reading, [path], path) && !Violates(reading, [path], path) && start != sha
    ensures s.Valid() && IsPublished(s.status) && s.status.value.validation.value.allPassed
            && s.git.branch == s.task.branch
    ensures s.CheckAuthority().Ok? && s.git.head == sha && s.git.RemoteHead(s.task.branch) == Some(sha)
    ensures s.task.expectedHead == start && s.parent.latestRemote == Some(start)
  {
    var branch := "task/feature";
    var task := Task("RUN", "TASK", branch, start, [path], true, true, branch, start, true);
    var commits: Commits := map[start := Commit(None, {}, map[]),
                                sha := Commit(Some(start), {start}, map[path := "new"])];
    TwoCommits(commits, path, start, sha);
    var move := Move(branch, Some(start), sha, Some(start));
    var git := new Git.Reopened(branch, sha, commits, map[path := "new"], map[branch := sha], [sha], [move]);
    var operator := Operator(true, TaskLifecycle.PendingVerification, Some(start), Some(sha), {path},
                             Some(Receipt("RUN", sha)));
    var status := Status(Published, Some(Validation(true, {path})), Some(sha));
    s := new CheckpointService.Restored(task, git, reading, operator, Parent(Some(start), Checkpointed), Some(status),
                                        None, Some({path}));
  }

  lemma TwoCommits(commits: Commits, path: string, start: Sha, sha: Sha)
    requires start != sha
    requires commits == map[start := Commit(None, {}, map[]), sha := Commit(Some(start), {start}, map[path := "new"])]
    ensures WellFormed(commits) && Diff(commits[start].tree, commits[sha].tree) == {path}
  {
    forall c | c in commits ensures HistoryAt(commits, c) {
      assert c == start || c == sha;
    }
    assert {start} + {} == {start};
  }
}
