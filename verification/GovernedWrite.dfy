/**
 * The governed workspace write: turn the provider's dirty files into exactly one
 * published commit, or stop in one of three known shapes.
 */
module GovernedWrite {
  import opened Outcomes
  import opened PythonText
  import opened ScopeOverlap
  import opened GitRepository

  const AUTHORIZED_WORKSPACE_WRITE_PRODUCED_NO_SOURCE_CHANGE := "AUTHORIZED_WORKSPACE_WRITE_PRODUCED_NO_SOURCE_CHANGE"
  const GITHUB_REALITY_MISMATCH := "GITHUB_REALITY_MISMATCH"
  const GOVERNED_WRITE_COMMIT_SCOPE_MISMATCH := "GOVERNED_WRITE_COMMIT_SCOPE_MISMATCH"
  const GOVERNED_WRITE_PARENT_MISMATCH := "GOVERNED_WRITE_PARENT_MISMATCH"
  const GOVERNED_WRITE_PUSH_FAILED_LOCAL_COMMIT := "GOVERNED_WRITE_PUSH_FAILED_LOCAL_COMMIT"
  const GOVERNED_WRITE_REMOTE_DRIFT_BEFORE_PUSH := "GOVERNED_WRITE_REMOTE_DRIFT_BEFORE_PUSH"
  const GOVERNED_WRITE_REMOTE_READBACK_MISMATCH := "GOVERNED_WRITE_REMOTE_READBACK_MISMATCH"
  const GOVERNED_WRITE_REQUIRES_NONEMPTY_SOURCE_SCOPE := "GOVERNED_WRITE_REQUIRES_NONEMPTY_SOURCE_SCOPE"
  const GOVERNED_WRITE_STAGED_SCOPE_MISMATCH := "GOVERNED_WRITE_STAGED_SCOPE_MISMATCH"
  const GOVERNED_WRITE_WORKTREE_NOT_CLEAN_AFTER_PUSH := "GOVERNED_WRITE_WORKTREE_NOT_CLEAN_AFTER_PUSH"
  const PROVIDER_GIT_HEAD_MUTATION_NOT_ALLOWED := "PROVIDER_GIT_HEAD_MUTATION_NOT_ALLOWED"
  const PROVIDER_GIT_INDEX_MUTATION_NOT_ALLOWED := "PROVIDER_GIT_INDEX_MUTATION_NOT_ALLOWED"
  const PROVIDER_REMOTE_MUTATION_NOT_ALLOWED := "PROVIDER_REMOTE_MUTATION_NOT_ALLOWED"
  const PROVIDER_RESULT_BRANCH_DRIFT := "PROVIDER_RESULT_BRANCH_DRIFT"
  const PROVIDER_RESULT_OUTSIDE_AUTHORIZED_SCOPE := "PROVIDER_RESULT_OUTSIDE_AUTHORIZED_SCOPE"
  const BRANCH_MISMATCH := "branch mismatch"
  const LOCAL_HEAD_DRIFT := "local HEAD drift"
  const READ_ONLY_DISPATCH_MUTATED_HEAD := "read-only dispatch mutated repository HEAD"
  const REMOTE_HEAD_DRIFT := "remote HEAD drift"
  const WORKTREE_NOT_CLEAN := "worktree is not clean"

  datatype Request = Request(taskId: string, branch: string, expectedHead: string, workspaceWrite: bool,
                             scope: seq<string>)

  /** What `verify_repository` certifies: one head, local and remote, and a clean tree. */
  datatype RepositoryState = RepositoryState(branch: string, localHead: Sha, remoteHead: Sha)

  const BOOTSTRAP_TASK := "PALWAKF_WORKSPACE_MANAGER_SELF_HOSTED_LAST_EXECUTION_CARD_V1"
  const BOOTSTRAP_BRANCH := "agent/workspace-manager-foundation-v1"

  // -------------------------------------------------------------------- scope

  function NonBlank(patterns: seq<string>): seq<string> {
    if patterns == [] then []
    else (if IsBlank(patterns[0]) then [] else [patterns[0]]) + NonBlank(patterns[1..])
  }

  /** The declared scope; the bootstrap card alone may leave it empty and then owns everything. */
  function ScopePatterns(request: Request): Option<seq<string>> {
    var patterns := NonBlank(request.scope);
    if patterns != [] then Some(patterns)
    else if request.taskId == BOOTSTRAP_TASK && request.branch == BOOTSTRAP_BRANCH then Some(["**"])
    else None
  }

  lemma {:induction false} NonBlankKeeps(patterns: seq<string>, p: string)
    ensures p in NonBlank(patterns) <==> p in patterns && !IsBlank(p)
  {
    if patterns != [] { NonBlankKeeps(patterns[1..], p); }
  }

  lemma EveryPathIsInBootstrapScope(reading: ClassReading, path: string)
    ensures Covers(reading, ["**"], path)
  {
    assert ForwardSlashes("**") == "**";
    assert "**"[1..] == "*" && "*"[1..] == "";
    assert Matches(reading, "", path[|path|..]);
    assert Matches(reading, "*", path);
    assert path[0..] == path;
    assert Matches(reading, "**", path);
    assert "**" in ["**"];
  }

  /** A write has a scope iff some pattern is not blank, or it is the bootstrap card on its own branch. */
  lemma ScopeIsRequired(request: Request)
    ensures ScopePatterns(request).Some? <==>
              (exists p :: p in request.scope && !IsBlank(p))
              || (request.taskId == BOOTSTRAP_TASK && request.branch == BOOTSTRAP_BRANCH)
  {
    if NonBlank(request.scope) != [] {
      var p := NonBlank(request.scope)[0];
      assert p in NonBlank(request.scope);
      NonBlankKeeps(request.scope, p);
    }
    if p :| p in request.scope && !IsBlank(p) {
      NonBlankKeeps(request.scope, p);
    }
  }

  // ---------------------------------------------------- what a write may publish

  /** One commit on top of `start` whose paths are `paths`, all in scope. */
  ghost predicate Validated(reading: ClassReading, request: Request, commits: Commits, start: Sha, c: Sha,
                            paths: set<string>) {
    && start in commits && c in commits && commits[c].parent == Some(start)
    && Diff(commits[start].tree, commits[c].tree) == paths && paths != {}
    && ScopePatterns(request).Some?
    && forall p :: p in paths ==> Covers(reading, ScopePatterns(request).value, p)
  }

  /** Refusals raised before anything is pushed, and after the push succeeded. */
  predicate BeforePush(code: string) {
    code in {GOVERNED_WRITE_STAGED_SCOPE_MISMATCH, GOVERNED_WRITE_PARENT_MISMATCH, GOVERNED_WRITE_COMMIT_SCOPE_MISMATCH,
             GOVERNED_WRITE_REMOTE_DRIFT_BEFORE_PUSH}
  }

  predicate AfterPush(code: string) {
    code in {GOVERNED_WRITE_REMOTE_READBACK_MISMATCH, GOVERNED_WRITE_WORKTREE_NOT_CLEAN_AFTER_PUSH}
  }

  lemma CodesDiffer()
    ensures !BeforePush(COMMAND_FAILED) && !AfterPush(COMMAND_FAILED) && !BeforePush(GITHUB_REALITY_MISMATCH)
            && !AfterPush(GITHUB_REALITY_MISMATCH)
    ensures !BeforePush(GOVERNED_WRITE_PUSH_FAILED_LOCAL_COMMIT) && !AfterPush(GOVERNED_WRITE_PUSH_FAILED_LOCAL_COMMIT)
    ensures forall code :: BeforePush(code) ==> !AfterPush(code)
    ensures AfterPush(GOVERNED_WRITE_REMOTE_READBACK_MISMATCH)
            && AfterPush(GOVERNED_WRITE_WORKTREE_NOT_CLEAN_AFTER_PUSH)
    ensures BeforePush(GOVERNED_WRITE_STAGED_SCOPE_MISMATCH) && BeforePush(GOVERNED_WRITE_REMOTE_DRIFT_BEFORE_PUSH)
    ensures BeforePush(GOVERNED_WRITE_PARENT_MISMATCH) && BeforePush(GOVERNED_WRITE_COMMIT_SCOPE_MISMATCH)
  {
  }

  lemma EarlierCodes()
    ensures !AfterPush(COMMAND_FAILED) && !AfterPush(PROVIDER_RESULT_BRANCH_DRIFT)
            && !AfterPush(PROVIDER_GIT_HEAD_MUTATION_NOT_ALLOWED)
    ensures !AfterPush(PROVIDER_REMOTE_MUTATION_NOT_ALLOWED) && !AfterPush(GITHUB_REALITY_MISMATCH)
    ensures !AfterPush(PROVIDER_GIT_INDEX_MUTATION_NOT_ALLOWED)
            && !AfterPush(AUTHORIZED_WORKSPACE_WRITE_PRODUCED_NO_SOURCE_CHANGE)
    ensures !AfterPush(GOVERNED_WRITE_REQUIRES_NONEMPTY_SOURCE_SCOPE)
            && !AfterPush(PROVIDER_RESULT_OUTSIDE_AUTHORIZED_SCOPE)
  {
  }

  class GovernanceGate {
    const git: Git
    const reading: ClassReading
    /** How often the hosted repository was consulted, and how often it refused. */
    ghost var asked: nat
    ghost var refusals: nat

    constructor (git: Git, reading: ClassReading)
      ensures this.git == git && this.reading == reading
    {
      this.git, this.reading, asked, refusals := git, reading, 0, 0;
    }

    /** The optional hosted-repository gate may refuse; it changes nothing else. */
    method RealityRefuses() returns (refused: bool)
      modifies `asked, `refusals
      ensures asked == old(asked) + 1 && refusals == if refused then old(refusals) + 1 else old(refusals)
    {
      refused := *;
      asked, refusals := asked + 1, if refused then refusals + 1 else refusals;
    }

    /** No command failed, and the hosted repository was consulted this often without refusing. */
    twostate predicate Smoothly(times: nat)
      reads this, git
    {
      git.failures == old(git.failures) && refusals == old(refusals) && asked == old(asked) + times
    }

    /** A commit was only tried with an index that was checked and that differed from the head in these paths. */
    twostate predicate OfferedOnly(paths: set<string>)
      requires old(git.head in git.commits)
      reads this, git
    {
      git.made != old(git.made) ==> git.offered == git.checked && Diff(old(git.HeadTree()), git.offered) == paths
    }

    method VerifyRepository(request: Request) returns (r: Result<RepositoryState>)
      requires git.Valid()
      modifies git`work, git`remote, git`failures, git`seen, git`seenWork, `asked, `refusals
      ensures r.Ok? ==> Smoothly(if request.workspaceWrite then 1 else 0)
      ensures r != Err(READ_ONLY_DISPATCH_MUTATED_HEAD)
      ensures (r == Err(BRANCH_MISMATCH) ==> git.branch != request.branch)
              && (r == Err(LOCAL_HEAD_DRIFT) ==> !StartsWith(git.head, Lower(request.expectedHead)))
              && (r == Err(REMOTE_HEAD_DRIFT) ==> git.seen != Some(git.head))
              && (r == Err(WORKTREE_NOT_CLEAN) ==> git.index != git.HeadTree() || git.seenWork != git.index)
              && (r == Err(GITHUB_REALITY_MISMATCH) ==> request.workspaceWrite && refusals > old(refusals))
      ensures r.Ok? ==>
                && r.value == RepositoryState(git.branch, git.head, git.head)
                && git.branch == request.branch && StartsWith(git.head, Lower(request.expectedHead))
                && git.seen == Some(git.head) && git.seenWork == git.index == git.HeadTree()
    {
      var branch :- git.CurrentBranch();
      var localHead :- git.RevParseHead();
      var clean :- git.StatusIsEmpty();
      var remoteHead :- git.LsRemote(request.branch);
      if branch != request.branch {
        return Err(BRANCH_MISMATCH);
      }
      if !StartsWith(localHead, Lower(request.expectedHead)) {
        return Err(LOCAL_HEAD_DRIFT);
      }
      if remoteHead != Some(localHead) {
        return Err(REMOTE_HEAD_DRIFT);
      }
      if !clean {
        return Err(WORKTREE_NOT_CLEAN);
      }
      if request.workspaceWrite {
        var refused := RealityRefuses();
        if refused {
          return Err(GITHUB_REALITY_MISMATCH);
        }
      }
      r := Ok(RepositoryState(branch, localHead, localHead));
    }

    // ------------------------------------------------------- the three shapes

    /** Nothing was committed and nothing this code staged is left staged. */
    twostate predicate NothingHappened()
      reads this, git
    {
      && git.head == old(git.head) && git.commits == old(git.commits)
      && git.made == old(git.made) && git.moves == old(git.moves) && git.index == old(git.index)
    }

    /** One local commit, validated or not, with nothing staged on top of it and no remote moved by this code. */
    twostate predicate OneLocalCommit()
      reads this, git
    {
      git.Valid() && git.Committed() && git.moves == old(git.moves)
    }

    /**
     * The one commit was validated and this code, having seen the remote still at its starting head, moved the branch
     * to it.
     */
    twostate predicate OnePublishedCommit(request: Request, before: RepositoryState)
      reads this, git
    {
      && git.Valid() && git.Committed() && PublishedFrom(request, before)
      && Validated(reading, request, git.commits, before.localHead, git.head, git.reported)
    }

    twostate predicate PublishedFrom(request: Request, before: RepositoryState)
      reads this, git
    {
      git.Moved(request.branch) && git.moves[|old(git.moves)|].seen == Some(before.remoteHead)
    }

    method StageAndCommit(dirty: set<string>) returns (r: Result<()>)
      requires git.Valid() && git.index == git.HeadTree()
      modifies git`work, git`remote, git`failures, git`checked, git`offered, git`index, git`head, git`commits, git`made
      ensures git.Valid() && OfferedOnly(dirty) && (r.Ok? ==> Smoothly(0))
      ensures r.Ok? ==> git.Committed()
      ensures r.Err? ==> git.Committed() ||
                         (git.head == old(git.head) && git.commits == old(git.commits) && git.made == old(git.made)
                          && Diff(git.HeadTree(), git.index) <= dirty)
      ensures r.Err? ==> r.code == COMMAND_FAILED || r.code == GOVERNED_WRITE_STAGED_SCOPE_MISMATCH
      ensures r == Err(GOVERNED_WRITE_STAGED_SCOPE_MISMATCH) ==> Diff(git.HeadTree(), git.index) != dirty
    {
      r := git.Add(dirty);
      forall p | p in Diff(git.HeadTree(), git.index) ensures p in dirty {
        assert At(git.index, p) != At(old(git.index), p);
      }
      if r.Err? { return; }
      label staged:
      var staged :- git.StagedPaths();
      if staged != dirty {
        return Err(GOVERNED_WRITE_STAGED_SCOPE_MISMATCH);
      }
      r := git.CheckStaged();
      if r.Err? { return; }
      r := git.CommitIndex();
    }

    method CompleteWorkspaceWrite(request: Request, before: RepositoryState) returns (r: Result<RepositoryState>)
      requires git.Valid()
      modifies git, `asked, `refusals
      ensures git.Valid() && OfferedOnly(git.reported)
      ensures r.Ok? ==>
                && OnePublishedCommit(request, before) && old(git.head) == before.localHead && Smoothly(3)
                && r.value == RepositoryState(request.branch, git.head, git.head)
                && git.branch == request.branch && git.seen == Some(git.head) && git.Clean()
      ensures r.Err? && git.failedResets == old(git.failedResets) ==>
                NothingHappened() || OneLocalCommit() || OnePublishedCommit(request, before)
      ensures r.Err? && git.moves != old(git.moves) ==> OnePublishedCommit(request, before)
      ensures r.Err? && r.code == PROVIDER_RESULT_OUTSIDE_AUTHORIZED_SCOPE ==>
                && NothingHappened() && ScopePatterns(request).Some?
                && exists p :: p in git.reported && !Covers(reading, ScopePatterns(request).value, p)
      ensures r.Err? && BeforePush(r.code) ==> git.moves == old(git.moves)
      ensures r.Err? && AfterPush(r.code) ==> OnePublishedCommit(request, before)
    {
      hide Covers, ScopePatterns, Diff, Overlay, WellFormed, Validated, BeforePush, AfterPush;
      var dirty :- AuthorizedDirtyPaths(request, before);
      r := PublishDirty(request, before, dirty);
    }

    /** Everything that is checked before the index is touched. */
    method AuthorizedDirtyPaths(request: Request, before: RepositoryState) returns (r: Result<set<string>>)
      requires git.Valid()
      modifies git`work, git`remote, git`failures, git`seen, git`reported, `asked, `refusals
      ensures r.Ok? ==> Smoothly(1) && git.seen == Some(before.remoteHead)
      ensures (r == Err(PROVIDER_RESULT_BRANCH_DRIFT) ==> git.branch != request.branch)
              && (r == Err(PROVIDER_GIT_HEAD_MUTATION_NOT_ALLOWED) ==> git.head != before.localHead)
              && (r == Err(PROVIDER_REMOTE_MUTATION_NOT_ALLOWED) ==> git.seen != Some(before.remoteHead))
              && (r == Err(PROVIDER_GIT_INDEX_MUTATION_NOT_ALLOWED) ==> Diff(git.HeadTree(), git.index) != {})
              && (r == Err(AUTHORIZED_WORKSPACE_WRITE_PRODUCED_NO_SOURCE_CHANGE) ==> git.reported == {})
              && (r == Err(GOVERNED_WRITE_REQUIRES_NONEMPTY_SOURCE_SCOPE) ==> ScopePatterns(request).None?)
      ensures r.Ok? ==>
                && git.branch == request.branch && git.head == before.localHead && git.index == git.HeadTree()
                && git.reported == r.value != {} && ScopePatterns(request).Some?
                && forall p :: p in r.value ==> Covers(reading, ScopePatterns(request).value, p)
      ensures r.Err? && r.code == PROVIDER_RESULT_OUTSIDE_AUTHORIZED_SCOPE ==>
                && ScopePatterns(request).Some?
                && exists p :: p in git.reported && !Covers(reading, ScopePatterns(request).value, p)
      ensures r.Err? ==> !AfterPush(r.code)
    {
      EarlierCodes();
      hide Covers, ScopePatterns, Diff, WellFormed, AfterPush;
      var branch :- git.CurrentBranch();
      var localHead :- git.RevParseHead();
      var remoteHead :- git.LsRemote(request.branch);
      if branch != request.branch {
        return Err(PROVIDER_RESULT_BRANCH_DRIFT);
      }
      if localHead != before.localHead {
        return Err(PROVIDER_GIT_HEAD_MUTATION_NOT_ALLOWED);
      }
      if remoteHead != Some(before.remoteHead) {
        return Err(PROVIDER_REMOTE_MUTATION_NOT_ALLOWED);
      }
      var refused := RealityRefuses();
      if refused {
        return Err(GITHUB_REALITY_MISMATCH);
      }
      var stagedBefore :- git.StagedPaths();
      if stagedBefore != {} {
        return Err(PROVIDER_GIT_INDEX_MUTATION_NOT_ALLOWED);
      }
      SameTree(git.HeadTree(), git.index);
      var dirty :- git.DirtyPaths();
      if dirty == {} {
        return Err(AUTHORIZED_WORKSPACE_WRITE_PRODUCED_NO_SOURCE_CHANGE);
      }
      var scope := ScopePatterns(request);
      if scope.None? {
        return Err(GOVERNED_WRITE_REQUIRES_NONEMPTY_SOURCE_SCOPE);
      }
      if exists p :: p in dirty && !Covers(reading, scope.value, p) {
        return Err(PROVIDER_RESULT_OUTSIDE_AUTHORIZED_SCOPE);
      }
      r := Ok(dirty);
    }

    /** From the first change of the index on. */
    method PublishDirty(request: Request, before: RepositoryState, dirty: set<string>)
      returns (r: Result<RepositoryState>)
      requires git.Valid() && git.index == git.HeadTree() && git.head == before.localHead
      requires git.reported == dirty != {} && ScopePatterns(request).Some?
      requires forall p :: p in dirty ==> Covers(reading, ScopePatterns(request).value, p)
      modifies git, `asked, `refusals
      ensures git.Valid() && git.reported == dirty && OfferedOnly(dirty)
      ensures r.Ok? ==>
                && OnePublishedCommit(request, before) && Smoothly(2)
                && r.value == RepositoryState(request.branch, git.head, git.head)
                && git.seen == Some(git.head) && git.Clean()
      ensures r.Err? && git.failedResets == old(git.failedResets) ==>
                NothingHappened() || OneLocalCommit() || OnePublishedCommit(request, before)
      ensures r.Err? && git.moves != old(git.moves) ==> OnePublishedCommit(request, before)
      ensures r.Err? ==> r.code != PROVIDER_RESULT_OUTSIDE_AUTHORIZED_SCOPE
      ensures r.Err? && BeforePush(r.code) ==> git.moves == old(git.moves)
      ensures r.Err? && AfterPush(r.code) ==> git.moves != old(git.moves)
    {
      CodesDiffer();
      hide Covers, Diff, Overlay, WellFormed, Validated, ScopePatterns, FastForward, BeforePush, AfterPush;
      var staged := StageAndCommit(dirty);
      if staged.Err? {
        label failed:
        SameTree(git.HeadTree(), git.index);
        var reset := git.Reset(dirty);
        OverlayUndoes(git.HeadTree(), old@failed(git.index), dirty);
        return Err(if reset.Err? then reset.code else staged.code);
      }
      r := PublishCommit(request, before, dirty);
    }

    /** Re-examine what was really committed; hooks may have interfered. */
    method CheckCandidate(request: Request, before: RepositoryState, dirty: set<string>) returns (r: Result<Sha>)
      requires git.Valid() && dirty != {} && ScopePatterns(request).Some?
      requires forall p :: p in dirty ==> Covers(reading, ScopePatterns(request).value, p)
      modifies git`work, git`remote, git`failures
      ensures r.Ok? ==> git.failures == old(git.failures)
      ensures r.Ok? ==> r.value == git.head && Validated(reading, request, git.commits, before.localHead, git.head,
                                                         dirty)
      ensures r.Err? ==> r.code != PROVIDER_RESULT_OUTSIDE_AUTHORIZED_SCOPE
      ensures r.Err? ==> r.code in {COMMAND_FAILED, GOVERNED_WRITE_PARENT_MISMATCH,
                                     GOVERNED_WRITE_COMMIT_SCOPE_MISMATCH}
      ensures r.Err? && r.code != COMMAND_FAILED ==>
                !Validated(reading, request, git.commits, before.localHead, git.head, dirty)
    {
      hide Covers, Diff, WellFormed, ScopePatterns;
      var candidate :- git.RevParseHead();
      var parent :- git.RevParseParent();
      if parent != before.localHead {
        return Err(GOVERNED_WRITE_PARENT_MISMATCH);
      }
      var committed :- git.DiffCommits(before.localHead, candidate);
      if committed != dirty {
        return Err(GOVERNED_WRITE_COMMIT_SCOPE_MISMATCH);
      }
      r := Ok(candidate);
    }

    /** The remote branch is seen at this head, and the hosted repository agrees. */
    method RequireRemote(branch: string, head: Sha, otherwise: string) returns (r: Result<()>)
      modifies git`work, git`remote, git`failures, git`seen, `asked, `refusals
      ensures r.Ok? ==> Smoothly(1) && git.seen == Some(head)
      ensures r.Err? ==> || (r.code == otherwise && git.seen != Some(head) && git.failures == old(git.failures))
                         || (r.code == GITHUB_REALITY_MISMATCH && refusals > old(refusals))
                         || (r.code == COMMAND_FAILED && git.failures > old(git.failures))
    {
      var remote :- git.LsRemote(branch);
      if remote != Some(head) {
        return Err(otherwise);
      }
      var refused := RealityRefuses();
      if refused {
        return Err(GITHUB_REALITY_MISMATCH);
      }
      r := Ok(());
    }

    method PublishCommit(request: Request, before: RepositoryState, dirty: set<string>)
      returns (r: Result<RepositoryState>)
      requires git.Valid() && git.index == git.HeadTree()
      requires git.reported == dirty != {} && ScopePatterns(request).Some?
      requires forall p :: p in dirty ==> Covers(reading, ScopePatterns(request).value, p)
      modifies git`work, git`remote, git`failures, git`seen, git`seenWork, git`moves, `asked, `refusals
      ensures git.Valid()
      ensures r.Ok? ==>
                && PublishedFrom(request, before) && Smoothly(2)
                && Validated(reading, request, git.commits, before.localHead, git.head, dirty)
                && r.value == RepositoryState(request.branch, git.head, git.head)
                && git.seen == Some(git.head) && git.Clean()
      ensures r.Err? ==> git.moves == old(git.moves) ||
                         (PublishedFrom(request, before)
                          && Validated(reading, request, git.commits, before.localHead, git.head, dirty))
      ensures r.Err? ==> r.code != PROVIDER_RESULT_OUTSIDE_AUTHORIZED_SCOPE
      ensures r.Err? && BeforePush(r.code) ==> git.moves == old(git.moves)
      ensures r.Err? && AfterPush(r.code) ==> git.moves != old(git.moves)
      ensures r.Err? && r.code == GOVERNED_WRITE_PUSH_FAILED_LOCAL_COMMIT ==>
                git.moves == old(git.moves) || git.Moved(request.branch)
    {
      CodesDiffer();
      hide Covers, Diff, WellFormed, ScopePatterns, Validated, FastForward, BeforePush, AfterPush;
      var candidate :- CheckCandidate(request, before, dirty);
      var steady :- RequireRemote(request.branch, before.remoteHead, GOVERNED_WRITE_REMOTE_DRIFT_BEFORE_PUSH);
      var pushed := git.Push(request.branch);
      if pushed.Err? {
        return Err(GOVERNED_WRITE_PUSH_FAILED_LOCAL_COMMIT);
      }
      var readBack :- RequireRemote(request.branch, candidate, GOVERNED_WRITE_REMOTE_READBACK_MISMATCH);
      var clean :- git.StatusIsEmpty();
      if !clean {
        return Err(GOVERNED_WRITE_WORKTREE_NOT_CLEAN_AFTER_PUSH);
      }
      r := Ok(RepositoryState(request.branch, candidate, candidate));
    }

    /** A read-only dispatch must come back to the very head it started from. */
    method VerifyResultRepository(request: Request, before: RepositoryState) returns (r: Result<RepositoryState>)
      requires git.Valid()
      modifies git, `asked, `refusals
      ensures git.Valid() && (r.Ok? ==> Smoothly(if request.workspaceWrite then 3 else 0))
      ensures !request.workspaceWrite ==> NothingHappened()
      ensures r == Err(READ_ONLY_DISPATCH_MUTATED_HEAD) && !request.workspaceWrite ==> git.head != before.localHead
      ensures r.Ok? && !request.workspaceWrite ==>
                git.head == before.localHead && r.value == RepositoryState(request.branch, git.head, git.head)
                && git.seen == Some(git.head) && git.seenWork == git.index == git.HeadTree()
      ensures r.Ok? && request.workspaceWrite ==> OnePublishedCommit(request, before) && git.Clean()
    {
      if request.workspaceWrite {
        r := CompleteWorkspaceWrite(request, before);
        return;
      }
      var head :- git.RevParseHead();
      var after :- VerifyRepository(request.(expectedHead := head));
      if after.localHead != before.localHead {
        return Err(READ_ONLY_DISPATCH_MUTATED_HEAD);
      }
      r := Ok(after);
    }
  }

  // --------------------------------------------------------- what follows for a run

  /** Publishing a validated commit never drops a commit from the remote branch: what was there stays an ancestor. */
  lemma PublishedKeepsHistory(commits: Commits, from: Sha, to: Sha, a: Sha)
    requires WellFormed(commits) && from in commits && FastForward(commits, Some(from), to)
    requires Contains(commits, from, a)
    ensures Contains(commits, to, a)
  {
    HistoryIsTransitive(commits, to, from, a);
  }

  lemma {:induction false} HistoryIsTransitive(commits: Commits, c: Sha, b: Sha, a: Sha)
    requires WellFormed(commits) && c in commits && b in commits && Contains(commits, c, b) && Contains(commits, b, a)
    ensures Contains(commits, c, a)
    decreases commits[c].history
  {
    if c != b {
      assert HistoryAt(commits, c);
      var p := commits[c].parent.value;
      assert HistoryAt(commits, p);
      HistoryIsTransitive(commits, p, b, a);
    }
  }
}
