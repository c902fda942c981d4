/**
 * Git as the control plane uses it: a branch head, an index, a worktree and a
 * remote. Any command may fail, a failing command may have taken effect, and
 * between commands other parties may move the remote and touch the worktree.
 */
module GitRepository {
  import opened Outcomes

  type Sha = string
  type Tree = map<string, string>

  /** `history` is the set of proper ancestors. */
  datatype Commit = Commit(parent: Option<Sha>, history: set<Sha>, tree: Tree)

  type Commits = map<Sha, Commit>

  /** A branch of the remote going from one commit to another, and the remote head this code had last seen by then. */
  datatype Move = Move(branch: string, from: Option<Sha>, to: Sha, seen: Option<Sha>)

  const COMMAND_FAILED := "GIT_COMMAND_FAILED"

  // -------------------------------------------------------------------- trees

  function At(t: Tree, p: string): Option<string> { if p in t then Some(t[p]) else None }

  /** `git diff --name-only a b`. */
  function Diff(a: Tree, b: Tree): set<string> {
    set p | p in a.Keys + b.Keys && At(a, p) != At(b, p)
  }

  /** `base` with the given paths taken from `source`, absent where `source` has none. */
  function Overlay(base: Tree, source: Tree, paths: set<string>): Tree {
    map p | p in (base.Keys - paths) + (source.Keys * paths) :: if p in paths then source[p] else base[p]
  }

  lemma OverlayAt(base: Tree, source: Tree, paths: set<string>, p: string)
    ensures At(Overlay(base, source, paths), p) == if p in paths then At(source, p) else At(base, p)
  {
  }

  lemma SameTree(a: Tree, b: Tree)
    ensures Diff(a, b) == {} <==> a == b
  {
    if Diff(a, b) == {} {
      forall p ensures At(a, p) == At(b, p) {
        assert p in a.Keys + b.Keys ==> p !in Diff(a, b);
      }
      assert forall p :: p in a <==> At(a, p).Some?;
      assert forall p :: p in b <==> At(b, p).Some?;
      assert a.Keys == b.Keys;
      forall p | p in a ensures a[p] == b[p] {
        assert At(a, p) == At(b, p);
      }
    }
  }

  /** Unstaging paths that hold everything staged leaves nothing staged. */
  lemma OverlayUndoes(base: Tree, index: Tree, paths: set<string>)
    requires Diff(base, index) <= paths
    ensures Overlay(index, base, paths) == base
  {
    var t := Overlay(index, base, paths);
    forall p ensures At(t, p) == At(base, p) {
      OverlayAt(index, base, paths, p);
      assert At(base, p) != At(index, p) ==> p in Diff(base, index);
    }
    assert Diff(t, base) == {};
    SameTree(t, base);
  }

  // ------------------------------------------------------------------ history

  ghost predicate HistoryAt(commits: Commits, c: Sha)
    requires c in commits
  {
    && c !in commits[c].history && commits[c].history <= commits.Keys
    && match commits[c].parent
       case None => commits[c].history == {}
       case Some(p) => p in commits && commits[c].history == {p} + commits[p].history
  }

  ghost predicate WellFormed(commits: Commits) {
    forall c {:trigger HistoryAt(commits, c)} :: c in commits ==> HistoryAt(commits, c)
  }

  predicate Contains(commits: Commits, c: Sha, a: Sha)
    requires c in commits
  {
    a == c || a in commits[c].history
  }

  /** What the remote accepts without force. */
  predicate FastForward(commits: Commits, from: Option<Sha>, to: Sha) {
    to in commits && (from.None? || Contains(commits, to, from.value))
  }

  lemma AddCommit(commits: Commits, c: Sha, parent: Option<Sha>, tree: Tree)
    requires WellFormed(commits) && c !in commits && (parent.Some? ==> parent.value in commits)
    ensures WellFormed(commits[c := NewCommit(commits, parent, tree)])
  {
    var after := commits[c := NewCommit(commits, parent, tree)];
    if parent.Some? { assert HistoryAt(commits, parent.value); }
    forall x | x in after ensures HistoryAt(after, x) {
      assert x != c ==> HistoryAt(commits, x);
    }
  }

  function NewCommit(commits: Commits, parent: Option<Sha>, tree: Tree): Commit
    requires parent.Some? ==> parent.value in commits
  {
    Commit(parent, if parent.None? then {} else {parent.value} + commits[parent.value].history, tree)
  }

  // --------------------------------------------------------------- repository

  class Git {
    const branch: string
    var head: Sha
    var commits: Commits
    var index: Tree
    var work: Tree
    var remote: map<string, Sha>
    /** Commits made and remote moves caused through this object, oldest first. */
    ghost var made: seq<Sha>
    ghost var moves: seq<Move>
    /** What the last remote query answered. */
    ghost var seen: Option<Sha>
    /** The worktree as the last `git status` found it. */
    ghost var seenWork: Tree
    /** What the last query for changed paths answered. */
    ghost var reported: set<string>
    /** How many commands failed. */
    ghost var failures: nat
    /** The index the last `git diff --cached --check` passed, and the one the last `git commit` was given. */
    ghost var checked: Tree
    ghost var offered: Tree
    /** How often `reset` failed; the index is unknown after that. */
    ghost var failedResets: nat

    constructor (branch: string, head: Sha, root: Tree, index: Tree, work: Tree, remote: map<string, Sha>)
      ensures Valid()
      ensures this.branch == branch && this.head == head && this.index == index && this.work == work
              && this.remote == remote
      ensures commits == map[head := Commit(None, {}, root)]
      ensures made == [] && moves == [] && failedResets == 0
    {
      this.branch, this.head, this.index, this.work, this.remote := branch, head, index, work, remote;
      commits := map[head := Commit(None, {}, root)];
      made, moves, seen, seenWork, reported := [], [], None, work, {};
      failures, checked, offered, failedResets := 0, map[], map[], 0;
    }

    /** A repository that already has a history, with a clean tree. */
    constructor Reopened(branch: string, head: Sha, commits: Commits, tree: Tree, remote: map<string, Sha>,
                         ghost made: seq<Sha>, ghost moves: seq<Move>)
      requires head in commits && WellFormed(commits) && tree == commits[head].tree
      ensures Valid() && Clean()
      ensures this.branch == branch && this.head == head && this.commits == commits && this.remote == remote
      ensures this.made == made && this.moves == moves && failedResets == 0
    {
      this.branch, this.head, this.commits, this.index, this.work, this.remote := branch, head, commits, tree, tree,
      remote;
      this.made, this.moves, seen, seenWork, reported := made, moves, None, tree, {};
      failures, checked, offered, failedResets := 0, map[], map[], 0;
    }

    ghost predicate Valid() reads this { head in commits && WellFormed(commits) }

    ghost function HeadTree(): Tree reads this requires head in commits { commits[head].tree }

    ghost predicate Clean() reads this { head in commits && index == HeadTree() && work == index }

    function RemoteHead(name: string): Option<Sha> reads this { if name in remote then Some(remote[name]) else None }

    /** Other parties act between two commands. */
    method Drift()
      modifies `work, `remote
    {
      work, remote := *, *;
    }

    method CurrentBranch() returns (r: Result<string>)
      modifies `work, `remote, `failures
      ensures r.Err? ==> r.code == COMMAND_FAILED
      ensures failures == if r.Ok? then old(failures) else old(failures) + 1
      ensures r.Ok? ==> r.value == branch
    {
      Drift();
      if * {
        failures := failures + 1;
        return Err(COMMAND_FAILED);
      }
      r := Ok(branch);
    }

    method RevParseHead() returns (r: Result<Sha>)
      modifies `work, `remote, `failures
      ensures r.Err? ==> r.code == COMMAND_FAILED
      ensures failures == if r.Ok? then old(failures) else old(failures) + 1
      ensures r.Ok? ==> r.value == head
    {
      Drift();
      if * {
        failures := failures + 1;
        return Err(COMMAND_FAILED);
      }
      r := Ok(head);
    }

    /** `git rev-parse HEAD^` fails on a root commit. */
    method RevParseParent() returns (r: Result<Sha>)
      requires Valid()
      modifies `work, `remote, `failures
      ensures r.Err? ==> r.code == COMMAND_FAILED
      ensures failures == if r.Ok? then old(failures) else old(failures) + 1
      ensures r.Ok? ==> commits[head].parent == Some(r.value)
    {
      Drift();
      if * {
        failures := failures + 1;
        return Err(COMMAND_FAILED);
      }
      if commits[head].parent.None? {
        failures := failures + 1;
        return Err(COMMAND_FAILED);
      }
      r := Ok(commits[head].parent.value);
    }

    /** Whether `git status --porcelain` prints nothing. */
    method StatusIsEmpty() returns (r: Result<bool>)
      requires Valid()
      modifies `work, `remote, `failures, `seenWork
      ensures r.Err? ==> r.code == COMMAND_FAILED
      ensures failures == if r.Ok? then old(failures) else old(failures) + 1
      ensures r.Ok? ==> seenWork == work && (r.value <==> Clean())
    {
      Drift();
      seenWork := work;
      if * {
        failures := failures + 1;
        return Err(COMMAND_FAILED);
      }
      r := Ok(index == commits[head].tree && work == index);
    }

    method LsRemote(name: string) returns (r: Result<Option<Sha>>)
      modifies `work, `remote, `failures, `seen
      ensures r.Err? ==> r.code == COMMAND_FAILED
      ensures failures == if r.Ok? then old(failures) else old(failures) + 1
      ensures r.Ok? ==> r.value == seen == RemoteHead(name)
    {
      Drift();
      if * {
        failures := failures + 1;
        return Err(COMMAND_FAILED);
      }
      seen := RemoteHead(name);
      r := Ok(RemoteHead(name));
    }

    method StagedPaths() returns (r: Result<set<string>>)
      requires Valid()
      modifies `work, `remote, `failures
      ensures r.Err? ==> r.code == COMMAND_FAILED
      ensures failures == if r.Ok? then old(failures) else old(failures) + 1
      ensures r.Ok? ==> r.value == Diff(HeadTree(), index)
    {
      Drift();
      if * {
        failures := failures + 1;
        return Err(COMMAND_FAILED);
      }
      r := Ok(Diff(commits[head].tree, index));
    }

    /** Modified and untracked paths. */
    method DirtyPaths() returns (r: Result<set<string>>)
      modifies `work, `remote, `failures, `reported
      ensures r.Err? ==> r.code == COMMAND_FAILED
      ensures failures == if r.Ok? then old(failures) else old(failures) + 1
      ensures r.Ok? ==> r.value == reported == Diff(index, work)
    {
      Drift();
      if * {
        failures := failures + 1;
        return Err(COMMAND_FAILED);
      }
      reported := Diff(index, work);
      r := Ok(Diff(index, work));
    }

    /** Every path `git status --porcelain` mentions: staged, modified or untracked. */
    method StatusPaths() returns (r: Result<set<string>>)
      requires Valid()
      modifies `work, `remote, `failures, `reported
      ensures r.Err? ==> r.code == COMMAND_FAILED
      ensures failures == if r.Ok? then old(failures) else old(failures) + 1
      ensures r.Ok? ==> r.value == reported == Diff(HeadTree(), index) + Diff(index, work)
    {
      Drift();
      if * {
        failures := failures + 1;
        return Err(COMMAND_FAILED);
      }
      reported := Diff(commits[head].tree, index) + Diff(index, work);
      r := Ok(Diff(commits[head].tree, index) + Diff(index, work));
    }

    method DiffCommits(a: Sha, b: Sha) returns (r: Result<set<string>>)
      modifies `work, `remote, `failures
      ensures r.Err? ==> r.code == COMMAND_FAILED
      ensures failures == if r.Ok? then old(failures) else old(failures) + 1
      ensures r.Ok? ==> a in commits && b in commits && r.value == Diff(commits[a].tree, commits[b].tree)
    {
      Drift();
      if * {
        failures := failures + 1;
        return Err(COMMAND_FAILED);
      }
      if a !in commits || b !in commits {
        failures := failures + 1;
        return Err(COMMAND_FAILED);
      }
      r := Ok(Diff(commits[a].tree, commits[b].tree));
    }

    /** `git diff --cached --check`. */
    method CheckStaged() returns (r: Result<()>)
      modifies `work, `remote, `failures, `checked
      ensures r.Ok? ==> checked == index
      ensures r.Err? ==> r.code == COMMAND_FAILED
      ensures failures == if r.Ok? then old(failures) else old(failures) + 1
    {
      Drift();
      if * {
        failures := failures + 1;
        return Err(COMMAND_FAILED);
      }
      checked := index;
      r := Ok(());
    }

    /** `git add -A -- paths`; a failing one may have staged part of the paths. */
    method Add(paths: set<string>) returns (r: Result<()>)
      modifies `work, `remote, `failures, `index
      ensures r.Err? ==> r.code == COMMAND_FAILED
      ensures failures == if r.Ok? then old(failures) else old(failures) + 1
      ensures r.Ok? ==> index == Overlay(old(index), work, paths)
      ensures forall p :: p !in paths ==> At(index, p) == At(old(index), p)
    {
      Drift();
      var staged: Tree := work;
      if * {
        staged := *;
        failures := failures + 1;
        r := Err(COMMAND_FAILED);
      } else {
        r := Ok(());
      }
      forall p ensures At(Overlay(index, staged, paths), p) == if p in paths then At(staged, p) else At(index, p) {
        OverlayAt(index, staged, paths, p);
      }
      index := Overlay(index, staged, paths);
    }

    /** `git reset -- paths`. */
    method Reset(paths: set<string>) returns (r: Result<()>)
      requires Valid()
      modifies `work, `remote, `failures, `index, `failedResets
      ensures r.Err? ==> r.code == COMMAND_FAILED
      ensures failures == if r.Ok? then old(failures) else old(failures) + 1
      ensures r.Ok? ==> index == Overlay(old(index), HeadTree(), paths) && failedResets == old(failedResets)
      ensures r.Err? ==> failedResets == old(failedResets) + 1
    {
      Drift();
      if * {
        var half: Tree := *;
        index := Overlay(index, half, paths);
        failures, failedResets := failures + 1, failedResets + 1;
        return Err(COMMAND_FAILED);
      }
      index := Overlay(index, commits[head].tree, paths);
      r := Ok(());
    }

    /** A commit was made: a fresh one, whose parent and tree hooks may have changed. */
    twostate predicate Committed()
      reads this
    {
      && head !in old(commits) && made == old(made) + [head]
      && head in commits && commits == old(commits)[head := commits[head]]
      && index == commits[head].tree
    }

    twostate predicate NotCommitted()
      reads this
    {
      head == old(head) && made == old(made) && commits == old(commits) && index == old(index)
    }

    /** `git commit`; a failing one may have committed. */
    method CommitIndex() returns (r: Result<()>)
      requires Valid()
      modifies `work, `remote, `failures, `offered, `index, `head, `commits, `made
      ensures offered == old(index)
      ensures r.Err? ==> r.code == COMMAND_FAILED
      ensures failures == if r.Ok? then old(failures) else old(failures) + 1
      ensures Valid()
      ensures r.Ok? ==> Committed()
      ensures r.Err? ==> Committed() || NotCommitted()
    {
      Drift();
      offered := index;
      var refused: bool, sha: Sha, parent: Option<Sha>, tree: Tree := *, *, *, *;
      if refused || sha in commits || (parent.Some? && parent.value !in commits) {
        failures := failures + 1;
        return Err(COMMAND_FAILED);
      }
      AddCommit(commits, sha, parent, tree);
      commits := commits[sha := NewCommit(commits, parent, tree)];
      head, index := sha, tree;
      made := made + [sha];
      Drift();
      if * {
        failures := failures + 1;
        return Err(COMMAND_FAILED);
      }
      r := Ok(());
    }

    /** The remote branch went to the local head without dropping anything from it. */
    twostate predicate Moved(name: string)
      reads this
    {
      && |moves| == |old(moves)| + 1 && moves[..|old(moves)|] == old(moves)
      && var m := moves[|old(moves)|];
         m == Move(name, m.from, head, m.seen) && FastForward(commits, m.from, head)
    }

    /** `git push origin HEAD:refs/heads/name`; a failing one may have moved the remote. */
    method Push(name: string) returns (r: Result<()>)
      requires Valid()
      modifies `work, `remote, `failures, `moves
      ensures r.Err? ==> r.code == COMMAND_FAILED
      ensures failures == if r.Ok? then old(failures) else old(failures) + 1
      ensures r.Ok? ==> Moved(name)
      ensures r.Err? ==> Moved(name) || moves == old(moves)
      ensures moves != old(moves) ==> Moved(name) && moves[|old(moves)|].seen == seen
    {
      Drift();
      var refused: bool := *;
      if refused || !FastForward(commits, RemoteHead(name), head) {
        failures := failures + 1;
        return Err(COMMAND_FAILED);
      }
      moves := moves + [Move(name, RemoteHead(name), head, seen)];
      remote := remote[name := head];
      Drift();
      if * {
        failures := failures + 1;
        return Err(COMMAND_FAILED);
      }
      r := Ok(());
    }
  }
}
