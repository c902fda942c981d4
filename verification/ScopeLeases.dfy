/** Scope leases of the parallel development coordinator. */
module ScopeLeases {
  import opened Outcomes
  import opened PythonText
  import opened ScopeOverlap
  import opened PythonSequences

  datatype LeaseStatus = Active | Released

  datatype Lease = Lease(leaseId: string, taskId: string, projectId: string, repository: string,
                         scope: seq<string>, hostId: string, status: LeaseStatus,
                         acquiredAt: int, releasedAt: Option<int>)

  /** What the coordinator reads of an engineering task. */
  datatype LeaseTask = LeaseTask(taskId: string, projectId: string, repository: string, scope: seq<string>)

  // ---------------------------------------------------------------- lease ids

  function Decimal(n: nat): (s: string)
    ensures s != "" && forall i :: 0 <= i < |s| ==> '0' <= s[i] <= '9'
  {
    if n < 10 then [Digit(n)] else Decimal(n / 10) + [Digit(n % 10)]
  }

  function Digit(d: nat): (c: char)
    requires d < 10
    ensures '0' <= c <= '9'
  {
    ('0' as int + d) as char
  }

  function LeaseId(taskId: string, generation: nat): string {
    "scope-lease:" + taskId + ":" + Decimal(generation)
  }

  lemma {:induction false} DecimalIsInjective(m: nat, n: nat)
    requires Decimal(m) == Decimal(n)
    ensures m == n
  {
    var dm, dn := Decimal(m), Decimal(n);
    if m >= 10 && n >= 10 {
      assert dm[..|dm| - 1] == Decimal(m / 10) && dn[..|dn| - 1] == Decimal(n / 10);
      DecimalIsInjective(m / 10, n / 10);
      assert dm[|dm| - 1] == Digit(m % 10) && dn[|dn| - 1] == Digit(n % 10);
    } else {
      assert |Decimal(m)| == 1 && |Decimal(n)| == 1;
      assert dm[0] == dn[0];
    }
  }

  lemma ColonInside(p1: string, d1: string, p2: string, d2: string)
    requires p1 + ":" + d1 == p2 + ":" + d2 && |d1| < |d2|
    ensures ':' in d2
  {
    assert d2[|d2| - 1 - |d1|] == (p2 + ":" + d2)[|p1|];
    assert (p1 + ":" + d1)[|p1|] == ':';
  }

  /** Task and generation can be read back from a lease id, whatever the task id contains. */
  lemma LeaseIdIsInjective(t1: string, g1: nat, t2: string, g2: nat)
    requires LeaseId(t1, g1) == LeaseId(t2, g2)
    ensures t1 == t2 && g1 == g2
  {
    var d1, d2 := Decimal(g1), Decimal(g2);
    var a, b := LeaseId(t1, g1), LeaseId(t2, g2);
    assert a[|a| - 1 - |d1|] == ':' && b[|b| - 1 - |d2|] == ':';
    assert forall i :: 0 <= i < |d1| ==> a[|a| - |d1| + i] == d1[i];
    assert forall i :: 0 <= i < |d2| ==> b[|b| - |d2| + i] == d2[i];
    if |d1| < |d2| {
      ColonInside("scope-lease:" + t1, d1, "scope-lease:" + t2, d2);
    } else if |d2| < |d1| {
      ColonInside("scope-lease:" + t2, d2, "scope-lease:" + t1, d1);
    }
    assert a[|a| - |d1|..] == d1 && b[|b| - |d2|..] == d2;
    assert a[12..|a| - 1 - |d1|] == t1 && b[12..|b| - 1 - |d2|] == t2;
    DecimalIsInjective(g1, g2);
  }

  // ---------------------------------------------------------------- invariant

  ghost function LeasesOf(leases: seq<Lease>, taskId: string): nat {
    if leases == [] then 0
    else LeasesOf(leases[..|leases| - 1], taskId) + (if leases[|leases| - 1].taskId == taskId then 1 else 0)
  }

  /** Ids number each task's leases in order of acquisition. */
  ghost predicate IdsNumbered(leases: seq<Lease>) {
    forall i :: 0 <= i < |leases| ==> IsNumbered(leases[i], leases[..i])
  }

  ghost predicate IsNumbered(lease: Lease, earlier: seq<Lease>) {
    lease.leaseId == LeaseId(lease.taskId, 1 + LeasesOf(earlier, lease.taskId))
  }

  /** Two active leases belong to different tasks, and share no scope inside one repository. */
  ghost predicate Compatible(a: Lease, b: Lease) {
    a.status == Active && b.status == Active ==>
      a.taskId != b.taskId && (a.repository == b.repository ==> !ScopesOverlap(a.scope, b.scope))
  }

  ghost predicate Exclusive(leases: seq<Lease>) {
    forall i, j :: 0 <= i < j < |leases| ==> Compatible(leases[i], leases[j])
  }

  ghost predicate Owns(lease: Lease, task: LeaseTask) {
    lease.status == Active && lease.taskId == task.taskId
  }

  ghost predicate Clashes(lease: Lease, task: LeaseTask) {
    lease.status == Active && lease.taskId != task.taskId && lease.repository == task.repository
    && ScopesOverlap(lease.scope, task.scope)
  }

  /** Another task's active lease in the repository has a pattern whose prefix shares a path with one asked for. */
  ghost predicate PathIsTaken(leases: seq<Lease>, task: LeaseTask) {
    exists l, a, b, path :: l in leases && l.status == Active && l.taskId != task.taskId
                            && l.repository == task.repository && a in l.scope && b in task.scope
                            && BelowBoth(StaticPrefix(a), StaticPrefix(b), path)
  }

  lemma ClashesIff(leases: seq<Lease>, task: LeaseTask)
    ensures (exists l :: l in leases && Clashes(l, task)) <==> PathIsTaken(leases, task)
  {
    forall l: Lease
      ensures ScopesOverlap(l.scope, task.scope) <==>
                exists a, b, path :: a in l.scope && b in task.scope
                                     && BelowBoth(StaticPrefix(a), StaticPrefix(b), path)
    {
      OverlapIff(l.scope, task.scope);
    }
    hide ScopesOverlap, StaticPrefix, BelowBoth;
  }

  predicate SameBinding(lease: Lease, task: LeaseTask, hostId: string) {
    lease.repository == task.repository && lease.scope == task.scope && lease.hostId == hostId
  }

  /** Record validation: at least one pattern, none blank, none repeated. */
  function ScopeError(scope: seq<string>): Option<string> {
    if scope == [] then Some("SCOPE_LEASE_PATTERNS_REQUIRED")
    else if exists p :: p in scope && IsBlank(p) then Some("SCOPE_LEASE_EMPTY_PATTERN")
    else if exists i, j :: 0 <= i < j < |scope| && scope[i] == scope[j] then Some("SCOPE_LEASE_DUPLICATE_PATTERN")
    else None
  }

  /** A scope is granted when it has patterns, none blank and no two alike; otherwise the first fault is named. */
  lemma ScopeErrorIff(scope: seq<string>)
    ensures ScopeError(scope) == Some("SCOPE_LEASE_PATTERNS_REQUIRED") <==> |scope| == 0
    ensures ScopeError(scope) == Some("SCOPE_LEASE_EMPTY_PATTERN") <==>
              !(forall i :: 0 <= i < |scope| ==> !IsBlank(scope[i]))
    ensures ScopeError(scope).None? <==>
              && |scope| > 0 && (forall i :: 0 <= i < |scope| ==> !IsBlank(scope[i])) && Distinct(scope)
  {
    if p :| p in scope && IsBlank(p) { var i :| 0 <= i < |scope| && scope[i] == p; }
    hide IsBlank;
  }

  lemma {:induction false} EarlierLeasesAreFewer(leases: seq<Lease>, i: nat, taskId: string)
    requires i <= |leases|
    ensures LeasesOf(leases[..i], taskId) <= LeasesOf(leases, taskId)
    ensures i < |leases| && leases[i].taskId == taskId ==> LeasesOf(leases[..i], taskId) < LeasesOf(leases, taskId)
    decreases |leases|
  {
    if i < |leases| {
      var init := leases[..|leases| - 1];
      assert init[..i] == leases[..i];
      EarlierLeasesAreFewer(init, i, taskId);
    } else {
      assert leases[..i] == leases;
    }
  }

  lemma IdsAreUnique(leases: seq<Lease>, i: nat, j: nat)
    requires IdsNumbered(leases) && i < j < |leases|
    ensures leases[i].leaseId != leases[j].leaseId
  {
    assert IsNumbered(leases[i], leases[..i]) && IsNumbered(leases[j], leases[..j]);
    if leases[i].leaseId == leases[j].leaseId {
      var task := leases[j].taskId;
      LeaseIdIsInjective(leases[i].taskId, 1 + LeasesOf(leases[..i], leases[i].taskId), task,
                         1 + LeasesOf(leases[..j], task));
      assert leases[..j][..i] == leases[..i];
      EarlierLeasesAreFewer(leases[..j], i, task);
    }
  }

  lemma {:induction false} SameTasksSameCounts(a: seq<Lease>, b: seq<Lease>, taskId: string)
    requires |a| == |b| && forall i :: 0 <= i < |a| ==> a[i].taskId == b[i].taskId
    ensures LeasesOf(a, taskId) == LeasesOf(b, taskId)
  {
    if a != [] {
      SameTasksSameCounts(a[..|a| - 1], b[..|b| - 1], taskId);
    }
  }

  class LeaseRegistry {
    var leases: seq<Lease>

    ghost predicate Valid()
      reads this
    {
      Exclusive(leases) && IdsNumbered(leases)
    }

    constructor ()
      ensures Valid() && leases == []
    {
      leases := [];
    }

    /** Grant, re-grant or refuse a lease; a refusal changes nothing. */
    method Acquire(task: LeaseTask, hostId: string, now: int) returns (r: Result<Lease>)
      requires Valid()
      modifies this
      ensures Valid()
      ensures forall l :: l in old(leases) && Owns(l, task) ==>
                leases == old(leases) && (r.Ok? ==> r.value == l)
                && (r.Ok? <==> l.repository == task.repository && l.scope == task.scope && l.hostId == hostId)
                && (r.Err? ==> r.code == "SCOPE_LEASE_TASK_BINDING_CONFLICT" || PathIsTaken(leases, task))
      ensures (forall l :: l in old(leases) ==> !Owns(l, task)) ==>
                if PathIsTaken(old(leases), task)
                   then r == Err("SCOPE_LEASE_CONFLICT") && leases == old(leases)
                else if ScopeError(task.scope).Some? then r == Err(ScopeError(task.scope).value)
                                                          && leases == old(leases)
                else r.Ok? && leases == old(leases) + [r.value]
                     && r.value == Lease(LeaseId(task.taskId, 1 + LeasesOf(old(leases), task.taskId)), task.taskId,
                                         task.projectId, task.repository, task.scope, hostId, Active, now, None)
    {
      hide Exclusive, IdsNumbered, ScopesOverlap, LeaseId;
      ClashesIff(leases, task);
      for i := 0 to |leases|
        invariant forall l :: l in leases[..i] ==> !Owns(l, task) && !Clashes(l, task)
      {
        var existing := leases[i];
        assert leases[..i + 1] == leases[..i] + [existing];
        if existing.status == Active {
          if existing.taskId == task.taskId {
            OwnLeaseIsUnique(leases, task, i);
            if SameBinding(existing, task, hostId) {
              return Ok(existing);
            }
            return Err("SCOPE_LEASE_TASK_BINDING_CONFLICT");
          }
          if existing.repository == task.repository && ScopesOverlap(existing.scope, task.scope) {
            ClashExcludesOwnBinding(leases, task, hostId, i);
            assert Clashes(existing, task);
            return Err("SCOPE_LEASE_CONFLICT");
          }
        }
      }
      assert leases[..|leases|] == leases;
      if ScopeError(task.scope).Some? {
        return Err(ScopeError(task.scope).value);
      }
      var generation := CountLeases(task.taskId);
      var lease := Lease(LeaseId(task.taskId, 1 + generation), task.taskId, task.projectId, task.repository,
                         task.scope, hostId, Active, now, None);
      GrantKeepsInvariant(leases, lease);
      leases := leases + [lease];
      r := Ok(lease);
    }

    method CountLeases(taskId: string) returns (n: nat)
      ensures n == LeasesOf(leases, taskId)
    {
      n := 0;
      for i := 0 to |leases|
        invariant n == LeasesOf(leases[..i], taskId)
      {
        assert leases[..i + 1][..i] == leases[..i];
        if leases[i].taskId == taskId {
          n := n + 1;
        }
      }
      assert leases[..|leases|] == leases;
    }

    /** Release the task's active lease, the only one it can have. */
    method Release(taskId: string, now: int) returns (r: Result<Lease>)
      requires Valid()
      modifies this
      ensures Valid()
      ensures r.Err? <==> forall l :: l in old(leases) ==> !(l.status == Active && l.taskId == taskId)
      ensures r.Err? ==> r.code == "SCOPE_LEASE_ACTIVE_NOT_FOUND" && leases == old(leases)
      ensures r.Ok? ==> exists i :: (0 <= i < |old(leases)| && old(leases)[i].status == Active
                                     && old(leases)[i].taskId == taskId
                && r.value == old(leases)[i].(status := Released, releasedAt := Some(now))
                && leases == old(leases)[i := r.value])
      ensures forall l :: l in leases ==> !(l.status == Active && l.taskId == taskId)
    {
      hide Exclusive, IdsNumbered;
      for i := 0 to |leases|
        invariant forall l :: l in leases[..i] ==> !(l.status == Active && l.taskId == taskId)
      {
        var item := leases[i];
        assert leases[..i + 1] == leases[..i] + [item];
        if item.taskId == taskId && item.status == Active {
          var released := item.(status := Released, releasedAt := Some(now));
          ReleaseKeepsInvariant(leases, i, released);
          leases := leases[i := released];
          return Ok(released);
        }
      }
      assert leases[..|leases|] == leases;
      r := Err("SCOPE_LEASE_ACTIVE_NOT_FOUND");
    }
  }

  lemma PairCompatible(leases: seq<Lease>, i: nat, j: nat)
    requires Exclusive(leases) && i < |leases| && j < |leases|
    ensures i < j ==> Compatible(leases[i], leases[j])
    ensures j < i ==> Compatible(leases[j], leases[i])
  {
  }

  lemma OwnLeaseIsUnique(leases: seq<Lease>, task: LeaseTask, i: nat)
    requires Exclusive(leases) && i < |leases| && Owns(leases[i], task)
    ensures forall l :: l in leases && Owns(l, task) ==> l == leases[i]
  {
    forall l | l in leases && Owns(l, task) ensures l == leases[i] {
      var j :| 0 <= j < |leases| && leases[j] == l;
      PairCompatible(leases, i, j);
    }
  }

  lemma ClashExcludesOwnBinding(leases: seq<Lease>, task: LeaseTask, hostId: string, i: nat)
    requires Exclusive(leases) && i < |leases| && Clashes(leases[i], task)
    ensures forall l :: l in leases && Owns(l, task) ==> !SameBinding(l, task, hostId)
  {
    forall l | l in leases && Owns(l, task) ensures !SameBinding(l, task, hostId) {
      var j :| 0 <= j < |leases| && leases[j] == l;
      PairCompatible(leases, i, j);
      OverlapIsSymmetric(leases[i].scope, l.scope);
    }
  }

  lemma GrantKeepsInvariant(leases: seq<Lease>, lease: Lease)
    requires Exclusive(leases) && IdsNumbered(leases)
    requires forall l :: l in leases ==> Compatible(l, lease)
    requires IsNumbered(lease, leases)
    ensures Exclusive(leases + [lease]) && IdsNumbered(leases + [lease])
  {
    hide Compatible, IsNumbered;
    var all := leases + [lease];
    forall i | 0 <= i < |all| ensures IsNumbered(all[i], all[..i]) {
      assert all[..i] == leases[..i];
      if i == |leases| { assert leases[..i] == leases; }
    }
  }

  lemma ReleaseKeepsInvariant(leases: seq<Lease>, k: nat, released: Lease)
    requires Exclusive(leases) && IdsNumbered(leases) && k < |leases| && leases[k].status == Active
    requires released == leases[k].(status := Released, releasedAt := released.releasedAt)
    ensures Exclusive(leases[k := released]) && IdsNumbered(leases[k := released])
    ensures forall l :: l in leases[k := released] && l.status == Active ==> l.taskId != released.taskId
  {
    var all := leases[k := released];
    ReleaseKeepsExclusion(leases, k, released);
    ReleaseKeepsNumbers(leases, k, released);
    forall l | l in all && l.status == Active ensures l.taskId != released.taskId {
      var j :| 0 <= j < |all| && all[j] == l;
      assert j < k ==> Compatible(leases[j], leases[k]);
      assert k < j ==> Compatible(leases[k], leases[j]);
    }
  }

  lemma ReleaseKeepsExclusion(leases: seq<Lease>, k: nat, released: Lease)
    requires Exclusive(leases) && k < |leases| && released.status == Released
    ensures Exclusive(leases[k := released])
  {
    var all := leases[k := released];
    forall i, j | 0 <= i < j < |all| ensures Compatible(all[i], all[j]) {
      assert Compatible(leases[i], leases[j]);
    }
  }

  lemma ReleaseKeepsNumbers(leases: seq<Lease>, k: nat, released: Lease)
    requires IdsNumbered(leases) && k < |leases|
    requires released.leaseId == leases[k].leaseId && released.taskId == leases[k].taskId
    ensures IdsNumbered(leases[k := released])
  {
    var all := leases[k := released];
    forall i | 0 <= i < |all| ensures IsNumbered(all[i], all[..i]) {
      assert IsNumbered(leases[i], leases[..i]);
      SameTasksSameCounts(leases[..i], all[..i], all[i].taskId);
    }
  }

  /** No path belongs to the aligned active leases of two tasks in one repository. */
  lemma NoPathIsLeasedTwice(reading: ClassReading, leases: seq<Lease>, i: nat, j: nat, path: string)
    requires Exclusive(leases) && i < j < |leases|
    requires leases[i].status == Active && leases[j].status == Active && leases[i].repository == leases[j].repository
    requires AllAligned(leases[i].scope) && AllAligned(leases[j].scope)
    ensures !(Covers(reading, leases[i].scope, path) && Covers(reading, leases[j].scope, path))
  {
    assert Compatible(leases[i], leases[j]);
    if Covers(reading, leases[i].scope, path) && Covers(reading, leases[j].scope, path) {
      CommonPathMeansOverlap(reading, leases[i].scope, leases[j].scope, path);
    }
  }
}
