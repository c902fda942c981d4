/** The decision registry: one current decision per key and project, supersession forward in time. */
module DecisionRegistry {
  import opened Outcomes
  import opened Digraph
  import opened SupersessionSearch

  const DECISION_CONFLICT_KEY_MISMATCH := "DECISION_CONFLICT_KEY_MISMATCH"
  const DECISION_DIRECTIVE_FINGERPRINT_MISMATCH := "DECISION_DIRECTIVE_FINGERPRINT_MISMATCH"
  const DECISION_INSTRUCTION_BINDING_MISMATCH := "DECISION_INSTRUCTION_BINDING_MISMATCH"
  const DECISION_NOT_CURRENT := "DECISION_NOT_CURRENT"
  const DECISION_NOT_FOUND := "DECISION_NOT_FOUND"
  const DECISION_PROJECT_BINDING_MISMATCH := "DECISION_PROJECT_BINDING_MISMATCH"
  const DECISION_REGISTRY_AUTHORITY_REFERENCE_MISMATCH := "DECISION_REGISTRY_AUTHORITY_REFERENCE_MISMATCH"
  const DECISION_REGISTRY_CROSS_KEY_SUPERSESSION := "DECISION_REGISTRY_CROSS_KEY_SUPERSESSION"
  const DECISION_REGISTRY_CROSS_PROJECT_SUPERSESSION := "DECISION_REGISTRY_CROSS_PROJECT_SUPERSESSION"
  const DECISION_REGISTRY_CURRENT_DECISION_IS_SUPERSEDED := "DECISION_REGISTRY_CURRENT_DECISION_IS_SUPERSEDED"
  const DECISION_REGISTRY_DUPLICATE_DECISION_ID := "DECISION_REGISTRY_DUPLICATE_DECISION_ID"
  const DECISION_REGISTRY_MULTIPLE_CURRENT_DECISIONS := "DECISION_REGISTRY_MULTIPLE_CURRENT_DECISIONS"
  const DECISION_REGISTRY_NON_FORWARD_SUPERSESSION := "DECISION_REGISTRY_NON_FORWARD_SUPERSESSION"
  const DECISION_REGISTRY_SOURCE_REVISION_MISMATCH := "DECISION_REGISTRY_SOURCE_REVISION_MISMATCH"
  const DECISION_REGISTRY_TARGET_NOT_MARKED_SUPERSEDED := "DECISION_REGISTRY_TARGET_NOT_MARKED_SUPERSEDED"
  const DECISION_REGISTRY_UNKNOWN_SUPERSESSION_TARGET := "DECISION_REGISTRY_UNKNOWN_SUPERSESSION_TARGET"
  const DECISION_REGISTRY_UNLINKED_SUPERSEDED_DECISION := "DECISION_REGISTRY_UNLINKED_SUPERSEDED_DECISION"
  const DECISION_VERSION_MISMATCH := "DECISION_VERSION_MISMATCH"

  datatype DecisionStatus = Current | Superseded | Revoked | Historical

  datatype Decision = Decision(id: string, conflictKey: string, version: string, effectiveAt: int,
                               status: DecisionStatus, sourceRevision: string, authorityReference: string,
                               projects: seq<string>, supersedes: seq<string>, instructionIds: seq<string>,
                               fingerprint: string)

  datatype Registry = Registry(sourceRevision: string, authorityReference: string, records: seq<Decision>)

  const SUPERSESSION_CYCLE := "DECISION_REGISTRY_SUPERSESSION_CYCLE"

  /** "*" binds a decision to every project. */
  predicate Applies(d: Decision, project: string) {
    "*" in d.projects || project in d.projects
  }

  predicate ScopesMeet(left: Decision, right: Decision) {
    || "*" in left.projects
    || "*" in right.projects
    || exists p :: p in left.projects && p in right.projects
  }

  ghost predicate UniqueIds(records: seq<Decision>) {
    forall i, j :: 0 <= i < j < |records| ==> records[i].id != records[j].id
  }

  ghost predicate BoundToSource(registry: Registry) {
    forall d :: d in registry.records ==>
      d.sourceRevision == registry.sourceRevision && d.authorityReference == registry.authorityReference
  }

  /** Two decisions that may stand side by side. */
  ghost predicate Compatible(left: Decision, right: Decision) {
    left.status == Current && right.status == Current && left.conflictKey == right.conflictKey ==>
      !ScopesMeet(left, right)
  }

  ghost predicate CurrentUnique(records: seq<Decision>) {
    forall i, j :: 0 <= i < j < |records| ==> Compatible(records[i], records[j])
  }

  ghost predicate Succeeds(d: Decision, target: Decision) {
    && target.conflictKey == d.conflictKey
    && ScopesMeet(d, target)
    && target.status == Superseded
    && target.effectiveAt < d.effectiveAt
  }

  ghost predicate EdgesResolve(records: seq<Decision>) {
    forall d :: d in records ==> TargetsResolve(records, d)
  }

  ghost predicate TargetsResolve(records: seq<Decision>, d: Decision) {
    forall target :: target in d.supersedes ==> exists t :: t in records && t.id == target && Succeeds(d, t)
  }

  ghost function Referenced(records: seq<Decision>): set<string> {
    set d, target | d in records && target in d.supersedes :: target
  }

  ghost predicate Covered(records: seq<Decision>) {
    forall d :: d in records ==>
      && (d.status == Superseded ==> d.id in Referenced(records))
      && (d.status == Current ==> d.id !in Referenced(records))
  }

  ghost function Supersessions(records: seq<Decision>): set<(string, string)> {
    set d, target | d in records && target in d.supersedes :: (d.id, target)
  }

  ghost predicate WellFormed(registry: Registry) {
    && UniqueIds(registry.records) && BoundToSource(registry)
    && CurrentUnique(registry.records) && EdgesResolve(registry.records) && Covered(registry.records)
  }

  // ------------------------------------------------------------- validation

  ghost predicate IsIndex(byId: map<string, Decision>, records: seq<Decision>) {
    && (forall d :: d in records ==> d.id in byId && byId[d.id] == d)
    && (forall id :: id in byId ==> byId[id].id == id && byId[id] in records)
  }

  lemma UniqueIdsGrow(records: seq<Decision>, d: Decision)
    ensures UniqueIds(records + [d]) <==> UniqueIds(records) && forall e :: e in records ==> e.id != d.id
  {
    var all := records + [d];
    assert forall i :: 0 <= i < |records| ==> all[i] == records[i];
    if e :| e in records && e.id == d.id {
      var i :| 0 <= i < |records| && records[i] == e;
      assert all[i].id == all[|records|].id;
    }
    if !UniqueIds(records) {
      var i, j :| 0 <= i < j < |records| && records[i].id == records[j].id;
      assert all[i].id == all[j].id;
    }
  }

  method IndexById(records: seq<Decision>) returns (byId: map<string, Decision>, unique: bool)
    ensures unique <==> UniqueIds(records)
    ensures unique ==> IsIndex(byId, records)
  {
    byId, unique := map[], true;
    for i := 0 to |records|
      invariant byId.Keys == set d | d in records[..i] :: d.id
      invariant unique <==> UniqueIds(records[..i])
      invariant unique ==> IsIndex(byId, records[..i])
    {
      assert records[..i + 1] == records[..i] + [records[i]];
      UniqueIdsGrow(records[..i], records[i]);
      unique := unique && records[i].id !in byId;
      byId := byId[records[i].id := records[i]];
    }
    assert records[..|records|] == records;
  }

  method ValidateCurrentUniqueness(records: seq<Decision>) returns (ok: bool)
    ensures ok <==> CurrentUnique(records)
  {
    for i := 0 to |records|
      invariant forall a, b :: 0 <= a < i && a < b < |records| ==> Compatible(records[a], records[b])
    {
      if records[i].status == Current {
        for j := i + 1 to |records|
          invariant forall b :: i < b < j ==> Compatible(records[i], records[b])
        {
          if records[j].status == Current && records[i].conflictKey == records[j].conflictKey
             && ScopesMeet(records[i], records[j]) {
            return false;
          }
        }
      }
    }
    ok := true;
  }

  method ValidateEdges(records: seq<Decision>, byId: map<string, Decision>) returns (r: Result<()>)
    requires IsIndex(byId, records)
    ensures r.Ok? <==> EdgesResolve(records)
    ensures r.Err? ==> r.code != SUPERSESSION_CYCLE
  {
    for i := 0 to |records|
      invariant forall d :: d in records[..i] ==> TargetsResolve(records, d)
    {
      var d := records[i];
      assert records[..i + 1] == records[..i] + [d] && d in records;
      for j := 0 to |d.supersedes|
        invariant forall target :: target in d.supersedes[..j] ==> target in byId && Succeeds(d, byId[target])
      {
        var target := d.supersedes[j];
        assert target in d.supersedes;
        if target !in byId {
          return Err(DECISION_REGISTRY_UNKNOWN_SUPERSESSION_TARGET);
        }
        if byId[target].conflictKey != d.conflictKey {
          return Err(DECISION_REGISTRY_CROSS_KEY_SUPERSESSION);
        }
        if !ScopesMeet(d, byId[target]) {
          return Err(DECISION_REGISTRY_CROSS_PROJECT_SUPERSESSION);
        }
        if byId[target].status != Superseded {
          return Err(DECISION_REGISTRY_TARGET_NOT_MARKED_SUPERSEDED);
        }
        if byId[target].effectiveAt >= d.effectiveAt {
          return Err(DECISION_REGISTRY_NON_FORWARD_SUPERSESSION);
        }
      }
      assert d.supersedes[..|d.supersedes|] == d.supersedes;
    }
    assert records[..|records|] == records;
    return Ok(());
  }

  method ValidateCoverage(records: seq<Decision>) returns (r: Result<()>)
    ensures r.Ok? <==> Covered(records)
    ensures r.Err? ==> r.code != SUPERSESSION_CYCLE
  {
    var referenced := set d, target | d in records && target in d.supersedes :: target;
    for i := 0 to |records|
      invariant forall d :: d in records[..i] ==>
                  (d.status == Superseded ==> d.id in referenced) && (d.status == Current ==> d.id !in referenced)
    {
      assert records[..i + 1] == records[..i] + [records[i]] && records[i] in records;
      if records[i].status == Superseded && records[i].id !in referenced {
        return Err(DECISION_REGISTRY_UNLINKED_SUPERSEDED_DECISION);
      }
      if records[i].status == Current && records[i].id in referenced {
        return Err(DECISION_REGISTRY_CURRENT_DECISION_IS_SUPERSEDED);
      }
    }
    assert records[..|records|] == records;
    return Ok(());
  }

  function LinksOf(byId: map<string, Decision>): Links {
    map id | id in byId :: byId[id].supersedes
  }

  lemma LinksMatchRecords(records: seq<Decision>, byId: map<string, Decision>)
    requires IsIndex(byId, records)
    ensures Edges(LinksOf(byId)) == Supersessions(records)
    ensures EdgesResolve(records) ==> Resolved(LinksOf(byId))
  {
    var links := LinksOf(byId);
    forall e | e in Edges(links) ensures e in Supersessions(records) {
      assert byId[e.0] in records && e.1 in byId[e.0].supersedes;
    }
    forall d, target | d in records && target in d.supersedes ensures (d.id, target) in Edges(links) {
      assert d.id in links && target in links[d.id];
    }
    if EdgesResolve(records) {
      forall id, target | id in links && target in links[id] ensures target in links {
        assert TargetsResolve(records, byId[id]);
      }
    }
  }

  /** Supersession strictly forward in time already rules out every cycle. */
  lemma ForwardInTimeIsAcyclic(records: seq<Decision>)
    requires UniqueIds(records) && EdgesResolve(records)
    ensures !HasCycle(Supersessions(records))
  {
    var rank := (id: string) => -EffectiveAt(records, id);
    forall e | e in Supersessions(records) ensures rank(e.0) < rank(e.1) {
      var d, target :| d in records && target in d.supersedes && e == (d.id, target);
      assert TargetsResolve(records, d);
      var t :| t in records && t.id == target && Succeeds(d, t);
      EffectiveAtIs(records, d);
      EffectiveAtIs(records, t);
    }
    RankingForbidsCycles(Supersessions(records), rank);
  }

  ghost function EffectiveAt(records: seq<Decision>, id: string): int {
    if records == [] then 0 else if records[0].id == id then records[0].effectiveAt else EffectiveAt(records[1..], id)
  }

  lemma {:induction false} EffectiveAtIs(records: seq<Decision>, d: Decision)
    requires UniqueIds(records) && d in records
    ensures EffectiveAt(records, d.id) == d.effectiveAt
  {
    if records[0] != d {
      var k :| 0 <= k < |records| && records[k] == d;
      assert records[1..][k - 1] == d;
      EffectiveAtIs(records[1..], d);
    }
  }

  /** The import is accepted exactly when the registry is well formed, and never fails on a cycle. */
  method ValidateRegistry(registry: Registry) returns (r: Result<()>)
    ensures r.Ok? <==> WellFormed(registry)
    ensures r != Err(SUPERSESSION_CYCLE)
  {
    var records := registry.records;
    var byId, unique := IndexById(records);
    if !unique {
      return Err(DECISION_REGISTRY_DUPLICATE_DECISION_ID);
    }
    if exists d :: d in records && d.sourceRevision != registry.sourceRevision {
      return Err(DECISION_REGISTRY_SOURCE_REVISION_MISMATCH);
    }
    if exists d :: d in records && d.authorityReference != registry.authorityReference {
      return Err(DECISION_REGISTRY_AUTHORITY_REFERENCE_MISMATCH);
    }
    var single := ValidateCurrentUniqueness(records);
    if !single {
      return Err(DECISION_REGISTRY_MULTIPLE_CURRENT_DECISIONS);
    }
    r := ValidateEdges(records, byId);
    if r.Err? {
      return;
    }
    r := ValidateCoverage(records);
    if r.Err? {
      return;
    }
    LinksMatchRecords(records, byId);
    ForwardInTimeIsAcyclic(records);
    var search := new Search(LinksOf(byId));
    var ids := seq(|records|, i requires 0 <= i < |records| => records[i].id);
    assert forall i :: 0 <= i < |records| ==> ids[i] == records[i].id;
    forall id | id in byId ensures id in ids {
      var i :| 0 <= i < |records| && records[i] == byId[id];
    }
    var acyclic := search.Run(ids);
    if !acyclic {
      return Err(SUPERSESSION_CYCLE);
    }
    return Ok(());
  }

  /** No project is named by both, and neither is for every project. */
  ghost predicate Apart(left: Decision, right: Decision) {
    "*" !in left.projects && "*" !in right.projects && forall p :: p in left.projects ==> p !in right.projects
  }

  /** What a well-formed registry comes to, record by record. */
  lemma WellFormedSpelled(registry: Registry)
    ensures WellFormed(registry) <==>
            && UniqueIds(registry.records) && BoundToSource(registry)
            && (forall i, j :: 0 <= i < j < |registry.records| ==>
                  var d, e := registry.records[i], registry.records[j];
                  d.status == e.status == Current && d.conflictKey == e.conflictKey ==> Apart(d, e))
            && (forall d, target :: d in registry.records && target in d.supersedes ==>
                  exists t :: t in registry.records && t.id == target && t.status == Superseded
                              && t.conflictKey == d.conflictKey && t.effectiveAt < d.effectiveAt && !Apart(d, t))
            && (forall d :: d in registry.records ==>
                  && (d.status == Superseded ==> exists e :: e in registry.records && d.id in e.supersedes)
                  && (d.status == Current ==> forall e :: e in registry.records ==> d.id !in e.supersedes))
  {
    forall d: Decision, e: Decision ensures ScopesMeet(d, e) <==> !Apart(d, e) {
    }
    hide ScopesMeet, Apart, UniqueIds, BoundToSource;
    forall d | d in registry.records
      ensures TargetsResolve(registry.records, d) <==> forall target :: target in d.supersedes ==>
                exists t :: t in registry.records && t.id == target && t.status == Superseded
                            && t.conflictKey == d.conflictKey && t.effectiveAt < d.effectiveAt && !Apart(d, t)
    {
    }
    hide TargetsResolve;
  }

  /** A decision is for a project that it names, and for every project when it says so. */
  lemma BindingChecksPass(d: Decision, project: string, instructionId: string, conflictKey: string, version: string,
                          fingerprint: string)
    ensures AllPass(BindingChecks(d, project, instructionId, conflictKey, version, fingerprint)) <==>
            && (project in d.projects || "*" in d.projects) && d.status == Current && instructionId in d.instructionIds
            && d.conflictKey == conflictKey && d.version == version && d.fingerprint == fingerprint
  {
    var checks := BindingChecks(d, project, instructionId, conflictKey, version, fingerprint);
    assert AllPass(checks) ==> checks[0].0 && checks[1].0 && checks[2].0 && checks[3].0 && checks[4].0 && checks[5].0;
  }

  // ---------------------------------------------------------------- queries

  /** In an accepted registry a project sees at most one current decision per conflict key. */
  lemma OneCurrentDecision(registry: Registry, project: string, left: Decision, right: Decision)
    requires WellFormed(registry) && left in registry.records && right in registry.records
    requires left.status == Current && right.status == Current && left.conflictKey == right.conflictKey
    requires Applies(left, project) && Applies(right, project)
    ensures left == right
  {
    var i :| 0 <= i < |registry.records| && registry.records[i] == left;
    var j :| 0 <= j < |registry.records| && registry.records[j] == right;
    assert ScopesMeet(left, right) && ScopesMeet(right, left);
  }

  /** Every superseded decision descends from one that has not been superseded. */
  lemma SupersededHasLiveSuccessor(registry: Registry, replaced: Decision)
    requires WellFormed(registry) && replaced in registry.records && replaced.status == Superseded
    ensures exists d :: d in registry.records && d.status != Superseded
              && Reaches(Supersessions(registry.records), d.id, replaced.id)
  {
    var records := registry.records;
    var edges := Supersessions(records);
    ForwardInTimeIsAcyclic(records);
    var dead := set d | d in records && d.status == Superseded :: d.id;
    forall id | id in dead ensures HasPredecessor(edges, id) {
      var d, target :| d in records && target in d.supersedes && target == id;
      assert (d.id, id) in edges;
    }
    DeadHaveLiveAncestors(edges, dead, replaced.id);
    var u :| u !in dead && Reaches(edges, u, replaced.id);
    var walk :| Connects(edges, walk, u, replaced.id);
    assert replaced.id in dead;
    assert (walk[0], walk[1]) in edges;
    var d :| d in records && d.id == u;
  }

  /** The first record with the id; ids are unique in an accepted registry. */
  function Get(records: seq<Decision>, id: string): (r: Option<Decision>)
    ensures r.Some? ==> r.value in records && r.value.id == id
    ensures r.None? ==> forall d :: d in records ==> d.id != id
  {
    if records == [] then None else if records[0].id == id then Some(records[0]) else Get(records[1..], id)
  }

  lemma {:induction false} GetIsTheOne(records: seq<Decision>, d: Decision)
    requires UniqueIds(records) && d in records
    ensures Get(records, d.id) == Some(d)
  {
    if records[0] == d {
    } else {
      var k :| 0 <= k < |records| && records[k] == d;
      assert d in records[1..];
      GetIsTheOne(records[1..], d);
    }
  }

  /** What binding an instruction asks of the decision, in order, each with the refusal it raises. */
  function BindingChecks(d: Decision, project: string, instructionId: string, conflictKey: string, version: string,
                         fingerprint: string)
    : seq<(bool, string)>
  {
    [(Applies(d, project), DECISION_PROJECT_BINDING_MISMATCH), (d.status == Current, DECISION_NOT_CURRENT),
     (instructionId in d.instructionIds, DECISION_INSTRUCTION_BINDING_MISMATCH),
     (d.conflictKey == conflictKey, DECISION_CONFLICT_KEY_MISMATCH), (d.version == version, DECISION_VERSION_MISMATCH),
     (d.fingerprint == fingerprint, DECISION_DIRECTIVE_FINGERPRINT_MISMATCH)]
  }

  ghost predicate AllPass(checks: seq<(bool, string)>) { forall i :: 0 <= i < |checks| ==> checks[i].0 }

  /** The error of the first check that fails. */
  ghost predicate FirstFailure(checks: seq<(bool, string)>, code: string) {
    exists i: nat :: i < |checks| && !checks[i].0 && checks[i].1 == code && AllPass(checks[..i])
  }

  /** An instruction is bound exactly when the decision exists, is current, in scope and names the same directive. */
  function BindInstruction(registry: Registry, decisionId: string, project: string, instructionId: string,
                           conflictKey: string, version: string, fingerprint: string): (r: Result<Decision>)
    ensures (forall d :: d in registry.records ==> d.id != decisionId) ==> r == Err(DECISION_NOT_FOUND)
    ensures r.Ok? ==> r.value in registry.records && r.value.id == decisionId
    ensures r.Ok? ==> AllPass(BindingChecks(r.value, project, instructionId, conflictKey, version, fingerprint))
  {
    match Get(registry.records, decisionId)
    case None => Err(DECISION_NOT_FOUND)
    case Some(d) =>
      if !Applies(d, project) then Err(DECISION_PROJECT_BINDING_MISMATCH)
      else if d.status != Current then Err(DECISION_NOT_CURRENT)
      else if instructionId !in d.instructionIds then Err(DECISION_INSTRUCTION_BINDING_MISMATCH)
      else if d.conflictKey != conflictKey then Err(DECISION_CONFLICT_KEY_MISMATCH)
      else if d.version != version then Err(DECISION_VERSION_MISMATCH)
      else if d.fingerprint != fingerprint then Err(DECISION_DIRECTIVE_FINGERPRINT_MISMATCH)
      else Ok(d)
  }

  /** Of a decision on record, binding fails with the first check that fails, and otherwise returns the decision. */
  lemma BindInstructionIff(registry: Registry, d: Decision, project: string, instructionId: string,
                           conflictKey: string, version: string, fingerprint: string)
    requires UniqueIds(registry.records) && d in registry.records
    ensures var r := BindInstruction(registry, d.id, project, instructionId, conflictKey, version, fingerprint);
            var checks := BindingChecks(d, project, instructionId, conflictKey, version, fingerprint);
            (r == Ok(d) <==> AllPass(checks)) && (r.Err? <==> !AllPass(checks))
            && (r.Err? ==> FirstFailure(checks, r.code))
  {
    GetIsTheOne(registry.records, d);
    var r := BindInstruction(registry, d.id, project, instructionId, conflictKey, version, fingerprint);
    var checks := BindingChecks(d, project, instructionId, conflictKey, version, fingerprint);
    FirstOfChecks(checks);
    if i: nat :| i < |checks| && !checks[i].0 && AllPass(checks[..i]) {
      forall j: nat | j < i ensures checks[j].0 {
        assert checks[..i][j].0;
      }
      assert (i > 0 ==> checks[0].0) && (i > 1 ==> checks[1].0) && (i > 2 ==> checks[2].0) && (i > 3 ==> checks[3].0)
             && (i > 4 ==> checks[4].0);
      assert r == Err(checks[i].1);
    } else {
      assert checks[0].0 && checks[1].0 && checks[2].0 && checks[3].0 && checks[4].0 && checks[5].0;
    }
  }

  lemma {:induction false} FirstOfChecks(checks: seq<(bool, string)>)
    ensures AllPass(checks) || exists i: nat :: i < |checks| && !checks[i].0 && AllPass(checks[..i])
  {
    if !AllPass(checks) {
      var n := |checks| - 1;
      FirstOfChecks(checks[..n]);
      if i: nat :| i < n && !checks[..n][i].0 && AllPass(checks[..n][..i]) {
        assert checks[..n][..i] == checks[..i];
      } else {
        assert forall j :: 0 <= j < n ==> checks[j] == checks[..n][j];
      }
    }
  }
}
