/** Validation of an imported knowledge registry: references, coverage, supersession. */
module KnowledgeProvenance {
  import opened Outcomes
  import opened Digraph
  import opened SupersessionSearch

  datatype ClaimStatus = Current | Superseded | Rejected

  datatype Claim = Claim(id: string, key: string, project: string, status: ClaimStatus,
                         conflictsWith: seq<string>, supersedes: seq<string>)

  ghost predicate UniqueIds(claims: seq<Claim>) {
    forall i, j :: 0 <= i < j < |claims| ==> claims[i].id != claims[j].id
  }

  const SUPERSESSION_CYCLE := "KNOWLEDGE_REGISTRY_SUPERSESSION_CYCLE"

  /** Conflicts are mutual; supersession stays within one key and project and its target is marked. */
  ghost predicate ReferencesResolve(claims: seq<Claim>) {
    forall c :: c in claims ==> ConflictsResolve(claims, c) && TargetsResolve(claims, c)
  }

  ghost predicate ConflictsResolve(claims: seq<Claim>, c: Claim) {
    forall other :: other in c.conflictsWith ==> exists o :: o in claims && o.id == other && c.id in o.conflictsWith
  }

  ghost predicate TargetsResolve(claims: seq<Claim>, c: Claim) {
    forall target :: target in c.supersedes ==> exists t :: t in claims && t.id == target && Succeeds(c, t)
  }

  ghost predicate Succeeds(c: Claim, target: Claim) {
    target.key == c.key && target.project == c.project && target.status == Superseded
  }

  ghost predicate SupersededAreReferenced(claims: seq<Claim>) {
    forall c :: c in claims && c.status == Superseded ==> c.id in Referenced(claims)
  }

  ghost function Referenced(claims: seq<Claim>): set<string> {
    set c, target | c in claims && target in c.supersedes :: target
  }

  ghost function Supersessions(claims: seq<Claim>): set<(string, string)> {
    set c, target | c in claims && target in c.supersedes :: (c.id, target)
  }

  /** Everything the import accepts. */
  ghost predicate WellFormed(claims: seq<Claim>) {
    UniqueIds(claims) && ReferencesResolve(claims) && SupersededAreReferenced(claims)
    && !HasCycle(Supersessions(claims))
  }

  /** What an accepted registry comes to, claim by claim. */
  lemma WellFormedSpelled(claims: seq<Claim>)
    ensures WellFormed(claims) <==>
            && UniqueIds(claims) && !HasCycle(Supersessions(claims))
            && (forall c :: c in claims ==> ConflictsResolve(claims, c))
            && (forall c, target :: c in claims && target in c.supersedes ==>
                  exists t :: t in claims && t.id == target && t.key == c.key && t.project == c.project
                              && t.status == Superseded)
            && (forall t :: t in claims && t.status == Superseded ==> t.id in Referenced(claims))
  {
    hide UniqueIds, HasCycle, Supersessions;
    forall c | c in claims
      ensures TargetsResolve(claims, c) <==> forall target :: target in c.supersedes ==>
                exists t :: t in claims && t.id == target && t.key == c.key && t.project == c.project
                            && t.status == Superseded
    {
    }
    hide TargetsResolve;
  }

  ghost predicate IsIndex(byId: map<string, Claim>, claims: seq<Claim>) {
    && (forall c :: c in claims ==> c.id in byId)
    && (forall id :: id in byId ==> byId[id].id == id && byId[id] in claims)
  }

  lemma UniqueIdsGrow(claims: seq<Claim>, c: Claim)
    ensures UniqueIds(claims + [c]) <==> UniqueIds(claims) && forall d :: d in claims ==> d.id != c.id
  {
    var all := claims + [c];
    assert forall i :: 0 <= i < |claims| ==> all[i] == claims[i];
    if d :| d in claims && d.id == c.id {
      var i :| 0 <= i < |claims| && claims[i] == d;
      assert all[i].id == all[|claims|].id;
    }
    if !UniqueIds(claims) {
      var i, j :| 0 <= i < j < |claims| && claims[i].id == claims[j].id;
      assert all[i].id == all[j].id;
    }
  }

  /** The dictionary comprehension over the claims; it shrinks exactly on a repeated id. */
  method IndexById(claims: seq<Claim>) returns (byId: map<string, Claim>, unique: bool)
    ensures IsIndex(byId, claims)
    ensures unique <==> UniqueIds(claims)
    ensures unique ==> forall c :: c in claims ==> byId[c.id] == c
  {
    byId, unique := map[], true;
    for i := 0 to |claims|
      invariant IsIndex(byId, claims[..i])
      invariant unique <==> UniqueIds(claims[..i])
      invariant unique ==> forall c :: c in claims[..i] ==> byId[c.id] == c
    {
      assert claims[..i + 1] == claims[..i] + [claims[i]];
      UniqueIdsGrow(claims[..i], claims[i]);
      unique := unique && claims[i].id !in byId;
      byId := byId[claims[i].id := claims[i]];
    }
    assert claims[..|claims|] == claims;
  }

  method ValidateReferences(claims: seq<Claim>, byId: map<string, Claim>) returns (r: Result<()>)
    requires IsIndex(byId, claims) && forall c :: c in claims ==> byId[c.id] == c
    ensures r.Ok? <==> ReferencesResolve(claims)
    ensures r.Err? ==> r.code != SUPERSESSION_CYCLE
  {
    for i := 0 to |claims|
      invariant forall c :: c in claims[..i] ==> ConflictsResolve(claims, c) && TargetsResolve(claims, c)
    {
      var claim := claims[i];
      assert claims[..i + 1] == claims[..i] + [claim] && claim in claims;
      for j := 0 to |claim.conflictsWith|
        invariant forall other :: other in claim.conflictsWith[..j] ==>
                    other in byId && claim.id in byId[other].conflictsWith
      {
        var other := claim.conflictsWith[j];
        assert other in claim.conflictsWith;
        if other !in byId {
          return Err("KNOWLEDGE_REGISTRY_UNKNOWN_CONFLICT_TARGET");
        }
        if claim.id !in byId[other].conflictsWith {
          return Err("KNOWLEDGE_REGISTRY_CONFLICT_NOT_RECIPROCAL");
        }
      }
      assert claim.conflictsWith[..|claim.conflictsWith|] == claim.conflictsWith;
      for j := 0 to |claim.supersedes|
        invariant forall target :: target in claim.supersedes[..j] ==> target in byId && Succeeds(claim, byId[target])
      {
        var target := claim.supersedes[j];
        assert target in claim.supersedes;
        if target !in byId {
          return Err("KNOWLEDGE_REGISTRY_UNKNOWN_SUPERSESSION_TARGET");
        }
        if byId[target].key != claim.key || byId[target].project != claim.project {
          return Err("KNOWLEDGE_REGISTRY_CROSS_CLAIM_SUPERSESSION");
        }
        if byId[target].status != Superseded {
          return Err("KNOWLEDGE_REGISTRY_TARGET_NOT_SUPERSEDED");
        }
      }
      assert claim.supersedes[..|claim.supersedes|] == claim.supersedes;
    }
    assert claims[..|claims|] == claims;
    return Ok(());
  }

  method ValidateCoverage(claims: seq<Claim>) returns (r: Result<()>)
    ensures r.Ok? <==> SupersededAreReferenced(claims)
    ensures r.Err? ==> r.code != SUPERSESSION_CYCLE
  {
    var referenced := set c, target | c in claims && target in c.supersedes :: target;
    for i := 0 to |claims|
      invariant forall c :: c in claims[..i] && c.status == Superseded ==> c.id in referenced
    {
      assert claims[..i + 1] == claims[..i] + [claims[i]] && claims[i] in claims;
      if claims[i].status == Superseded && claims[i].id !in referenced {
        return Err("KNOWLEDGE_REGISTRY_UNLINKED_SUPERSEDED_CLAIM");
      }
    }
    assert claims[..|claims|] == claims;
    return Ok(());
  }

  function LinksOf(byId: map<string, Claim>): Links {
    map id | id in byId :: byId[id].supersedes
  }

  lemma LinksMatchClaims(claims: seq<Claim>, byId: map<string, Claim>)
    requires IsIndex(byId, claims) && forall c :: c in claims ==> byId[c.id] == c
    ensures Edges(LinksOf(byId)) == Supersessions(claims)
    ensures ReferencesResolve(claims) ==> Resolved(LinksOf(byId))
  {
    var links := LinksOf(byId);
    forall e | e in Edges(links) ensures e in Supersessions(claims) {
      assert byId[e.0] in claims && e.1 in byId[e.0].supersedes;
    }
    forall c, target | c in claims && target in c.supersedes ensures (c.id, target) in Edges(links) {
      assert c.id in links && target in links[c.id];
    }
    if ReferencesResolve(claims) {
      forall id, target | id in links && target in links[id] ensures target in links {
        assert TargetsResolve(claims, byId[id]);
      }
    }
  }

  /** The import is accepted exactly when the registry is well formed; the cycle error is exact too. */
  method ValidateRegistry(claims: seq<Claim>) returns (r: Result<()>)
    ensures r.Ok? <==> WellFormed(claims)
    ensures r == Err(SUPERSESSION_CYCLE) <==>
              UniqueIds(claims) && ReferencesResolve(claims) && SupersededAreReferenced(claims)
              && HasCycle(Supersessions(claims))
  {
    var byId, unique := IndexById(claims);
    if !unique {
      return Err("KNOWLEDGE_REGISTRY_DUPLICATE_CLAIM_ID");
    }
    r := ValidateReferences(claims, byId);
    if r.Err? {
      return;
    }
    r := ValidateCoverage(claims);
    if r.Err? {
      return;
    }
    LinksMatchClaims(claims, byId);
    var search := new Search(LinksOf(byId));
    var ids := seq(|claims|, i requires 0 <= i < |claims| => claims[i].id);
    assert forall i :: 0 <= i < |claims| ==> ids[i] == claims[i].id;
    forall id | id in byId ensures id in ids {
      var i :| 0 <= i < |claims| && claims[i] == byId[id];
    }
    var acyclic := search.Run(ids);
    if !acyclic {
      return Err(SUPERSESSION_CYCLE);
    }
    return Ok(());
  }

  ghost predicate IsLive(claims: seq<Claim>, id: string) {
    exists c :: c in claims && c.id == id && c.status != Superseded
  }

  /** In an accepted registry every superseded claim descends from a claim still standing. */
  lemma SupersededHasLiveSuccessor(claims: seq<Claim>, replaced: Claim)
    requires WellFormed(claims) && replaced in claims && replaced.status == Superseded
    ensures exists id :: IsLive(claims, id) && Reaches(Supersessions(claims), id, replaced.id)
  {
    var edges := Supersessions(claims);
    var dead := set c | c in claims && c.status == Superseded :: c.id;
    forall d | d in dead ensures HasPredecessor(edges, d) {
      var c, target :| c in claims && target in c.supersedes && target == d;
      assert (c.id, d) in edges;
    }
    DeadHaveLiveAncestors(edges, dead, replaced.id);
    var u :| u !in dead && Reaches(edges, u, replaced.id);
    var walk :| Connects(edges, walk, u, replaced.id);
    assert replaced.id in dead;
    assert (walk[0], walk[1]) in edges;
    var c :| c in claims && c.id == u;
    assert IsLive(claims, u);
  }
}
