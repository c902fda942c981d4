/** The acceptance decision: which required kinds of evidence passed, failed or are missing for one head. */
module EvidenceAcceptance {
  import opened Outcomes
  import opened PythonText
  import opened PythonSequences

  datatype Kind = Tests | Ci | Uat | Readback

  datatype Evidence = Evidence(kind: Kind, passed: bool, reference: string, head: string)

  datatype Decision = Decision(head: string, required: seq<Kind>, satisfied: seq<Kind>, missing: seq<Kind>,
                               failed: seq<Kind>, accepted: bool)

  predicate Shows(evidence: seq<Evidence>, head: string, kind: Kind, passed: bool) {
    exists e :: e in evidence && e.head == head && e.kind == kind && e.passed == passed
  }

  /**
   * What a decision says about the evidence: the same kinds in the required order, and acceptance only on a clean
   * sweep.
   */
  ghost predicate IsDecision(d: Decision, head: string, required: seq<Kind>, evidence: seq<Evidence>) {
    && d.head == Lower(head) && d.required == FirstOccurrences(required)
    && (forall k :: k in d.satisfied <==> k in required && Shows(evidence, d.head, k, true))
    && (forall k :: k in d.failed <==> k in required && Shows(evidence, d.head, k, false))
    && (forall k :: k in d.missing <==> k in required && !Shows(evidence, d.head, k, true)
                                        && !Shows(evidence, d.head, k, false))
    && (d.accepted <==> forall k :: k in required ==>
          Shows(evidence, d.head, k, true) && !Shows(evidence, d.head, k, false))
  }

  type Grouping = map<Kind, seq<Evidence>>

  ghost predicate Grouped(g: Grouping, evidence: seq<Evidence>, head: string) {
    && (forall k :: k in g ==> g[k] != [])
    && (forall k, e :: k in g && e in g[k] ==> e in evidence && e.head == head && e.kind == k)
    && (forall e :: e in evidence && e.head == head ==> e.kind in g && e in g[e.kind])
  }

  predicate Any(items: seq<Evidence>, passed: bool) { exists e :: e in items && e.passed == passed }

  lemma GroupedShows(g: Grouping, evidence: seq<Evidence>, head: string, k: Kind, passed: bool)
    requires Grouped(g, evidence, head)
    ensures Shows(evidence, head, k, passed) <==> k in g && Any(g[k], passed)
    ensures k in g <==> Shows(evidence, head, k, true) || Shows(evidence, head, k, false)
  {
    if k in g {
      var e := g[k][0];
      assert e in g[k] && Shows(evidence, head, k, e.passed);
    }
  }

  method EvaluateAcceptance(head: string, required: seq<Kind>, evidence: seq<Evidence>) returns (r: Result<Decision>)
    ensures r.Err? <==> required == []
    ensures r.Err? ==> r.code == "ACCEPTANCE_REQUIREMENTS_EMPTY"
    ensures r.Ok? ==> IsDecision(r.value, head, required, evidence)
  {
    var normalized := Lower(head);
    var byKind: Grouping := map[];
    for i := 0 to |evidence|
      invariant Grouped(byKind, evidence[..i], normalized)
    {
      var item := evidence[i];
      assert evidence[..i + 1] == evidence[..i] + [item];
      if item.head == normalized {
        byKind := byKind[item.kind := (if item.kind in byKind then byKind[item.kind] else []) + [item]];
      }
    }
    assert evidence[..|evidence|] == evidence;
    var kinds := FirstOccurrences(required);
    FirstOccurrencesMeaning(required);
    NoMembers(kinds);
    NoMembers(required);
    if kinds == [] {
      return Err("ACCEPTANCE_REQUIREMENTS_EMPTY");
    }
    var passing := set k | k in byKind && Any(byKind[k], true);
    var failing := set k | k in byKind && Any(byKind[k], false);
    var unseen := set k | k in kinds && k !in byKind;
    var satisfied, failed, missing := Keep(kinds, passing), Keep(kinds, failing), Keep(kinds, unseen);
    var accepted := missing == [] && failed == [] && |satisfied| == |kinds|;
    r := Ok(Decision(normalized, kinds, satisfied, missing, failed, accepted));
    DecisionHolds(byKind, head, required, evidence, r.value, passing, failing, unseen);
  }

  lemma DecisionHolds(g: Grouping, head: string, required: seq<Kind>, evidence: seq<Evidence>, d: Decision,
                      passing: set<Kind>, failing: set<Kind>, unseen: set<Kind>)
    requires Grouped(g, evidence, d.head) && d.head == Lower(head) && d.required == FirstOccurrences(required)
    requires passing == (set k | k in g && Any(g[k], true)) && failing == (set k | k in g && Any(g[k], false))
    requires unseen == (set k | k in d.required && k !in g)
    requires d.satisfied == Keep(d.required, passing) && d.failed == Keep(d.required, failing)
             && d.missing == Keep(d.required, unseen)
    requires d.accepted == (d.missing == [] && d.failed == [] && |d.satisfied| == |d.required|)
    ensures IsDecision(d, head, required, evidence)
  {
    hide Shows, Any, Grouped, Lower, Keep, FirstOccurrences;
    FirstOccurrencesMeaning(required);
    KeepMeaning(d.required, passing);
    KeepMeaning(d.required, failing);
    KeepMeaning(d.required, unseen);
    forall k
      ensures Shows(evidence, d.head, k, true) <==> k in passing
      ensures Shows(evidence, d.head, k, false) <==> k in failing
      ensures k in g <==> k in passing || k in failing
    {
      GroupedShows(g, evidence, d.head, k, true);
      GroupedShows(g, evidence, d.head, k, false);
    }
    NoMembers(d.failed);
    NoMembers(d.missing);
  }

  /** Failing evidence for a required kind outweighs any number of passes. */
  lemma OneFailureRejects(d: Decision, head: string, required: seq<Kind>, evidence: seq<Evidence>, e: Evidence)
    requires IsDecision(d, head, required, evidence)
    requires e in evidence && e.head == d.head && e.kind in required && !e.passed
    ensures !d.accepted && e.kind in d.failed
  {
    assert Shows(evidence, d.head, e.kind, false);
  }

  /** An accepted decision lists every required kind as satisfied and none as failed or missing. */
  lemma AcceptedIsComplete(d: Decision, head: string, required: seq<Kind>, evidence: seq<Evidence>)
    requires IsDecision(d, head, required, evidence) && d.accepted
    ensures d.failed == [] && d.missing == [] && forall k :: k in required ==> k in d.satisfied
  {
    NoMembers(d.failed);
    NoMembers(d.missing);
  }
}
