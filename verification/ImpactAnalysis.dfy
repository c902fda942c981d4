/** What a material change means for every project of the dependency graph. */
module ImpactAnalysis {
  import opened Outcomes
  import opened Digraph
  import opened PythonSequences
  import ChangeInbox

  datatype EdgeStatus = Active | Superseded | Retired

  datatype Edge = Edge(id: string, producer: string, consumer: string, status: EdgeStatus)

  datatype Graph = Graph(projects: seq<string>, edges: seq<Edge>, sha: string)

  /** `breaking` answers `requires_revalidation`, which may itself raise. */
  datatype Contracts = Contracts(sha: string, graphSha: string, breaking: string -> Result<bool>)

  /** The event, with the edge and the snapshots it names. */
  datatype Change = Change(event: ChangeInbox.Event, edgeId: Option<string>, graphSha: string, contractsSha: string)

  datatype Classification = Blocking | Revalidation | Deferred | Info | NoImpact

  datatype Decision = Decision(project: string, classification: Classification, reason: string)

  /** What the graph validator guarantees. */
  ghost predicate ValidGraph(g: Graph) {
    && Distinct(g.projects)
    && forall e :: e in g.edges ==> e.producer in g.projects && e.consumer in g.projects
  }

  /** Producer to consumer, whatever the status of the edge. */
  ghost function Flow(g: Graph): set<(string, string)> { set e | e in g.edges :: (e.producer, e.consumer) }

  // ------------------------------------------------------------------- closure

  ghost function Seeds(s: seq<string>): set<string> { set p | p in s }

  /** Some seed reaches the project along the flow. */
  ghost predicate Downstream(g: Graph, seeds: set<string>, project: string) {
    exists s :: s in seeds && Reaches(Flow(g), s, project)
  }

  /** Everything found hangs together with a seed. */
  ghost predicate FoundFromSeeds(g: Graph, seeds: set<string>, found: set<string>) {
    forall p :: p in found ==> Downstream(g, seeds, p)
  }

  /** Whatever is no longer on the stack has had all its consumers found. */
  ghost predicate ExpandedExcept(g: Graph, seeds: set<string>, found: set<string>, open: set<string>) {
    forall e :: e in g.edges && e.producer in seeds + found && e.producer !in open ==> e.consumer in seeds + found
  }

  lemma SeedsAreDownstream(g: Graph, seeds: set<string>, p: string)
    requires p in seeds
    ensures Downstream(g, seeds, p)
  {
    assert Connects(Flow(g), [p], p, p);
  }

  lemma ConsumerIsDownstream(g: Graph, seeds: set<string>, e: Edge)
    requires e in g.edges && Downstream(g, seeds, e.producer)
    ensures Downstream(g, seeds, e.consumer)
  {
    var s :| s in seeds && Reaches(Flow(g), s, e.producer);
    ReachesFurther(Flow(g), s, e.producer, e.consumer);
  }

  /** A set that holds the seeds and is closed under the flow holds everything downstream. */
  lemma ClosureIsComplete(g: Graph, seeds: set<string>, found: set<string>, p: string)
    requires ExpandedExcept(g, seeds, found, {}) && Downstream(g, seeds, p)
    ensures p in seeds + found
  {
    var s :| s in seeds && Reaches(Flow(g), s, p);
    var walk :| Connects(Flow(g), walk, s, p);
    forall e | e in Flow(g) && e.0 in seeds + found ensures e.1 in seeds + found {
      var edge :| edge in g.edges && e == (edge.producer, edge.consumer);
    }
    WalkStaysInside(Flow(g), seeds + found, walk, |walk| - 1);
  }

  /** A retired or superseded edge carries the impact like any other. */
  lemma EveryEdgeCarriesImpact(g: Graph, seeds: set<string>, e: Edge)
    requires e in g.edges && e.producer in seeds
    ensures Downstream(g, seeds, e.consumer)
  {
    SeedsAreDownstream(g, seeds, e.producer);
    ConsumerIsDownstream(g, seeds, e);
  }

  /** Two graphs that differ only in the status of their edges have the same projects downstream. */
  lemma StatusIsIgnored(g: Graph, h: Graph, seeds: set<string>, project: string)
    requires |g.edges| == |h.edges|
    requires forall i :: 0 <= i < |g.edges| ==> h.edges[i] == g.edges[i].(status := h.edges[i].status)
    ensures Downstream(g, seeds, project) <==> Downstream(h, seeds, project)
  {
    assert Flow(g) == Flow(h) by {
      forall p ensures p in Flow(g) <==> p in Flow(h) {
        if p in Flow(g) {
          var i :| 0 <= i < |g.edges| && p == (g.edges[i].producer, g.edges[i].consumer);
          assert h.edges[i] in h.edges;
        }
        if p in Flow(h) {
          var i :| 0 <= i < |h.edges| && p == (h.edges[i].producer, h.edges[i].consumer);
          assert g.edges[i] in g.edges;
        }
      }
    }
  }

  /** The stack worklist: exactly the projects reachable from the seeds, the seeds left out, cycles or not. */
  method DownstreamProjects(g: Graph, seeds: seq<string>) returns (downstream: set<string>)
    requires ValidGraph(g) && Distinct(seeds) && forall s :: s in seeds ==> s in g.projects
    ensures forall p :: p in downstream <==> Downstream(g, Seeds(seeds), p) && p !in seeds
  {
    ghost var start := Seeds(seeds);
    ghost var all := set p | p in g.projects;
    downstream := {};
    var frontier := seeds;
    hide Downstream;
    StartIsExpanded(g, seeds);
    while frontier != []
      invariant downstream !! start && downstream + start <= all
      invariant FoundFromSeeds(g, start, downstream) && ExpandedExcept(g, start, downstream, Seeds(frontier))
      invariant forall p :: p in frontier ==> p in downstream + start
      decreases all - downstream, |frontier|
    {
      var producer := frontier[|frontier| - 1];
      ghost var below := frontier[..|frontier| - 1];
      assert frontier == below + [producer];
      ghost var before := downstream;
      frontier := frontier[..|frontier| - 1];
      PopBegins(g, start, downstream, below, producer);
      for i := 0 to |g.edges|
        invariant downstream !! start && downstream + start <= all && before <= downstream
        invariant downstream == before ==> frontier == below
        invariant FoundFromSeeds(g, start, downstream) && Expanding(g, start, downstream, Seeds(frontier), producer, i)
        invariant producer in downstream + start && forall p :: p in frontier ==> p in downstream + start
      {
        var edge := g.edges[i];
        assert edge in g.edges;
        ExpandStep(g, start, downstream, frontier, producer, i);
        if edge.producer == producer {
          var consumer := edge.consumer;
          if consumer in seeds || consumer in downstream {
            continue;
          }
          downstream := downstream + {consumer};
          frontier := frontier + [consumer];
        }
      }
      PopEnds(g, start, downstream, frontier, producer);
    }
    forall p ensures p in downstream <==> Downstream(g, start, p) && p !in seeds {
      assert Seeds(frontier) == {};
      if Downstream(g, start, p) { ClosureIsComplete(g, start, downstream, p); }
    }
  }

  /** While the producer is being expanded: its first `i` edges are done, everything else is as the stack says. */
  ghost predicate Expanding(g: Graph, seeds: set<string>, found: set<string>, open: set<string>, producer: string,
                            i: nat)
    requires i <= |g.edges|
  {
    && (forall e :: e in g.edges && e.producer in seeds + found && e.producer !in open && e.producer != producer ==>
          e.consumer in seeds + found)
    && (forall k :: 0 <= k < i && g.edges[k].producer == producer ==> g.edges[k].consumer in seeds + found)
  }

  lemma StartIsExpanded(g: Graph, seeds: seq<string>)
    ensures ExpandedExcept(g, Seeds(seeds), {}, Seeds(seeds)) && FoundFromSeeds(g, Seeds(seeds), {})
  {
  }

  lemma PopBegins(g: Graph, seeds: set<string>, found: set<string>, below: seq<string>, producer: string)
    requires ExpandedExcept(g, seeds, found, Seeds(below + [producer]))
    ensures Expanding(g, seeds, found, Seeds(below), producer, 0)
  {
  }

  lemma PopEnds(g: Graph, seeds: set<string>, found: set<string>, frontier: seq<string>, producer: string)
    requires Expanding(g, seeds, found, Seeds(frontier), producer, |g.edges|)
    ensures ExpandedExcept(g, seeds, found, Seeds(frontier))
  {
  }

  lemma ExpandStep(g: Graph, seeds: set<string>, found: set<string>, frontier: seq<string>, producer: string, i: nat)
    requires i < |g.edges| && producer in found + seeds
    requires FoundFromSeeds(g, seeds, found) && Expanding(g, seeds, found, Seeds(frontier), producer, i)
    ensures g.edges[i].producer != producer || g.edges[i].consumer in seeds + found ==>
              Expanding(g, seeds, found, Seeds(frontier), producer, i + 1)
    ensures g.edges[i].producer == producer ==>
              var consumer := g.edges[i].consumer;
              Expanding(g, seeds, found + {consumer}, Seeds(frontier + [consumer]), producer, i + 1)
              && FoundFromSeeds(g, seeds, found + {consumer})
  {
    hide Downstream;
    if g.edges[i].producer == producer {
      if producer in seeds { SeedsAreDownstream(g, seeds, producer); }
      ConsumerIsDownstream(g, seeds, g.edges[i]);
    }
  }

  // ------------------------------------------------------------ classification

  /** The status of the first inbox item of the event and project. */
  function InboxStatus(items: seq<ChangeInbox.Item>, eventId: string, project: string): Option<ChangeInbox.Status> {
    if items == [] then None
    else if items[0].eventId == eventId && items[0].project == project then Some(items[0].status)
    else InboxStatus(items[1..], eventId, project)
  }

  function ClassifyDirect(c: Change, project: string, contracts: Contracts,
                          inbox: seq<ChangeInbox.Item>): Result<Decision> {
    var status := InboxStatus(inbox, c.event.id, project);
    if status == Some(ChangeInbox.Resolved) then Ok(Decision(project, Info, "INBOX_ITEM_RESOLVED"))
    else if status == Some(ChangeInbox.Deferred) then Ok(Decision(project, Deferred, "INBOX_ITEM_DEFERRED"))
    else if status == Some(ChangeInbox.RevalidationRequired)
            then Ok(Decision(project, Revalidation, "INBOX_REVALIDATION_REQUIRED"))
    else
      match c.event.kind
      case ContractRetired => Ok(Decision(project, Blocking, "DIRECT_CONTRACT_VERSION_RETIRED"))
      case BoundaryChanged => Ok(Decision(project, Blocking, "DIRECT_PROJECT_BOUNDARY_CHANGED"))
      case ContractDeprecated => Ok(Decision(project, Deferred, "DIRECT_CONTRACT_VERSION_DEPRECATED"))
      case DependencyChanged => Ok(Decision(project, Revalidation, "DIRECT_DEPENDENCY_CHANGED"))
      case RuntimeContractChanged => Ok(Decision(project, Revalidation, "DIRECT_RUNTIME_CONTRACT_CHANGED"))
      case ContractPublished =>
        if c.edgeId.None? then Ok(Decision(project, Info, "COMPATIBLE_CONTRACT_VERSION_PUBLISHED"))
        else
          match contracts.breaking(c.edgeId.value)
          case Err(code) => Err(code)
          case Ok(true) => Ok(Decision(project, Revalidation, "BREAKING_CONTRACT_VERSION_PUBLISHED"))
          case Ok(false) => Ok(Decision(project, Info, "COMPATIBLE_CONTRACT_VERSION_PUBLISHED"))
  }

  /**
   * A directly affected project is never reported as untouched, and only an answered inbox item or a compatible version
   * makes it informational.
   */
  lemma DirectIsNeverNoImpact(c: Change, project: string, contracts: Contracts, inbox: seq<ChangeInbox.Item>)
    requires ClassifyDirect(c, project, contracts, inbox).Ok?
    ensures var d := ClassifyDirect(c, project, contracts, inbox).value;
            && d.project == project && d.classification != NoImpact
            && (d.classification == Info <==>
                  InboxStatus(inbox, c.event.id, project) == Some(ChangeInbox.Resolved)
                  || (InboxStatus(inbox, c.event.id, project) !in {Some(ChangeInbox.Deferred),
                                                                    Some(ChangeInbox.RevalidationRequired)}
                      && c.event.kind == ChangeInbox.ContractPublished
                      && (c.edgeId.None? || contracts.breaking(c.edgeId.value) == Ok(false))))
  {
  }

  /** Without an answer from the inbox, a retired contract or a moved boundary blocks, and so on kind by kind. */
  lemma DirectByKind(c: Change, project: string, contracts: Contracts, inbox: seq<ChangeInbox.Item>)
    requires InboxStatus(inbox, c.event.id, project)
             in {None, Some(ChangeInbox.Open), Some(ChangeInbox.Acknowledged)}
    ensures var r, k := ClassifyDirect(c, project, contracts, inbox), c.event.kind;
            && (r.Err? <==> k == ChangeInbox.ContractPublished && c.edgeId.Some?
                            && contracts.breaking(c.edgeId.value).Err?)
            && (r.Ok? ==>
                  && (r.value.classification == Blocking <==>
                        k in {ChangeInbox.ContractRetired, ChangeInbox.BoundaryChanged})
                  && (r.value.classification == Deferred <==> k == ChangeInbox.ContractDeprecated)
                  && (r.value.classification == Revalidation <==>
                        || k in {ChangeInbox.DependencyChanged, ChangeInbox.RuntimeContractChanged}
                        || (k == ChangeInbox.ContractPublished && c.edgeId.Some?
                            && contracts.breaking(c.edgeId.value).value)))
  {
  }

  /** An answered inbox item decides alone. */
  lemma InboxDecides(c: Change, project: string, contracts: Contracts, inbox: seq<ChangeInbox.Item>, i: nat)
    requires i < |inbox| && inbox[i].eventId == c.event.id && inbox[i].project == project
    requires forall j :: 0 <= j < i ==> inbox[j].eventId != c.event.id || inbox[j].project != project
    ensures var r := ClassifyDirect(c, project, contracts, inbox);
            && (inbox[i].status == ChangeInbox.Resolved ==> r.Ok? && r.value.classification == Info)
            && (inbox[i].status == ChangeInbox.Deferred ==> r.Ok? && r.value.classification == Deferred)
            && (inbox[i].status == ChangeInbox.RevalidationRequired ==> r.Ok? && r.value.classification == Revalidation)
  {
    FirstItem(inbox, c.event.id, project, i);
  }

  lemma {:induction false} FirstItem(inbox: seq<ChangeInbox.Item>, eventId: string, project: string, i: nat)
    requires i < |inbox| && inbox[i].eventId == eventId && inbox[i].project == project
    requires forall j :: 0 <= j < i ==> inbox[j].eventId != eventId || inbox[j].project != project
    ensures InboxStatus(inbox, eventId, project) == Some(inbox[i].status)
  {
    if i > 0 { FirstItem(inbox[1..], eventId, project, i - 1); }
  }

  /** What one decision must say. */
  ghost predicate Decides(c: Change, g: Graph, contracts: Contracts, inbox: seq<ChangeInbox.Item>, project: string,
                          d: Decision) {
    if project == c.event.project then d == Decision(project, Info, "SOURCE_PROJECT_CHANGE_OWNER")
    else if project in c.event.affected then ClassifyDirect(c, project, contracts, inbox) == Ok(d)
    else if Downstream(g, Seeds(c.event.affected), project)
            then d == Decision(project, Info, "TRANSITIVE_DOWNSTREAM_VISIBILITY")
    else d == Decision(project, NoImpact, "NO_DEPENDENCY_PATH_FROM_CHANGE")
  }

  /** The reasons an analysis can be refused before any project is looked at, in the order they are checked. */
  function BindingError(c: Change, g: Graph, contracts: Contracts): Option<string> {
    if c.graphSha != g.sha then Some("IMPACT_ANALYSIS_GRAPH_SNAPSHOT_MISMATCH")
    else if c.contractsSha != contracts.sha then Some("IMPACT_ANALYSIS_CONTRACT_SNAPSHOT_MISMATCH")
    else if contracts.graphSha != g.sha then Some("IMPACT_ANALYSIS_REGISTRY_GRAPH_MISMATCH")
    else if c.event.project !in g.projects || exists p :: p in c.event.affected && p !in g.projects then
      Some("IMPACT_ANALYSIS_PROJECT_BINDING_MISMATCH")
    else None
  }

  /** An event must be about this graph, these contracts and projects of the graph; the first fault is named. */
  lemma BindingErrorIff(c: Change, g: Graph, contracts: Contracts)
    ensures BindingError(c, g, contracts).None? <==>
            && g.sha == c.graphSha == contracts.graphSha && contracts.sha == c.contractsSha
            && c.event.project in g.projects && forall p :: p in c.event.affected ==> p in g.projects
    ensures BindingError(c, g, contracts) == Some("IMPACT_ANALYSIS_GRAPH_SNAPSHOT_MISMATCH") <==> g.sha != c.graphSha
    ensures BindingError(c, g, contracts) == Some("IMPACT_ANALYSIS_CONTRACT_SNAPSHOT_MISMATCH") <==>
              g.sha == c.graphSha && contracts.sha != c.contractsSha
    ensures BindingError(c, g, contracts) == Some("IMPACT_ANALYSIS_REGISTRY_GRAPH_MISMATCH") <==>
              g.sha == c.graphSha && contracts.sha == c.contractsSha && contracts.graphSha != g.sha
  {
  }

  method Analyze(c: Change, g: Graph, contracts: Contracts, inbox: seq<ChangeInbox.Item>)
    returns (r: Result<seq<Decision>>)
    requires ValidGraph(g) && Distinct(c.event.affected)
    ensures BindingError(c, g, contracts).Some? ==> r == Err(BindingError(c, g, contracts).value)
    ensures r.Ok? ==> |r.value| == |g.projects| && forall i :: 0 <= i < |g.projects| ==>
              Decides(c, g, contracts, inbox, g.projects[i], r.value[i])
    ensures r.Err? && BindingError(c, g, contracts).None? ==>
              exists p :: p in c.event.affected && p != c.event.project
                          && ClassifyDirect(c, p, contracts, inbox) == Err(r.code)
  {
    var refused := BindingError(c, g, contracts);
    if refused.Some? {
      return Err(refused.value);
    }
    var downstream := DownstreamProjects(g, c.event.affected);
    hide Downstream, ClassifyDirect;
    var decisions: seq<Decision> := [];
    for i := 0 to |g.projects|
      invariant |decisions| == i && forall k :: 0 <= k < i ==>
                  Decides(c, g, contracts, inbox, g.projects[k], decisions[k])
    {
      var project := g.projects[i];
      var decision: Decision;
      if project == c.event.project {
        decision := Decision(project, Info, "SOURCE_PROJECT_CHANGE_OWNER");
      } else if project in c.event.affected {
        var direct := ClassifyDirect(c, project, contracts, inbox);
        if direct.Err? { return Err(direct.code); }
        decision := direct.value;
      } else if project in downstream {
        decision := Decision(project, Info, "TRANSITIVE_DOWNSTREAM_VISIBILITY");
      } else {
        decision := Decision(project, NoImpact, "NO_DEPENDENCY_PATH_FROM_CHANGE");
      }
      decisions := decisions + [decision];
    }
    r := Ok(decisions);
  }

  /**
   * No impact means exactly: not the source, and no dependency path, not even an empty one, from any affected project.
   */
  lemma NoImpactIff(c: Change, g: Graph, contracts: Contracts, inbox: seq<ChangeInbox.Item>, project: string,
                    d: Decision)
    requires Decides(c, g, contracts, inbox, project, d)
    ensures d.project == project
    ensures d.classification == NoImpact <==>
              project != c.event.project && forall s :: s in c.event.affected ==> !Reaches(Flow(g), s, project)
  {
    hide Reaches, ClassifyDirect;
    var seeds := Seeds(c.event.affected);
    if project in c.event.affected {
      SeedsReachThemselves(g, project);
      if project != c.event.project { DirectIsNeverNoImpact(c, project, contracts, inbox); }
    }
    assert Downstream(g, seeds, project) <==> exists s :: s in c.event.affected && Reaches(Flow(g), s, project) by {
      if s :| s in c.event.affected && Reaches(Flow(g), s, project) { assert s in seeds; }
    }
  }

  lemma SeedsReachThemselves(g: Graph, p: string)
    ensures Reaches(Flow(g), p, p)
  {
    assert Connects(Flow(g), [p], p, p);
  }
}
