/**
 * The failure retry guard: a known failure observed in some state blocks a retry
 * in that very state until something newer is observed, and its two clients, the
 * operator's `continue_task` and the connector 403 routing.
 */
module RetryGuard {
  import opened Outcomes
  import opened PythonText
  import opened Ordering

  datatype Known = Known(fingerprint: string, projects: seq<string>)

  datatype Registry = Registry(revision: string, authority: string, records: seq<Known>)

  datatype Observation = Observation(id: string, fingerprint: string, project: string, task: string,
                                     run: Option<string>, state: string, at: int, evidence: seq<string>)

  datatype Disposition = NoPriorFailure | StateChanged | GovernedOverride | SameFailureSameState

  datatype RetryDecision = RetryDecision(fingerprint: string, project: string, task: string, state: string,
                                         disposition: Disposition, prior: Option<string>, override: Option<string>,
                                         at: int)

  datatype View = View(registries: seq<Registry>, observations: seq<Observation>, decisions: seq<RetryDecision>,
                       clock: int)

  const BLOCKED := "BLIND_RETRY_BLOCKED_SAME_FAILURE_SAME_STATE"
  const INCONSISTENT := "GITHUB_CONNECTOR_403_RETRY_GUARD_INCONSISTENT"

  function Allowed(d: RetryDecision): bool { d.disposition != SameFailureSameState }

  // --------------------------------------------------------------- the registry

  function FindKnown(records: seq<Known>, fingerprint: string): Option<Known> {
    if records == [] then None
    else if records[0].fingerprint == fingerprint then Some(records[0])
    else FindKnown(records[1..], fingerprint)
  }

  predicate Covers(k: Known, project: string) { "*" in k.projects || project in k.projects }

  /** `has_fingerprint`: the current registry binds the failure to the project. */
  predicate HasFingerprint(registries: seq<Registry>, fingerprint: string, project: string) {
    registries != [] &&
    var k := FindKnown(registries[|registries| - 1].records, fingerprint);
    k.Some? && Covers(k.value, project)
  }

  /** The first record of the failure names the project, or every project. */
  ghost predicate BoundTo(records: seq<Known>, fingerprint: string, project: string) {
    exists k: nat :: k < |records| && records[k].fingerprint == fingerprint
                     && (forall j :: 0 <= j < k ==> records[j].fingerprint != fingerprint)
                     && (project in records[k].projects || "*" in records[k].projects)
  }

  lemma {:induction false} BoundToIff(records: seq<Known>, fingerprint: string, project: string)
    ensures BoundTo(records, fingerprint, project) <==>
              var k := FindKnown(records, fingerprint); k.Some? && Covers(k.value, project)
  {
    if records != [] && records[0].fingerprint != fingerprint {
      BoundToIff(records[1..], fingerprint, project);
      if k: nat :| k < |records| && records[k].fingerprint == fingerprint
                   && (forall j :: 0 <= j < k ==> records[j].fingerprint != fingerprint)
                   && (project in records[k].projects || "*" in records[k].projects)
      {
        assert records[1..][k - 1] == records[k];
      }
      if k: nat :| k < |records[1..]| && records[1..][k].fingerprint == fingerprint
                   && (forall j :: 0 <= j < k ==> records[1..][j].fingerprint != fingerprint)
                   && (project in records[1..][k].projects || "*" in records[1..][k].projects)
      {
        forall j | 0 <= j < k + 1 ensures records[j].fingerprint != fingerprint {
          if j > 0 { assert records[1..][j - 1] == records[j]; }
        }
        assert records[k + 1] == records[1..][k];
      }
    }
  }

  // ---------------------------------------------------------------- observations

  predicate Relevant(o: Observation, fingerprint: string, project: string) {
    o.fingerprint == fingerprint && o.project == project
  }

  /** `(observed_at, observation_id)`, as tuples compare. */
  predicate LaterEq(o: Observation, x: Observation) {
    x.at < o.at || (x.at == o.at && TextLeq(x.id, o.id))
  }

  ghost predicate IsLatest(observations: seq<Observation>, fingerprint: string, project: string, o: Observation) {
    && o in observations && o.fingerprint == fingerprint && o.project == project
    && forall x :: x in observations && x.fingerprint == fingerprint && x.project == project ==> LaterEq(o, x)
  }

  ghost predicate NoneRelevant(observations: seq<Observation>, fingerprint: string, project: string) {
    forall x :: x in observations ==> x.fingerprint != fingerprint || x.project != project
  }

  ghost predicate UniqueIds(observations: seq<Observation>) {
    forall i, j :: 0 <= i < j < |observations| ==> observations[i].id != observations[j].id
  }

  /** What a strictly increasing clock gives: the list is in time order and in the past. */
  ghost predicate Chronological(observations: seq<Observation>, clock: int) {
    && (forall i, j :: 0 <= i < j < |observations| ==> observations[i].at < observations[j].at)
    && (forall o :: o in observations ==> o.at <= clock)
  }

  ghost predicate Sound(v: View) {
    UniqueIds(v.observations) && Chronological(v.observations, v.clock)
  }

  /** The latest relevant observation has this state: a retry in it is blind. */
  ghost predicate Blind(observations: seq<Observation>, fingerprint: string, project: string, state: string) {
    exists o :: IsLatest(observations, fingerprint, project, o) && o.state == state
  }

  lemma LatestIsUnique(observations: seq<Observation>, fingerprint: string, project: string, o: Observation,
                       p: Observation)
    requires UniqueIds(observations)
    requires IsLatest(observations, fingerprint, project, o) && IsLatest(observations, fingerprint, project, p)
    ensures o == p
  {
    TextLeqTotal(o.id, p.id);
    var i :| 0 <= i < |observations| && observations[i] == o;
    var j :| 0 <= j < |observations| && observations[j] == p;
  }

  lemma OneWithId(observations: seq<Observation>, i: nat)
    requires UniqueIds(observations) && i < |observations|
    ensures forall x :: x in observations && x.id == observations[i].id ==> x == observations[i]
  {
    forall x | x in observations && x.id == observations[i].id ensures x == observations[i] {
      var j :| 0 <= j < |observations| && observations[j] == x;
    }
  }

  /** A newly appended relevant observation is the latest; an irrelevant one changes nothing. */
  lemma AppendDecides(observations: seq<Observation>, clock: int, o: Observation, fingerprint: string, project: string)
    requires Chronological(observations, clock) && o.at > clock
    ensures Relevant(o, fingerprint, project) ==> IsLatest(observations + [o], fingerprint, project, o)
    ensures !Relevant(o, fingerprint, project) ==>
              forall x :: IsLatest(observations + [o], fingerprint, project, x) <==>
                IsLatest(observations, fingerprint, project, x)
  {
    TextLeqTotal(o.id, o.id);
  }

  // --------------------------------------------------------------------- the run

  /** One step of the guard's history: time passes and lists only grow. */
  ghost predicate Step(a: View, b: View) {
    && a.clock <= b.clock && a.registries <= b.registries && a.decisions <= b.decisions
    && (b.observations == a.observations ||
        (|b.observations| == |a.observations| + 1 && b.observations[..|a.observations|] == a.observations
         && a.clock < b.observations[|a.observations|].at <= b.clock
         && forall x :: x in a.observations ==> x.id != b.observations[|a.observations|].id))
  }

  ghost predicate StepAt(run: seq<View>, t: nat)
    requires t + 1 < |run|
  {
    Step(run[t], run[t + 1])
  }

  ghost predicate IsRun(run: seq<View>) {
    run != [] && Sound(run[0]) && forall t: nat :: t < |run| - 1 ==> StepAt(run, t)
  }

  lemma StepKeepsSound(a: View, b: View)
    requires Sound(a) && Step(a, b)
    ensures Sound(b)
  {
    if b.observations != a.observations {
      var n := |a.observations|;
      assert b.observations == a.observations + [b.observations[n]];
      forall i, j | 0 <= i < j < |b.observations|
        ensures b.observations[i].id != b.observations[j].id && b.observations[i].at < b.observations[j].at
      {
        assert b.observations[i] in a.observations;
      }
    }
  }

  lemma {:induction false} RunStaysSound(run: seq<View>, t: nat)
    requires IsRun(run) && t < |run|
    ensures Sound(run[t])
  {
    if t > 0 {
      RunStaysSound(run, t - 1);
      assert StepAt(run, t - 1);
      StepKeepsSound(run[t - 1], run[t]);
    }
  }

  /** Nothing relevant was appended between two moments. */
  ghost predicate NothingNewer(a: seq<Observation>, b: seq<Observation>, fingerprint: string, project: string) {
    |a| <= |b| && forall k :: |a| <= k < |b| ==> !Relevant(b[k], fingerprint, project)
  }

  /** Once blocked, blocked at every later moment, until something newer is observed for that failure and project. */
  lemma {:induction false} StaysBlind(run: seq<View>, s: nat, t: nat, fingerprint: string, project: string,
                                      state: string)
    requires IsRun(run) && s <= t < |run|
    requires Blind(run[s].observations, fingerprint, project, state)
    requires NothingNewer(run[s].observations, run[t].observations, fingerprint, project)
    ensures Blind(run[t].observations, fingerprint, project, state)
  {
    if s < t {
      assert StepAt(run, t - 1);
      ObservationsGrow(run, s, t - 1);
      var a, b := run[t - 1].observations, run[t].observations;
      if b != a {
        assert b == a + [b[|a|]];
        assert !Relevant(b[|a|], fingerprint, project);
        assert NothingNewer(run[s].observations, a, fingerprint, project);
        RunStaysSound(run, t - 1);
        AppendDecides(a, run[t - 1].clock, b[|a|], fingerprint, project);
      }
      StaysBlind(run, s, t - 1, fingerprint, project, state);
    }
  }

  /** The last observation of this failure and project in the list. */
  ghost predicate LastRelevantAt(observations: seq<Observation>, fingerprint: string, project: string, m: nat) {
    && m < |observations| && Relevant(observations[m], fingerprint, project)
    && forall i :: m < i < |observations| ==> !Relevant(observations[i], fingerprint, project)
  }

  /** A retry is blind exactly when the last relevant observation on the list has its state. */
  lemma BlindIff(observations: seq<Observation>, clock: int, fingerprint: string, project: string, state: string)
    requires UniqueIds(observations) && Chronological(observations, clock)
    ensures Blind(observations, fingerprint, project, state) <==>
              exists m: nat :: LastRelevantAt(observations, fingerprint, project, m) && observations[m].state == state
  {
    if o :| IsLatest(observations, fingerprint, project, o) && o.state == state {
      var k: nat :| k < |observations| && observations[k] == o;
      var m := LastRelevant(observations, clock, k, fingerprint, project);
      LatestIsUnique(observations, fingerprint, project, o, observations[m]);
    }
    if m: nat :| LastRelevantAt(observations, fingerprint, project, m) && observations[m].state == state {
      var last := LastRelevant(observations, clock, m, fingerprint, project);
      assert last == m;
    }
  }

  /**
   * At any later moment of a run a retry is blind exactly when, if something relevant was observed in between,
   * the last of it has this state, and otherwise when it was blind before.
   */
  lemma BlindLaterIff(run: seq<View>, s: nat, t: nat, fingerprint: string, project: string, state: string)
    requires IsRun(run) && s <= t < |run|
    ensures var before, now := run[s].observations, run[t].observations;
            Blind(now, fingerprint, project, state) <==>
              if NothingNewer(before, now, fingerprint, project) then Blind(before, fingerprint, project, state)
              else exists m: nat :: |before| <= m && LastRelevantAt(now, fingerprint, project, m)
                                    && now[m].state == state
  {
    var before, now := run[s].observations, run[t].observations;
    ObservationsGrow(run, s, t);
    RunStaysSound(run, s);
    RunStaysSound(run, t);
    BlindIff(before, run[s].clock, fingerprint, project, state);
    BlindIff(now, run[t].clock, fingerprint, project, state);
    if NothingNewer(before, now, fingerprint, project) {
      forall m: nat ensures LastRelevantAt(before, fingerprint, project, m) <==>
        LastRelevantAt(now, fingerprint, project, m) {
        assert m < |before| ==> before[m] == now[m];
        forall i | m < i < |before| ensures before[i] == now[i] {}
      }
    } else {
      forall m: nat | LastRelevantAt(now, fingerprint, project, m) ensures |before| <= m {
        var k :| |before| <= k < |now| && Relevant(now[k], fingerprint, project);
      }
    }
  }

  lemma {:induction false} ObservationsGrow(run: seq<View>, s: nat, t: nat)
    requires IsRun(run) && s <= t < |run|
    ensures run[s].observations <= run[t].observations
  {
    if s < t {
      ObservationsGrow(run, s, t - 1);
      assert StepAt(run, t - 1);
      assert run[t - 1].observations <= run[t].observations;
    }
  }

  // ------------------------------------------------------------------- the store

  class FailureRetryGuardStore {
    var registries: seq<Registry>
    var observations: seq<Observation>
    var decisions: seq<RetryDecision>
    var clock: int

    constructor ()
      ensures Valid() && registries == [] && observations == [] && decisions == []
    {
      registries, observations, decisions, clock := [], [], [], 0;
    }

    ghost function History(): View reads this { View(registries, observations, decisions, clock) }

    ghost predicate Valid() reads this { Sound(History()) }

    /** A strictly increasing clock. */
    method Now() returns (t: int)
      modifies `clock
      ensures t == clock > old(clock)
    {
      var elapsed: int := *;
      clock := clock + if elapsed > 0 then elapsed else 1;
      t := clock;
    }

    /** A known revision must come back unchanged and does not become current again. */
    method ImportRegistry(registry: Registry) returns (r: Result<Registry>)
      requires Valid()
      modifies `registries, `clock
      ensures Valid() && Step(old(History()), History())
      ensures r.Ok? ==> r.value == registry && registries == if registry in old(registries) then old(registries)
              else old(registries) + [registry]
      ensures r.Err? ==> registries == old(registries) && exists x :: x in registries && x.revision == registry.revision
                                                                      && x != registry
    {
      var importedAt := Now();
      for i := 0 to |registries|
        invariant registries == old(registries)
        invariant forall k :: 0 <= k < i ==> registries[k].revision != registry.revision
      {
        if registries[i].revision == registry.revision {
          if registries[i] != registry {
            return Err("KNOWN_FAILURE_REGISTRY_REVISION_CONFLICT");
          }
          return Ok(registry);
        }
      }
      registries := registries + [registry];
      r := Ok(registry);
    }

    /** `_fingerprint_for_project`. */
    method RequireFingerprint(fingerprint: string, project: string) returns (r: Result<()>)
      ensures r.Ok? <==> HasFingerprint(registries, fingerprint, project)
      ensures r.Ok? <==> registries != [] && BoundTo(registries[|registries| - 1].records, fingerprint, project)
      ensures r.Err? ==> r.code == (if registries == [] then "KNOWN_FAILURE_REGISTRY_NOT_IMPORTED"
                                    else if FindKnown(registries[|registries| - 1].records, fingerprint).None?
                                            then "KNOWN_FAILURE_FINGERPRINT_NOT_FOUND"
                                    else "KNOWN_FAILURE_FINGERPRINT_PROJECT_MISMATCH")
    {
      if registries == [] {
        return Err("KNOWN_FAILURE_REGISTRY_NOT_IMPORTED");
      }
      var known := FindKnown(registries[|registries| - 1].records, fingerprint);
      BoundToIff(registries[|registries| - 1].records, fingerprint, project);
      if known.None? {
        return Err("KNOWN_FAILURE_FINGERPRINT_NOT_FOUND");
      }
      if !Covers(known.value, project) {
        return Err("KNOWN_FAILURE_FINGERPRINT_PROJECT_MISMATCH");
      }
      r := Ok(());
    }

    method RecordFailure(id: string, fingerprint: string, project: string, task: string, state: string,
                         evidence: seq<string>, run: Option<string>)
      returns (r: Result<Observation>)
      requires Valid()
      modifies `observations, `clock
      ensures Valid() && Step(old(History()), History())
      ensures !HasFingerprint(registries, fingerprint, project) ==> r.Err?
      ensures r.Err? ==> observations == old(observations)
      ensures r.Ok? ==> r.value == Observation(id, fingerprint, project, task, run, state, r.value.at, evidence)
                        && r.value in observations
      ensures HasFingerprint(registries, fingerprint, project)
              && (forall x :: x in old(observations) ==> x.id != id) ==>
                r.Ok? && observations == old(observations) + [r.value] && r.value.at > old(clock)
      ensures HasFingerprint(registries, fingerprint, project) ==> forall x :: x in old(observations) && x.id == id ==>
                observations == old(observations)
                && (r.Ok? <==> x.fingerprint == fingerprint && x.project == project && x.task == task && x.run == run
                               && x.state == state && x.evidence == evidence)
                && (r.Ok? ==> r.value == x)
      ensures (exists x :: x in old(observations) && x.id == id) ==> observations == old(observations)
    {
      var bound := RequireFingerprint(fingerprint, project);
      if bound.Err? { return Err(bound.code); }
      for i := 0 to |observations|
        invariant observations == old(observations) && clock == old(clock)
        invariant forall k :: 0 <= k < i ==> observations[k].id != id
      {
        var current := observations[i];
        if current.id == id {
          OneWithId(observations, i);
          if current != Observation(id, fingerprint, project, task, run, state, current.at, evidence) {
            return Err("FAILURE_OBSERVATION_ID_CONFLICT");
          }
          return Ok(current);
        }
      }
      var now := Now();
      var observation := Observation(id, fingerprint, project, task, run, state, now, evidence);
      observations := observations + [observation];
      StepKeepsSound(old(History()), History());
      r := Ok(observation);
    }

    method LatestRelevantObservation(fingerprint: string, project: string) returns (r: Option<Observation>)
      ensures r.None? <==> NoneRelevant(observations, fingerprint, project)
      ensures r.Some? ==> IsLatest(observations, fingerprint, project, r.value)
    {
      r := None;
      for i := 0 to |observations|
        invariant r.None? <==> NoneRelevant(observations[..i], fingerprint, project)
        invariant r.Some? ==> IsLatest(observations[..i], fingerprint, project, r.value)
      {
        var o := observations[i];
        assert observations[..i + 1] == observations[..i] + [o];
        var better := Relevant(o, fingerprint, project) && (r.None? || !LaterEq(r.value, o));
        if better {
          if r.Some? { LaterEqTotal(r.value, o); }
          LatestAdvances(observations[..i], o, fingerprint, project, r);
          r := Some(o);
        }
      }
      assert observations[..|observations|] == observations;
    }

    /** Refusal is an answer, not an error, and it is recorded too. */
    method EvaluateRetry(fingerprint: string, project: string, task: string, state: string, override: Option<string>,
                         overrideAuthority: Option<string>)
      returns (r: Result<RetryDecision>)
      requires Valid()
      modifies `decisions, `clock
      ensures Valid() && Step(old(History()), History())
      ensures !HasFingerprint(registries, fingerprint, project) ==> r.Err?
      ensures HasFingerprint(registries, fingerprint, project) ==>
                if !Blind(observations, fingerprint, project, state) then r.Ok? && Allowed(r.value)
                else if override.None? then r.Ok? && !Allowed(r.value)
                else r.Ok? <==> !IsBlank(override.value)
                                && overrideAuthority == Some(registries[|registries| - 1].authority)
                                && overrideAuthority != Some("")
      ensures r.Ok? ==>
                && decisions == old(decisions) + [r.value]
                && (r.value.disposition == NoPriorFailure <==> NoneRelevant(observations, fingerprint, project))
                && (r.value.disposition == GovernedOverride <==>
                      override.Some? && Blind(observations, fingerprint, project, state))
                && (r.value.prior.None? <==> NoneRelevant(observations, fingerprint, project))
                && (r.value.prior.Some? ==>
                      exists o :: IsLatest(observations, fingerprint, project, o) && r.value.prior == Some(o.id))
                && r.value == RetryDecision(fingerprint, project, task, state, r.value.disposition, r.value.prior,
                                            override, r.value.at)
      ensures r.Err? ==> decisions == old(decisions)
    {
      var bound := RequireFingerprint(fingerprint, project);
      if bound.Err? { return Err(bound.code); }
      var prior := LatestRelevantObservation(fingerprint, project);
      BlindMeans(observations, fingerprint, project, state, prior);
      hide Blind, IsLatest, NoneRelevant, LaterEq, TextLeq, HasFingerprint, IsBlank, Chronological, UniqueIds;
      var disposition: Disposition;
      if prior.None? {
        disposition := NoPriorFailure;
      } else if prior.value.state != state {
        disposition := StateChanged;
      } else if override.Some? {
        if IsBlank(override.value) {
          return Err("RETRY_OVERRIDE_REFERENCE_REQUIRED");
        }
        if overrideAuthority.None? || overrideAuthority.value == "" {
          return Err("RETRY_OVERRIDE_AUTHORITY_REQUIRED");
        }
        CurrentRegistryExists(fingerprint, project);
        if overrideAuthority.value != registries[|registries| - 1].authority {
          return Err("RETRY_OVERRIDE_AUTHORITY_MISMATCH");
        }
        disposition := GovernedOverride;
      } else {
        disposition := SameFailureSameState;
      }
      var evaluatedAt := Now();
      ClockKeepsSound(old(History()), History());
      var decision := RetryDecision(fingerprint, project, task, state, disposition, if prior.Some?
                                    then Some(prior.value.id) else None, override, evaluatedAt);
      decisions := decisions + [decision];
      r := Ok(decision);
    }

    lemma CurrentRegistryExists(fingerprint: string, project: string)
      requires HasFingerprint(registries, fingerprint, project)
      ensures registries != []
    {
    }

    method RequireRetryAllowed(fingerprint: string, project: string, task: string, state: string,
                               override: Option<string>, overrideAuthority: Option<string>)
      returns (r: Result<RetryDecision>)
      requires Valid()
      modifies `decisions, `clock
      ensures Valid() && Step(old(History()), History())
      ensures HasFingerprint(registries, fingerprint, project) && override.None? ==>
                (r.Ok? <==> !Blind(observations, fingerprint, project, state)) && (r.Err? ==> r.code == BLOCKED)
      ensures HasFingerprint(registries, fingerprint, project) && override.None? ==> |decisions| == |old(decisions)| + 1
      ensures r.Ok? ==> Allowed(r.value)
    {
      hide Blind, IsBlank, HasFingerprint, Sound;
      r := EvaluateRetry(fingerprint, project, task, state, override, overrideAuthority);
      if r.Ok? && !Allowed(r.value) {
        r := Err(BLOCKED);
      }
    }
  }

  lemma LaterEqTotal(o: Observation, x: Observation)
    ensures LaterEq(o, x) || LaterEq(x, o)
  {
    TextLeqTotal(o.id, x.id);
  }

  lemma LatestAdvances(before: seq<Observation>, o: Observation, fingerprint: string, project: string,
                       r: Option<Observation>)
    requires Relevant(o, fingerprint, project)
    requires r.None? ==> NoneRelevant(before, fingerprint, project)
    requires r.Some? ==> IsLatest(before, fingerprint, project, r.value) && LaterEq(o, r.value)
    ensures IsLatest(before + [o], fingerprint, project, o)
  {
    TextLeqTotal(o.id, o.id);
    forall x | x in before && Relevant(x, fingerprint, project) ensures LaterEq(o, x) {
      var m := r.value;
      assert LaterEq(m, x);
      if x.at == m.at == o.at { TextLeqTransitive(x.id, m.id, o.id); }
    }
  }

  lemma BlindMeans(observations: seq<Observation>, fingerprint: string, project: string, state: string,
                   prior: Option<Observation>)
    requires UniqueIds(observations)
    requires prior.None? <==> NoneRelevant(observations, fingerprint, project)
    requires prior.Some? ==> IsLatest(observations, fingerprint, project, prior.value)
    ensures Blind(observations, fingerprint, project, state) <==> prior.Some? && prior.value.state == state
  {
    if o :| IsLatest(observations, fingerprint, project, o) && o.state == state {
      LatestIsUnique(observations, fingerprint, project, o, prior.value);
    }
  }

  lemma ClockKeepsSound(a: View, b: View)
    requires Sound(a) && b == a.(clock := b.clock) && a.clock <= b.clock
    ensures Sound(b) && Step(a, b)
  {
  }

  // ------------------------------------------------------- the operator as client

  /** The task fields the retry state hashes. */
  datatype HashedFields = HashedFields(project: string, repository: string, branch: string, expectedHead: string,
                                       blocker: Option<string>, failureCode: Option<string>, provider: Option<string>,
                                       host: Option<string>, executor: Option<string>, scope: seq<string>)

  ghost predicate CollisionFree(hash: HashedFields -> string) {
    forall x, y :: hash(x) == hash(y) ==> x == y
  }

  /** A failing transition with a known blocker leaves its state as the latest one observed. */
  method RecordTaskFailure(guard: FailureRetryGuardStore, hash: HashedFields -> string, fields: HashedFields,
                           task: string, id: string, evidence: seq<string>)
    returns (recorded: bool)
    requires guard.Valid() && forall x :: x in guard.observations ==> x.id != id
    modifies guard`observations, guard`clock
    ensures guard.Valid() && Step(old(guard.History()), guard.History())
    ensures recorded <==> fields.blocker.Some? && fields.blocker.value != ""
                          && HasFingerprint(guard.registries, fields.blocker.value, fields.project)
    ensures recorded ==> Blind(guard.observations, fields.blocker.value, fields.project, hash(fields))
    ensures recorded ==> exists o :: guard.observations == old(guard.observations) + [o] && o.id == id && o.task == task
    ensures !recorded ==> guard.observations == old(guard.observations)
  {
    if fields.blocker.None? || fields.blocker.value == "" { return false; }
    var known := guard.RequireFingerprint(fields.blocker.value, fields.project);
    if known.Err? { return false; }
    var o := guard.RecordFailure(id, fields.blocker.value, fields.project, task, hash(fields), evidence, None);
    AppendDecides(old(guard.observations), old(guard.clock), o.value, fields.blocker.value, fields.project);
    recorded := true;
  }

  /** The guard of `continue_task` for a failed task. */
  method MayContinue(guard: FailureRetryGuardStore, hash: HashedFields -> string, fields: HashedFields, task: string,
                     override: Option<string>, overrideAuthority: Option<string>)
    returns (allowed: bool)
    requires guard.Valid()
    modifies guard`decisions, guard`clock
    ensures guard.Valid() && Step(old(guard.History()), guard.History())
    ensures override.None? ==> (allowed <==> !RefusesRetry(guard.registries, guard.observations, hash, fields))
  {
    allowed := true;
    if fields.blocker.Some? && fields.blocker.value != "" {
      var known := guard.RequireFingerprint(fields.blocker.value, fields.project);
      if known.Ok? {
        var r := guard.RequireRetryAllowed(fields.blocker.value, fields.project, task, hash(fields), override,
                                           overrideAuthority);
        allowed := r.Ok?;
      }
    }
  }

  ghost predicate RefusesRetry(registries: seq<Registry>, observations: seq<Observation>, hash: HashedFields -> string,
                               fields: HashedFields) {
    && fields.blocker.Some? && fields.blocker.value != ""
    && HasFingerprint(registries, fields.blocker.value, fields.project)
    && Blind(observations, fields.blocker.value, fields.project, hash(fields))
  }

  /**
   * A failed task stays refused while its hashed fields and its registry binding last and nothing newer is observed.
   */
  lemma FailedTaskStaysRefused(run: seq<View>, s: nat, t: nat, hash: HashedFields -> string, fields: HashedFields)
    requires IsRun(run) && s <= t < |run| && RefusesRetry(run[s].registries, run[s].observations, hash, fields)
    requires HasFingerprint(run[t].registries, fields.blocker.value, fields.project)
    requires NothingNewer(run[s].observations, run[t].observations, fields.blocker.value, fields.project)
    ensures RefusesRetry(run[t].registries, run[t].observations, hash, fields)
  {
    StaysBlind(run, s, t, fields.blocker.value, fields.project, hash(fields));
  }

  /** With a collision-free hash, any change of a hashed field lifts the block. */
  lemma ChangedFieldLiftsBlock(registries: seq<Registry>, observations: seq<Observation>, hash: HashedFields -> string,
                               fields: HashedFields, changed: HashedFields)
    requires UniqueIds(observations) && CollisionFree(hash) && RefusesRetry(registries, observations, hash, fields)
    requires changed != fields && changed.blocker == fields.blocker && changed.project == fields.project
    ensures !RefusesRetry(registries, observations, hash, changed)
  {
    var failure, project := fields.blocker.value, fields.project;
    var o :| IsLatest(observations, failure, project, o) && o.state == hash(fields);
    assert hash(changed) != hash(fields);
    forall p | IsLatest(observations, failure, project, p) ensures p.state != hash(changed) {
      LatestIsUnique(observations, failure, project, o, p);
    }
  }

  /**
   * At any later moment of a run, a task is refused exactly when the registry still binds its blocker and the last
   * relevant observation since, or failing that the state it was in, blocks it: whichever task it came from.
   */
  lemma RefusesRetryIff(run: seq<View>, s: nat, t: nat, hash: HashedFields -> string, fields: HashedFields)
    requires IsRun(run) && s <= t < |run| && fields.blocker.Some? && fields.blocker.value != ""
    ensures var failure, project, before, now := fields.blocker.value, fields.project, run[s].observations,
            run[t].observations;
            RefusesRetry(run[t].registries, now, hash, fields) <==>
              && HasFingerprint(run[t].registries, failure, project)
              && if NothingNewer(before, now, failure, project) then Blind(before, failure, project, hash(fields))
                 else exists m: nat :: |before| <= m && LastRelevantAt(now, failure, project, m)
                                       && now[m].state == hash(fields)
  {
    hide Blind, IsRun, NothingNewer, LastRelevantAt;
    BlindLaterIff(run, s, t, fields.blocker.value, fields.project, hash(fields));
  }

  /** Only one state is blocked at a time. */
  lemma OneBlindState(observations: seq<Observation>, fingerprint: string, project: string, a: string, b: string)
    requires UniqueIds(observations) && Blind(observations, fingerprint, project, a) && a != b
    ensures !Blind(observations, fingerprint, project, b)
  {
    var o :| IsLatest(observations, fingerprint, project, o) && o.state == a;
    forall p | IsLatest(observations, fingerprint, project, p) ensures p.state != b {
      LatestIsUnique(observations, fingerprint, project, o, p);
    }
  }

  /** A store that has imported a registry binding one failure to every project. */
  method StoreKnowing(failure: string) returns (guard: FailureRetryGuardStore)
    ensures guard.Valid() && fresh(guard) && guard.observations == []
    ensures forall project :: HasFingerprint(guard.registries, failure, project)
  {
    guard := new FailureRetryGuardStore();
    var registry := Registry("revision", "authority", [Known(failure, ["*"])]);
    var imported := guard.ImportRegistry(registry);
    assert FindKnown(registry.records, failure) == Some(Known(failure, ["*"]));
  }

  /**
   * Right after one task failed, a task with the same blocker and project may continue exactly if its state is another
   * one.
   */
  method FailThenAsk(guard: FailureRetryGuardStore, hash: HashedFields -> string, failed: HashedFields, task: string,
                     id: string, asking: HashedFields, asker: string)
    returns (allowed: bool)
    requires guard.Valid() && forall x :: x in guard.observations ==> x.id != id
    requires failed.blocker.Some? && failed.blocker.value != "" && asking.blocker == failed.blocker
             && asking.project == failed.project
    requires HasFingerprint(guard.registries, failed.blocker.value, failed.project)
    modifies guard`observations, guard`decisions, guard`clock
    ensures guard.Valid() && exists o :: guard.observations == old(guard.observations) + [o] && o.id == id
                                         && o.task == task
    ensures allowed <==> hash(asking) != hash(failed)
    ensures RefusesRetry(guard.registries, guard.observations, hash, failed)
  {
    hide Blind, HasFingerprint, UniqueIds, Chronological;
    var recorded := RecordTaskFailure(guard, hash, failed, task, id, ["evidence"]);
    if hash(asking) != hash(failed) {
      OneBlindState(guard.observations, failed.blocker.value, failed.project, hash(failed), hash(asking));
    }
    allowed := MayContinue(guard, hash, asking, asker, None, None);
  }

  /**
   * The block belongs to the failure and the project, not to the task: another task's failure in a different state
   * lifts it.
   */
  method AnotherTaskLiftsBlock(hash: HashedFields -> string, fields: HashedFields, other: HashedFields, a: string,
                               b: string)
    returns (guard: FailureRetryGuardStore, before: bool, after: bool)
    requires fields.blocker.Some? && fields.blocker.value != "" && other.blocker == fields.blocker
             && other.project == fields.project
    requires hash(fields) != hash(other)
    ensures guard.Valid() && |guard.observations| == 2 && guard.observations[0].task == a
            && guard.observations[1].task == b
    ensures !before && after
    ensures RefusesRetry(guard.registries, guard.observations, hash, other)
  {
    guard := StoreKnowing(fields.blocker.value);
    hide Blind, HasFingerprint, UniqueIds, Chronological, RefusesRetry;
    before := FailThenAsk(guard, hash, fields, a, "1", fields, a);
    after := FailThenAsk(guard, hash, other, b, "2", fields, a);
  }

  // ----------------------------------------------------- the connector as client

  const CONNECTOR_403 := "github-connector-403"

  datatype RouteDecision = SelectLocal | Deny(blockers: seq<string>)

  /** Record the 403, ask the guard, and only then consider the local route. */
  method RouteAfter403(guard: FailureRetryGuardStore, canonical: bool, sameRepository: bool, id: string,
                       project: string, task: string, permissionState: string, evidence: seq<string>,
                       blockers: seq<string>)
    returns (r: Result<RouteDecision>)
    requires guard.Valid()
    modifies guard`observations, guard`decisions, guard`clock
    ensures guard.Valid()
    ensures r.Ok? ==> canonical && sameRepository && Blind(guard.observations, CONNECTOR_403, project, permissionState)
                      && (r.value == SelectLocal <==> blockers == [])
    ensures r.Err? && r.code == INCONSISTENT ==>
              && !Blind(guard.observations, CONNECTOR_403, project, permissionState)
              && guard.observations == old(guard.observations)
              && exists x :: x in guard.observations && x.id == id && x.state == permissionState
                             && Relevant(x, CONNECTOR_403, project)
    ensures (canonical && sameRepository && HasFingerprint(guard.registries, CONNECTOR_403, project)
             && forall x :: x in old(guard.observations) ==> x.id != id) ==> r.Ok?
    ensures canonical && sameRepository && !HasFingerprint(guard.registries, CONNECTOR_403, project) ==>
              r == Err("GITHUB_CONNECTOR_403_FAILURE_BINDING_NOT_IMPORTED")
              && guard.observations == old(guard.observations)
  {
    if !canonical {
      return Err("GITHUB_CONNECTOR_FAILURE_NOT_CANONICAL_403");
    }
    if !sameRepository {
      return Err("GITHUB_CONNECTOR_PERMISSION_REPOSITORY_MISMATCH");
    }
    var binding := guard.RequireFingerprint(CONNECTOR_403, project);
    if binding.Err? {
      return Err("GITHUB_CONNECTOR_403_FAILURE_BINDING_NOT_IMPORTED");
    }
    var recorded := guard.RecordFailure(id, CONNECTOR_403, project, task, permissionState, evidence, None);
    if recorded.Err? { return Err("FAILURE_OBSERVATION_ID_CONFLICT"); }
    if guard.observations != old(guard.observations) {
      AppendDecides(old(guard.observations), old(guard.clock), recorded.value, CONNECTOR_403, project);
    }
    var retry := guard.EvaluateRetry(CONNECTOR_403, project, task, permissionState, None, None);
    if Allowed(retry.value) {
      return Err(INCONSISTENT);
    }
    r := Ok(if blockers == [] then SelectLocal else Deny(blockers));
  }

  /**
   * The guard contradicts a replayed 403 exactly when a newer 403 of the project was observed in another permission
   * state.
   */
  lemma ReplayIsInconsistentIff(observations: seq<Observation>, clock: int, k: nat, project: string)
    requires Sound(View([], observations, [], clock)) && k < |observations|
             && Relevant(observations[k], CONNECTOR_403, project)
    ensures !Blind(observations, CONNECTOR_403, project, observations[k].state) <==>
              exists j :: k < j < |observations| && Relevant(observations[j], CONNECTOR_403, project)
                          && observations[j].state != observations[k].state
                          && forall i :: j < i < |observations| ==> !Relevant(observations[i], CONNECTOR_403, project)
  {
    var m := LastRelevant(observations, clock, k, CONNECTOR_403, project);
    forall o | IsLatest(observations, CONNECTOR_403, project, o) ensures o == observations[m] {
      LatestIsUnique(observations, CONNECTOR_403, project, o, observations[m]);
    }
    forall j | k < j < |observations| && Relevant(observations[j], CONNECTOR_403, project)
               && forall i :: j < i < |observations| ==> !Relevant(observations[i], CONNECTOR_403, project)
      ensures j == m
    {
    }
  }

  lemma LastRelevant(observations: seq<Observation>, clock: int, k: nat, fingerprint: string, project: string)
    returns (m: nat)
    requires UniqueIds(observations) && Chronological(observations, clock) && k < |observations|
             && Relevant(observations[k], fingerprint, project)
    ensures k <= m < |observations| && IsLatest(observations, fingerprint, project, observations[m])
    ensures forall i :: m < i < |observations| ==> !Relevant(observations[i], fingerprint, project)
  {
    m := k;
    for i := k + 1 to |observations|
      invariant k <= m < i <= |observations| && Relevant(observations[m], fingerprint, project)
      invariant forall j :: m < j < i ==> !Relevant(observations[j], fingerprint, project)
    {
      if Relevant(observations[i], fingerprint, project) { m := i; }
    }
    TextLeqTotal(observations[m].id, observations[m].id);
    forall x | x in observations && Relevant(x, fingerprint, project) ensures LaterEq(observations[m], x) {
      var j :| 0 <= j < |observations| && observations[j] == x;
    }
  }
}
