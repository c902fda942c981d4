/**
 * The active instruction resolver: screening, supersession, grouping by conflict
 * key, conflict detection and the choice of the highest-precedence instruction.
 */
module InstructionResolver {
  import opened Outcomes
  import opened Ordering
  import opened PythonSequences
  import VersionKey
  import DecisionRegistry

  datatype InstructionStatus = Active | Superseded | Revoked | Historical

  datatype Instruction = Instruction(id: string, rank: nat, version: string, decisionId: string, effectiveAt: int,
                                     status: InstructionStatus, source: string, projects: seq<string>,
                                     supersedes: seq<string>, conflictKey: string, fingerprint: string)

  datatype Exclusion = Exclusion(id: string, reason: string)

  /** The project asking, and the decision registry if one governs the resolution. */
  datatype Context = Context(project: string, registry: Option<DecisionRegistry.Registry>)

  const SOVEREIGN := "WORKSPACE_DRIVE_SOVEREIGN"
  const SUPERSEDED_REASON := "SUPERSEDED_BY_ACTIVE_INSTRUCTION"
  const REDUNDANT_REASON := "REDUNDANT_ACTIVE_INSTRUCTION_LOWER_PRECEDENCE"

  // ------------------------------------------------------------ one record alone

  datatype Screening = Candidate | Excluded(reason: string) | Raised(code: string)

  function StatusName(s: InstructionStatus): string {
    match s
    case Active => "ACTIVE"
    case Superseded => "SUPERSEDED"
    case Revoked => "REVOKED"
    case Historical => "HISTORICAL"
  }

  function DecisionStatusName(s: DecisionRegistry.DecisionStatus): string {
    match s
    case Current => "CURRENT"
    case Superseded => "SUPERSEDED"
    case Revoked => "REVOKED"
    case Historical => "HISTORICAL"
  }

  /** What the first loop decides about a record; it looks at no other record. */
  function Screen(ctx: Context, r: Instruction): Screening {
    if "*" !in r.projects && ctx.project !in r.projects then Excluded("PROJECT_NOT_APPLICABLE")
    else if r.status != Active then Excluded("STATUS_" + StatusName(r.status) + "_EXCLUDED")
    else if r.source != SOVEREIGN then Raised("UNTRUSTED_ACTIVE_INSTRUCTION_SOURCE:" + r.id)
    else if ctx.registry.None? then Candidate
    else if r.decisionId == "" then Raised("ACTIVE_INSTRUCTION_DECISION_BINDING_REQUIRED:" + r.id)
    else
      var registry := ctx.registry.value;
      match DecisionRegistry.Get(registry.records, r.decisionId)
      case None => Raised("DECISION_NOT_FOUND")
      case Some(decision) =>
        if decision.status != DecisionRegistry.Current
           then Excluded("DECISION_" + DecisionStatusName(decision.status) + "_EXCLUDED")
        else
          match DecisionRegistry.BindInstruction(registry, r.decisionId, ctx.project, r.id, r.conflictKey, r.version,
                                                 r.fingerprint)
          case Err(code) => Raised(code)
          case Ok(_) => Candidate
  }

  /** A candidate is active, sovereign and in scope; under a registry a current decision names its very directive. */
  lemma CandidateIsGoverned(ctx: Context, r: Instruction)
    requires Screen(ctx, r) == Candidate
    ensures ("*" in r.projects || ctx.project in r.projects) && r.status == Active && r.source == SOVEREIGN
    ensures ctx.registry.Some? ==>
              exists d :: d in ctx.registry.value.records && d.id == r.decisionId
                          && d.status == DecisionRegistry.Current
                && DecisionRegistry.Applies(d, ctx.project) && r.id in d.instructionIds
                && d.conflictKey == r.conflictKey && d.version == r.version && d.fingerprint == r.fingerprint
  {
  }

  ghost predicate InProject(ctx: Context, r: Instruction) { "*" in r.projects || ctx.project in r.projects }

  /** A record passes exactly if it is in scope, active, sovereign and bound to a current decision where one governs. */
  lemma CandidateIff(ctx: Context, r: Instruction)
    ensures Screen(ctx, r) == Candidate <==>
            && InProject(ctx, r) && r.status == Active && r.source == SOVEREIGN
            && (ctx.registry.Some? ==>
                  && r.decisionId != "" && IsCurrent(ctx.registry.value, r.decisionId)
                  && DecisionRegistry.BindInstruction(ctx.registry.value, r.decisionId, ctx.project, r.id,
                                                      r.conflictKey, r.version, r.fingerprint).Ok?)
  {
  }

  ghost predicate IsCurrent(registry: DecisionRegistry.Registry, id: string) {
    var decision := DecisionRegistry.Get(registry.records, id);
    decision.Some? && decision.value.status == DecisionRegistry.Current
  }

  /** What becomes of the others: left out under the first of three reasons, or the resolution stops. */
  lemma ScreenedOut(ctx: Context, r: Instruction)
    ensures !InProject(ctx, r) ==> Screen(ctx, r) == Excluded("PROJECT_NOT_APPLICABLE")
    ensures InProject(ctx, r) && r.status != Active ==>
              Screen(ctx, r) == Excluded(if r.status == Superseded then "STATUS_SUPERSEDED_EXCLUDED"
                                         else if r.status == Revoked then "STATUS_REVOKED_EXCLUDED"
                                         else "STATUS_HISTORICAL_EXCLUDED")
    ensures Screen(ctx, r).Raised? ==> InProject(ctx, r) && r.status == Active
  {
    StatusReasons();
    hide StatusName;
  }

  lemma StatusReasons()
    ensures "STATUS_" + StatusName(Superseded) + "_EXCLUDED" == "STATUS_SUPERSEDED_EXCLUDED"
    ensures "STATUS_" + StatusName(Revoked) + "_EXCLUDED" == "STATUS_REVOKED_EXCLUDED"
    ensures "STATUS_" + StatusName(Historical) + "_EXCLUDED" == "STATUS_HISTORICAL_EXCLUDED"
  {
  }

  /** An active record of the project is left out only when its decision is not current. */
  lemma OutOfForce(ctx: Context, r: Instruction)
    ensures InProject(ctx, r) && r.status == Active ==>
              (Screen(ctx, r).Excluded? <==>
                 && r.source == SOVEREIGN && ctx.registry.Some? && r.decisionId != ""
                 && exists d :: DecisionRegistry.Get(ctx.registry.value.records, r.decisionId) == Some(d)
                      && d.status != DecisionRegistry.Current)
  {
  }

  // --------------------------------------------------------------- precedence

  /** Authority rank, then effective time, then version, then id. */
  predicate PrecedenceLeq(a: Instruction, b: Instruction) {
    || a.rank < b.rank
    || (a.rank == b.rank &&
        (|| a.effectiveAt < b.effectiveAt
         || (a.effectiveAt == b.effectiveAt &&
             var ka, kb := VersionKey.Key(a.version), VersionKey.Key(b.version);
             (ka != kb && VersionKey.KeyLeq(ka, kb)) || (ka == kb && TextLeq(a.id, b.id)))))
  }

  /** The later fields matter only where the earlier ones are equal. */
  ghost predicate NotAbove(q: Instruction, w: Instruction) {
    && q.rank <= w.rank
    && (q.rank == w.rank ==> q.effectiveAt <= w.effectiveAt)
    && (q.rank == w.rank && q.effectiveAt == w.effectiveAt ==>
          var k, l := VersionKey.Key(q.version), VersionKey.Key(w.version);
          VersionKey.KeyLeq(k, l) && (k == l ==> TextLeq(q.id, w.id)))
  }

  lemma PrecedenceLeqIff(a: Instruction, b: Instruction)
    ensures PrecedenceLeq(a, b) <==> NotAbove(a, b)
  {
    hide VersionKey.Key, VersionKey.KeyLeq, TextLeq;
    VersionKey.KeyLeqTotal(VersionKey.Key(a.version), VersionKey.Key(b.version));
  }

  /** `sorted(..., reverse=True)` puts the greatest first. */
  predicate Outranks(a: Instruction, b: Instruction) { PrecedenceLeq(b, a) }

  lemma PrecedenceOrder(a: Instruction, b: Instruction, c: Instruction)
    ensures PrecedenceLeq(a, b) || PrecedenceLeq(b, a)
    ensures PrecedenceLeq(a, b) && PrecedenceLeq(b, a) ==> a.id == b.id
    ensures PrecedenceLeq(a, b) && PrecedenceLeq(b, c) ==> PrecedenceLeq(a, c)
  {
    var ka, kb, kc := VersionKey.Key(a.version), VersionKey.Key(b.version), VersionKey.Key(c.version);
    hide VersionKey.Key, VersionKey.KeyLeq, TextLeq;
    VersionKey.KeyLeqTotal(ka, kb);
    VersionKey.KeyLeqTotal(kb, kc);
    VersionKey.KeyLeqTotal(ka, kc);
    TextLeqTotal(a.id, b.id);
    if VersionKey.KeyLeq(ka, kb) && VersionKey.KeyLeq(kb, kc) { VersionKey.KeyLeqTransitive(ka, kb, kc); }
    if TextLeq(a.id, b.id) && TextLeq(b.id, c.id) { TextLeqTransitive(a.id, b.id, c.id); }
  }

  // ----------------------------------------------- the outcome, as sets of records

  ghost predicate UniqueIds(records: seq<Instruction>) {
    forall i, j :: 0 <= i < j < |records| ==> records[i].id != records[j].id
  }

  /** Within the set, the id determines the record. */
  ghost predicate IdsIdentify(all: set<Instruction>) {
    forall p, q :: p in all && q in all && p.id == q.id ==> p == q
  }

  ghost function Elements(records: seq<Instruction>): set<Instruction> { set r | r in records }

  ghost function Candidates(ctx: Context, all: set<Instruction>): set<Instruction> {
    set r | r in all && Screen(ctx, r) == Candidate
  }

  ghost predicate IsSuperseded(ctx: Context, all: set<Instruction>, id: string) {
    exists c :: c in Candidates(ctx, all) && id in c.supersedes
  }

  ghost function Remaining(ctx: Context, all: set<Instruction>): set<Instruction> {
    set r | r in Candidates(ctx, all) && !IsSuperseded(ctx, all, r.id)
  }

  ghost predicate Dominates(rest: set<Instruction>, r: Instruction) {
    forall q :: q in rest && q.conflictKey == r.conflictKey ==> PrecedenceLeq(q, r)
  }

  ghost function Winners(ctx: Context, all: set<Instruction>): set<Instruction> {
    set r | r in Remaining(ctx, all) && Dominates(Remaining(ctx, all), r)
  }

  /** Why a record is not active; `None` when it is. */
  ghost function Reason(ctx: Context, all: set<Instruction>, r: Instruction): Option<string> {
    match Screen(ctx, r)
    case Excluded(reason) => Some(reason)
    case Raised(code) => Some(code)
    case Candidate =>
      if IsSuperseded(ctx, all, r.id) then Some(SUPERSEDED_REASON)
      else if !Dominates(Remaining(ctx, all), r) then Some(REDUNDANT_REASON)
      else None
  }

  ghost predicate NoneRaises(ctx: Context, all: set<Instruction>) {
    forall r :: r in all ==> !Screen(ctx, r).Raised?
  }

  ghost predicate Agrees(rest: set<Instruction>, key: string) {
    forall p, q :: p in rest && q in rest && p.conflictKey == key && q.conflictKey == key ==>
      p.fingerprint == q.fingerprint
  }

  ghost predicate NoConflict(rest: set<Instruction>) {
    forall r :: r in rest ==> Agrees(rest, r.conflictKey)
  }

  ghost predicate Resolvable(ctx: Context, records: seq<Instruction>) {
    var rest := Remaining(ctx, Elements(records));
    UniqueIds(records) && NoneRaises(ctx, Elements(records)) && NoConflict(rest) && rest != {}
  }

  /** The first record the screening loop stops at. */
  ghost predicate FirstRaise(ctx: Context, records: seq<Instruction>, k: nat, code: string) {
    && k < |records| && Screen(ctx, records[k]) == Raised(code)
    && forall j :: 0 <= j < k ==> !Screen(ctx, records[j]).Raised?
  }

  /** Which error a failing resolution raises, in the order the checks run. */
  ghost predicate IsRejection(ctx: Context, records: seq<Instruction>, code: string) {
    var all := Elements(records);
    var rest := Remaining(ctx, all);
    if records == [] then code == "ACTIVE_INSTRUCTION_INPUT_REQUIRED"
    else if !UniqueIds(records) then code == "DUPLICATE_INSTRUCTION_ID"
    else if !NoneRaises(ctx, all) then exists k: nat :: FirstRaise(ctx, records, k, code)
    else if !NoConflict(rest) then
      exists r :: r in rest && !Agrees(rest, r.conflictKey)
                  && code == "CONFLICTING_ACTIVE_INSTRUCTIONS:" + r.conflictKey
    else code == "ACTIVE_GOVERNING_INSTRUCTION_SET_EMPTY"
  }

  datatype Resolution = Resolution(active: seq<Instruction>, exclusions: seq<Exclusion>)

  predicate ActiveLeq(a: Instruction, b: Instruction) {
    if a.conflictKey == b.conflictKey then TextLeq(a.id, b.id) else TextLeq(a.conflictKey, b.conflictKey)
  }

  predicate ExclusionLeq(a: Exclusion, b: Exclusion) {
    if a.id == b.id then TextLeq(a.reason, b.reason) else TextLeq(a.id, b.id)
  }

  ghost predicate Explains(ctx: Context, all: set<Instruction>, x: Exclusion, r: Instruction) {
    r in all && x.id == r.id && Reason(ctx, all, r) == Some(x.reason)
  }

  ghost predicate Explained(ctx: Context, all: set<Instruction>, x: Exclusion) {
    exists r :: Explains(ctx, all, x, r)
  }

  /** The resolution as a function of the set of records: nothing about their order enters. */
  ghost predicate IsResolution(ctx: Context, all: set<Instruction>, v: Resolution) {
    && (forall r :: r in v.active <==> r in Winners(ctx, all))
    && (forall x :: x in v.exclusions <==> Explained(ctx, all, x))
    && Distinct(v.active) && Distinct(v.exclusions)
    && IsSorted(ActiveLeq, v.active) && IsSorted(ExclusionLeq, v.exclusions)
  }

  // -------------------------------------------------------------- bookkeeping

  /** Every record is either still pending or explained by exactly one exclusion. */
  ghost predicate Books(ctx: Context, all: set<Instruction>, pending: set<Instruction>, exclusions: seq<Exclusion>) {
    && pending <= all
    && (forall r :: r in all - pending ==> exists x :: x in exclusions && x.id == r.id)
    && (forall x :: x in exclusions ==> exists r :: r !in pending && Explains(ctx, all, x, r))
    && Distinct(exclusions)
  }

  lemma BooksExclude(ctx: Context, all: set<Instruction>, pending: set<Instruction>, exclusions: seq<Exclusion>,
                     r: Instruction, reason: string)
    requires Books(ctx, all, pending, exclusions) && IdsIdentify(all)
    requires r in pending && Reason(ctx, all, r) == Some(reason)
    ensures Books(ctx, all, pending - {r}, exclusions + [Exclusion(r.id, reason)])
  {
    hide Reason;
    var x' := Exclusion(r.id, reason);
    var after := exclusions + [x'];
    forall x | x in exclusions ensures x.id != r.id {
      var q :| q !in pending && Explains(ctx, all, x, q);
    }
    forall q | q in all - (pending - {r}) ensures exists x :: x in after && x.id == q.id {
      if q == r {
        assert x' in after;
      } else {
        var x :| x in exclusions && x.id == q.id;
        assert x in after;
      }
    }
    assert Explains(ctx, all, x', r);
    forall x | x in after ensures exists q :: q !in pending - {r} && Explains(ctx, all, x, q) {
      if x in exclusions {
        var q :| q !in pending && Explains(ctx, all, x, q);
      }
    }
  }

  lemma BooksClosed(ctx: Context, all: set<Instruction>, exclusions: seq<Exclusion>)
    requires Books(ctx, all, Winners(ctx, all), exclusions) && IdsIdentify(all)
    ensures forall x :: x in exclusions <==> Explained(ctx, all, x)
  {
    forall x | Explained(ctx, all, x) ensures x in exclusions {
      var r :| Explains(ctx, all, x, r);
      assert r !in Winners(ctx, all);
      var x' :| x' in exclusions && x'.id == r.id;
      var r' :| r' !in Winners(ctx, all) && Explains(ctx, all, x', r');
      assert x == x';
    }
  }

  // ------------------------------------------------------------------ the loops

  function Ids(records: seq<Instruction>): set<string> { set r | r in records :: r.id }

  lemma {:induction false} UniqueByCount(records: seq<Instruction>)
    ensures |Ids(records)| <= |records|
    ensures |Ids(records)| == |records| <==> UniqueIds(records)
  {
    if records != [] {
      var init, last := records[..|records| - 1], records[|records| - 1];
      UniqueByCount(init);
      assert records == init + [last];
      assert Ids(records) == Ids(init) + {last.id};
      if last.id in Ids(init) {
        var r :| r in init && r.id == last.id;
      }
    }
  }

  lemma UniqueMeansDistinct(records: seq<Instruction>)
    ensures UniqueIds(records) <==> Distinct(records) && IdsIdentify(Elements(records))
  {
    if Distinct(records) && IdsIdentify(Elements(records)) {
      forall i, j | 0 <= i < j < |records| ensures records[i].id != records[j].id {
        assert records[i] in Elements(records) && records[j] in Elements(records);
      }
    }
  }

  /** The first loop so far: candidates in order, everything else in scope excluded. */
  ghost predicate ScreenedTo(ctx: Context, records: seq<Instruction>, i: nat, candidates: seq<Instruction>,
                             exclusions: seq<Exclusion>)
    requires i <= |records|
  {
    && (forall r :: r in candidates <==> r in records[..i] && Screen(ctx, r) == Candidate)
    && Distinct(candidates)
    && Books(ctx, Elements(records), Elements(candidates) + Elements(records[i..]), exclusions)
  }

  lemma ScreenStep(ctx: Context, records: seq<Instruction>, i: nat, candidates: seq<Instruction>,
                   exclusions: seq<Exclusion>)
    requires i < |records| && UniqueIds(records) && ScreenedTo(ctx, records, i, candidates, exclusions)
    ensures Screen(ctx, records[i]) == Candidate ==>
              ScreenedTo(ctx, records, i + 1, candidates + [records[i]], exclusions)
    ensures Screen(ctx, records[i]).Excluded? ==>
              ScreenedTo(ctx, records, i + 1, candidates,
                         exclusions + [Exclusion(records[i].id, Screen(ctx, records[i]).reason)])
  {
    hide Screen, Books, Winners;
    var r := records[i];
    var all := Elements(records);
    assert records[..i + 1] == records[..i] + [r] && records[i..] == [r] + records[i + 1..];
    UniqueMeansDistinct(records);
    var pending := Elements(candidates) + Elements(records[i..]);
    if Screen(ctx, r) == Candidate {
      assert Elements(candidates + [r]) + Elements(records[i + 1..]) == pending;
    } else if Screen(ctx, r).Excluded? {
      assert Elements(candidates) + Elements(records[i + 1..]) == pending - {r};
      BooksExclude(ctx, all, pending, exclusions, r, Screen(ctx, r).reason);
    }
  }

  /** The second loop so far: the candidates nothing supersedes, in order. */
  ghost predicate FilteredTo(ctx: Context, all: set<Instruction>, candidates: seq<Instruction>, i: nat,
                             remaining: seq<Instruction>, exclusions: seq<Exclusion>)
    requires i <= |candidates|
  {
    && (forall r :: r in remaining <==> r in candidates[..i] && !IsSuperseded(ctx, all, r.id))
    && Distinct(remaining)
    && Books(ctx, all, Elements(remaining) + Elements(candidates[i..]), exclusions)
  }

  lemma FilterStep(ctx: Context, all: set<Instruction>, candidates: seq<Instruction>, i: nat,
                   remaining: seq<Instruction>, exclusions: seq<Exclusion>)
    requires i < |candidates| && Distinct(candidates) && IdsIdentify(all)
             && Elements(candidates) == Candidates(ctx, all)
    requires FilteredTo(ctx, all, candidates, i, remaining, exclusions)
    ensures !IsSuperseded(ctx, all, candidates[i].id) ==>
              FilteredTo(ctx, all, candidates, i + 1, remaining + [candidates[i]], exclusions)
    ensures IsSuperseded(ctx, all, candidates[i].id) ==>
              FilteredTo(ctx, all, candidates, i + 1, remaining,
                         exclusions + [Exclusion(candidates[i].id, SUPERSEDED_REASON)])
  {
    hide Screen, Books, IsSuperseded, Winners;
    var r := candidates[i];
    assert r in Elements(candidates);
    assert candidates[..i + 1] == candidates[..i] + [r] && candidates[i..] == [r] + candidates[i + 1..];
    var pending := Elements(remaining) + Elements(candidates[i..]);
    if IsSuperseded(ctx, all, r.id) {
      assert Elements(remaining) + Elements(candidates[i + 1..]) == pending - {r};
      BooksExclude(ctx, all, pending, exclusions, r, SUPERSEDED_REASON);
    } else {
      assert Elements(remaining + [r]) + Elements(candidates[i + 1..]) == pending;
    }
  }

  type Groups = map<string, seq<Instruction>>

  /** Grouping by conflict key, the keys in order of first appearance. */
  ghost predicate GroupedTo(rest: seq<Instruction>, keys: seq<string>, groups: Groups) {
    && Distinct(keys)
    && (forall k :: k in keys <==> k in groups)
    && (forall k :: k in groups ==> IsGroup(rest, k, groups[k]))
    && (forall r :: r in rest ==> r.conflictKey in groups)
  }

  ghost predicate IsGroup(rest: seq<Instruction>, key: string, group: seq<Instruction>) {
    group != [] && Distinct(group) && forall r :: r in group <==> r in rest && r.conflictKey == key
  }

  method GroupByKey(rest: seq<Instruction>) returns (keys: seq<string>, groups: Groups)
    requires Distinct(rest)
    ensures GroupedTo(rest, keys, groups)
  {
    keys, groups := [], map[];
    for i := 0 to |rest|
      invariant GroupedTo(rest[..i], keys, groups)
    {
      hide GroupedTo;
      var r := rest[i];
      GroupStep(rest, i, keys, groups);
      if r.conflictKey !in groups {
        keys, groups := keys + [r.conflictKey], groups[r.conflictKey := []];
      }
      groups := groups[r.conflictKey := groups[r.conflictKey] + [r]];
    }
    assert rest[..|rest|] == rest;
  }

  lemma GroupStep(rest: seq<Instruction>, i: nat, keys: seq<string>, groups: Groups)
    requires i < |rest| && Distinct(rest) && GroupedTo(rest[..i], keys, groups)
    ensures var r := rest[i];
            if r.conflictKey in groups then GroupedTo(rest[..i + 1], keys,
                                                      groups[r.conflictKey := groups[r.conflictKey] + [r]])
            else GroupedTo(rest[..i + 1], keys + [r.conflictKey],
                           groups[r.conflictKey := []][r.conflictKey := [] + [r]])
  {
    var r := rest[i];
    assert rest[..i + 1] == rest[..i] + [r];
    var old' := if r.conflictKey in groups then groups[r.conflictKey] else [];
    var keys' := if r.conflictKey in groups then keys else keys + [r.conflictKey];
    var groups' := groups[r.conflictKey := old' + [r]];
    assert r !in old';
    forall k | k in groups' ensures IsGroup(rest[..i + 1], k, groups'[k]) {
      assert k != r.conflictKey ==> IsGroup(rest[..i], k, groups[k]);
    }
    assert GroupedTo(rest[..i + 1], keys', groups');
    assert groups[r.conflictKey := []][r.conflictKey := [] + [r]] == groups[r.conflictKey := [] + [r]];
  }

  /** `len({item.directive_fingerprint for item in group}) > 1`. */
  lemma OneFingerprint(group: seq<Instruction>)
    ensures |set r | r in group :: r.fingerprint| > 1 <==>
              exists p, q :: p in group && q in group && p.fingerprint != q.fingerprint
  {
    var prints := set r | r in group :: r.fingerprint;
    if p, q :| p in group && q in group && p.fingerprint != q.fingerprint {
      assert {p.fingerprint, q.fingerprint} <= prints;
      SubsetCount({p.fingerprint, q.fingerprint}, prints);
    } else if group != [] {
      assert group[0] in group;
      assert prints == {group[0].fingerprint};
    }
  }


  // ------------------------------------------------- the winner of each group

  lemma OutranksIsTotal()
    ensures TotalPreorder(Outranks)
  {
    hide PrecedenceLeq;
    forall a, b, c ensures (Outranks(a, b) || Outranks(b, a)) && (Outranks(a, b) && Outranks(b, c) ==> Outranks(a, c)) {
      PrecedenceOrder(a, b, c);
      PrecedenceOrder(c, b, a);
    }
  }

  /** Sorting a group puts its maximum first; every other member is redundant. */
  lemma GroupOrder(ctx: Context, all: set<Instruction>, rest: seq<Instruction>, key: string, group: seq<Instruction>)
    requires IdsIdentify(all) && Elements(rest) == Remaining(ctx, all) && IsGroup(rest, key, group)
    ensures var o := Sort(Outranks, group);
            && o != [] && Distinct(o) && (forall r :: r in o <==> r in rest && r.conflictKey == key)
            && o[0] in Winners(ctx, all)
            && forall j :: 1 <= j < |o| ==> Reason(ctx, all, o[j]) == Some(REDUNDANT_REASON)
  {
    hide PrecedenceLeq, Screen, IsSuperseded;
    var o := Sort(Outranks, group);
    OutranksIsTotal();
    SortIsSorted(Outranks, group);
    SortMembers(Outranks, group);
    forall q | q in Remaining(ctx, all) && q.conflictKey == key ensures PrecedenceLeq(q, o[0]) {
      assert q in Elements(rest);
      var j :| 0 <= j < |o| && o[j] == q;
      if j > 0 { assert Outranks(o[0], o[j]); }
      PrecedenceOrder(q, q, q);
    }
    assert o[0] in Elements(rest);
    forall j | 1 <= j < |o| ensures Reason(ctx, all, o[j]) == Some(REDUNDANT_REASON) {
      assert o[j] in o && o[j] in Elements(rest);
      PrecedenceOrder(o[0], o[j], o[j]);
      assert o[0] != o[j];
    }
  }

  ghost function Keyed(rest: seq<Instruction>, keys: seq<string>): set<Instruction> {
    set r | r in rest && r.conflictKey in keys
  }

  /** The group loop so far: one winner per finished key, the rest of those groups excluded. */
  ghost predicate SelectedTo(ctx: Context, all: set<Instruction>, rest: seq<Instruction>, keys: seq<string>, i: nat,
                             selected: seq<Instruction>, exclusions: seq<Exclusion>)
    requires i <= |keys|
  {
    && |selected| == i
    && (forall j :: 0 <= j < i ==> selected[j] in Winners(ctx, all) && selected[j].conflictKey == keys[j])
    && (forall j :: 0 <= j < i ==> Agrees(Remaining(ctx, all), keys[j]))
    && Books(ctx, all, Elements(selected) + Keyed(rest, keys[i..]), exclusions)
  }

  /** The inner loop so far: members of the sorted group before `j` are excluded. */
  ghost predicate ExcludedTo(ctx: Context, all: set<Instruction>, rest: seq<Instruction>, keys: seq<string>, i: nat,
                             selected: seq<Instruction>, ordered: seq<Instruction>, j: nat, exclusions: seq<Exclusion>)
    requires i < |keys| && j <= |ordered|
  {
    Books(ctx, all, Elements(selected) + Keyed(rest, keys[i + 1..]) + Elements(ordered[j..]), exclusions)
  }

  lemma GroupBegins(ctx: Context, all: set<Instruction>, rest: seq<Instruction>, keys: seq<string>, i: nat,
                    selected: seq<Instruction>, ordered: seq<Instruction>, exclusions: seq<Exclusion>)
    requires i < |keys| && SelectedTo(ctx, all, rest, keys, i, selected, exclusions)
    requires ordered != [] && forall r :: r in ordered <==> r in rest && r.conflictKey == keys[i]
    ensures ExcludedTo(ctx, all, rest, keys, i, selected + [ordered[0]], ordered, 1, exclusions)
  {
    hide Books, Agrees, Winners, Remaining;
    assert keys[i..] == [keys[i]] + keys[i + 1..];
    assert ordered == [ordered[0]] + ordered[1..];
    assert Elements(selected) + Keyed(rest, keys[i..])
        == Elements(selected + [ordered[0]]) + Keyed(rest, keys[i + 1..]) + Elements(ordered[1..]);
  }

  lemma GroupExcludes(ctx: Context, all: set<Instruction>, rest: seq<Instruction>, keys: seq<string>, i: nat,
                      selected: seq<Instruction>, ordered: seq<Instruction>, j: nat, exclusions: seq<Exclusion>)
    requires i < |keys| && j < |ordered| && IdsIdentify(all) && Distinct(ordered) && Distinct(keys)
    requires ExcludedTo(ctx, all, rest, keys, i, selected, ordered, j, exclusions)
    requires forall r :: r in ordered ==> r.conflictKey == keys[i]
    requires ordered[j] !in selected && Reason(ctx, all, ordered[j]) == Some(REDUNDANT_REASON)
    ensures ExcludedTo(ctx, all, rest, keys, i, selected, ordered, j + 1,
                       exclusions + [Exclusion(ordered[j].id, REDUNDANT_REASON)])
  {
    hide Books, Agrees, Winners, Remaining, Reason;
    var pending := Elements(selected) + Keyed(rest, keys[i + 1..]) + Elements(ordered[j..]);
    assert ordered[j..] == [ordered[j]] + ordered[j + 1..];
    assert ordered[j] in ordered && keys[i] !in keys[i + 1..];
    assert Elements(selected) + Keyed(rest, keys[i + 1..]) + Elements(ordered[j + 1..]) == pending - {ordered[j]};
    BooksExclude(ctx, all, pending, exclusions, ordered[j], REDUNDANT_REASON);
  }

  lemma GroupEnds(ctx: Context, all: set<Instruction>, rest: seq<Instruction>, keys: seq<string>, i: nat,
                  before: seq<Instruction>, was: seq<Exclusion>, ordered: seq<Instruction>, exclusions: seq<Exclusion>)
    requires i < |keys| && ordered != [] && SelectedTo(ctx, all, rest, keys, i, before, was)
    requires ExcludedTo(ctx, all, rest, keys, i, before + [ordered[0]], ordered, |ordered|, exclusions)
    requires ordered[0] in Winners(ctx, all) && ordered[0].conflictKey == keys[i]
    requires Agrees(Remaining(ctx, all), keys[i])
    ensures SelectedTo(ctx, all, rest, keys, i + 1, before + [ordered[0]], exclusions)
  {
    hide Books, Agrees, Winners, Remaining;
    var selected := before + [ordered[0]];
    assert Elements(selected) + Keyed(rest, keys[i + 1..]) + Elements(ordered[|ordered|..])
        == Elements(selected) + Keyed(rest, keys[i + 1..]);
  }

  lemma AllGroupsDone(ctx: Context, all: set<Instruction>, rest: seq<Instruction>, keys: seq<string>, groups: Groups,
                      selected: seq<Instruction>, exclusions: seq<Exclusion>)
    requires IdsIdentify(all) && Elements(rest) == Remaining(ctx, all) && GroupedTo(rest, keys, groups)
    requires SelectedTo(ctx, all, rest, keys, |keys|, selected, exclusions)
    ensures (forall r :: r in selected <==> r in Winners(ctx, all)) && Distinct(selected)
    ensures NoConflict(Remaining(ctx, all)) && (selected == [] <==> Remaining(ctx, all) == {})
    ensures Distinct(exclusions) && forall x :: x in exclusions <==> Explained(ctx, all, x)
  {
    hide PrecedenceLeq, Screen, IsSuperseded, IsGroup, Agrees;
    var remaining := Remaining(ctx, all);
    forall r | r in remaining ensures r.conflictKey in keys && Agrees(remaining, r.conflictKey) {
      assert r in Elements(rest);
      var j :| 0 <= j < |keys| && keys[j] == r.conflictKey;
      assert Agrees(remaining, keys[j]);
    }
    forall r | r in Winners(ctx, all) ensures r in selected {
      var j :| 0 <= j < |keys| && keys[j] == r.conflictKey;
      PrecedenceOrder(r, selected[j], r);
      assert r.id == selected[j].id;
    }
    forall r | r in remaining ensures selected != [] {
      assert r.conflictKey in keys;
    }
    if selected != [] { assert selected[0] in remaining; }
    assert Elements(selected) + Keyed(rest, keys[|keys|..]) == Winners(ctx, all);
    hide Winners;
    assert Books(ctx, all, Winners(ctx, all), exclusions);
    BooksClosed(ctx, all, exclusions);
  }

  lemma SortedResolution(ctx: Context, all: set<Instruction>, selected: seq<Instruction>, exclusions: seq<Exclusion>)
    requires (forall r :: r in selected <==> r in Winners(ctx, all)) && Distinct(selected)
    requires (forall x :: x in exclusions <==> Explained(ctx, all, x)) && Distinct(exclusions)
    ensures IsResolution(ctx, all, Resolution(Sort(ActiveLeq, selected), Sort(ExclusionLeq, exclusions)))
  {
    hide Explained, Winners;
    ActiveOrder();
    ExclusionOrder();
    SortIsSorted(ActiveLeq, selected);
    SortMembers(ActiveLeq, selected);
    SortIsSorted(ExclusionLeq, exclusions);
    SortMembers(ExclusionLeq, exclusions);
  }

  /** The active instructions by key, one to a key, and the exclusions by id and reason. */
  ghost predicate Listed(v: Resolution) {
    && (forall i, j :: 0 <= i < j < |v.active| ==>
          v.active[i].conflictKey != v.active[j].conflictKey
          && TextLeq(v.active[i].conflictKey, v.active[j].conflictKey))
    && (forall i, j :: 0 <= i < j < |v.exclusions| ==>
          && TextLeq(v.exclusions[i].id, v.exclusions[j].id)
          && (v.exclusions[i].id == v.exclusions[j].id ==> TextLeq(v.exclusions[i].reason, v.exclusions[j].reason)))
  }

  /** What a resolution says in terms of the fields that decide precedence and order. */
  lemma ResolutionReads(ctx: Context, all: set<Instruction>, v: Resolution)
    requires IdsIdentify(all) && IsResolution(ctx, all, v)
    ensures Listed(v)
    ensures forall w, q :: w in v.active && q in Remaining(ctx, all) ==>
              w.conflictKey == q.conflictKey ==> NotAbove(q, w)
  {
    hide PrecedenceLeq, NotAbove, TextLeq, Remaining, Explained;
    forall w, q | w in v.active && q in Remaining(ctx, all) && w.conflictKey == q.conflictKey ensures NotAbove(q, w) {
      assert w in Winners(ctx, all);
      PrecedenceLeqIff(q, w);
    }
    forall i, j | 0 <= i < j < |v.active|
      ensures v.active[i].conflictKey != v.active[j].conflictKey
              && TextLeq(v.active[i].conflictKey, v.active[j].conflictKey)
    {
      var x, y := v.active[i], v.active[j];
      assert x in Winners(ctx, all) && y in Winners(ctx, all);
      WinnersBelong(ctx, all, x);
      WinnersBelong(ctx, all, y);
      PrecedenceOrder(x, y, x);
    }
    forall i, j | 0 <= i < j < |v.exclusions|
      ensures TextLeq(v.exclusions[i].id, v.exclusions[j].id)
      ensures v.exclusions[i].id == v.exclusions[j].id ==> TextLeq(v.exclusions[i].reason, v.exclusions[j].reason)
    {
      TextLeqTotal(v.exclusions[i].id, v.exclusions[j].id);
    }
  }

  lemma ActiveOrder()
    ensures TotalPreorder(ActiveLeq)
    ensures forall a, b :: ActiveLeq(a, b) && ActiveLeq(b, a) ==> a.id == b.id
  {
    hide TextLeq;
    forall a, b, c ensures ActiveLeq(a, b) || ActiveLeq(b, a)
      ensures ActiveLeq(a, b) && ActiveLeq(b, a) ==> a.id == b.id
      ensures ActiveLeq(a, b) && ActiveLeq(b, c) ==> ActiveLeq(a, c)
    {
      PairOrder(a.conflictKey, a.id, b.conflictKey, b.id, c.conflictKey, c.id);
    }
  }

  lemma ExclusionOrder()
    ensures TotalPreorder(ExclusionLeq)
    ensures forall a, b :: ExclusionLeq(a, b) && ExclusionLeq(b, a) ==> a == b
  {
    hide TextLeq;
    forall a, b, c ensures ExclusionLeq(a, b) || ExclusionLeq(b, a)
      ensures ExclusionLeq(a, b) && ExclusionLeq(b, a) ==> a == b
      ensures ExclusionLeq(a, b) && ExclusionLeq(b, c) ==> ExclusionLeq(a, c)
    {
      PairOrder(a.id, a.reason, b.id, b.reason, c.id, c.reason);
    }
  }

  /** Pairs of strings, compared first by the first. */
  predicate PairLeq(a: string, x: string, b: string, y: string) {
    if a == b then TextLeq(x, y) else TextLeq(a, b)
  }

  lemma PairOrder(a: string, x: string, b: string, y: string, c: string, z: string)
    ensures PairLeq(a, x, b, y) || PairLeq(b, y, a, x)
    ensures PairLeq(a, x, b, y) && PairLeq(b, y, a, x) ==> a == b && x == y
    ensures PairLeq(a, x, b, y) && PairLeq(b, y, c, z) ==> PairLeq(a, x, c, z)
  {
    hide TextLeq;
    TextLeqTotal(a, b);
    TextLeqTotal(x, y);
    TextLeqTotal(b, c);
    if TextLeq(a, b) && TextLeq(b, c) { TextLeqTransitive(a, b, c); }
    if TextLeq(x, y) && TextLeq(y, z) { TextLeqTransitive(x, y, z); }
  }

  // ------------------------------------------------------------------- resolve

  method ScreenAll(ctx: Context, records: seq<Instruction>)
    returns (error: Option<string>, candidates: seq<Instruction>, exclusions: seq<Exclusion>)
    requires UniqueIds(records)
    ensures error.None? <==> NoneRaises(ctx, Elements(records))
    ensures error.Some? ==> exists k: nat :: FirstRaise(ctx, records, k, error.value)
    ensures error.None? ==> ScreenedTo(ctx, records, |records|, candidates, exclusions)
  {
    hide Screen, ScreenedTo;
    candidates, exclusions := [], [];
    ScreeningStarts(ctx, records);
    for i := 0 to |records|
      invariant ScreenedTo(ctx, records, i, candidates, exclusions)
      invariant forall j :: 0 <= j < i ==> !Screen(ctx, records[j]).Raised?
    {
      ScreenStep(ctx, records, i, candidates, exclusions);
      match Screen(ctx, records[i]) {
        case Raised(code) =>
          assert FirstRaise(ctx, records, i, code) && records[i] in Elements(records);
          error := Some(code);
          return;
        case Excluded(reason) =>
          exclusions := exclusions + [Exclusion(records[i].id, reason)];
        case Candidate =>
          candidates := candidates + [records[i]];
      }
    }
    error := None;
  }

  method DropSuperseded(ctx: Context, ghost all: set<Instruction>, candidates: seq<Instruction>,
                        screened: seq<Exclusion>)
    returns (remaining: seq<Instruction>, exclusions: seq<Exclusion>)
    requires IdsIdentify(all) && Distinct(candidates) && Elements(candidates) == Candidates(ctx, all)
    requires FilteredTo(ctx, all, candidates, 0, [], screened)
    ensures FilteredTo(ctx, all, candidates, |candidates|, remaining, exclusions)
  {
    hide *;
    var superseded := set c, id | c in candidates && id in c.supersedes :: id;
    SupersededIds(ctx, all, candidates, superseded);
    remaining, exclusions := [], screened;
    for i := 0 to |candidates|
      invariant FilteredTo(ctx, all, candidates, i, remaining, exclusions)
    {
      FilterStep(ctx, all, candidates, i, remaining, exclusions);
      if candidates[i].id in superseded {
        exclusions := exclusions + [Exclusion(candidates[i].id, SUPERSEDED_REASON)];
      } else {
        remaining := remaining + [candidates[i]];
      }
    }
  }

  method SelectWinners(ctx: Context, ghost all: set<Instruction>, rest: seq<Instruction>, keys: seq<string>,
                       groups: Groups, filtered: seq<Exclusion>)
    returns (error: Option<string>, selected: seq<Instruction>, exclusions: seq<Exclusion>)
    requires IdsIdentify(all) && Elements(rest) == Remaining(ctx, all) && GroupedTo(rest, keys, groups)
    requires SelectedTo(ctx, all, rest, keys, 0, [], filtered)
    ensures error.None? ==> SelectedTo(ctx, all, rest, keys, |keys|, selected, exclusions)
    ensures error.Some? ==>
              exists r :: r in Remaining(ctx, all) && !Agrees(Remaining(ctx, all), r.conflictKey)
                          && error.value == "CONFLICTING_ACTIVE_INSTRUCTIONS:" + r.conflictKey
  {
    hide *;
    selected, exclusions := [], filtered;
    for i := 0 to |keys|
      invariant SelectedTo(ctx, all, rest, keys, i, selected, exclusions)
    {
      GroupAt(rest, keys, groups, i);
      var group := groups[keys[i]];
      GroupConflict(ctx, all, rest, keys[i], group);
      if |set x | x in group :: x.fingerprint| > 1 {
        error := Some("CONFLICTING_ACTIVE_INSTRUCTIONS:" + keys[i]);
        return;
      }
      var ordered := Sort(Outranks, group);
      GroupOrder(ctx, all, rest, keys[i], group);
      GroupBegins(ctx, all, rest, keys, i, selected, ordered, exclusions);
      ghost var before, was := selected, exclusions;
      selected := selected + [ordered[0]];
      for j := 1 to |ordered|
        invariant ExcludedTo(ctx, all, rest, keys, i, selected, ordered, j, exclusions)
      {
        RedundantIsNotSelected(ctx, all, rest, keys, i, before, was, ordered, j);
        GroupExcludes(ctx, all, rest, keys, i, selected, ordered, j, exclusions);
        exclusions := exclusions + [Exclusion(ordered[j].id, REDUNDANT_REASON)];
      }
      assert ordered[0] in ordered;
      GroupEnds(ctx, all, rest, keys, i, before, was, ordered, exclusions);
    }
    error := None;
  }

  method Resolve(ctx: Context, records: seq<Instruction>) returns (r: Result<Resolution>)
    ensures r.Ok? <==> Resolvable(ctx, records)
    ensures r.Ok? ==> IsResolution(ctx, Elements(records), r.value)
    ensures r.Ok? ==> forall w, q :: w in r.value.active && q in Remaining(ctx, Elements(records)) ==>
              w.conflictKey == q.conflictKey ==> NotAbove(q, w)
    ensures r.Ok? ==> forall w, q :: w in r.value.active && q in Remaining(ctx, Elements(records)) ==>
              w.conflictKey == q.conflictKey ==>
                q.rank <= w.rank && (q.rank == w.rank ==> q.effectiveAt <= w.effectiveAt)
    ensures r.Ok? ==> Listed(r.value)
    ensures r.Err? ==> IsRejection(ctx, records, r.code)
  {
    if records == [] {
      return Err("ACTIVE_INSTRUCTION_INPUT_REQUIRED");
    }
    UniqueByCount(records);
    if |records| != |Ids(records)| {
      return Err("DUPLICATE_INSTRUCTION_ID");
    }
    ghost var all := Elements(records);
    UniqueMeansDistinct(records);
    hide Screen, Books, Remaining, Winners, Agrees, NoConflict, IsSuperseded, Elements, NoneRaises;
    hide IsResolution, ScreenedTo, FilteredTo, SelectedTo, Candidates, GroupedTo, IdsIdentify, Distinct, UniqueIds,
    Sort, FirstRaise;
    var error, candidates, screened := ScreenAll(ctx, records);
    if error.Some? {
      return Err(error.value);
    }
    ScreeningEnds(ctx, records, candidates, screened);
    var remaining, filtered := DropSuperseded(ctx, all, candidates, screened);
    FilteringEnds(ctx, all, candidates, remaining, filtered);
    var keys, groups := GroupByKey(remaining);
    GroupingStarts(ctx, all, remaining, keys, groups, filtered);
    var conflict, selected, exclusions := SelectWinners(ctx, all, remaining, keys, groups, filtered);
    if conflict.Some? {
      ConflictMeans(ctx, all);
      return Err(conflict.value);
    }
    AllGroupsDone(ctx, all, remaining, keys, groups, selected, exclusions);
    if selected == [] {
      return Err("ACTIVE_GOVERNING_INSTRUCTION_SET_EMPTY");
    }
    SortedResolution(ctx, all, selected, exclusions);
    ResolutionReads(ctx, all, Resolution(Sort(ActiveLeq, selected), Sort(ExclusionLeq, exclusions)));
    r := Ok(Resolution(Sort(ActiveLeq, selected), Sort(ExclusionLeq, exclusions)));
  }

  lemma ConflictMeans(ctx: Context, all: set<Instruction>)
    ensures NoConflict(Remaining(ctx, all)) <==> forall r :: r in Remaining(ctx, all) ==>
              Agrees(Remaining(ctx, all), r.conflictKey)
  {
  }

  lemma ScreeningStarts(ctx: Context, records: seq<Instruction>)
    ensures ScreenedTo(ctx, records, 0, [], [])
  {
    assert records[0..] == records;
  }

  lemma ScreeningEnds(ctx: Context, records: seq<Instruction>, candidates: seq<Instruction>, exclusions: seq<Exclusion>)
    requires ScreenedTo(ctx, records, |records|, candidates, exclusions)
    ensures Elements(candidates) == Candidates(ctx, Elements(records)) && Distinct(candidates)
    ensures FilteredTo(ctx, Elements(records), candidates, 0, [], exclusions)
  {
    assert records[..|records|] == records && candidates[0..] == candidates;
    assert Elements(candidates) + Elements(records[|records|..]) == Elements([]) + Elements(candidates);
  }

  lemma SupersededIds(ctx: Context, all: set<Instruction>, candidates: seq<Instruction>, superseded: set<string>)
    requires Elements(candidates) == Candidates(ctx, all)
    requires superseded == set c, id | c in candidates && id in c.supersedes :: id
    ensures forall id :: id in superseded <==> IsSuperseded(ctx, all, id)
  {
    forall id ensures id in superseded <==> IsSuperseded(ctx, all, id) {
      if id in superseded {
        var c :| c in candidates && id in c.supersedes;
        assert c in Elements(candidates);
      }
      if IsSuperseded(ctx, all, id) {
        var c :| c in Candidates(ctx, all) && id in c.supersedes;
        assert c in Elements(candidates);
      }
    }
  }

  lemma FilteringEnds(ctx: Context, all: set<Instruction>, candidates: seq<Instruction>, rest: seq<Instruction>,
                      exclusions: seq<Exclusion>)
    requires Elements(candidates) == Candidates(ctx, all)
    requires FilteredTo(ctx, all, candidates, |candidates|, rest, exclusions)
    ensures Elements(rest) == Remaining(ctx, all) && Distinct(rest) && Books(ctx, all, Remaining(ctx, all), exclusions)
  {
    hide IsSuperseded, Books, Screen;
    assert candidates[..|candidates|] == candidates;
    forall r ensures r in Elements(rest) <==> r in Remaining(ctx, all) {
      assert r in candidates <==> r in Elements(candidates);
    }
    assert Elements(rest) + Elements(candidates[|candidates|..]) == Elements(rest);
  }

  lemma GroupingStarts(ctx: Context, all: set<Instruction>, rest: seq<Instruction>, keys: seq<string>, groups: Groups,
                       exclusions: seq<Exclusion>)
    requires Elements(rest) == Remaining(ctx, all) && Books(ctx, all, Remaining(ctx, all), exclusions)
    requires GroupedTo(rest, keys, groups)
    ensures SelectedTo(ctx, all, rest, keys, 0, [], exclusions)
  {
    hide IsSuperseded, Books, Screen;
    assert keys[0..] == keys;
    assert Elements([]) + Keyed(rest, keys) == Elements(rest);
  }

  lemma GroupAt(rest: seq<Instruction>, keys: seq<string>, groups: Groups, i: nat)
    requires GroupedTo(rest, keys, groups) && i < |keys|
    ensures keys[i] in groups && IsGroup(rest, keys[i], groups[keys[i]]) && Distinct(keys)
  {
    assert keys[i] in keys;
  }

  lemma GroupConflict(ctx: Context, all: set<Instruction>, rest: seq<Instruction>, key: string, group: seq<Instruction>)
    requires Elements(rest) == Remaining(ctx, all) && IsGroup(rest, key, group)
    ensures |set x | x in group :: x.fingerprint| <= 1 ==> Agrees(Remaining(ctx, all), key)
    ensures |set x | x in group :: x.fingerprint| > 1 ==>
              exists r :: r in Remaining(ctx, all) && r.conflictKey == key && !Agrees(Remaining(ctx, all), key)
  {
    hide IsSuperseded, Remaining;
    OneFingerprint(group);
    var remaining := Remaining(ctx, all);
    if p, q :| p in group && q in group && p.fingerprint != q.fingerprint {
      assert p in Elements(rest) && q in Elements(rest);
      assert !Agrees(remaining, key);
    } else {
      forall p, q | p in remaining && q in remaining && p.conflictKey == key && q.conflictKey == key
        ensures p.fingerprint == q.fingerprint
      {
        assert p in Elements(rest) && q in Elements(rest);
      }
    }
  }

  lemma RedundantIsNotSelected(ctx: Context, all: set<Instruction>, rest: seq<Instruction>, keys: seq<string>, i: nat,
                               before: seq<Instruction>, was: seq<Exclusion>, ordered: seq<Instruction>, j: nat)
    requires i < |keys| && Distinct(keys) && SelectedTo(ctx, all, rest, keys, i, before, was)
    requires 1 <= j < |ordered| && Distinct(ordered) && forall r :: r in ordered <==>
               r in rest && r.conflictKey == keys[i]
    ensures ordered[j] !in before + [ordered[0]]
  {
    hide Books, Agrees, Winners, Remaining;
    assert ordered[j] in ordered;
  }

  // ------------------------------------------------------------- what it means

  lemma ResolutionIsUnique(ctx: Context, all: set<Instruction>, v: Resolution, w: Resolution)
    requires IdsIdentify(all) && IsResolution(ctx, all, v) && IsResolution(ctx, all, w)
    ensures v == w
  {
    hide Explained, Remaining, Dominates;
    ActiveOrder();
    ExclusionOrder();
    forall x, y | x in v.active && y in v.active && ActiveLeq(x, y) && ActiveLeq(y, x) ensures x == y {
      assert x in Winners(ctx, all) && y in Winners(ctx, all);
      WinnersBelong(ctx, all, x);
      WinnersBelong(ctx, all, y);
    }
    hide ActiveLeq, ExclusionLeq, Winners;
    DistinctSameElements(v.active, w.active);
    DistinctSameElements(v.exclusions, w.exclusions);
    SortedIsCanonical(ActiveLeq, v.active, w.active);
    SortedIsCanonical(ExclusionLeq, v.exclusions, w.exclusions);
  }

  lemma WinnersBelong(ctx: Context, all: set<Instruction>, r: Instruction)
    requires r in Winners(ctx, all)
    ensures r in all && Screen(ctx, r) == Candidate && !IsSuperseded(ctx, all, r.id)
            && Dominates(Remaining(ctx, all), r)
  {
  }

  /** Shuffling the records changes neither whether they resolve nor what they resolve to. */
  lemma OrderDoesNotMatter(ctx: Context, a: seq<Instruction>, b: seq<Instruction>)
    requires multiset(a) == multiset(b)
    ensures Resolvable(ctx, a) <==> Resolvable(ctx, b)
    ensures forall v, w :: (Resolvable(ctx, a) && IsResolution(ctx, Elements(a), v)
                            && IsResolution(ctx, Elements(b), w)) ==> v == w
  {
    hide IsResolution, NoConflict, NoneRaises, Remaining;
    forall r ensures r in a <==> r in b {
      assert r in a <==> r in multiset(a);
      assert r in b <==> r in multiset(b);
    }
    assert Elements(a) == Elements(b);
    UniqueMeansDistinct(a);
    UniqueMeansDistinct(b);
    if Distinct(a) { PermutationKeepsDistinct(a, b); }
    if Distinct(b) { PermutationKeepsDistinct(b, a); }
    forall v, w | Resolvable(ctx, a) && IsResolution(ctx, Elements(a), v) && IsResolution(ctx, Elements(b), w)
      ensures v == w {
      ResolutionIsUnique(ctx, Elements(a), v, w);
    }
  }

  function RecordIds(records: seq<Instruction>): seq<string> {
    seq(|records|, i requires 0 <= i < |records| => records[i].id)
  }

  function OutcomeIds(v: Resolution): seq<string> {
    RecordIds(v.active) + seq(|v.exclusions|, i requires 0 <= i < |v.exclusions| => v.exclusions[i].id)
  }

  /** Nothing is lost and nothing is listed twice. */
  lemma EachIdOnce(ctx: Context, records: seq<Instruction>, v: Resolution)
    requires UniqueIds(records) && IsResolution(ctx, Elements(records), v)
    ensures multiset(OutcomeIds(v)) == multiset(RecordIds(records))
  {
    hide Winners, Explained;
    var all := Elements(records);
    var ids := OutcomeIds(v);
    UniqueMeansDistinct(records);
    forall i, j | 0 <= i < j < |ids| ensures ids[i] != ids[j] {
      OutcomeIdDecides(ctx, all, v, i, j);
    }
    forall id ensures id in ids <==> id in RecordIds(records) {
      OutcomeIdsAreRecordIds(ctx, records, v, id);
    }
    DistinctSameElements(ids, RecordIds(records));
  }

  /** The record an output position speaks about, and whether it is active. */
  lemma OutcomeRecord(ctx: Context, all: set<Instruction>, v: Resolution, i: nat) returns (r: Instruction)
    requires IsResolution(ctx, all, v) && i < |OutcomeIds(v)|
    ensures r in all && OutcomeIds(v)[i] == r.id
    ensures i < |v.active| <==> r in Winners(ctx, all)
    ensures i < |v.active| ==> r == v.active[i]
    ensures i >= |v.active| ==> Reason(ctx, all, r) == Some(v.exclusions[i - |v.active|].reason)
  {
    if i < |v.active| {
      r := v.active[i];
      assert r in v.active;
    } else {
      var x := v.exclusions[i - |v.active|];
      assert x in v.exclusions;
      r :| Explains(ctx, all, x, r);
    }
  }

  lemma OutcomeIdDecides(ctx: Context, all: set<Instruction>, v: Resolution, i: nat, j: nat)
    requires IsResolution(ctx, all, v) && IdsIdentify(all) && i < j < |OutcomeIds(v)|
    ensures OutcomeIds(v)[i] != OutcomeIds(v)[j]
  {
    var r := OutcomeRecord(ctx, all, v, i);
    var q := OutcomeRecord(ctx, all, v, j);
    hide Winners, Reason, Explained;
    if i >= |v.active| {
      var x, y := v.exclusions[i - |v.active|], v.exclusions[j - |v.active|];
      assert x != y && x.id == r.id && y.id == q.id;
    }
  }

  lemma OutcomeIdsAreRecordIds(ctx: Context, records: seq<Instruction>, v: Resolution, id: string)
    requires IsResolution(ctx, Elements(records), v)
    ensures id in OutcomeIds(v) <==> id in RecordIds(records)
  {
    var all := Elements(records);
    if id in OutcomeIds(v) {
      var i: nat :| i < |OutcomeIds(v)| && OutcomeIds(v)[i] == id;
      var r := OutcomeRecord(ctx, all, v, i);
      var k :| 0 <= k < |records| && records[k] == r;
      assert RecordIds(records)[k] == id;
    }
    if id in RecordIds(records) {
      var k: nat :| k < |records| && RecordIds(records)[k] == id;
      RecordIsListed(ctx, all, v, records[k]);
    }
  }

  lemma RecordIsListed(ctx: Context, all: set<Instruction>, v: Resolution, r: Instruction)
    requires IsResolution(ctx, all, v) && r in all
    ensures r.id in OutcomeIds(v)
  {
    var ids := OutcomeIds(v);
    if r in Winners(ctx, all) {
      var i :| 0 <= i < |v.active| && v.active[i] == r;
      assert ids[i] == r.id;
    } else {
      assert Reason(ctx, all, r).Some?;
      var x := Exclusion(r.id, Reason(ctx, all, r).value);
      assert Explains(ctx, all, x, r);
      assert Explained(ctx, all, x);
      var i :| 0 <= i < |v.exclusions| && v.exclusions[i] == x;
      assert ids[|v.active| + i] == r.id;
    }
  }

  /**
   * Each conflict key keeps exactly one instruction: the maximum of its group, whose fingerprint the whole group
   * shares.
   */
  lemma OneWinnerPerKey(ctx: Context, records: seq<Instruction>, v: Resolution, q: Instruction)
    requires Resolvable(ctx, records) && IsResolution(ctx, Elements(records), v)
    requires q in Remaining(ctx, Elements(records))
    ensures exists w :: (w in v.active && w.conflictKey == q.conflictKey && PrecedenceLeq(q, w)
                         && w.fingerprint == q.fingerprint
                         && forall u :: u in v.active && u.conflictKey == q.conflictKey ==> u == w)
  {
    var all := Elements(records);
    var rest := Remaining(ctx, all);
    UniqueMeansDistinct(records);
    var w := GroupMaximum(rest, q);
    hide PrecedenceLeq, Remaining, Screen, UniqueIds;
    assert w in v.active;
    assert Agrees(rest, q.conflictKey);
    forall u | u in v.active && u.conflictKey == q.conflictKey ensures u == w {
      assert u in Winners(ctx, all);
      PrecedenceOrder(u, w, u);
      WinnersBelong(ctx, all, u);
      WinnersBelong(ctx, all, w);
    }
  }

  /** A non-empty finite group has a maximum. */
  lemma {:induction false} GroupMaximum(rest: set<Instruction>, q: Instruction) returns (w: Instruction)
    requires q in rest
    ensures w in rest && w.conflictKey == q.conflictKey && Dominates(rest, w)
    decreases rest
  {
    hide PrecedenceLeq;
    PrecedenceOrder(q, q, q);
    if r :| r in rest && r != q {
      var w0 := GroupMaximum(rest - {r}, q);
      w := if r.conflictKey == q.conflictKey && PrecedenceLeq(w0, r) then r else w0;
      forall u | u in rest && u.conflictKey == q.conflictKey ensures PrecedenceLeq(u, w) {
        if u != r { assert PrecedenceLeq(u, w0); }
        PrecedenceOrder(u, w0, r);
        PrecedenceOrder(r, w0, r);
        PrecedenceOrder(u, u, u);
      }
    } else {
      w := q;
    }
  }

  /** What is active is governed, and nothing that could be active supersedes it. */
  lemma ActiveIsNotSuperseded(ctx: Context, records: seq<Instruction>, v: Resolution, r: Instruction, c: Instruction)
    requires IsResolution(ctx, Elements(records), v) && r in v.active
    requires c in records && Screen(ctx, c) == Candidate
    ensures Screen(ctx, r) == Candidate && r.id !in c.supersedes
  {
    hide Screen;
    WinnersBelong(ctx, Elements(records), r);
    assert c in Candidates(ctx, Elements(records));
  }
}
