/**
 * The policy engine: seven layers of policy, each met exactly once, all known, all
 * matching the request, and every requested permission granted by every layer.
 */
module PolicyDecision {
  import opened Outcomes
  import opened PythonText
  import opened PythonSequences
  import opened Ordering
  import opened ScopeOverlap

  datatype Layer =
    | ExternalWorkspaceAuthorization | ProjectPolicy | EnvironmentPolicy | AgentCapability | ProviderPolicy
    | ToolPolicy | DataProductionPolicy

  /** The required layers, in the order decisions report them. */
  const LAYERS: seq<Layer> :=
    [ExternalWorkspaceAuthorization, ProjectPolicy, EnvironmentPolicy, AgentCapability, ProviderPolicy, ToolPolicy,
     DataProductionPolicy]

  const UNKNOWN := "UNKNOWN"
  const UNRESOLVED := "UNRESOLVED"
  const UNSPECIFIED := "UNSPECIFIED"

  const FIELDS: seq<string> :=
    ["subject_identity", "project_id", "task_id", "authorization_id", "action", "tool_id", "resource", "environment",
     "provider_id", "risk"]

  /** One value per authority field. */
  type Values = s: seq<Option<string>> | |s| == 10 witness seq(10, _ => None)

  /** One list of accepted values per authority field; no list accepts everything. */
  type Scopes = s: seq<Option<seq<string>>> | |s| == 10 witness seq(10, _ => None)

  datatype Context = Context(fields: Values, requested: seq<string>)

  datatype Rule = Rule(layer: Layer, known: bool, permissions: seq<string>, scopes: Scopes)

  datatype Decision = Decision(allow: bool, effective: seq<string>, deniedBy: seq<string>, reasons: seq<string>)

  function Name(l: Layer): string {
    match l
    case ExternalWorkspaceAuthorization => "EXTERNAL_WORKSPACE_AUTHORIZATION"
    case ProjectPolicy => "PROJECT_POLICY"
    case EnvironmentPolicy => "ENVIRONMENT_POLICY"
    case AgentCapability => "AGENT_CAPABILITY"
    case ProviderPolicy => "PROVIDER_POLICY"
    case ToolPolicy => "TOOL_POLICY"
    case DataProductionPolicy => "DATA_PRODUCTION_POLICY"
  }

  function Names(layers: seq<Layer>): seq<string> { seq(|layers|, i requires 0 <= i < |layers| => Name(layers[i])) }

  function Prefixed(prefix: string, s: seq<string>): seq<string> { seq(|s|, i requires 0 <= i < |s| => prefix + s[i]) }

  // -------------------------------------------------------------- single checks

  function Upper(s: string): string {
    seq(|s|, i requires 0 <= i < |s| => if 'a' <= s[i] <= 'z' then (s[i] as int - 32) as char else s[i])
  }

  predicate IsUnknown(value: Option<string>) {
    value.None? ||
    var normalized := DropWhileEnd(IsSpace, DropWhile(IsSpace, value.value));
    normalized == "" || Upper(normalized) in {UNKNOWN, UNRESOLVED, UNSPECIFIED}
  }

  /** The word in any mixture of capital and small letters. */
  ghost predicate Spells(s: string, word: string) {
    |s| == |word| && forall i :: 0 <= i < |s| ==> s[i] == word[i] || s[i] as int == word[i] as int + 32
  }

  ghost predicate IsSentinel(s: string) { Spells(s, UNKNOWN) || Spells(s, UNRESOLVED) || Spells(s, UNSPECIFIED) }

  /** All of the text but blanks at its ends is a sentinel. */
  ghost predicate SentinelAt(value: string, i: nat, j: nat) {
    i <= j <= |value| && IsBlank(value[..i]) && IsBlank(value[j..]) && IsSentinel(value[i..j])
  }

  /** A value is known when it is given, not blank, and not a sentinel between blanks. */
  ghost predicate Known(value: Option<string>) {
    value.Some? && !IsBlank(value.value) && !exists i: nat, j: nat :: SentinelAt(value.value, i, j)
  }

  lemma {:induction false} DropsBlanks(s: string) returns (i: nat)
    ensures i <= |s| && DropWhile(IsSpace, s) == s[i..] && IsBlank(s[..i]) && (i < |s| ==> !IsSpace(s[i]))
  {
    if s != "" && IsSpace(s[0]) {
      var k := DropsBlanks(s[1..]);
      i := k + 1;
      assert s[..i] == [s[0]] + s[1..][..k];
    } else {
      i := 0;
    }
  }

  lemma {:induction false} DropsBlanksAtEnd(s: string) returns (j: nat)
    ensures j <= |s| && DropWhileEnd(IsSpace, s) == s[..j] && IsBlank(s[j..]) && (j > 0 ==> !IsSpace(s[j - 1]))
  {
    if s != "" && IsSpace(s[|s| - 1]) {
      j := DropsBlanksAtEnd(s[..|s| - 1]);
      assert s[j..] == s[..|s| - 1][j..] + [s[|s| - 1]];
    } else {
      j := |s|;
    }
  }

  lemma SentinelSpelled(s: string)
    ensures Upper(s) in {UNKNOWN, UNRESOLVED, UNSPECIFIED} <==> IsSentinel(s)
    ensures IsSentinel(s) ==> s != "" && !IsSpace(s[0]) && !IsSpace(s[|s| - 1])
  {
    SpelledUpper(s, UNKNOWN);
    SpelledUpper(s, UNRESOLVED);
    SpelledUpper(s, UNSPECIFIED);
  }

  lemma SpelledUpper(s: string, word: string)
    requires word != "" && forall i :: 0 <= i < |word| ==> 'A' <= word[i] <= 'Z'
    ensures Upper(s) == word <==> Spells(s, word)
    ensures Spells(s, word) ==> s != "" && !IsSpace(s[0]) && !IsSpace(s[|s| - 1])
  {
    if Spells(s, word) {
      assert forall i :: 0 <= i < |s| ==> Upper(s)[i] == word[i];
    }
    if Upper(s) == word {
      forall i | 0 <= i < |s| ensures s[i] == word[i] || s[i] as int == word[i] as int + 32 {
        assert Upper(s)[i] == word[i];
      }
    }
  }

  /** What the engine takes for unknown is exactly what is not known. */
  lemma UnknownIff(value: Option<string>)
    ensures IsUnknown(value) <==> !Known(value)
  {
    if value.Some? {
      var s := value.value;
      var i := DropsBlanks(s);
      var j := DropsBlanksAtEnd(s[i..]);
      var core := s[i..][..j];
      SentinelSpelled(core);
      hide IsSentinel, Upper;
      assert core == s[i..i + j] && s[i..][j..] == s[i + j..];
      assert core == "" ==> IsBlank(s) by {
        if core == "" { assert s == s[..i] + s[i..]; }
      }
      if IsSentinel(core) { assert SentinelAt(s, i, i + j); }
      if a: nat, b: nat :| SentinelAt(s, a, b) {
        SentinelSpelled(s[a..b]);
        SameCore(s, a, b, i, i + j);
      }
      assert core != "" ==> !IsBlank(s);
    }
  }

  /** Blanks at both ends around something that neither begins nor ends blank can be cut off in one way only. */
  lemma SameCore(s: string, a: nat, b: nat, i: nat, j: nat)
    requires a < b <= |s| && IsBlank(s[..a]) && IsBlank(s[b..]) && !IsSpace(s[a]) && !IsSpace(s[b - 1])
    requires i <= j <= |s| && IsBlank(s[..i]) && IsBlank(s[j..])
    requires (i < |s| ==> !IsSpace(s[i])) && (j > i ==> !IsSpace(s[j - 1]))
    ensures a == i && b == j
  {
    BlankEnds(s, a, b);
    BlankEnds(s, i, j);
  }

  lemma BlankEnds(s: string, i: nat, j: nat)
    requires i <= j <= |s| && IsBlank(s[..i]) && IsBlank(s[j..])
    ensures forall k :: 0 <= k < i || j <= k < |s| ==> IsSpace(s[k])
  {
    forall k | 0 <= k < i ensures IsSpace(s[k]) { assert s[..i][k] == s[k]; }
    forall k | j <= k < |s| ensures IsSpace(s[k]) { assert s[j..][k - j] == s[k]; }
  }

  predicate MatchesScope(value: Option<string>, allowed: Option<seq<string>>) {
    allowed.None? || "*" in allowed.value || (value.Some? && value.value in allowed.value)
  }

  predicate InScope(ctx: Context, rule: Rule) {
    forall f :: 0 <= f < 10 ==> MatchesScope(ctx.fields[f], rule.scopes[f])
  }

  // ---------------------------------------------------------- facts of the layers

  /** The rule of each kind; a later rule of the same kind replaces an earlier one. */
  function ByKind(rules: seq<Rule>): map<Layer, Rule> {
    if rules == [] then map[] else ByKind(rules[..|rules| - 1])[rules[|rules| - 1].layer := rules[|rules| - 1]]
  }

  function Repeated(rules: seq<Rule>): set<Layer> {
    if rules == [] then {}
    else
      var init, last := rules[..|rules| - 1], rules[|rules| - 1];
      Repeated(init) + if last.layer in ByKind(init) then {last.layer} else {}
  }

  /** Each layer is there, and only once. */
  ghost predicate ExactlyOnce(rules: seq<Rule>) {
    forall l: Layer :: PresentOnce(rules, l)
  }

  ghost predicate PresentOnce(rules: seq<Rule>, l: Layer) {
    exists i: nat :: OnlyAt(rules, l, i)
  }

  ghost predicate OnlyAt(rules: seq<Rule>, l: Layer, i: nat) {
    i < |rules| && rules[i].layer == l && forall j :: 0 <= j < |rules| && rules[j].layer == l ==> j == i
  }

  ghost predicate Present(rules: seq<Rule>, l: Layer) {
    exists r :: r in rules && r.layer == l
  }

  function Missing(kinds: map<Layer, Rule>): set<Layer> { set l: Layer | l !in kinds }

  ghost predicate Complete(kinds: map<Layer, Rule>) {
    forall l: Layer :: l in kinds
  }

  ghost predicate OnceEach(rules: seq<Rule>) {
    forall i, j :: 0 <= i < j < |rules| ==> rules[i].layer != rules[j].layer
  }

  lemma LastRepeats(init: seq<Rule>, last: Rule)
    requires Present(init, last.layer)
    ensures !OnceEach(init + [last])
  {
    var r :| r in init && r.layer == last.layer;
    var i :| 0 <= i < |init| && init[i] == r;
    assert (init + [last])[i].layer == (init + [last])[|init|].layer;
  }

  lemma {:induction false} KindsMeaning(rules: seq<Rule>)
    ensures forall l :: l in ByKind(rules) <==> Present(rules, l)
    ensures forall l :: l in ByKind(rules) ==> ByKind(rules)[l] in rules && ByKind(rules)[l].layer == l
  {
    if rules != [] {
      var init, last := rules[..|rules| - 1], rules[|rules| - 1];
      KindsMeaning(init);
      assert rules == init + [last];
      forall l ensures Present(rules, l) <==> Present(init, l) || l == last.layer {
        if Present(init, l) {
          var r :| r in init && r.layer == l;
          assert r in rules;
        }
        assert last in rules;
      }
    }
  }

  lemma {:induction false} RepeatedMeaning(rules: seq<Rule>)
    ensures Repeated(rules) == {} <==> OnceEach(rules)
    ensures Repeated(rules) <= ByKind(rules).Keys
  {
    if rules != [] {
      var init, last := rules[..|rules| - 1], rules[|rules| - 1];
      RepeatedMeaning(init);
      KindsMeaning(init);
      assert rules == init + [last];
      OnceEachGrows(init, last);
      hide OnceEach, Present;
    }
  }

  lemma OnceEachGrows(init: seq<Rule>, last: Rule)
    ensures OnceEach(init + [last]) <==> OnceEach(init) && !Present(init, last.layer)
  {
    var rules := init + [last];
    if Present(init, last.layer) { LastRepeats(init, last); }
    if OnceEach(init) && !Present(init, last.layer) {
      forall i, j | 0 <= i < j < |rules| ensures rules[i].layer != rules[j].layer {
        if j == |init| { assert init[i] in init; }
      }
    }
    if OnceEach(rules) {
      forall i, j | 0 <= i < j < |init| ensures init[i].layer != init[j].layer {
        assert rules[i].layer != rules[j].layer;
      }
    }
  }

  /** Without repeats the map is just the set of rules. */
  lemma ByKindOfUnique(rules: seq<Rule>, r: Rule)
    requires OnceEach(rules) && r in rules
    ensures r.layer in ByKind(rules) && ByKind(rules)[r.layer] == r
  {
    KindsMeaning(rules);
    var other := ByKind(rules)[r.layer];
    var i :| 0 <= i < |rules| && rules[i] == r;
    var j :| 0 <= j < |rules| && rules[j] == other;
  }

  lemma OnceEachIffCounts(rules: seq<Rule>)
    ensures ExactlyOnce(rules) <==> OnceEach(rules) && forall l: Layer :: Present(rules, l)
  {
    if ExactlyOnce(rules) {
      forall i, j | 0 <= i < j < |rules| ensures rules[i].layer != rules[j].layer {
        assert PresentOnce(rules, rules[i].layer);
      }
      forall l: Layer ensures Present(rules, l) {
        assert PresentOnce(rules, l);
        var i: nat :| OnlyAt(rules, l, i);
        assert rules[i] in rules;
      }
    }
    if OnceEach(rules) && forall l: Layer :: Present(rules, l) {
      forall l: Layer ensures PresentOnce(rules, l) {
        assert Present(rules, l);
        var r :| r in rules && r.layer == l;
        var i: nat :| i < |rules| && rules[i] == r;
        assert OnlyAt(rules, l, i);
      }
    }
  }

  // ------------------------------------------------------------------ the verdict

  /** Layers satisfying a condition, in reporting order. */
  function Where(chosen: set<Layer>): seq<Layer> { Keep(LAYERS, chosen) }

  function SortedNames(chosen: set<Layer>): seq<string> { Sort(TextLeq, Names(Where(chosen))) }

  /** The unknown ones among the first `n` fields. */
  function UnknownFields(ctx: Context, n: nat): seq<string>
    requires n <= 10
  {
    if n == 0 then [] else UnknownFields(ctx, n - 1) + if IsUnknown(ctx.fields[n - 1]) then [FIELDS[n - 1]] else []
  }

  predicate UnknownPermission(ctx: Context) { exists p :: p in ctx.requested && IsUnknown(Some(p)) }

  function MismatchLine(rule: Rule, f: nat): string
    requires f < 10
  {
    "SCOPE_MISMATCH:" + Name(rule.layer) + ":" + FIELDS[f]
  }

  /** One line per mismatch among the rule's first `n` fields. */
  function Mismatches(ctx: Context, rule: Rule, n: nat): seq<string>
    requires n <= 10
  {
    if n == 0 then []
    else Mismatches(ctx, rule, n - 1) + if MatchesScope(ctx.fields[n - 1], rule.scopes[n - 1]) then []
    else [MismatchLine(rule, n - 1)]
  }

  function AllMismatches(ctx: Context, kinds: map<Layer, Rule>, n: nat): seq<string>
    requires n <= |LAYERS| && Complete(kinds)
  {
    if n == 0 then [] else AllMismatches(ctx, kinds, n - 1) + Mismatches(ctx, kinds[LAYERS[n - 1]], 10)
  }

  /** What every layer grants. */
  function Granted(kinds: map<Layer, Rule>): set<string>
    requires ExternalWorkspaceAuthorization in kinds
  {
    set p | p in kinds[ExternalWorkspaceAuthorization].permissions && forall l :: l in kinds ==>
      p in kinds[l].permissions
  }

  function Deny(deniedBy: seq<string>, reasons: seq<string>): Decision { Decision(false, [], deniedBy, reasons) }

  /** A requested permission some layer withholds, without repeats, in request order. */
  function Withheld(ctx: Context, granted: set<string>): seq<string> {
    Keep(FirstOccurrences(ctx.requested), (set p | p in ctx.requested) - granted)
  }

  function Withholding(kinds: map<Layer, Rule>, withheld: seq<string>): set<Layer> {
    set l | l in kinds && exists p :: p in withheld && p !in kinds[l].permissions
  }

  /** The decision as a function of the request and of the facts of its layers. */
  ghost function Verdict(ctx: Context, kinds: map<Layer, Rule>, repeated: set<Layer>): Decision {
    var missing := Missing(kinds);
    if UnknownFields(ctx, 10) != [] || UnknownPermission(ctx) then
      Deny(["INPUT"], Prefixed("UNKNOWN_AUTHORITY_FIELD:", UnknownFields(ctx, 10) + if UnknownPermission(ctx)
                               then ["requested_permissions"] else []))
    else if !Complete(kinds) || repeated != {} then
      Deny(SortedNames(missing + repeated),
           Prefixed("MISSING_LAYER:", Names(Where(missing))) + Prefixed("DUPLICATE_LAYER:", SortedNames(repeated)))
    else PolicyVerdict(ctx, kinds)
  }

  ghost function UnknownLayers(kinds: map<Layer, Rule>): set<Layer> { set l | l in kinds && !kinds[l].known }

  ghost function Outside(ctx: Context,
                         kinds: map<Layer, Rule>): set<Layer> { set l | l in kinds && !InScope(ctx, kinds[l]) }

  /** With every layer there exactly once. */
  ghost function PolicyVerdict(ctx: Context, kinds: map<Layer, Rule>): Decision
    requires Complete(kinds)
  {
    if UnknownLayers(kinds) != {} then
      Deny(Names(Where(UnknownLayers(kinds))), Prefixed("UNKNOWN_POLICY_LAYER:", Names(Where(UnknownLayers(kinds)))))
    else if Outside(ctx, kinds) != {} then Deny(SortedNames(Outside(ctx, kinds)), AllMismatches(ctx, kinds, |LAYERS|))
    else
      var granted := Granted(kinds);
      var withheld := Withheld(ctx, granted);
      if withheld != [] then
        Decision(false, SortedTuple(granted), SortedNames(Withholding(kinds, withheld)),
                 Prefixed("PERMISSION_DENIED:", withheld))
      else Decision(true, SortedTuple(granted), [], ["ALL_GOVERNING_POLICIES_ALLOW"])
  }

  // -------------------------------------------------------- sorted tuples of sets

  ghost predicate IsSortedTuple(r: seq<string>, s: set<string>) {
    Distinct(r) && IsSorted(TextLeq, r) && forall x :: x in r <==> x in s
  }

  ghost function SortedTuple(s: set<string>): (r: seq<string>)
    ensures IsSortedTuple(r, s)
  {
    SortedTupleExists(s);
    var r :| IsSortedTuple(r, s);
    r
  }

  lemma TextOrder()
    ensures TotalPreorder(TextLeq) && forall x, y :: TextLeq(x, y) && TextLeq(y, x) ==> x == y
  {
    hide TextLeq;
    forall x, y, z ensures (TextLeq(x, y) || TextLeq(y, x)) && (TextLeq(x, y) && TextLeq(y, z) ==> TextLeq(x, z))
      ensures TextLeq(x, y) && TextLeq(y, x) ==> x == y
    {
      TextLeqTotal(x, y);
      if TextLeq(x, y) && TextLeq(y, z) { TextLeqTransitive(x, y, z); }
    }
  }

  lemma {:induction false} SortedTupleExists(s: set<string>)
    ensures exists r :: IsSortedTuple(r, s)
    decreases s
  {
    if x :| x in s {
      SortedTupleExists(s - {x});
      var r :| IsSortedTuple(r, s - {x});
      SortedTupleOf(r + [x], s);
    } else {
      assert IsSortedTuple([], s);
    }
  }

  lemma SortedTupleOf(t: seq<string>, s: set<string>)
    requires Distinct(t) && forall x :: x in t <==> x in s
    ensures IsSortedTuple(Sort(TextLeq, t), s)
  {
    TextOrder();
    SortIsSorted(TextLeq, t);
    SortMembers(TextLeq, t);
  }

  /** There is only one sorted tuple of a set. */
  lemma SortedTupleIsUnique(a: seq<string>, b: seq<string>, s: set<string>)
    requires IsSortedTuple(a, s) && IsSortedTuple(b, s)
    ensures a == b
  {
    TextOrder();
    DistinctSameElements(a, b);
    SortedIsCanonical(TextLeq, a, b);
  }

  /** `tuple(sorted(s))`. */
  method SortSet(s: set<string>) returns (r: seq<string>)
    ensures r == SortedTuple(s)
  {
    var rest, t := s, [];
    while rest != {}
      invariant rest <= s && Distinct(t) && forall x :: x in t <==> x in s - rest
      decreases rest
    {
      var x :| x in rest;
      assert x !in t;
      rest, t := rest - {x}, t + [x];
    }
    r := Sort(TextLeq, t);
    SortedTupleOf(t, s);
    SortedTupleIsUnique(r, SortedTuple(s), s);
  }

  // ------------------------------------------------------------------- the engine

  lemma AllLayersListed(l: Layer)
    ensures l in LAYERS
  {
    assert LAYERS[0] == ExternalWorkspaceAuthorization && LAYERS[1] == ProjectPolicy && LAYERS[2] == EnvironmentPolicy
      && LAYERS[3] == AgentCapability && LAYERS[4] == ProviderPolicy && LAYERS[5] == ToolPolicy
      && LAYERS[6] == DataProductionPolicy;
  }

  method Index(rules: seq<Rule>) returns (kinds: map<Layer, Rule>, duplicates: set<Layer>)
    ensures kinds == ByKind(rules) && duplicates == Repeated(rules)
  {
    kinds, duplicates := map[], {};
    for i := 0 to |rules|
      invariant kinds == ByKind(rules[..i]) && duplicates == Repeated(rules[..i])
    {
      assert rules[..i + 1][..|rules[..i + 1]| - 1] == rules[..i];
      if rules[i].layer in kinds { duplicates := duplicates + {rules[i].layer}; }
      kinds := kinds[rules[i].layer := rules[i]];
    }
    assert rules[..|rules|] == rules;
  }

  method RuleFailures(ctx: Context, rule: Rule) returns (lines: seq<string>, failed: bool)
    ensures lines == Mismatches(ctx, rule, 10) && (failed <==> !InScope(ctx, rule))
  {
    lines, failed := [], false;
    for f := 0 to 10
      invariant lines == Mismatches(ctx, rule, f)
      invariant failed <==> exists g :: 0 <= g < f && !MatchesScope(ctx.fields[g], rule.scopes[g])
    {
      hide MismatchLine, MatchesScope;
      if !MatchesScope(ctx.fields[f], rule.scopes[f]) {
        lines, failed := lines + [MismatchLine(rule, f)], true;
      }
    }
  }

  method ScopeFailures(ctx: Context, kinds: map<Layer, Rule>) returns (layers: set<Layer>, lines: seq<string>)
    requires Complete(kinds)
    ensures layers == Outside(ctx, kinds) && lines == AllMismatches(ctx, kinds, |LAYERS|)
  {
    layers, lines := {}, [];
    for k := 0 to |LAYERS|
      invariant lines == AllMismatches(ctx, kinds, k)
      invariant forall l :: l in layers <==> l in LAYERS[..k] && !InScope(ctx, kinds[l])
    {
      hide InScope, Mismatches;
      var more, failed := RuleFailures(ctx, kinds[LAYERS[k]]);
      lines := lines + more;
      if failed { layers := layers + {LAYERS[k]}; }
      assert LAYERS[..k + 1] == LAYERS[..k] + [LAYERS[k]];
    }
    assert LAYERS[..|LAYERS|] == LAYERS;
    forall l ensures l in LAYERS { AllLayersListed(l); }
  }

  method Intersect(kinds: map<Layer, Rule>) returns (effective: set<string>)
    requires Complete(kinds)
    ensures effective == Granted(kinds)
  {
    effective := set p | p in kinds[LAYERS[0]].permissions;
    assert LAYERS[..1] == [LAYERS[0]];
    for k := 1 to |LAYERS|
      invariant forall p :: p in effective <==> forall l :: l in LAYERS[..k] ==> p in kinds[l].permissions
    {
      assert LAYERS[..k + 1] == LAYERS[..k] + [LAYERS[k]];
      effective := set p | p in effective && p in kinds[LAYERS[k]].permissions;
    }
    assert LAYERS[..|LAYERS|] == LAYERS;
    forall l ensures l in LAYERS { AllLayersListed(l); }
  }

  lemma MissingIffIncomplete(kinds: map<Layer, Rule>)
    ensures Missing(kinds) == {} <==> Complete(kinds)
  {
    if l: Layer :| l !in kinds {
      assert l in Missing(kinds);
    }
  }

  /**
   * Allowed exactly when the whole input is known, each layer is there exactly once and known, no list of accepted
   * values leaves out the request's own, and every layer holds every requested permission.
   */
  method Decide(ctx: Context, rules: seq<Rule>) returns (d: Decision)
    ensures d == Verdict(ctx, ByKind(rules), Repeated(rules))
    ensures d.allow <==>
              && (forall f :: 0 <= f < 10 ==> Known(ctx.fields[f]))
              && (forall p :: p in ctx.requested ==> Known(Some(p)))
              && (forall l: Layer :: PresentOnce(rules, l))
              && (forall r :: r in rules ==> r.known)
              && (forall r, f :: r in rules && 0 <= f < 10 ==> Accepts(r.scopes[f], ctx.fields[f]))
              && (forall r, p :: r in rules && p in ctx.requested ==> p in r.permissions)
  {
    AllowSpelled(ctx, rules);
    hide ByKind, Repeated, UnknownFields, UnknownPermission, AllMismatches, SortedNames, Names, Prefixed, Outside,
    Granted, Withheld, Where;
    var unknown := UnknownFields(ctx, 10);
    if unknown != [] || UnknownPermission(ctx) {
      return Deny(["INPUT"], Prefixed("UNKNOWN_AUTHORITY_FIELD:", unknown + if UnknownPermission(ctx)
                                      then ["requested_permissions"] else []));
    }
    var kinds, duplicates := Index(rules);
    var missing := Missing(kinds);
    MissingIffIncomplete(kinds);
    if missing != {} || duplicates != {} {
      return Deny(SortedNames(missing + duplicates),
                  Prefixed("MISSING_LAYER:", Names(Where(missing))) + Prefixed("DUPLICATE_LAYER:",
                                                                               SortedNames(duplicates)));
    }
    d := DecidePolicies(ctx, kinds);
  }

  method DecidePolicies(ctx: Context, kinds: map<Layer, Rule>) returns (d: Decision)
    requires Complete(kinds)
    ensures d == PolicyVerdict(ctx, kinds)
  {
    hide AllMismatches, SortedNames, Names, Prefixed, Outside, Granted, Where;
    var unknown := set l | l in kinds && !kinds[l].known;
    if unknown != {} {
      return Deny(Names(Where(unknown)), Prefixed("UNKNOWN_POLICY_LAYER:", Names(Where(unknown))));
    }
    var failing, lines := ScopeFailures(ctx, kinds);
    if failing != {} {
      return Deny(SortedNames(failing), lines);
    }
    var effective := Intersect(kinds);
    var permissions := SortSet(effective);
    var withheld := Withheld(ctx, effective);
    if withheld != [] {
      return Decision(false, permissions, SortedNames(Withholding(kinds, withheld)),
                      Prefixed("PERMISSION_DENIED:", withheld));
    }
    d := Decision(true, permissions, [], ["ALL_GOVERNING_POLICIES_ALLOW"]);
  }

  lemma AllowSpelled(ctx: Context, rules: seq<Rule>)
    ensures Verdict(ctx, ByKind(rules), Repeated(rules)).allow <==>
              && (forall f :: 0 <= f < 10 ==> Known(ctx.fields[f]))
              && (forall p :: p in ctx.requested ==> Known(Some(p)))
              && (forall l: Layer :: PresentOnce(rules, l))
              && (forall r :: r in rules ==> r.known)
              && (forall r, f :: r in rules && 0 <= f < 10 ==> Accepts(r.scopes[f], ctx.fields[f]))
              && (forall r, p :: r in rules && p in ctx.requested ==> p in r.permissions)
  {
    hide Verdict, ByKind, Repeated, Known, PresentOnce, Accepts;
    AllowIff(ctx, rules);
    assert Outcome(ctx, rules).allow <==> Verdict(ctx, ByKind(rules), Repeated(rules)).allow;
    if forall r :: r in rules ==> Grants(ctx, r) {
      forall r, f | r in rules && 0 <= f < 10 ensures Accepts(r.scopes[f], ctx.fields[f]) {
        assert Grants(ctx, r);
      }
    }
  }

  // ------------------------------------------------------------- what it decides

  /** The request, decided: what `Decide` returns. */
  ghost function Outcome(ctx: Context, rules: seq<Rule>): Decision { Verdict(ctx, ByKind(rules), Repeated(rules)) }

  ghost predicate InputKnown(ctx: Context) {
    (forall f :: 0 <= f < 10 ==> Known(ctx.fields[f])) && forall p :: p in ctx.requested ==> Known(Some(p))
  }

  /** No list, a list with "*", or a list with the request's own value. */
  ghost predicate Accepts(allowed: Option<seq<string>>, value: Option<string>) {
    allowed.Some? ==> "*" in allowed.value || exists v :: value == Some(v) && v in allowed.value
  }

  lemma InScopeIff(ctx: Context, r: Rule)
    ensures InScope(ctx, r) <==> forall f :: 0 <= f < 10 ==> Accepts(r.scopes[f], ctx.fields[f])
  {
    forall f | 0 <= f < 10 ensures MatchesScope(ctx.fields[f], r.scopes[f]) <==> Accepts(r.scopes[f], ctx.fields[f]) {
    }
    hide MatchesScope, Accepts;
  }

  lemma InputKnownIff(ctx: Context)
    ensures InputKnown(ctx) <==> UnknownFields(ctx, 10) == [] && !UnknownPermission(ctx)
  {
    hide IsUnknown, Known;
    UnknownFieldsMeaning(ctx, 10);
    forall f | 0 <= f < 10 ensures Known(ctx.fields[f]) <==> !IsUnknown(ctx.fields[f]) { UnknownIff(ctx.fields[f]); }
    forall p ensures Known(Some(p)) <==> !IsUnknown(Some(p)) { UnknownIff(Some(p)); }
  }

  /** A layer lets the request pass. */
  ghost predicate Grants(ctx: Context, r: Rule) {
    && r.known && (forall f :: 0 <= f < 10 ==> Accepts(r.scopes[f], ctx.fields[f]))
    && forall p :: p in ctx.requested ==> p in r.permissions
  }

  lemma {:induction false} UnknownFieldsMeaning(ctx: Context, n: nat)
    requires n <= 10
    ensures UnknownFields(ctx, n) == [] <==> forall f :: 0 <= f < n ==> !IsUnknown(ctx.fields[f])
  {
    hide IsUnknown;
    if n > 0 { UnknownFieldsMeaning(ctx, n - 1); }
  }

  lemma WithheldMeaning(ctx: Context, granted: set<string>)
    ensures Withheld(ctx, granted) == [] <==> forall p :: p in ctx.requested ==> p in granted
    ensures forall p :: p in Withheld(ctx, granted) <==> p in ctx.requested && p !in granted
  {
    hide Keep, FirstOccurrences;
    FirstOccurrencesMeaning(ctx.requested);
    KeepMeaning(FirstOccurrences(ctx.requested), (set p | p in ctx.requested) - granted);
    NoMembers(Withheld(ctx, granted));
  }

  /** Allowed exactly when the input is known, each layer occurs exactly once, and every rule grants the request. */
  lemma AllowIff(ctx: Context, rules: seq<Rule>)
    ensures Outcome(ctx, rules).allow <==> InputKnown(ctx) && ExactlyOnce(rules) && forall r :: r in rules ==>
              Grants(ctx, r)
  {
    hide IsUnknown, InScope, UnknownFields, SortedNames, Names, Prefixed, Where, AllMismatches, Withheld, ByKind,
    Repeated, ExactlyOnce;
    var kinds := ByKind(rules);
    InputKnownIff(ctx);
    hide UnknownPermission, InputKnown, Grants;
    KindsMeaning(rules);
    RepeatedMeaning(rules);
    OnceEachIffCounts(rules);
    if ExactlyOnce(rules) {
      forall r | r in rules ensures r.layer in kinds && kinds[r.layer] == r { ByKindOfUnique(rules, r); }
      assert Complete(kinds) by {
        forall l: Layer ensures l in kinds { assert Present(rules, l); }
      }
      AllowIffGranted(ctx, rules, kinds);
    } else {
      assert !Complete(kinds) || Repeated(rules) != {} by {
        if Complete(kinds) {
          forall l: Layer ensures Present(rules, l) { assert l in kinds; }
        }
      }
    }
  }

  lemma AllowIffGranted(ctx: Context, rules: seq<Rule>, kinds: map<Layer, Rule>)
    requires (forall r :: r in rules ==> r.layer in kinds && kinds[r.layer] == r) && Complete(kinds) && forall l ::
               l in kinds ==> kinds[l] in rules
    ensures PolicyVerdict(ctx, kinds).allow <==> forall r :: r in rules ==> Grants(ctx, r)
  {
    hide InScope, SortedNames, Names, Prefixed, Where, AllMismatches, Withheld;
    WithheldMeaning(ctx, Granted(kinds));
    forall r ensures InScope(ctx, r) <==> forall f :: 0 <= f < 10 ==> Accepts(r.scopes[f], ctx.fields[f]) {
      InScopeIff(ctx, r);
    }
    hide Accepts;
    if forall r :: r in rules ==> Grants(ctx, r) {
      assert UnknownLayers(kinds) == {} && Outside(ctx, kinds) == {};
      forall p | p in ctx.requested ensures p in Granted(kinds) {
        assert Grants(ctx, kinds[ExternalWorkspaceAuthorization]);
      }
    }
    if PolicyVerdict(ctx, kinds).allow {
      forall r | r in rules ensures Grants(ctx, r) {
        assert r.layer !in UnknownLayers(kinds) && r.layer !in Outside(ctx, kinds);
      }
    }
  }

  /** On ALLOW the effective permissions are what all rules grant, and they hold all that was requested. */
  lemma EffectiveIsIntersection(ctx: Context, rules: seq<Rule>, p: string)
    requires Outcome(ctx, rules).allow
    ensures p in Outcome(ctx, rules).effective <==> forall r :: r in rules ==> p in r.permissions
    ensures p in ctx.requested ==> p in Outcome(ctx, rules).effective
    ensures IsSorted(TextLeq, Outcome(ctx, rules).effective) && Distinct(Outcome(ctx, rules).effective)
  {
    hide IsUnknown, InScope, UnknownFields, SortedNames, Names, Prefixed, Where, AllMismatches, Withheld, ByKind,
    Repeated, ExactlyOnce;
    var kinds := ByKind(rules);
    AllowIff(ctx, rules);
    OnceEachIffCounts(rules);
    KindsMeaning(rules);
    RepeatedMeaning(rules);
    forall r | r in rules ensures r.layer in kinds && kinds[r.layer] == r { ByKindOfUnique(rules, r); }
    assert p in Granted(kinds) <==> forall r :: r in rules ==> p in r.permissions;
    assert p in ctx.requested ==> forall r :: r in rules && Grants(ctx, r) ==> p in r.permissions;
  }

  /** Every denial says who denied and why. */
  lemma DenialIsExplained(ctx: Context, rules: seq<Rule>)
    requires !Outcome(ctx, rules).allow
    ensures Outcome(ctx, rules).deniedBy != [] && Outcome(ctx, rules).reasons != []
  {
    hide IsUnknown, UnknownFields, AllMismatches, ByKind, Repeated, Withheld, SortedNames, Where, LAYERS;
    var kinds := ByKind(rules);
    KindsMeaning(rules);
    var missing := Missing(kinds);
    NamesOf(missing + Repeated(rules));
    NamesOf(missing);
    NamesOf(Repeated(rules));
    MissingIffIncomplete(kinds);
    if UnknownFields(ctx, 10) == [] && !UnknownPermission(ctx) && missing == {} && Repeated(rules) == {} {
      PolicyDenialIsExplained(ctx, kinds);
    }
  }

  lemma NamesOf(chosen: set<Layer>)
    ensures |Names(Where(chosen))| == |Where(chosen)| == |SortedNames(chosen)|
    ensures chosen != {} <==> Where(chosen) != []
  {
    KeepMeaning(LAYERS, chosen);
    SortMembers(TextLeq, Names(Where(chosen)));
    forall l | l in chosen ensures l in Where(chosen) { AllLayersListed(l); }
    NoMembers(Where(chosen));
  }

  lemma PolicyDenialIsExplained(ctx: Context, kinds: map<Layer, Rule>)
    requires Complete(kinds) && !PolicyVerdict(ctx, kinds).allow
    ensures PolicyVerdict(ctx, kinds).deniedBy != [] && PolicyVerdict(ctx, kinds).reasons != []
  {
    hide InScope, Withheld, SortedNames, Where, AllMismatches;
    var granted := Granted(kinds);
    var withheld := Withheld(ctx, granted);
    NamesOf(UnknownLayers(kinds));
    NamesOf(Outside(ctx, kinds));
    NamesOf(Withholding(kinds, withheld));
    WithheldMeaning(ctx, granted);
    if l :| l in Outside(ctx, kinds) {
      MismatchesListed(ctx, kinds, l);
    }
    if withheld != [] {
      assert withheld[0] in withheld && withheld[0] !in granted;
      WithheldByNamed(kinds, withheld);
    }
  }

  lemma WithheldByNamed(kinds: map<Layer, Rule>, withheld: seq<string>)
    requires Complete(kinds) && withheld != [] && withheld[0] !in Granted(kinds)
    ensures Withholding(kinds, withheld) != {}
  {
    var p := withheld[0];
    assert p in withheld;
    if p !in kinds[ExternalWorkspaceAuthorization].permissions {
      assert ExternalWorkspaceAuthorization in Withholding(kinds, withheld);
    } else {
      var l :| l in kinds && p !in kinds[l].permissions;
      assert l in Withholding(kinds, withheld);
    }
  }

  lemma MismatchesListed(ctx: Context, kinds: map<Layer, Rule>, l: Layer)
    requires Complete(kinds) && !InScope(ctx, kinds[l])
    ensures AllMismatches(ctx, kinds, |LAYERS|) != []
  {
    AllLayersListed(l);
    var k: nat :| k < |LAYERS| && LAYERS[k] == l;
    var f: nat :| f < 10 && !MatchesScope(ctx.fields[f], kinds[l].scopes[f]);
    MismatchFound(ctx, kinds[l], f, 10);
    MismatchesGrow(ctx, kinds, k, |LAYERS|);
  }

  lemma {:induction false} MismatchFound(ctx: Context, rule: Rule, f: nat, n: nat)
    requires f < n <= 10 && !MatchesScope(ctx.fields[f], rule.scopes[f])
    ensures Mismatches(ctx, rule, n) != []
  {
    if f < n - 1 { MismatchFound(ctx, rule, f, n - 1); }
  }

  lemma {:induction false} MismatchesGrow(ctx: Context, kinds: map<Layer, Rule>, k: nat, n: nat)
    requires Complete(kinds) && k < n <= |LAYERS| && Mismatches(ctx, kinds[LAYERS[k]], 10) != []
    ensures AllMismatches(ctx, kinds, n) != []
  {
    if k < n - 1 { MismatchesGrow(ctx, kinds, k, n - 1); }
  }

  // --------------------------------------------------------------- order of layers

  /** Decision, effective permissions, deniers and reasons do not depend on the order of the rules. */
  lemma OrderDoesNotMatter(ctx: Context, a: seq<Rule>, b: seq<Rule>)
    requires multiset(a) == multiset(b)
    ensures Outcome(ctx, a) == Outcome(ctx, b)
  {
    hide ByKind, Repeated, UnknownFields, UnknownPermission, PolicyVerdict, SortedNames, Names, Prefixed, Where;
    forall r ensures r in a <==> r in b {
      assert r in a <==> r in multiset(a);
      assert r in b <==> r in multiset(b);
    }
    KindsMeaning(a);
    KindsMeaning(b);
    RepeatedMeaning(a);
    RepeatedMeaning(b);
    assert ByKind(a).Keys == ByKind(b).Keys;
    RepeatedCounts(a);
    RepeatedCounts(b);
    KindsCount(a, b);
    assert Repeated(a) == Repeated(b);
    assert Missing(ByKind(a)) == Missing(ByKind(b));
    if Repeated(a) == {} {
      forall l | l in ByKind(a) ensures ByKind(a)[l] == ByKind(b)[l] {
        ByKindOfUnique(b, ByKind(a)[l]);
      }
      assert ByKind(a) == ByKind(b);
    }
  }

  function Count(rules: seq<Rule>, l: Layer): nat {
    if rules == [] then 0 else Count(rules[..|rules| - 1], l) + if rules[|rules| - 1].layer == l then 1 else 0
  }

  lemma {:induction false} RepeatedCounts(rules: seq<Rule>)
    ensures forall l :: l in Repeated(rules) <==> Count(rules, l) >= 2
    ensures forall l :: l in ByKind(rules) <==> Count(rules, l) >= 1
  {
    if rules != [] { RepeatedCounts(rules[..|rules| - 1]); }
  }

  /** Take the last element of one sequence out of a permutation of it. */
  lemma WithoutLastElement(a: seq<Rule>, b: seq<Rule>) returns (front: seq<Rule>, back: seq<Rule>)
    requires multiset(a) == multiset(b) && a != []
    ensures b == front + [a[|a| - 1]] + back && multiset(a[..|a| - 1]) == multiset(front + back)
  {
    var last := a[|a| - 1];
    assert a == a[..|a| - 1] + [last];
    assert last in multiset(b);
    var k :| 0 <= k < |b| && b[k] == last;
    front, back := b[..k], b[k + 1..];
    assert b == front + [last] + back;
    assert multiset(front + back) == multiset(b) - multiset{last};
  }

  lemma {:induction false} KindsCount(a: seq<Rule>, b: seq<Rule>)
    requires multiset(a) == multiset(b)
    ensures forall l :: Count(a, l) == Count(b, l)
  {
    if a == [] {
      assert |multiset(b)| == 0;
    } else {
      var last := a[|a| - 1];
      var front, back := WithoutLastElement(a, b);
      KindsCount(a[..|a| - 1], front + back);
      forall l ensures Count(b, l) == Count(front + back, l) + Count([last], l) {
        CountAppend(front + [last], back, l);
        CountAppend(front, [last], l);
        CountAppend(front, back, l);
      }
      forall l ensures Count(a, l) == Count(a[..|a| - 1], l) + Count([last], l) {
        assert a == a[..|a| - 1] + [last];
        CountAppend(a[..|a| - 1], [last], l);
      }
    }
  }

  lemma {:induction false} CountAppend(a: seq<Rule>, b: seq<Rule>, l: Layer)
    ensures Count(a + b, l) == Count(a, l) + Count(b, l)
  {
    if b == [] {
      assert a + b == a;
    } else {
      CountAppend(a, b[..|b| - 1], l);
      assert (a + b)[..|a + b| - 1] == a + b[..|b| - 1];
    }
  }

  // ------------------------------------------------------------- who denies

  ghost predicate OutOfScope(ctx: Context, r: Rule) { exists f :: 0 <= f < 10 && !Accepts(r.scopes[f], ctx.fields[f]) }

  ghost predicate Withholds(ctx: Context, r: Rule) { exists p :: p in ctx.requested && p !in r.permissions }

  /** The layers to blame for a denial of a known request, at the first stage that finds any. */
  ghost predicate Guilty(ctx: Context, rules: seq<Rule>, l: Layer) {
    if !ExactlyOnce(rules) then !PresentOnce(rules, l)
    else if exists r :: r in rules && !r.known then exists r :: r in rules && r.layer == l && !r.known
    else if exists r :: r in rules && OutOfScope(ctx, r) then
      exists r :: r in rules && r.layer == l && OutOfScope(ctx, r)
    else exists r :: r in rules && r.layer == l && Withholds(ctx, r)
  }

  lemma NamesDiffer(k: Layer, l: Layer)
    ensures Name(k) == Name(l) ==> k == l
  {
  }

  lemma NameListed(chosen: set<Layer>, l: Layer)
    ensures Name(l) in Names(Where(chosen)) <==> l in chosen
    ensures Name(l) in SortedNames(chosen) <==> l in chosen
  {
    hide Name, LAYERS;
    var where := Where(chosen);
    KeepMeaning(LAYERS, chosen);
    SortMembers(TextLeq, Names(where));
    AllLayersListed(l);
    if l in chosen {
      var i :| 0 <= i < |where| && where[i] == l;
      assert Names(where)[i] == Name(l);
    }
    if Name(l) in Names(where) {
      var i :| 0 <= i < |where| && Names(where)[i] == Name(l);
      NamesDiffer(where[i], l);
    }
  }

  lemma PresentOnceGrows(init: seq<Rule>, last: Rule, l: Layer)
    ensures PresentOnce(init + [last], l) <==> if last.layer == l then !Present(init, l) else PresentOnce(init, l)
  {
    var rules := init + [last];
    if last.layer == l {
      if r :| r in init && r.layer == l {
        var i :| 0 <= i < |init| && init[i] == r;
        assert rules[i].layer == l && rules[|init|].layer == l;
      } else {
        forall j | 0 <= j < |init| ensures rules[j].layer != l { assert init[j] in init; }
        assert OnlyAt(rules, l, |init|);
      }
    } else {
      if i: nat :| OnlyAt(init, l, i) { assert OnlyAt(rules, l, i); }
      if i: nat :| OnlyAt(rules, l, i) {
        forall j | 0 <= j < |init| && init[j].layer == l ensures j == i { assert rules[j].layer == l; }
        assert OnlyAt(init, l, i);
      }
    }
  }

  lemma {:induction false} PresentOnceCounts(rules: seq<Rule>, l: Layer)
    ensures Count(rules, l) == 0 <==> !Present(rules, l)
    ensures Count(rules, l) == 1 <==> PresentOnce(rules, l)
  {
    if rules != [] {
      var init, last := rules[..|rules| - 1], rules[|rules| - 1];
      PresentOnceCounts(init, l);
      assert rules == init + [last];
      PresentOnceGrows(init, last, l);
      hide PresentOnce;
      if r :| r in init && r.layer == l { assert r in rules; }
      assert last in rules;
    }
  }

  /** A denied request with known input names exactly the guilty layers. */
  lemma DeniersAreGuilty(ctx: Context, rules: seq<Rule>, l: Layer)
    requires InputKnown(ctx) && !Outcome(ctx, rules).allow
    ensures Name(l) in Outcome(ctx, rules).deniedBy <==> Guilty(ctx, rules, l)
  {
    hide UnknownFields, UnknownPermission, InputKnown, Prefixed, Names, Name, SortedNames, Where, PolicyVerdict,
    AllMismatches, OutOfScope, Withholds, ByKind, Repeated, Present, PresentOnce;
    var kinds := ByKind(rules);
    InputKnownIff(ctx);
    KindsMeaning(rules);
    RepeatedMeaning(rules);
    RepeatedCounts(rules);
    forall k: Layer ensures (k !in kinds || k in Repeated(rules)) <==> !PresentOnce(rules, k) {
      PresentOnceCounts(rules, k);
    }
    NameListed(Missing(kinds) + Repeated(rules), l);
    MissingIffIncomplete(kinds);
    if ExactlyOnce(rules) {
      assert Missing(kinds) == {} && Repeated(rules) == {};
      forall r | r in rules ensures r.layer in kinds && kinds[r.layer] == r { ByKindOfUnique(rules, r); }
      PolicyDeniersAreGuilty(ctx, rules, kinds, l);
    }
  }

  lemma PolicyDeniersAreGuilty(ctx: Context, rules: seq<Rule>, kinds: map<Layer, Rule>, l: Layer)
    requires Complete(kinds) && ExactlyOnce(rules) && !PolicyVerdict(ctx, kinds).allow
    requires (forall r :: r in rules ==> r.layer in kinds && kinds[r.layer] == r)
             && forall k :: k in kinds ==> kinds[k] in rules && kinds[k].layer == k
    ensures Name(l) in PolicyVerdict(ctx, kinds).deniedBy <==> Guilty(ctx, rules, l)
  {
    hide Prefixed, Names, Name, SortedNames, Where, AllMismatches, OutOfScope, Withholds, Withheld, ExactlyOnce,
    InScope, Granted;
    NameListed(UnknownLayers(kinds), l);
    NameListed(Outside(ctx, kinds), l);
    forall r ensures InScope(ctx, r) <==> !OutOfScope(ctx, r) { NotInScope(ctx, r); }
    var withheld := Withheld(ctx, Granted(kinds));
    NameListed(Withholding(kinds, withheld), l);
    WithheldMeaning(ctx, Granted(kinds));
    WithholdingIff(ctx, kinds, withheld, l);
    assert kinds[l] in rules;
    if exists r :: r in rules && !r.known {
      var r :| r in rules && !r.known;
      assert r.layer in UnknownLayers(kinds);
    } else if exists r :: r in rules && OutOfScope(ctx, r) {
      assert UnknownLayers(kinds) == {};
      var r :| r in rules && OutOfScope(ctx, r);
      assert r.layer in Outside(ctx, kinds);
    } else {
      assert UnknownLayers(kinds) == {} && Outside(ctx, kinds) == {};
    }
  }

  lemma NotInScope(ctx: Context, r: Rule)
    ensures InScope(ctx, r) <==> !OutOfScope(ctx, r)
  {
    InScopeIff(ctx, r);
  }

  lemma WithholdingIff(ctx: Context, kinds: map<Layer, Rule>, withheld: seq<string>, l: Layer)
    requires Complete(kinds) && forall p :: p in withheld <==> p in ctx.requested && p !in Granted(kinds)
    ensures l in Withholding(kinds, withheld) <==> Withholds(ctx, kinds[l])
  {
  }

  ghost predicate MismatchedAt(ctx: Context, rule: Rule, f: nat, n: nat, line: string) {
    f < n && f < 10 && !Accepts(rule.scopes[f], ctx.fields[f]) && line == MismatchLine(rule, f)
  }

  lemma {:induction false} MismatchLines(ctx: Context, rule: Rule, n: nat, line: string)
    requires n <= 10
    ensures line in Mismatches(ctx, rule, n) <==> exists f: nat :: MismatchedAt(ctx, rule, f, n, line)
  {
    hide MismatchLine;
    if n > 0 {
      var m: nat := n - 1;
      MismatchLines(ctx, rule, m, line);
      if f: nat :| MismatchedAt(ctx, rule, f, m, line) { assert MismatchedAt(ctx, rule, f, n, line); }
      if f: nat :| MismatchedAt(ctx, rule, f, n, line) { assert f < m ==> MismatchedAt(ctx, rule, f, m, line); }
      if !Accepts(rule.scopes[m], ctx.fields[m]) && line == MismatchLine(rule, m) {
        assert MismatchedAt(ctx, rule, m, n, line);
      }
    }
  }

  lemma {:induction false} AllMismatchLines(ctx: Context, kinds: map<Layer, Rule>, n: nat, line: string)
    requires Complete(kinds) && n <= |LAYERS|
    ensures line in AllMismatches(ctx, kinds, n) <==>
              exists l :: l in LAYERS[..n] && line in Mismatches(ctx, kinds[l], 10)
  {
    hide Mismatches, LAYERS;
    if n > 0 {
      AllMismatchLines(ctx, kinds, n - 1, line);
      assert LAYERS[..n] == LAYERS[..n - 1] + [LAYERS[n - 1]];
    }
  }

  /** When nothing else is wrong, the reasons are one line for every field that some layer's list leaves out. */
  lemma ScopeReasons(ctx: Context, rules: seq<Rule>, line: string)
    requires InputKnown(ctx) && ExactlyOnce(rules) && (forall r :: r in rules ==> r.known)
    requires exists r :: r in rules && OutOfScope(ctx, r)
    ensures line in Outcome(ctx, rules).reasons <==>
              exists r, f: nat :: r in rules && MismatchedAt(ctx, r, f, 10, line)
  {
    hide UnknownFields, UnknownPermission, InputKnown, Prefixed, Names, Name, SortedNames, Where, AllMismatches,
    OutOfScope, ByKind, Repeated, Present, ExactlyOnce, MismatchedAt, Mismatches, LAYERS;
    var kinds := ByKind(rules);
    InputKnownIff(ctx);
    KindsMeaning(rules);
    RepeatedMeaning(rules);
    OnceEachIffCounts(rules);
    MissingIffIncomplete(kinds);
    assert Complete(kinds) by {
      forall l: Layer ensures l in kinds { assert Present(rules, l); }
    }
    forall r | r in rules ensures r.layer in kinds && kinds[r.layer] == r { ByKindOfUnique(rules, r); }
    assert UnknownLayers(kinds) == {};
    var out :| out in rules && OutOfScope(ctx, out);
    NotInScope(ctx, out);
    assert out.layer in Outside(ctx, kinds);
    AllMismatchLines(ctx, kinds, |LAYERS|, line);
    assert LAYERS[..|LAYERS|] == LAYERS;
    forall l | l in kinds
      ensures line in Mismatches(ctx, kinds[l], 10) <==> exists f: nat :: MismatchedAt(ctx, kinds[l], f, 10, line)
    {
      MismatchLines(ctx, kinds[l], 10, line);
      AllLayersListed(l);
    }
    forall l: Layer ensures l in LAYERS { AllLayersListed(l); }
  }

  // ------------------------------------------------------------------- narrowing

  /** The second list is missing, accepts everything, or holds all of the first. */
  ghost predicate NarrowerList(a: Option<seq<string>>, b: Option<seq<string>>) {
    b.Some? && "*" !in b.value ==> a.Some? && forall v :: v in a.value ==> v in b.value
  }

  lemma NarrowerAccepts(a: Option<seq<string>>, b: Option<seq<string>>, value: Option<string>)
    requires NarrowerList(a, b) && Accepts(a, value)
    ensures Accepts(b, value)
  {
  }

  /** `a` accepts and grants no more than `b`. */
  ghost predicate Narrower(a: Rule, b: Rule) {
    && a.layer == b.layer && (a.known ==> b.known)
    && (forall p :: p in a.permissions ==> p in b.permissions)
    && forall f :: 0 <= f < 10 ==> NarrowerList(a.scopes[f], b.scopes[f])
  }

  /** Narrowing one layer can never turn a denial into an allowance. */
  lemma NarrowingNeverAllows(ctx: Context, rules: seq<Rule>, i: nat, narrow: Rule)
    requires i < |rules| && Narrower(narrow, rules[i]) && Outcome(ctx, rules[i := narrow]).allow
    ensures Outcome(ctx, rules).allow
  {
    hide Accepts, NarrowerList, Known, Verdict, ByKind, Repeated;
    var narrowed := rules[i := narrow];
    AllowIff(ctx, rules);
    AllowIff(ctx, narrowed);
    forall r | r in rules ensures Grants(ctx, r) {
      var k :| 0 <= k < |rules| && rules[k] == r;
      assert narrowed[k] in narrowed && Grants(ctx, narrowed[k]);
      forall f | 0 <= f < 10 ensures Accepts(r.scopes[f], ctx.fields[f]) {
        if k == i { NarrowerAccepts(narrow.scopes[f], r.scopes[f], ctx.fields[f]); }
      }
    }
    OnceEachIffCounts(rules);
    OnceEachIffCounts(narrowed);
    assert OnceEach(rules) by {
      forall a, b | 0 <= a < b < |rules| ensures rules[a].layer != rules[b].layer {
        assert narrowed[a].layer != narrowed[b].layer;
      }
    }
    forall l: Layer ensures Present(rules, l) {
      assert Present(narrowed, l);
      var r :| r in narrowed && r.layer == l;
      var k :| 0 <= k < |narrowed| && narrowed[k] == r;
      assert rules[k] in rules && rules[k].layer == l;
    }
  }
}
