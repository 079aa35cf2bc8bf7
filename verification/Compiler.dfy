/** `compile_target_svp`: compile-time checks, match-schema normalisation, templates and id uniqueness. */
module Compiler {
  import opened Values
  import opened Vocabulary
  import opened Paths

  // ---- match schemas ----

  /** Keys an expected record may use for a target, and the keys of which it must use one. */
  datatype MatchSchema = MatchSchema(requiredKey: string, allowed: set<string>, requiredAny: set<string>)

  function SchemaFor(p: Shape): Option<MatchSchema> {
    var api := Some(MatchSchema("fqn", {"fqn", "kind", "visibility"}, {"fqn"}));
    var effect := Some(MatchSchema("fqn", {"fqn", "effect_class"}, {"fqn", "effect_class"}));
    var decorator := Some(MatchSchema("decorator", {"decorator", "decorator_leaf", "fqn"},
                                      {"decorator", "decorator_leaf"}));
    var imported := Some(MatchSchema("module", {"module", "from"}, {"module"}));
    match p
    case One(ApiSurface) => api
    case One(ApiSurfacePublic) => api
    case Two(ApiSurfaceDelta, Added) => api
    case Two(ApiSurfaceDelta, Removed) => api
    case Two(ApiSurfaceDelta, RemovedPublic) => api
    case Two(ApiSurfaceDelta, Changed) => Some(MatchSchema("fqn", {"fqn", "kind"}, {"fqn"}))
    case One(Effects) => effect
    case Two(EffectChanges, Added) => effect
    case Two(EffectChanges, Removed) => effect
    case Two(DecoratorsDelta, Added) => decorator
    case Two(DecoratorsDelta, Removed) => decorator
    case One(Imports) => imported
    case Two(ImportsDelta, Added) => imported
    case Two(ImportsDelta, Removed) => imported
    case One(Renames) => Some(MatchSchema("old_path", {"old_path", "new_path"}, {"old_path", "new_path"}))
    case _ => None
  }

  /** `_normalize_record`: forbidden and unknown keys, and a missing required key, are errors. */
  predicate RecordFits(s: MatchSchema, entries: seq<Entry>) {
    && (forall e | e in entries :: e.key in s.allowed)
    && exists e | e in entries :: e.key in s.requiredAny
  }

  function NormalizeItem(schema: Option<MatchSchema>, item: Value): Option<Value> {
    match item
    case Map(entries) => if schema.Some? && RecordFits(schema.value, entries) then Some(item) else None
    case Str(_) => if schema.Some? then Some(Map([Entry(schema.value.requiredKey, item)])) else Some(item)
    case _ => Some(item)
  }

  function NormalizeItems(schema: Option<MatchSchema>, items: seq<Value>): Option<seq<Value>>
  {
    if items == [] then Some([])
    else
      match (NormalizeItems(schema, items[..|items| - 1]), NormalizeItem(schema, items[|items| - 1]))
      case (Some(xs), Some(x)) => Some(xs + [x])
      case _ => None
  }

  method NormalizeList(schema: Option<MatchSchema>, items: seq<Value>) returns (r: Option<seq<Value>>)
    ensures r == NormalizeItems(schema, items)
    ensures r.None? <==> exists i :: 0 <= i < |items| && NormalizeItem(schema, items[i]).None?
    ensures r.Some? ==> IsNormalized(schema, items, r.value)
  {
    NormalizedPointwise(schema, items);
    var normalized := [];
    for i := 0 to |items|
      invariant NormalizeItems(schema, items[..i]) == Some(normalized)
    {
      assert items[..i + 1][..i] == items[..i];
      match NormalizeItem(schema, items[i]) {
        case Some(x) => normalized := normalized + [x];
        case None =>
          RejectionSpreads(schema, items, i + 1);
          return None;
      }
    }
    assert items[..|items|] == items;
    return Some(normalized);
  }

  /** Item by item, in order. */
  predicate IsNormalized(schema: Option<MatchSchema>, items: seq<Value>, normalized: seq<Value>) {
    |normalized| == |items| && forall i | 0 <= i < |items| :: NormalizeItem(schema, items[i]) == Some(normalized[i])
  }

  lemma {:induction false} NormalizedPointwise(schema: Option<MatchSchema>, items: seq<Value>)
    ensures NormalizeItems(schema, items).None?
       <==> exists i :: 0 <= i < |items| && NormalizeItem(schema, items[i]).None?
    ensures NormalizeItems(schema, items).Some? ==> IsNormalized(schema, items, NormalizeItems(schema, items).value)
  {
    if items != [] {
      var init, last := items[..|items| - 1], items[|items| - 1];
      NormalizedPointwise(schema, init);
      assert items == init + [last];
      if i :| 0 <= i < |init| && NormalizeItem(schema, init[i]).None? {
        assert items[i] == init[i];
      }
    }
  }

  lemma {:induction false} RejectionSpreads(schema: Option<MatchSchema>, items: seq<Value>, n: nat)
    requires n <= |items| && NormalizeItems(schema, items[..n]) == None
    ensures NormalizeItems(schema, items) == None
    decreases |items| - n
  {
    if n < |items| {
      assert items[..n + 1][..n] == items[..n];
      RejectionSpreads(schema, items, n + 1);
    } else {
      assert items[..n] == items;
    }
  }

  /** `normalize_collection_expected`; `None` is a match-schema error. */
  function NormalizeExpected(t: Target, op: Operator, expected: Value): Option<Value> {
    if !IsExpectedCollectionOperator(op) then Some(expected)
    else if IsEmptyCollection(expected) then (if op.ExcludesAll? || op.IncludesAny? then None else Some(expected))
    else
      var schema := SchemaFor(ShapeOf(t));
      match expected
      case Map(_) =>
        (match NormalizeItem(schema, expected) case Some(x) => Some(Seq([x])) case None => None)
      case Seq(items) =>
        (match NormalizeItems(schema, items) case Some(xs) => Some(Seq(xs)) case None => None)
      case _ => Some(expected)
  }

  // ---- the static checks ----

  /** `check_operator_target_compatibility`. */
  predicate OperatorFits(k: Kind, t: Target, op: Operator) {
    if k.RepairKind? || op.ChangedOnlyIn? then true
    else if k.StateKind? then !IsBaselineOperator(op)
    else if t.Malformed? then true
    else if IsDeltaRoot(t.head.tag) then !IsBaselineOperator(op)
    else if IsStateRoot(t.head.tag) then !IsPureOperator(op)
    else true
  }

  /** `_check_expected_shape`. */
  predicate ExpectedFits(op: Operator, expected: Value) {
    if IsExpectedCollectionOperator(op) then expected.Seq?
    else if IsNumericOperator(op) then IsNumber(expected)
    else if op.WithinRange? then
      expected.Seq? && |expected.items| == 2 && IsNumber(expected.items[0]) && IsNumber(expected.items[1])
    else true
  }

  /** `check_type_compatibility`. */
  predicate TypeFits(t: Target, op: Operator, expected: Value) {
    var category := CategoryOf(t);
    && (category.UnknownOpen? || !IsCollectionOperator(op) || IsCollectionCategory(category))
    && (category.UnknownOpen? || !(IsNumericOperator(op) || op.WithinRange?) || category.ScalarNumber?)
    && ExpectedFits(op, expected)
  }

  predicate PathFits(k: Kind, t: Target) {
    t.Dotted? && (IsOpenTarget(t) || if k.StateKind? then IsStatePath(ShapeOf(t)) else IsDeltaPath(ShapeOf(t)))
  }

  /** `_validate_target_svp_values` on one user constraint. */
  predicate Accepts(c: Constraint) {
    && c.target != Malformed("")
    && (!c.kind.RepairKind? ==>
        && PathFits(c.kind, c.target)
        && OperatorFits(c.kind, c.target, c.operator)
        && TypeFits(c.target, c.operator, c.expected)
        && NormalizeExpected(c.target, c.operator, c.expected).Some?)
  }

  /** `_compile_user_constraint`. */
  function CompileUser(c: Constraint): Constraint
    requires Accepts(c)
  {
    if c.kind.RepairKind? then c.(source := FromUser)
    else c.(expected := NormalizeExpected(c.target, c.operator, c.expected).value, source := FromUser)
  }

  // ---- templates ----

  function Root(tag: Tag, text: string): Target { Dotted(Segment(tag, text), []) }

  function Leaf(tag: Tag, text: string, sub: Tag, subText: string): Target {
    Dotted(Segment(tag, text), [Segment(sub, subText)])
  }

  function TemplateConstraint(rule: TemplateId, target: Target, op: Operator, expected: Value): Constraint {
    Constraint(Template(rule), DeltaKind, target, op, expected, Hard, OnUnknownFail, None, FromTemplate)
  }

  function NoItems(): Value { Map([Entry("added", Seq([])), Entry("removed", Seq([]))]) }

  function UnchangedApi(rule: TemplateId): Constraint {
    TemplateConstraint(rule, Root(ApiSurfacePublic, "api_surface_public"), EqualsBaseline, Null)
  }

  function NoNewEffects(rule: TemplateId): Constraint {
    TemplateConstraint(rule, Leaf(EffectChanges, "effect_changes", Added, "added"), Equals, Seq([]))
  }

  function UnchangedEffects(rule: TemplateId): Constraint {
    TemplateConstraint(rule, Root(EffectChanges, "effect_changes"), Equals, NoItems())
  }

  /** `TEMPLATE_CONSTRAINTS`. */
  function Templates(k: ChangeKind): seq<Constraint> {
    match k
    case Refactor =>
      [UnchangedApi(RefactorApi),
       TemplateConstraint(RefactorTypes, Root(TypeRelations, "type_relations"), EqualsBaseline, Null),
       UnchangedEffects(RefactorEffects),
       TemplateConstraint(RefactorTests, Root(TestSurface, "test_surface"), EqualsBaseline, Null)]
    case Bugfix => [UnchangedApi(BugfixApi), NoNewEffects(BugfixEffects)]
    case Feature =>
      [TemplateConstraint(FeatureRemovedApi,
                          Leaf(ApiSurfaceDelta, "api_surface_delta", RemovedPublic, "removed_public"), Equals, Seq([])),
       NoNewEffects(FeatureEffects)]
    case TestUpdate =>
      [UnchangedApi(TestUpdateApi), UnchangedEffects(TestUpdateEffects),
       TemplateConstraint(TestUpdateImports, Root(Imports, "imports"), EqualsBaseline, Null)]
    case Generic => []
  }

  /** The two forms a template takes: a state path equal to its baseline, or a delta path equal to nothing. */
  predicate TemplateForm(c: Constraint) {
    var p := ShapeOf(c.target);
    && c.kind.DeltaKind? && c.source.FromTemplate? && c.severity.Hard?
    && (|| (c.operator.EqualsBaseline?
            && (p == One(ApiSurfacePublic) || p == One(TypeRelations) || p == One(TestSurface) || p == One(Imports)))
        || (c.operator.Equals? && p == One(EffectChanges) && c.expected == NoItems())
        || (c.operator.Equals? && c.expected == Seq([])
            && (p == Two(EffectChanges, Added) || p == Two(ApiSurfaceDelta, RemovedPublic))))
  }

  lemma TemplatesHaveForm(k: ChangeKind)
    ensures forall i | 0 <= i < |Templates(k)| :: TemplateForm(Templates(k)[i])
  {
  }

  // ---- compilation ----

  datatype TargetSvp = TargetSvp(
    primaryKind: ChangeKind, constraints: seq<Constraint>,
    apiAllow: seq<ApiAllowRule>, effectAllow: seq<EffectAllowRule>)

  predicate ApiRuleFits(r: ApiAllowRule) {
    (r.fqn.Some? || r.fqnPrefix.Some?) && r.fqn != Some("") && r.fqnPrefix != Some("")
  }

  predicate EffectRuleFits(r: EffectAllowRule) {
    r.fqn.Some? || r.effectClass.Some?
  }

  predicate UniqueIds(cs: seq<Constraint>) {
    forall i, j | 0 <= i < j < |cs| :: cs[i].id != cs[j].id
  }

  function CompileAll(cs: seq<Constraint>): seq<Constraint>
    requires forall c | c in cs :: Accepts(c)
  {
    seq(|cs|, i requires 0 <= i < |cs| => CompileUser(cs[i]))
  }

  predicate Compiles(svp: TargetSvp) {
    && (forall c | c in svp.constraints :: Accepts(c))
    && (forall r | r in svp.apiAllow :: ApiRuleFits(r))
    && (forall r | r in svp.effectAllow :: EffectRuleFits(r))
    && UniqueIds(Templates(svp.primaryKind) + CompileAll(svp.constraints))
  }

  /** Templates in table order, then user constraints in declaration order. */
  function Compiled(svp: TargetSvp): CompiledTarget
    requires Compiles(svp)
  {
    CompiledTarget(svp.primaryKind, Templates(svp.primaryKind) + CompileAll(svp.constraints), svp.apiAllow,
                   svp.effectAllow)
  }

  /** `_validate_unique_ids`: one pass with the ids seen so far. */
  method ValidateUniqueIds(cs: seq<Constraint>) returns (ok: bool)
    ensures ok <==> UniqueIds(cs)
  {
    var seen: set<ConstraintId> := {};
    for i := 0 to |cs|
      invariant UniqueIds(cs[..i])
      invariant forall id :: id in seen <==> exists j :: 0 <= j < i && cs[j].id == id
    {
      if cs[i].id in seen {
        return false;
      }
      seen := seen + {cs[i].id};
    }
    assert cs[..|cs|] == cs;
    return true;
  }

  /** `compile_target_svp` from a parsed document; `None` is a compile error. */
  method CompileTarget(svp: TargetSvp) returns (r: Option<CompiledTarget>)
    ensures r.Some? <==> Compiles(svp)
    ensures r.Some? ==> r.value == Compiled(svp)
  {
    var user := [];
    for i := 0 to |svp.constraints|
      invariant forall c | c in svp.constraints[..i] :: Accepts(c)
      invariant user == CompileAll(svp.constraints[..i])
    {
      if !Accepts(svp.constraints[i]) {
        return None;
      }
      user := user + [CompileUser(svp.constraints[i])];
    }
    assert svp.constraints[..|svp.constraints|] == svp.constraints;
    if exists r | r in svp.apiAllow :: !ApiRuleFits(r) {
      return None;
    }
    if exists r | r in svp.effectAllow :: !EffectRuleFits(r) {
      return None;
    }
    var constraints := Templates(svp.primaryKind) + user;
    var unique := ValidateUniqueIds(constraints);
    if !unique {
      return None;
    }
    return Some(CompiledTarget(svp.primaryKind, constraints, svp.apiAllow, svp.effectAllow));
  }

  /** Constraints a compiled target can hold: rows of the template table, or accepted user constraints. */
  ghost predicate FromCompiler(c: Constraint) {
    || (exists k :: c in Templates(k))
    || (exists u :: Accepts(u) && c == CompileUser(u))
  }

  lemma CompiledConstraints(svp: TargetSvp)
    requires Compiles(svp)
    ensures forall c | c in Compiled(svp).constraints :: FromCompiler(c)
  {
    forall c | c in Compiled(svp).constraints ensures FromCompiler(c) {
      if c !in Templates(svp.primaryKind) {
        assert c in CompileAll(svp.constraints);
        var i :| 0 <= i < |svp.constraints| && c == CompileUser(svp.constraints[i]);
        assert Accepts(svp.constraints[i]);
      }
    }
  }
}
