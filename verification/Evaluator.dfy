/** `evaluate_constraints`: dispatch, allow-rule views, dimension skips, short-circuit and aggregation. */
module Evaluator {
  import opened Values
  import opened Vocabulary
  import opened States
  import opened Paths
  import opened Operators

  // ---- dimensions ----

  datatype Dimension =
    | DimApi | DimEffects | DimImports | DimComplexity | DimTests | DimModuleGraph
    | DimTypes | DimControlFlow | DimDataFlow | DimCoverage | DimTypescript

  /** `_dimension_for_target`; `decorators_delta` and bare `python_specific` have none. */
  function DimensionOf(t: Target): Option<Dimension>
    requires t.Dotted?
  {
    match t.head.tag
    case ApiSurface => Some(DimApi)
    case ApiSurfacePublic => Some(DimApi)
    case ApiSurfaceDelta => Some(DimApi)
    case Effects => Some(DimEffects)
    case EffectChanges => Some(DimEffects)
    case Imports => Some(DimImports)
    case ImportsDelta => Some(DimImports)
    case Complexity => Some(DimComplexity)
    case ComplexityDelta => Some(DimComplexity)
    case TestSurface => Some(DimTests)
    case TestSurfaceDelta => Some(DimTests)
    case ModuleGraph => Some(DimModuleGraph)
    case TypeRelations => Some(DimTypes)
    case TypeChanges => Some(DimTypes)
    case ControlFlow => Some(DimControlFlow)
    case CfgDelta => Some(DimControlFlow)
    case DataFlow => Some(DimDataFlow)
    case Coverage => Some(DimCoverage)
    case CoverageDelta => Some(DimCoverage)
    case PythonSpecific =>
      if t.rest == [] then None
      else (match t.rest[0].tag
            case ModuleGraphDelta => Some(DimModuleGraph)
            case ComplexityChanges => Some(DimComplexity)
            case TestSurfaceChanges => Some(DimTests)
            case _ => None)
    case TypescriptSpecific => Some(DimTypescript)
    case _ => None
  }

  /** Which dimensions were extracted (all, if none are listed) and which timed out on each side. */
  datatype Mode = Mode(extracted: Option<set<Dimension>>, baselineTimedOut: set<Dimension>,
                       candidateTimedOut: set<Dimension>)

  predicate IsSkipped(t: Target, mode: Mode)
    requires t.Dotted?
  {
    mode.extracted.Some? && DimensionOf(t).Some? && DimensionOf(t).value !in mode.extracted.value
  }

  predicate IsTimedOut(k: Kind, t: Target, mode: Mode)
    requires t.Dotted?
  {
    DimensionOf(t).Some? &&
    (match k
     case StateKind => DimensionOf(t).value in mode.candidateTimedOut
     case DeltaKind => DimensionOf(t).value in mode.baselineTimedOut + mode.candidateTimedOut
     case RepairKind => false)
  }

  // ---- allow rules ----

  datatype Context = Context(
    delta: CodeStateDelta, baseline: CodeState, candidate: CodeState,
    apiAllow: seq<ApiAllowRule>, effectAllow: seq<EffectAllowRule>)

  predicate HasPrefix(s: string, p: string) { |p| <= |s| && s[..|p|] == p }

  predicate ApiRuleMatches(fqn: string, r: ApiAllowRule) {
    r.fqn == Some(fqn) || (r.fqnPrefix.Some? && HasPrefix(fqn, r.fqnPrefix.value))
  }

  predicate ApiAllowed(fqn: string, rules: seq<ApiAllowRule>) {
    exists r | r in rules :: ApiRuleMatches(fqn, r)
  }

  predicate EffectRuleMatches(effect: Value, r: EffectAllowRule) {
    && (r.fqn.Some? ==>
        Str(r.fqn.value) in {FieldOf(effect, "fqn"), FieldOf(FieldOf(effect, "evidence"), "resolved_call")})
    && (r.effectClass.Some? ==> FieldOf(effect, "effect_class") == Str(EffectClassText(r.effectClass.value)))
  }

  predicate EffectAllowed(effect: Value, rules: seq<EffectAllowRule>) {
    exists r | r in rules :: EffectRuleMatches(effect, r)
  }

  function KeepEntry(rules: seq<ApiAllowRule>): ApiEntry -> bool {
    (e: ApiEntry) => !ApiAllowed(e.fqn, rules)
  }

  function KeepRecord(rules: seq<ApiAllowRule>): Value -> bool {
    (v: Value) => !(FieldOf(v, "fqn").Str? && ApiAllowed(FieldOf(v, "fqn").s, rules))
  }

  function KeepEffect(rules: seq<EffectAllowRule>): Value -> bool {
    (v: Value) => !EffectAllowed(v, rules)
  }

  predicate IsRemovedApiTemplate(c: Constraint) {
    c.source.FromTemplate? && c.id == Template(FeatureRemovedApi)
    && ShapeOf(c.target) == Two(ApiSurfaceDelta, RemovedPublic) && c.operator.Equals?
  }

  predicate IsNewEffectsTemplate(c: Constraint) {
    c.source.FromTemplate? && (c.id == Template(BugfixEffects) || c.id == Template(FeatureEffects))
    && ShapeOf(c.target) == Two(EffectChanges, Added) && c.operator.Equals?
  }

  predicate IsUnchangedApiTemplate(c: Constraint) {
    c.source.FromTemplate?
    && (c.id == Template(RefactorApi) || c.id == Template(BugfixApi) || c.id == Template(TestUpdateApi))
    && ShapeOf(c.target) == One(ApiSurfacePublic) && c.operator.EqualsBaseline?
  }

  /** `_delta_for_constraint`. */
  function DeltaView(c: Constraint, ctx: Context): CodeStateDelta {
    var d := ctx.delta;
    var d1 := if IsRemovedApiTemplate(c)
              then d.(apiSurfaceDelta :=
                d.apiSurfaceDelta.(removed := Filter(d.apiSurfaceDelta.removed, KeepRecord(ctx.apiAllow))))
              else d;
    if IsNewEffectsTemplate(c)
    then d1.(effectChanges := d1.effectChanges.(added := Filter(d1.effectChanges.added, KeepEffect(ctx.effectAllow))))
    else d1
  }

  /** `_states_for_constraint`, for one of the two states. */
  function StateView(c: Constraint, s: CodeState, ctx: Context): CodeState {
    if IsUnchangedApiTemplate(c) then s.(apiSurface := Filter(s.apiSurface, KeepEntry(ctx.apiAllow))) else s
  }

  // ---- one constraint ----

  /** `_resolved_unknown_cause`. */
  function UnresolvedCause(t: Target): Cause {
    if IsOpenTarget(t) then OpenRuntime
    else if IsDeltaPath(ShapeOf(t)) then Extraction
    else Authoring
  }

  function UnknownResult(c: Constraint, e: ErrorCode, cause: Cause): Result { Result(c, Unknown, e, cause) }

  /** `_from_operator_outcome`: mismatches on open targets are runtime facts, not authoring errors. */
  function FromOutcome(c: Constraint, o: Outcome): Result {
    match o
    case Holds => Result(c, Satisfied, NoError, NoCause)
    case Fails => Result(c, Violated, EViolation, NoCause)
    case Mismatch => UnknownResult(c, ETypeMismatch, if IsOpenTarget(c.target) then OpenRuntime else Authoring)
  }

  /** A result, or the assertion the source raises for an operator it does not dispatch. */
  datatype Eval = Done(result: Result) | Raised

  function EvalPureAt(c: Constraint, root: Node): Eval
    requires c.target.Dotted?
  {
    if IsBaselineOperator(c.operator) then Done(UnknownResult(c, EOperatorTargetMismatch, Authoring))
    else if !IsPureOperator(c.operator) then Raised
    else match Resolve(root, c.target)
      case None => Done(UnknownResult(c, EPathUnresolved, UnresolvedCause(c.target)))
      case Some(v) => Done(FromOutcome(c, EvalPure(c.operator, v, c.expected, c.tolerance)))
  }

  function EvalState(c: Constraint, candidate: CodeState): Eval
    requires c.target.Dotted?
  {
    if !IsStateRoot(c.target.head.tag) then Done(UnknownResult(c, EPathUnresolved, Authoring))
    else EvalPureAt(c, NState(candidate))
  }

  function EvalBaselineAt(c: Constraint, baseline: CodeState, candidate: CodeState): Result
    requires c.target.Dotted?
  {
    if !IsBaselineOperator(c.operator) then UnknownResult(c, EOperatorTargetMismatch, Authoring)
    else match (Resolve(NState(baseline), c.target), Resolve(NState(candidate), c.target))
      case (Some(b), Some(v)) => FromOutcome(c, EvalBaseline(c.operator, b, v))
      case _ => UnknownResult(c, EPathUnresolved, UnresolvedCause(c.target))
  }

  function EvalDelta(c: Constraint, delta: CodeStateDelta, baseline: CodeState, candidate: CodeState): Eval
    requires c.target.Dotted?
  {
    if IsDeltaRoot(c.target.head.tag) then EvalPureAt(c, NDelta(delta))
    else if IsStateRoot(c.target.head.tag) then Done(EvalBaselineAt(c, baseline, candidate))
    else Done(UnknownResult(c, EPathUnresolved, Authoring))
  }

  /** `_evaluate_constraint`. */
  function Evaluate(c: Constraint, ctx: Context, mode: Mode): Eval {
    if c.kind.RepairKind? then Done(Result(c, Skipped, ERepairKindUnsupported, NoCause))
    else if c.operator.ChangedOnlyIn? then Done(Result(c, Skipped, EOperatorUnsupported, NoCause))
    else if c.target.Malformed? then Done(UnknownResult(c, EPathUnresolved, Authoring))
    else if IsSkipped(c.target, mode) then Done(Result(c, Skipped, EDimensionSkipped, NoCause))
    else if IsTimedOut(c.kind, c.target, mode) then Done(UnknownResult(c, EDimensionTimedOut, Extraction))
    else if c.kind.StateKind? then EvalState(c, ctx.candidate)
    else EvalDelta(c, DeltaView(c, ctx), StateView(c, ctx.baseline, ctx), StateView(c, ctx.candidate, ctx))
  }

  /** Every operator is dispatched: the unhandled-operator assertions cannot fire on any input. */
  lemma NeverRaises(c: Constraint, ctx: Context, mode: Mode)
    ensures Evaluate(c, ctx, mode).Done? && Evaluate(c, ctx, mode).result.constraint == c
  {
  }

  function ResultOf(c: Constraint, ctx: Context, mode: Mode): (r: Result)
    ensures r.constraint == c
  {
    NeverRaises(c, ctx, mode);
    Evaluate(c, ctx, mode).result
  }

  // ---- short-circuit ----

  /** `_DELTA_LOCK_COLLECTION_TARGETS`. */
  predicate IsLockCollection(p: Shape) {
    match p
    case One(TypeChanges) => true
    case Two(ApiSurfaceDelta, b) => b.Added? || b.Removed? || b.RemovedPublic? || b.Changed?
    case Two(EffectChanges, b) => b.Added? || b.Removed?
    case Two(ImportsDelta, b) => b.Added? || b.Removed?
    case Two(TestSurfaceDelta, b) => b.NewFiles? || b.NewCases? || b.RemovedCases?
    case Three(ApiSurfaceDelta, Added, Fqns) => true
    case Three(EffectChanges, Added, Fqns) => true
    case Three(ImportsDelta, Added, Modules) => true
    case _ => false
  }

  /** `_EMPTY_EQUALS_LOCK_RECORD_TARGETS`. */
  function LockRecordKeys(p: Shape): Option<set<string>> {
    match p
    case One(ApiSurfaceDelta) => Some({"added", "removed", "changed"})
    case One(EffectChanges) => Some({"added", "removed"})
    case One(ImportsDelta) => Some({"added", "removed"})
    case One(TestSurfaceDelta) => Some({"new_files", "new_cases", "removed_cases"})
    case _ => None
  }

  predicate IsEmptyEqualsLock(c: Constraint) {
    c.kind.DeltaKind? && c.operator.Equals? &&
    if IsLockCollection(ShapeOf(c.target)) then IsEmptyCollection(c.expected)
    else
      && LockRecordKeys(ShapeOf(c.target)).Some? && c.expected.Map?
      && (set e | e in c.expected.entries :: e.key) == LockRecordKeys(ShapeOf(c.target)).value
      && forall e | e in c.expected.entries :: IsEmptyCollection(e.value)
  }

  predicate IsDenyLock(c: Constraint) {
    c.kind.DeltaKind? && (c.operator.ExcludesAll? || c.operator.SubsetOf?) && IsLockCollection(ShapeOf(c.target))
  }

  predicate IsUserLock(c: Constraint) {
    && c.source.FromUser? && c.severity.Hard?
    && (|| c.operator.EqualsBaseline? || c.operator.SupersetOfBaseline? || c.operator.NoNewItems?
        || c.operator.NoRemovedItems? || c.operator.Unchanged?
        || IsEmptyEqualsLock(c) || IsDenyLock(c))
  }

  /** `_should_short_circuit`. */
  predicate Triggers(r: Result) {
    IsUserLock(r.constraint) && (r.status.Violated? || (r.status.Unknown? && r.cause.Authoring?))
  }

  function ShortCircuitSkip(c: Constraint): Result { Result(c, Skipped, EHardLockShortCircuit, NoCause) }

  // ---- aggregation ----

  predicate ForcesFail(r: Result) {
    || (r.status.Violated? && r.constraint.severity.Hard?)
    || (r.status.Unknown? && (r.cause.Authoring? || r.constraint.unknownPolicy.OnUnknownFail?))
  }

  predicate ForcesRepair(r: Result) {
    || (r.status.Violated? && r.constraint.severity.Soft?)
    || (r.status.Unknown? && r.constraint.unknownPolicy.OnUnknownRepair?)
  }

  function VerdictOf(rs: seq<Result>): VerdictResult {
    if exists i | 0 <= i < |rs| :: ForcesFail(rs[i]) then Fail
    else if exists i | 0 <= i < |rs| :: ForcesRepair(rs[i]) then Repair
    else Pass
  }

  /** `_aggregate`: one pass with an early FAIL and a repair flag. */
  method Aggregate(rs: seq<Result>) returns (v: VerdictResult)
    ensures v == VerdictOf(rs)
  {
    var hasRepair := false;
    for i := 0 to |rs|
      invariant forall j | 0 <= j < i :: !ForcesFail(rs[j])
      invariant hasRepair <==> exists j | 0 <= j < i :: ForcesRepair(rs[j])
    {
      var r := rs[i];
      if r.status.Violated? {
        if r.constraint.severity.Hard? {
          return Fail;
        } else if r.constraint.severity.Soft? {
          hasRepair := true;
        }
      } else if r.status.Unknown? {
        if r.cause.Authoring? {
          return Fail;
        }
        if r.constraint.unknownPolicy.OnUnknownFail? {
          return Fail;
        }
        if r.constraint.unknownPolicy.OnUnknownRepair? {
          hasRepair := true;
        }
      }
    }
    return if hasRepair then Repair else Pass;
  }

  // ---- the whole run ----

  datatype Verdict = Verdict(result: VerdictResult, results: seq<Result>)

  function ContextOf(t: CompiledTarget, delta: CodeStateDelta, baseline: CodeState, candidate: CodeState): Context {
    Context(delta, baseline, candidate, t.apiAllow, t.effectAllow)
  }

  /** Every constraint's own result, with no short-circuit. */
  function AllResults(cs: seq<Constraint>, ctx: Context, mode: Mode): seq<Result> {
    seq(|cs|, i requires 0 <= i < |cs| => ResultOf(cs[i], ctx, mode))
  }

  /** No constraint before position `n` triggers the short-circuit. */
  ghost predicate QuietBefore(cs: seq<Constraint>, ctx: Context, mode: Mode, n: nat)
    requires n <= |cs|
  {
    forall i | 0 <= i < n :: !Triggers(ResultOf(cs[i], ctx, mode))
  }

  /** What the run reports at position `i`: the constraint's own result until a lock has tripped before it. */
  ghost function Reported(cs: seq<Constraint>, ctx: Context, mode: Mode, i: nat): Result
    requires i < |cs|
  {
    if QuietBefore(cs, ctx, mode, i) then ResultOf(cs[i], ctx, mode) else ShortCircuitSkip(cs[i])
  }

  lemma QuietStep(cs: seq<Constraint>, ctx: Context, mode: Mode, n: nat)
    requires n < |cs|
    ensures QuietBefore(cs, ctx, mode, n + 1)
       <==> QuietBefore(cs, ctx, mode, n) && !Triggers(ResultOf(cs[n], ctx, mode))
  {
  }

  method EvaluateConstraints(t: CompiledTarget, delta: CodeStateDelta, baseline: CodeState, candidate: CodeState,
                             mode: Mode)
    returns (v: Verdict)
    ensures |v.results| == |t.constraints|
    ensures forall i | 0 <= i < |t.constraints| ::
              v.results[i] == Reported(t.constraints, ContextOf(t, delta, baseline, candidate), mode, i)
    ensures v.result == VerdictOf(v.results)
  {
    var ctx := ContextOf(t, delta, baseline, candidate);
    var cs := t.constraints;
    var results := [];
    var shortCircuited := false;
    for n := 0 to |cs|
      invariant |results| == n
      invariant forall i | 0 <= i < n :: results[i] == Reported(cs, ctx, mode, i)
      invariant shortCircuited <==> !QuietBefore(cs, ctx, mode, n)
    {
      QuietStep(cs, ctx, mode, n);
      if shortCircuited {
        results := results + [ShortCircuitSkip(cs[n])];
      } else {
        var r := ResultOf(cs[n], ctx, mode);
        results := results + [r];
        if Triggers(r) {
          shortCircuited := true;
        }
      }
    }
    var result := Aggregate(results);
    return Verdict(result, results);
  }
}
