/**
  The constraint vocabulary: operators and their classes, kinds, severities, target paths,
  compiled constraints and constraint results.
 */
module Vocabulary {
  import opened Values

  datatype Kind = StateKind | DeltaKind | RepairKind

  datatype Operator =
    | Equals | NotEquals | EqualsBaseline | NotEqualsBaseline
    | IncludesAll | IncludesAny | ExcludesAll | SubsetOf | SupersetOf | SupersetOfBaseline
    | NoNewItems | NoRemovedItems
    | LessThan | LessThanOrEqual | GreaterThan | GreaterThanOrEqual | WithinRange
    | Unchanged | HasChanged | ChangedOnlyIn

  datatype Severity = Hard | Soft | Info

  datatype UnknownPolicy = OnUnknownFail | OnUnknownRepair | OnUnknownWarn | OnUnknownIgnore

  datatype Source = FromTemplate | FromUser

  datatype ChangeKind = Feature | Bugfix | Refactor | TestUpdate | Generic

  datatype EffectClass =
    | Pure | Io | Net | Fs | Process | Env | TimeRandom | Stdout
    | DynamicCode | UnsafeDeserialize | GlobalMutation

  predicate IsBaselineOperator(op: Operator) {
    op.EqualsBaseline? || op.NotEqualsBaseline? || op.SupersetOfBaseline? || op.NoNewItems? ||
    op.NoRemovedItems? || op.Unchanged? || op.HasChanged?
  }

  predicate IsPureOperator(op: Operator) {
    op.Equals? || op.NotEquals? || op.IncludesAll? || op.IncludesAny? || op.ExcludesAll? ||
    op.SubsetOf? || op.SupersetOf? || IsNumericOperator(op) || op.WithinRange?
  }

  predicate IsNumericOperator(op: Operator) {
    op.LessThan? || op.LessThanOrEqual? || op.GreaterThan? || op.GreaterThanOrEqual?
  }

  /** Collection operators that take an expected list. */
  predicate IsExpectedCollectionOperator(op: Operator) {
    op.IncludesAll? || op.IncludesAny? || op.ExcludesAll? || op.SubsetOf? || op.SupersetOf?
  }

  predicate IsCollectionOperator(op: Operator) {
    IsExpectedCollectionOperator(op) || op.SupersetOfBaseline? || op.NoNewItems? || op.NoRemovedItems?
  }

  /** The schema field a target segment names; `Plain` is any other identifier. */
  datatype Tag =
    | ApiSurface | TypeRelations | Effects | ControlFlow | DataFlow | Imports | Complexity
    | TestSurface | Coverage | ModuleGraph | PythonSpecific | TypescriptSpecific | ApiSurfacePublic
    | ApiSurfaceDelta | DecoratorsDelta | TypeChanges | EffectChanges | CfgDelta | ImportsDelta
    | ComplexityDelta | TestSurfaceDelta | CoverageDelta | FilesTouched | LocDelta | Renames
    | Added | Removed | Changed | RemovedPublic | Fqns | Modules
    | NewBranches | RemovedBranches | Cyclomatic | Cognitive
    | NewFiles | NewCases | RemovedCases | Line | Branch
    | ModuleGraphDelta | ComplexityChanges | TestSurfaceChanges
    | Plain

  /** One dotted segment: the field it names and its text, which keys open mappings. */
  datatype Segment = Segment(tag: Tag, text: string)

  /** A target string: not a dotted identifier path, or a nonempty list of segments. */
  datatype Target = Malformed(text: string) | Dotted(head: Segment, rest: seq<Segment>)

  /** The schema-level reading of a target, up to the three levels the schema has. */
  datatype Shape = NoPath | One(a: Tag) | Two(a: Tag, b: Tag) | Three(a: Tag, b: Tag, c: Tag) | Longer(a: Tag)

  function ShapeOf(t: Target): Shape {
    match t
    case Malformed(_) => NoPath
    case Dotted(h, rest) =>
      if |rest| == 0 then One(h.tag)
      else if |rest| == 1 then Two(h.tag, rest[0].tag)
      else if |rest| == 2 then Three(h.tag, rest[0].tag, rest[1].tag)
      else Longer(h.tag)
  }

  predicate IsOpenTag(t: Tag) {
    t.PythonSpecific? || t.TypescriptSpecific?
  }

  /** `_is_open_target` and `is_open_path` on well-formed targets. */
  predicate IsOpenTarget(t: Target) {
    t.Dotted? && IsOpenTag(t.head.tag)
  }

  datatype TemplateId =
    | RefactorApi | RefactorTypes | RefactorEffects | RefactorTests
    | BugfixApi | BugfixEffects
    | FeatureRemovedApi | FeatureEffects
    | TestUpdateApi | TestUpdateEffects | TestUpdateImports

  datatype ConstraintId = Template(rule: TemplateId) | Named(text: string)

  datatype Constraint = Constraint(
    id: ConstraintId,
    kind: Kind,
    target: Target,
    operator: Operator,
    expected: Value,
    severity: Severity,
    unknownPolicy: UnknownPolicy,
    tolerance: Option<real>,
    source: Source)

  datatype Status = Satisfied | Violated | Unknown | Skipped

  datatype ErrorCode =
    | NoError | EViolation | ETypeMismatch | EPathUnresolved | EOperatorTargetMismatch
    | EOperatorUnsupported | ERepairKindUnsupported | EDimensionSkipped | EDimensionTimedOut
    | EHardLockShortCircuit

  datatype Cause = NoCause | Authoring | Extraction | OpenRuntime | EvaluatorInternal

  /** A constraint's result; the fields the source copies from the constraint are kept as one. */
  datatype Result = Result(constraint: Constraint, status: Status, error: ErrorCode, cause: Cause)

  datatype VerdictResult = Pass | Repair | Fail

  function Rank(v: VerdictResult): nat {
    match v
    case Pass => 0
    case Repair => 1
    case Fail => 2
  }

  datatype ApiAllowRule = ApiAllowRule(fqn: Option<string>, fqnPrefix: Option<string>)

  datatype EffectAllowRule = EffectAllowRule(fqn: Option<string>, effectClass: Option<EffectClass>)

  /** The allow rules of a target. */
  datatype Rules = Rules(apiAllow: seq<ApiAllowRule>, effectAllow: seq<EffectAllowRule>)

  datatype CompiledTarget = CompiledTarget(
    primaryKind: ChangeKind,
    constraints: seq<Constraint>,
    apiAllow: seq<ApiAllowRule>,
    effectAllow: seq<EffectAllowRule>)
}
