/**
  Target-doctor's vacuity analysis against the evaluator, on an unchanged state: which lock-only
  constraints really hold, which positive additions really fail, and what a scalar operator decides.
 */
module Doctor {
  import opened Values
  import opened Vocabulary
  import opened States
  import opened Deltas
  import opened DeltaLaws
  import opened Paths
  import opened Operators
  import opened Evaluator
  import opened ShortCircuit
  import opened Compiler
  import opened CompileSoundness

  // ---- the classification ----

  predicate Participates(c: Constraint) {
    !c.kind.RepairKind? && !c.operator.ChangedOnlyIn?
    && (c.severity.Info? ==> c.unknownPolicy.OnUnknownFail? || c.unknownPolicy.OnUnknownRepair?)
  }

  predicate IsLeaf(t: Target) { t.Dotted? && t.rest != [] }

  predicate IsLockOnly(c: Constraint) {
    var leaf, e := IsLeaf(c.target), c.expected;
    c.kind.DeltaKind? && !IsOpenTarget(c.target) &&
    match c.operator
    case EqualsBaseline => true
    case SupersetOfBaseline => true
    case NoNewItems => true
    case NoRemovedItems => true
    case Unchanged => true
    case ExcludesAll => leaf
    case SubsetOf => leaf
    case Equals =>
      || (c.source.FromTemplate? && e.Map? && e.entries != []
          && forall x | x in e.entries :: IsEmptyCollection(x.value))
      || (leaf && IsEmptyCollection(e))
      || (leaf && e == Num(0.0))
    case IncludesAll => leaf && IsEmptyCollection(e)
    case SupersetOf => leaf && IsEmptyCollection(e)
    case NotEquals => leaf && (if IsNumber(e) then e.n != 0.0 else !IsEmptyCollection(e))
    case LessThan => leaf && IsNumber(e) && 0.0 < e.n
    case LessThanOrEqual => leaf && IsNumber(e) && 0.0 <= e.n
    case GreaterThan => leaf && IsNumber(e) && 0.0 > e.n
    case GreaterThanOrEqual => leaf && IsNumber(e) && 0.0 >= e.n
    case WithinRange =>
      leaf && e.Seq? && |e.items| == 2 && IsNumber(e.items[0]) && IsNumber(e.items[1])
      && e.items[0].n <= 0.0 <= e.items[1].n
    case _ => false
  }

  predicate IsLockOnlyTarget(cs: seq<Constraint>) {
    && (exists c | c in cs :: Participates(c))
    && forall c | c in cs && Participates(c) :: IsLockOnly(c)
  }

  predicate TargetsAddition(t: Target) {
    t.Dotted? && t.rest != [] &&
    (|| (t.head.tag.ApiSurfaceDelta? && t.rest[0].tag.Added?)
     || (t.head.tag.TestSurfaceDelta? && t.rest[0].tag.NewCases?))
  }

  predicate IsPositiveAddition(c: Constraint) {
    Participates(c) && TargetsAddition(c.target) &&
    (if c.operator.Equals? || c.operator.IncludesAll? || c.operator.IncludesAny? || c.operator.SupersetOf?
     then !IsEmptyCollection(c.expected)
     else c.operator.NotEquals? && IsEmptyCollection(c.expected))
  }

  /** What the doctor may assume of a compiled constraint. */
  predicate Checked(c: Constraint) {
    WellTyped(c) && (c.source.FromTemplate? ==> TemplateForm(c))
  }

  lemma CompiledIsChecked(c: Constraint)
    requires FromCompiler(c)
    ensures Checked(c)
  {
    CompiledIsWellTyped(c);
    if k :| c in Templates(k) {
      TemplatesHaveForm(k);
    }
  }

  // ---- what an unchanged state shows ----

  function Unchanging(s: CodeState, apiAllow: seq<ApiAllowRule>, effectAllow: seq<EffectAllowRule>): Context {
    Context(EmptyDelta(), s, s, apiAllow, effectAllow)
  }

  /** The context a run really builds when both revisions are the same state. */
  lemma UnchangingIsTheRun(s: CodeState, apiAllow: seq<ApiAllowRule>, effectAllow: seq<EffectAllowRule>)
    ensures Context(ComputeDelta(s, s), s, s, apiAllow, effectAllow) == Unchanging(s, apiAllow, effectAllow)
  {
    UnchangedIsEmpty(s);
  }

  predicate IsCoverageTag(t: Tag) { t.Coverage? || t.CoverageDelta? }

  lemma EmptyLeaf(p: Shape)
    requires DeltaCategory(p).Some? && !p.One?
    ensures IsCollectionCategory(DeltaCategory(p).value) ==> DeltaValue(EmptyDelta(), p) == Some(Seq([]))
    ensures DeltaCategory(p).value.ScalarNumber? && !p.a.CoverageDelta? ==>
              DeltaValue(EmptyDelta(), p) == Some(Num(0.0))
    ensures p.a.CoverageDelta? ==> DeltaValue(EmptyDelta(), p) == None
    ensures IsCollectionCategory(DeltaCategory(p).value) || DeltaCategory(p).value.ScalarNumber?
  {
    assert Strings([]) == Seq([]);
    assert Project([], "fqn") == Project([], "module") == Seq([]);
  }

  lemma ViewOfNothing(c: Constraint, ctx: Context)
    requires ctx.delta == EmptyDelta()
    ensures DeltaView(c, ctx) == EmptyDelta()
  {
  }

  // ---- where a lock-only constraint really holds ----

  /**
    The doctor looks at the operator and the literal. The evaluator also depends on the leaf's
    category (a number is never equal to a list; `false` equals 0 and `{}` equals `[]`), on the
    tolerance, and on coverage being present.
   */
  predicate LockHolds(c: Constraint, s: CodeState)
  {
    var e, tol, category := c.expected, Tolerance(c.tolerance), CategoryOf(c.target);
    && (IsCollectionOperator(c.operator) && ShapeOf(c.target) == One(Coverage) ==> s.coverage.Some?)
    && !(c.target.Dotted? && c.target.head.tag.CoverageDelta?)
    && (match c.operator
        case Equals => category.RecordCategory? || (if category.ScalarNumber? then IsNumber(e) else e.Seq?)
        case NotEquals => if category.ScalarNumber? then e != Bool(false) else e != Map([])
        case LessThan => IsNumber(e) && 0.0 < e.n + tol
        case LessThanOrEqual => IsNumber(e) && 0.0 <= e.n + tol
        case GreaterThan => IsNumber(e) && 0.0 > e.n - tol
        case GreaterThanOrEqual => IsNumber(e) && 0.0 >= e.n - tol
        case WithinRange =>
          e.Seq? && |e.items| == 2 && IsNumber(e.items[0]) && IsNumber(e.items[1])
          && e.items[0].n - tol <= 0.0 <= e.items[1].n + tol
        case _ => true)
  }

  lemma EmptyCanonical(v: Value)
    ensures Canonical(v) == Canonical(Seq([])) <==> v == Seq([]) || v == Map([])
    ensures Canonical(v) == Canonical(Num(0.0)) <==> v == Num(0.0) || v == Bool(false)
  {
    assert Canonical(Seq([])).parts == [];
    if v.Seq? { assert |Canonical(v).parts| == |v.items|; }
    if v.Map? { assert |Canonical(v).parts| == |v.entries|; }
  }

  lemma ItemsOfNothing()
    ensures CollectionItems(Seq([])) == Some({})
  {
    var none: set<Canon> := {};
    assert (set x | x in Canonical(Seq([])).parts) == none;
  }

  /** On an empty collection leaf. */
  lemma EmptyCollectionLock(c: Constraint, s: CodeState)
    requires IsLockOnly(c) && WellTyped(c) && IsLeaf(c.target) && IsPureOperator(c.operator)
    requires IsCollectionCategory(CategoryOf(c.target)) && !c.target.head.tag.CoverageDelta?
    ensures EvalPure(c.operator, Seq([]), c.expected, c.tolerance) == Decide(LockHolds(c, s))
  {
    EmptyCanonical(c.expected);
    ItemsOfNothing();
    SeqHasItems(c.expected);
  }

  /** On a zero scalar leaf. */
  lemma ZeroScalarLock(c: Constraint, s: CodeState)
    requires IsLockOnly(c) && WellTyped(c) && IsLeaf(c.target) && IsPureOperator(c.operator)
    requires CategoryOf(c.target).ScalarNumber? && !c.target.head.tag.CoverageDelta?
    ensures EvalPure(c.operator, Num(0.0), c.expected, c.tolerance) == Decide(LockHolds(c, s))
  {
    EmptyCanonical(c.expected);
  }

  lemma LeafLock(c: Constraint, s: CodeState)
    requires Checked(c) && IsLockOnly(c) && IsLeaf(c.target)
    ensures EvalPureAt(c, NDelta(EmptyDelta())).Done?
    ensures EvalPureAt(c, NDelta(EmptyDelta())).result.status == Satisfied <==> LockHolds(c, s)
    ensures !c.target.head.tag.CoverageDelta? ==> !EvalPureAt(c, NDelta(EmptyDelta())).result.status.Unknown?
  {
    var p := ShapeOf(c.target);
    DeltaPathResolves(EmptyDelta(), c.target);
    EmptyLeaf(p);
    if !c.target.head.tag.CoverageDelta? {
      if IsCollectionCategory(CategoryOf(c.target)) {
        EmptyCollectionLock(c, s);
      } else {
        ZeroScalarLock(c, s);
      }
    }
  }

  lemma WholeDeltaLock(c: Constraint, s: CodeState)
    requires Checked(c) && IsLockOnly(c) && c.target.Dotted? && c.target.rest == [] && IsDeltaRoot(c.target.head.tag)
    ensures EvalPureAt(c, NDelta(EmptyDelta())) == Done(FromOutcome(c, Holds)) && LockHolds(c, s)
  {
    DeltaPathResolves(EmptyDelta(), c.target);
    assert RecordValue(RItems(ItemDelta([], []))) == NoItems();
  }

  lemma SelfComparison(op: Operator, v: Value)
    requires IsBaselineOperator(op) && !op.NotEqualsBaseline? && !op.HasChanged? && (v.Seq? || v.Null?)
    ensures EvalBaseline(op, v, v) == if IsCollectionOperator(op) && v.Null? then Mismatch else Holds
  {
    SeqHasItems(v);
  }

  lemma BaselineLock(c: Constraint, s: CodeState, v: CodeState)
    requires Checked(c) && IsLockOnly(c) && c.target.Dotted? && !IsDeltaRoot(c.target.head.tag)
    requires v.coverage == s.coverage
    ensures EvalBaselineAt(c, v, v).status == Satisfied <==> LockHolds(c, s)
    ensures !IsCoverageTag(c.target.head.tag) ==> !EvalBaselineAt(c, v, v).status.Unknown?
  {
    StatePathResolves(v, c.target);
    StateShape(v, c.target.head.tag);
    SelfComparison(c.operator, StateValue(v, c.target.head.tag).value);
  }

  /**
    On an unchanged state, a compiled lock-only constraint that is evaluated is satisfied exactly
    when `LockHolds`; away from coverage targets it is otherwise violated, never unknown.
   */
  lemma LockOnlyExact(c: Constraint, s: CodeState, apiAllow: seq<ApiAllowRule>, effectAllow: seq<EffectAllowRule>,
                      mode: Mode)
    requires Checked(c) && IsLockOnly(c) && IsEvaluated(c, mode)
    ensures ResultOf(c, Unchanging(s, apiAllow, effectAllow), mode).status == Satisfied <==> LockHolds(c, s)
    ensures !IsCoverageTag(c.target.head.tag) && !LockHolds(c, s) ==>
              ResultOf(c, Unchanging(s, apiAllow, effectAllow), mode).status == Violated
  {
    var ctx := Unchanging(s, apiAllow, effectAllow);
    ViewOfNothing(c, ctx);
    if IsLeaf(c.target) {
      LeafIsDelta(c);
      LeafLock(c, s);
    } else if IsDeltaRoot(c.target.head.tag) {
      WholeDeltaLock(c, s);
    } else {
      BaselineLock(c, s, StateView(c, s, ctx));
    }
  }

  lemma LeafIsDelta(c: Constraint)
    requires Checked(c) && IsLockOnly(c) && IsLeaf(c.target)
    ensures IsDeltaRoot(c.target.head.tag)
  {
  }

  // ---- verdicts ----

  function Untimed(extracted: Option<set<Dimension>>): Mode { Mode(extracted, {}, {}) }

  lemma QuietResult(c: Constraint, s: CodeState, apiAllow: seq<ApiAllowRule>, effectAllow: seq<EffectAllowRule>,
                    mode: Mode)
    requires FromCompiler(c) && mode == Untimed(mode.extracted)
    requires Participates(c) ==> IsLockOnly(c) && LockHolds(c, s)
    requires !ReadsNullCoverage(c, Unchanging(s, apiAllow, effectAllow))
    ensures !ForcesFail(ResultOf(c, Unchanging(s, apiAllow, effectAllow), mode))
    ensures !ForcesRepair(ResultOf(c, Unchanging(s, apiAllow, effectAllow), mode))
  {
    CompiledIsChecked(c);
    CompiledNeverBlamed(c, Unchanging(s, apiAllow, effectAllow), mode);
    if Participates(c) && IsEvaluated(c, mode) {
      LockOnlyExact(c, s, apiAllow, effectAllow, mode);
    }
  }

  /** Advisory D4's claim: a lock-only target whose locks hold passes on an unchanged state. */
  lemma LockOnlyTargetPasses(
    cs: seq<Constraint>, s: CodeState, apiAllow: seq<ApiAllowRule>, effectAllow: seq<EffectAllowRule>,
    extracted: Option<set<Dimension>>)
    requires forall c | c in cs :: FromCompiler(c)
    requires IsLockOnlyTarget(cs)
    requires forall c | c in cs && Participates(c) :: LockHolds(c, s)
    requires forall c | c in cs :: !ReadsNullCoverage(c, Unchanging(s, apiAllow, effectAllow))
    ensures RunVerdict(cs, Unchanging(s, apiAllow, effectAllow), Untimed(extracted)) == Pass
  {
    var ctx, mode := Unchanging(s, apiAllow, effectAllow), Untimed(extracted);
    var all := AllResults(cs, ctx, mode);
    forall i | 0 <= i < |cs| ensures !ForcesFail(all[i]) && !ForcesRepair(all[i]) {
      QuietResult(cs[i], s, apiAllow, effectAllow, mode);
    }
    VerdictPreserved(cs, ctx, mode);
  }

  lemma SevereResultFails(cs: seq<Constraint>, c: Constraint, ctx: Context, mode: Mode)
    requires c in cs && ForcesFail(ResultOf(c, ctx, mode))
    ensures RunVerdict(cs, ctx, mode) == Fail
  {
    var i :| 0 <= i < |cs| && cs[i] == c;
    assert AllResults(cs, ctx, mode)[i] == ResultOf(c, ctx, mode);
    VerdictPreserved(cs, ctx, mode);
  }

  // ---- scalar leaves ----

  /** The number a literal equals, booleans counting as 0 and 1. */
  function AsNumber(e: Value): Option<real> {
    match e
    case Num(n) => Some(n)
    case Bool(b) => Some(if b then 1.0 else 0.0)
    case _ => None
  }

  /** A whole number meets the operator and the literal, tolerance included. */
  predicate ScalarHolds(c: Constraint, value: int) {
    var e, tol, d := c.expected, Tolerance(c.tolerance), value as real;
    match c.operator
    case Equals => AsNumber(e) == Some(d)
    case NotEquals => AsNumber(e) != Some(d)
    case LessThan => IsNumber(e) && d < e.n + tol
    case LessThanOrEqual => IsNumber(e) && d <= e.n + tol
    case GreaterThan => IsNumber(e) && d > e.n - tol
    case GreaterThanOrEqual => IsNumber(e) && d >= e.n - tol
    case WithinRange =>
      e.Seq? && |e.items| == 2 && IsNumber(e.items[0]) && IsNumber(e.items[1])
      && e.items[0].n - tol <= d <= e.items[1].n + tol
    case _ => false
  }

  lemma ScalarOutcome(c: Constraint, value: int)
    requires IsPureOperator(c.operator) && !IsCollectionOperator(c.operator) && ExpectedFits(c.operator, c.expected)
    ensures EvalPure(c.operator, Num(value as real), c.expected, c.tolerance) == Decide(ScalarHolds(c, value))
  {
  }

  // ---- positive additions ----

  lemma AdditionLeaf(c: Constraint)
    requires Checked(c) && IsPositiveAddition(c)
    ensures c.kind.DeltaKind? && IsPureOperator(c.operator) && !c.target.head.tag.CoverageDelta?
    ensures DeltaCategory(ShapeOf(c.target)).Some? && !ShapeOf(c.target).One? && IsDeltaRoot(c.target.head.tag)
    ensures IsCollectionCategory(DeltaCategory(ShapeOf(c.target)).value)
  {
  }

  lemma AdditionOutcome(c: Constraint)
    requires IsPositiveAddition(c) && IsPureOperator(c.operator) && ExpectedFits(c.operator, c.expected)
    ensures EvalPure(c.operator, Seq([]), c.expected, c.tolerance)
         == Decide(c.operator.Equals? && c.expected == Map([]))
  {
    EmptyCanonical(c.expected);
    ItemsOfNothing();
    if IsExpectedCollectionOperator(c.operator) {
      var es := CollectionItems(c.expected).value;
      assert Canonical(c.expected).parts[0] in es;
    }
  }

  /**
    Advisories P1 and P2's claim: on an unchanged state a constraint classed as a positive addition
    is violated, except for `equals {}`, which the classification misses and the evaluator satisfies.
   */
  lemma PositiveAdditionExact(c: Constraint, s: CodeState, apiAllow: seq<ApiAllowRule>,
                              effectAllow: seq<EffectAllowRule>)
    requires FromCompiler(c) && IsPositiveAddition(c)
    ensures ResultOf(c, Unchanging(s, apiAllow, effectAllow), Untimed(None)).status
         == if c.operator.Equals? && c.expected == Map([]) then Satisfied else Violated
  {
    var ctx := Unchanging(s, apiAllow, effectAllow);
    AdditionReadsNothing(c);
    AdditionOutcome(c);
    ViewOfNothing(c, ctx);
    DeltaResult(c, ctx, Untimed(None), Seq([]));
  }

  /** The result of a delta constraint whose path resolves. */
  lemma DeltaResult(c: Constraint, ctx: Context, mode: Mode, v: Value)
    requires c.kind.DeltaKind? && IsPureOperator(c.operator) && IsEvaluated(c, mode) && IsDeltaRoot(c.target.head.tag)
    requires Resolve(NDelta(DeltaView(c, ctx)), c.target) == Some(v)
    ensures ResultOf(c, ctx, mode) == FromOutcome(c, EvalPure(c.operator, v, c.expected, c.tolerance))
  {
  }

  /** A positive addition reads an empty collection from the empty delta. */
  lemma AdditionReadsNothing(c: Constraint)
    requires FromCompiler(c) && IsPositiveAddition(c)
    ensures c.kind.DeltaKind? && IsEvaluated(c, Untimed(None)) && IsDeltaRoot(c.target.head.tag)
    ensures IsPureOperator(c.operator) && ExpectedFits(c.operator, c.expected)
    ensures Resolve(NDelta(EmptyDelta()), c.target) == Some(Seq([]))
  {
    CompiledIsChecked(c);
    AdditionLeaf(c);
    DeltaPathResolves(EmptyDelta(), c.target);
    EmptyLeaf(ShapeOf(c.target));
  }

  lemma PositiveAdditionFails(
    cs: seq<Constraint>, c: Constraint, s: CodeState, apiAllow: seq<ApiAllowRule>, effectAllow: seq<EffectAllowRule>)
    requires c in cs && FromCompiler(c) && IsPositiveAddition(c) && c.severity.Hard?
    requires !(c.operator.Equals? && c.expected == Map([]))
    ensures RunVerdict(cs, Unchanging(s, apiAllow, effectAllow), Untimed(None)) == Fail
  {
    PositiveAdditionExact(c, s, apiAllow, effectAllow);
    SevereResultFails(cs, c, Unchanging(s, apiAllow, effectAllow), Untimed(None));
  }

  // ---- the gaps, on concrete constraints ----

  function UserDelta(t: Target, op: Operator, expected: Value): Constraint {
    Constraint(Named("c"), DeltaKind, t, op, expected, Hard, OnUnknownFail, None, FromUser)
  }

  function CyclomaticTarget(): Target { Leaf(ComplexityDelta, "complexity_delta", Cyclomatic, "cyclomatic") }

  function AddedApiTarget(): Target { Leaf(ApiSurfaceDelta, "api_surface_delta", Added, "added") }

  /** Equalities and upper bounds on these leaves compile as written. */
  lemma LeafCompiles(c: Constraint)
    requires c == UserDelta(c.target, c.operator, c.expected).(tolerance := c.tolerance)
    requires c.target == CyclomaticTarget() || c.target == AddedApiTarget()
    requires c.operator.Equals? || c.operator.NotEquals?
          || (IsNumericOperator(c.operator) && c.target == CyclomaticTarget() && IsNumber(c.expected))
    ensures Accepts(c) && CompileUser(c) == c && FromCompiler(c) && IsEvaluated(c, Untimed(None))
  {
  }

  /** Compiled as written, classed lock-only, and yet reported violated on every unchanged state. */
  ghost predicate IsFalseLock(c: Constraint) {
    && Accepts(c) && CompileUser(c) == c && IsLockOnly(c)
    && forall s, apiAllow, effectAllow ::
         ResultOf(c, Unchanging(s, apiAllow, effectAllow), Untimed(None)).status == Violated
  }

  lemma BrokenLockIsFalse(c: Constraint)
    requires Accepts(c) && CompileUser(c) == c && IsLockOnly(c) && IsEvaluated(c, Untimed(None))
    requires !IsCoverageTag(c.target.head.tag) && forall s :: !LockHolds(c, s)
    ensures IsFalseLock(c)
  {
    CompiledIsChecked(c);
    forall s, apiAllow, effectAllow
      ensures ResultOf(c, Unchanging(s, apiAllow, effectAllow), Untimed(None)).status == Violated
    {
      LockOnlyExact(c, s, apiAllow, effectAllow, Untimed(None));
    }
  }

  /** `not_equals false` on a number: false equals the zero it reads. */
  lemma NotEqualsFalseGap()
    ensures IsFalseLock(UserDelta(CyclomaticTarget(), NotEquals, Bool(false)))
  {
    LeafCompiles(UserDelta(CyclomaticTarget(), NotEquals, Bool(false)));
    BrokenLockIsFalse(UserDelta(CyclomaticTarget(), NotEquals, Bool(false)));
  }

  /** `not_equals {}` on a list: the empty mapping equals the empty list it reads. */
  lemma NotEqualsMappingGap()
    ensures IsFalseLock(UserDelta(AddedApiTarget(), NotEquals, Map([])))
  {
    LeafCompiles(UserDelta(AddedApiTarget(), NotEquals, Map([])));
    BrokenLockIsFalse(UserDelta(AddedApiTarget(), NotEquals, Map([])));
  }

  /** `equals []` on a number: the literal is of the other category. */
  lemma EqualsEmptyListGap()
    ensures IsFalseLock(UserDelta(CyclomaticTarget(), Equals, Seq([])))
  {
    LeafCompiles(UserDelta(CyclomaticTarget(), Equals, Seq([])));
    BrokenLockIsFalse(UserDelta(CyclomaticTarget(), Equals, Seq([])));
  }

  /** `equals 0` on a list: the literal is of the other category. */
  lemma EqualsZeroGap()
    ensures IsFalseLock(UserDelta(AddedApiTarget(), Equals, Num(0.0)))
  {
    LeafCompiles(UserDelta(AddedApiTarget(), Equals, Num(0.0)));
    BrokenLockIsFalse(UserDelta(AddedApiTarget(), Equals, Num(0.0)));
  }

  /** A negative tolerance narrows the bound the doctor reads. */
  lemma ToleranceGap()
    ensures IsFalseLock(UserDelta(CyclomaticTarget(), LessThanOrEqual, Num(0.0)).(tolerance := Some(-1.0)))
  {
    LeafCompiles(UserDelta(CyclomaticTarget(), LessThanOrEqual, Num(0.0)).(tolerance := Some(-1.0)));
    BrokenLockIsFalse(UserDelta(CyclomaticTarget(), LessThanOrEqual, Num(0.0)).(tolerance := Some(-1.0)));
  }

  /** `equals {}` is classed as a positive addition, and satisfied by every unchanged state. */
  lemma PositiveAdditionGap(s: CodeState, apiAllow: seq<ApiAllowRule>, effectAllow: seq<EffectAllowRule>)
    ensures var c := UserDelta(AddedApiTarget(), Equals, Map([]));
      && Accepts(c) && CompileUser(c) == c && IsPositiveAddition(c)
      && ResultOf(c, Unchanging(s, apiAllow, effectAllow), Untimed(None)).status == Satisfied
  {
    var c := UserDelta(AddedApiTarget(), Equals, Map([]));
    LeafCompiles(c);
    PositiveAdditionExact(c, s, apiAllow, effectAllow);
  }
}
