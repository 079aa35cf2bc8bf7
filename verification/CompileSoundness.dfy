/**
  Compile-time checks against runtime branches: an accepted constraint never reaches the evaluator's
  operator-mismatch branch, and is blamed as an authoring error exactly when a nullable coverage
  value it needs is absent.
 */
module CompileSoundness {
  import opened Values
  import opened Vocabulary
  import opened States
  import opened Paths
  import opened Operators
  import opened Evaluator
  import opened Compiler

  /** The checks hold of the compiled constraint, not only of the one the user wrote. */
  predicate WellTyped(c: Constraint) {
    !c.kind.RepairKind? ==>
      && PathFits(c.kind, c.target)
      && OperatorFits(c.kind, c.target, c.operator)
      && TypeFits(c.target, c.operator, c.expected)
  }

  lemma NormalizedStillFits(t: Target, op: Operator, expected: Value)
    requires ExpectedFits(op, expected) && NormalizeExpected(t, op, expected).Some?
    ensures ExpectedFits(op, NormalizeExpected(t, op, expected).value)
  {
  }

  lemma UserIsWellTyped(u: Constraint)
    requires Accepts(u)
    ensures WellTyped(CompileUser(u))
  {
    if !u.kind.RepairKind? {
      NormalizedStillFits(u.target, u.operator, u.expected);
    }
  }

  lemma FormIsWellTyped(c: Constraint)
    requires TemplateForm(c)
    ensures WellTyped(c)
  {
  }

  lemma TemplateIsWellTyped(k: ChangeKind, c: Constraint)
    requires c in Templates(k)
    ensures WellTyped(c)
  {
    TemplatesHaveForm(k);
    FormIsWellTyped(c);
  }

  lemma CompiledIsWellTyped(c: Constraint)
    requires FromCompiler(c)
    ensures WellTyped(c)
  {
    if k :| c in Templates(k) {
      TemplateIsWellTyped(k, c);
    } else {
      var u :| Accepts(u) && c == CompileUser(u);
      UserIsWellTyped(u);
    }
  }

  // ---- observed shapes ----

  lemma StateShape(s: CodeState, t: Tag)
    requires IsStateRoot(t) && !IsOpenTag(t)
    ensures StateValue(s, t).Some?
    ensures !(t.Coverage? && s.coverage.None?) ==> StateValue(s, t).value.Seq?
    ensures t.Coverage? && s.coverage.None? ==> StateValue(s, t).value == Null
  {
  }

  /** A coverage leaf that is present but null. */
  predicate NullCoverageLeaf(d: CodeStateDelta, p: Shape) {
    d.coverageDelta.Some? &&
    (|| (p == Two(CoverageDelta, Line) && d.coverageDelta.value.line.None?)
     || (p == Two(CoverageDelta, Branch) && d.coverageDelta.value.branch.None?))
  }

  lemma DeltaShape(d: CodeStateDelta, p: Shape)
    requires DeltaCategory(p).Some?
    ensures DeltaValue(d, p) == None ==> p.Two? && p.a.CoverageDelta? && d.coverageDelta.None?
    ensures IsCollectionCategory(DeltaCategory(p).value) ==> DeltaValue(d, p).Some? && DeltaValue(d, p).value.Seq?
    ensures DeltaCategory(p).value.ScalarNumber? && DeltaValue(d, p).Some? ==>
              if NullCoverageLeaf(d, p) then DeltaValue(d, p).value == Null else DeltaValue(d, p).value.Num?
    ensures NullCoverageLeaf(d, p) ==> DeltaValue(d, p).Some?
  {
  }

  // ---- operators on well-shaped values ----

  predicate NeedsCollection(op: Operator) { IsCollectionOperator(op) }

  predicate NeedsNumber(op: Operator) { IsNumericOperator(op) || op.WithinRange? }

  lemma SeqHasItems(v: Value)
    ensures v.Seq? ==> CollectionItems(v).Some?
    ensures v.Null? || v.Num? ==> CollectionItems(v).None?
  {
  }

  /** With a well-formed expected literal, a pure operator mismatches exactly on the wrong observed type. */
  lemma PureMismatch(op: Operator, v: Value, expected: Value, tolerance: Option<real>)
    requires IsPureOperator(op) && ExpectedFits(op, expected)
    requires v.Seq? || v.Num? || v.Null? || !NeedsCollection(op)
    ensures EvalPure(op, v, expected, tolerance) == Mismatch <==>
              (NeedsCollection(op) && !v.Seq?) || (NeedsNumber(op) && !v.Num?)
  {
    SeqHasItems(v);
    SeqHasItems(expected);
  }

  lemma BaselineMismatch(op: Operator, b: Value, v: Value)
    requires IsBaselineOperator(op) && (b.Seq? || b.Null?) && (v.Seq? || v.Null?)
    ensures EvalBaseline(op, b, v) == Mismatch <==> NeedsCollection(op) && (b.Null? || v.Null?)
  {
    SeqHasItems(b);
    SeqHasItems(v);
  }

  // ---- the exact residue ----

  /** The constraint reads a nullable coverage value that is null, with an operator that needs it typed. */
  predicate ReadsNullCoverage(c: Constraint, ctx: Context) {
    match c.kind
    case StateKind =>
      ShapeOf(c.target) == One(Coverage) && NeedsCollection(c.operator) && ctx.candidate.coverage.None?
    case DeltaKind =>
      || (ShapeOf(c.target) == One(Coverage) && NeedsCollection(c.operator)
          && (ctx.baseline.coverage.None? || ctx.candidate.coverage.None?))
      || (NeedsNumber(c.operator) && NullCoverageLeaf(ctx.delta, ShapeOf(c.target)))
    case RepairKind => false
  }

  predicate IsEvaluated(c: Constraint, mode: Mode) {
    !c.kind.RepairKind? && !c.operator.ChangedOnlyIn? && c.target.Dotted?
    && !IsSkipped(c.target, mode) && !IsTimedOut(c.kind, c.target, mode)
  }

  predicate Blames(r: Result) { r.cause.Authoring? }

  lemma OpenIsNeverBlamed(c: Constraint, root: Node)
    requires IsOpenTarget(c.target) && IsPureOperator(c.operator)
    ensures EvalPureAt(c, root).Done? && !Blames(EvalPureAt(c, root).result)
    ensures EvalPureAt(c, root).result.error != EOperatorTargetMismatch
  {
  }

  lemma StateBlame(c: Constraint, s: CodeState)
    requires c.kind.StateKind? && WellTyped(c) && !c.operator.ChangedOnlyIn?
    ensures EvalState(c, s).Done?
    ensures EvalState(c, s).result.error != EOperatorTargetMismatch
    ensures Blames(EvalState(c, s).result) <==>
              ShapeOf(c.target) == One(Coverage) && NeedsCollection(c.operator) && s.coverage.None?
  {
    if IsOpenTarget(c.target) {
      OpenIsNeverBlamed(c, NState(s));
    } else {
      StatePathResolves(s, c.target);
      StateShape(s, c.target.head.tag);
      PureMismatch(c.operator, StateValue(s, c.target.head.tag).value, c.expected, c.tolerance);
    }
  }

  lemma PairBlame(c: Constraint, b: CodeState, v: CodeState)
    requires c.kind.DeltaKind? && WellTyped(c) && !c.operator.ChangedOnlyIn? && !IsOpenTarget(c.target)
    requires IsStateRoot(c.target.head.tag) && !IsDeltaRoot(c.target.head.tag)
    ensures EvalBaselineAt(c, b, v).error != EOperatorTargetMismatch
    ensures Blames(EvalBaselineAt(c, b, v)) <==>
              ShapeOf(c.target) == One(Coverage) && NeedsCollection(c.operator)
              && (b.coverage.None? || v.coverage.None?)
  {
    StatePathResolves(b, c.target);
    StatePathResolves(v, c.target);
    StateShape(b, c.target.head.tag);
    StateShape(v, c.target.head.tag);
    BaselineMismatch(c.operator, StateValue(b, c.target.head.tag).value, StateValue(v, c.target.head.tag).value);
  }

  lemma DeltaBlame(c: Constraint, d: CodeStateDelta)
    requires c.kind.DeltaKind? && WellTyped(c) && !c.operator.ChangedOnlyIn? && IsDeltaRoot(c.target.head.tag)
    ensures EvalPureAt(c, NDelta(d)).Done?
    ensures EvalPureAt(c, NDelta(d)).result.error != EOperatorTargetMismatch
    ensures Blames(EvalPureAt(c, NDelta(d)).result)
       <==> NeedsNumber(c.operator) && NullCoverageLeaf(d, ShapeOf(c.target))
  {
    if IsOpenTarget(c.target) {
      OpenIsNeverBlamed(c, NDelta(d));
    } else {
      ClosedDeltaBlame(c, d);
    }
  }

  lemma ClosedDeltaBlame(c: Constraint, d: CodeStateDelta)
    requires c.kind.DeltaKind? && WellTyped(c) && !c.operator.ChangedOnlyIn? && IsDeltaRoot(c.target.head.tag)
    requires !IsOpenTarget(c.target)
    ensures EvalPureAt(c, NDelta(d)).Done?
    ensures EvalPureAt(c, NDelta(d)).result.error != EOperatorTargetMismatch
    ensures Blames(EvalPureAt(c, NDelta(d)).result)
       <==> NeedsNumber(c.operator) && NullCoverageLeaf(d, ShapeOf(c.target))
  {
    var p := ShapeOf(c.target);
    ClosedDeltaFits(c);
    DeltaPathResolves(d, c.target);
    DeltaShape(d, p);
    if DeltaValue(d, p).Some? {
      BlameOfValue(c, NDelta(d), DeltaValue(d, p).value);
    } else {
      AbsentIsNotBlamed(c, NDelta(d));
    }
  }

  /** What the checks leave of a constraint on a closed delta path. */
  lemma ClosedDeltaFits(c: Constraint)
    requires c.kind.DeltaKind? && WellTyped(c) && !c.operator.ChangedOnlyIn? && IsDeltaRoot(c.target.head.tag)
    requires !IsOpenTarget(c.target)
    ensures IsDeltaPath(ShapeOf(c.target)) && DeltaCategory(ShapeOf(c.target)).Some?
    ensures IsPureOperator(c.operator) && ExpectedFits(c.operator, c.expected)
    ensures NeedsCollection(c.operator) ==> IsCollectionCategory(DeltaCategory(ShapeOf(c.target)).value)
    ensures NeedsNumber(c.operator) ==> DeltaCategory(ShapeOf(c.target)).value.ScalarNumber?
  {
  }

  lemma AbsentIsNotBlamed(c: Constraint, root: Node)
    requires c.target.Dotted? && IsDeltaPath(ShapeOf(c.target)) && IsPureOperator(c.operator)
    requires Resolve(root, c.target) == None
    ensures EvalPureAt(c, root).Done? && !Blames(EvalPureAt(c, root).result)
    ensures EvalPureAt(c, root).result.error != EOperatorTargetMismatch
  {
  }

  /** A resolved value is blamed on the author exactly when the operator cannot read its shape. */
  lemma BlameOfValue(c: Constraint, root: Node, v: Value)
    requires c.target.Dotted? && !IsOpenTarget(c.target)
    requires IsPureOperator(c.operator) && ExpectedFits(c.operator, c.expected)
    requires Resolve(root, c.target) == Some(v)
    requires v.Seq? || v.Num? || v.Null? || !NeedsCollection(c.operator)
    ensures EvalPureAt(c, root).Done? && EvalPureAt(c, root).result.error != EOperatorTargetMismatch
    ensures Blames(EvalPureAt(c, root).result) <==>
              (NeedsCollection(c.operator) && !v.Seq?) || (NeedsNumber(c.operator) && !v.Num?)
  {
    PureMismatch(c.operator, v, c.expected, c.tolerance);
  }

  lemma ViewsKeepCoverage(c: Constraint, ctx: Context)
    ensures DeltaView(c, ctx).coverageDelta == ctx.delta.coverageDelta
    ensures forall s :: StateView(c, s, ctx).coverage == s.coverage
  {
  }

  /**
    Every constraint the compiler lets through, on every pair of states, any delta and any mode: it
    is never reported as an operator/target mismatch, and it is blamed on the author exactly when it
    is evaluated and reads a null coverage value.
   */
  lemma CompiledNeverBlamed(c: Constraint, ctx: Context, mode: Mode)
    requires FromCompiler(c)
    ensures ResultOf(c, ctx, mode).error != EOperatorTargetMismatch
    ensures ResultOf(c, ctx, mode).cause.Authoring? <==> IsEvaluated(c, mode) && ReadsNullCoverage(c, ctx)
  {
    CompiledIsWellTyped(c);
    WellTypedBlame(c, ctx, mode);
  }

  lemma WellTypedBlame(c: Constraint, ctx: Context, mode: Mode)
    requires WellTyped(c)
    ensures ResultOf(c, ctx, mode).error != EOperatorTargetMismatch
    ensures ResultOf(c, ctx, mode).cause.Authoring? <==> IsEvaluated(c, mode) && ReadsNullCoverage(c, ctx)
  {
    if IsEvaluated(c, mode) {
      if c.kind.StateKind? {
        StateBlame(c, ctx.candidate);
      } else if IsDeltaRoot(c.target.head.tag) {
        ViewsKeepCoverage(c, ctx);
        DeltaBlame(c, DeltaView(c, ctx));
      } else {
        ViewsKeepCoverage(c, ctx);
        PairBlame(c, StateView(c, ctx.baseline, ctx), StateView(c, ctx.candidate, ctx));
      }
    }
  }

  // ---- the nullable read, on a concrete constraint ----

  /** A hard state constraint `coverage includes_all ["m"]`. */
  function CoverageIncludes(): Constraint {
    Constraint(Named("c"), StateKind, Dotted(Segment(Coverage, "coverage"), []), IncludesAll,
               Seq([Str("m")]), Hard, OnUnknownFail, None, FromUser)
  }

  lemma NormalizeOne(x: Value)
    requires !x.Map?
    ensures NormalizeItems(None, [x]) == Some([x])
  {
    var items := [x];
    assert items[..|items| - 1] == [];
    assert NormalizeItems(None, []) == Some([]);
    assert NormalizeItem(None, x) == Some(x);
    assert [] + [x] == [x];
  }

  /** It compiles, and a state without coverage has it blamed on the author. */
  lemma CoverageIncludesCompiles()
    ensures FromCompiler(CoverageIncludes())
  {
    var c := CoverageIncludes();
    NormalizeOne(Str("m"));
    assert Accepts(c) && CompileUser(c) == c;
  }

  lemma NullCoverageIsBlamed(ctx: Context)
    requires ctx.candidate.coverage.None?
    ensures FromCompiler(CoverageIncludes())
    ensures ResultOf(CoverageIncludes(), ctx, Mode(None, {}, {})).cause.Authoring?
  {
    CoverageIncludesCompiles();
    CompiledNeverBlamed(CoverageIncludes(), ctx, Mode(None, {}, {}));
  }
}
