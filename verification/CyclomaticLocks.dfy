/**
  Cyclomatic locks and advisory D7: which deltas the doctor's test rejects, which the evaluator
  rejects, and when the two agree.
 */
module CyclomaticLocks {
  import opened Values
  import opened Vocabulary
  import opened States
  import opened Paths
  import opened Operators
  import opened Compiler
  import opened Evaluator
  import opened CompileSoundness
  import opened Doctor

  /** `_rejects_cyclomatic_delta`. */
  predicate RejectsCyclomatic(c: Constraint, delta: int) {
    var e, tol, d := c.expected, Tolerance(c.tolerance), delta as real;
    match c.operator
    case LessThanOrEqual => IsNumber(e) && !(d <= e.n + tol)
    case LessThan => IsNumber(e) && !(d < e.n + tol)
    case Equals => IsNumber(e) && e.n != d
    case WithinRange =>
      e.Seq? && |e.items| == 2 && IsNumber(e.items[0]) && IsNumber(e.items[1])
      && !(e.items[0].n - tol <= d <= e.items[1].n + tol)
    case _ => false
  }

  /** A delta the evaluator rejects and D7 does not: a lower bound it breaks, an excluded value it hits,
      or an equality with something that is not a number. */
  predicate MissedByD7(c: Constraint, delta: int) {
    var e, tol, d := c.expected, Tolerance(c.tolerance), delta as real;
    match c.operator
    case GreaterThan => IsNumber(e) && d <= e.n - tol
    case GreaterThanOrEqual => IsNumber(e) && d < e.n - tol
    case Equals => !IsNumber(e) && AsNumber(e) != Some(d)
    case NotEquals => AsNumber(e) == Some(d)
    case _ => false
  }

  /** What the literal must be for D7 to miss nothing. */
  predicate D7SeesAll(c: Constraint) {
    match c.operator
    case GreaterThan => false
    case GreaterThanOrEqual => false
    case Equals => IsNumber(c.expected)
    case NotEquals =>
      AsNumber(c.expected).None? || AsNumber(c.expected).value.Floor as real != AsNumber(c.expected).value
    case _ => true
  }

  /** A delta breaks the constraint exactly when D7 rejects it or misses it, and never both. */
  lemma RejectedOrMissed(c: Constraint, delta: int)
    requires IsPureOperator(c.operator) && !IsCollectionOperator(c.operator) && ExpectedFits(c.operator, c.expected)
    ensures !ScalarHolds(c, delta) <==> RejectsCyclomatic(c, delta) || MissedByD7(c, delta)
    ensures !(RejectsCyclomatic(c, delta) && MissedByD7(c, delta))
  {
  }

  lemma CyclomaticValue(c: Constraint, ctx: Context)
    requires ShapeOf(c.target) == Two(ComplexityDelta, Cyclomatic)
    ensures Resolve(NDelta(DeltaView(c, ctx)), c.target) == Some(Num(ctx.delta.complexityDelta.cyclomatic as real))
  {
    var d := DeltaView(c, ctx);
    assert d.complexityDelta == ctx.delta.complexityDelta;
    DeltaPathResolves(d, c.target);
  }

  /**
    Every compiled cyclomatic constraint is satisfied or violated, and it is violated exactly by the
    deltas that D7 rejects together with those it misses.
   */
  lemma CyclomaticExact(c: Constraint, ctx: Context, mode: Mode)
    requires FromCompiler(c) && IsEvaluated(c, mode) && ShapeOf(c.target) == Two(ComplexityDelta, Cyclomatic)
    ensures ResultOf(c, ctx, mode).status.Violated? || ResultOf(c, ctx, mode).status.Satisfied?
    ensures ResultOf(c, ctx, mode).status == Violated <==>
              RejectsCyclomatic(c, ctx.delta.complexityDelta.cyclomatic)
              || MissedByD7(c, ctx.delta.complexityDelta.cyclomatic)
  {
    CompiledIsChecked(c);
    CheckedCyclomaticExact(c, ctx, mode);
  }

  lemma CheckedCyclomaticExact(c: Constraint, ctx: Context, mode: Mode)
    requires WellTyped(c) && IsEvaluated(c, mode) && ShapeOf(c.target) == Two(ComplexityDelta, Cyclomatic)
    ensures ResultOf(c, ctx, mode).status.Violated? || ResultOf(c, ctx, mode).status.Satisfied?
    ensures ResultOf(c, ctx, mode).status == Violated <==>
              RejectsCyclomatic(c, ctx.delta.complexityDelta.cyclomatic)
              || MissedByD7(c, ctx.delta.complexityDelta.cyclomatic)
  {
    CyclomaticValue(c, ctx);
    ScalarOutcome(c, ctx.delta.complexityDelta.cyclomatic);
    RejectedOrMissed(c, ctx.delta.complexityDelta.cyclomatic);
  }

  /** A delta that D7 misses, for a constraint it does not see fully. */
  lemma SomethingIsMissed(c: Constraint) returns (delta: int)
    requires !D7SeesAll(c) && (IsNumericOperator(c.operator) ==> IsNumber(c.expected))
    ensures MissedByD7(c, delta)
  {
    var tol := Tolerance(c.tolerance);
    match c.operator
    case GreaterThan => delta := (c.expected.n - tol).Floor;
    case GreaterThanOrEqual => delta := (c.expected.n - tol).Floor - 1;
    case Equals => delta := if AsNumber(c.expected) == Some(0.0) then 1 else 0;
    case NotEquals => delta := AsNumber(c.expected).value.Floor;
  }

  /** A run whose cyclomatic delta is the given one. */
  function WithCyclomatic(ctx: Context, delta: int): Context {
    ctx.(delta := ctx.delta.(complexityDelta := ComplexityTotals(delta, 0)))
  }

  /** D7's test and the evaluator agree at a delta. */
  ghost predicate MirrorsAt(c: Constraint, ctx: Context, delta: int) {
    RejectsCyclomatic(c, delta) <==> ResultOf(c, WithCyclomatic(ctx, delta), Untimed(None)).status == Violated
  }

  /** D7's test agrees with the evaluator on every delta if and only if it sees the whole literal. */
  lemma CyclomaticMirror(c: Constraint, ctx: Context)
    requires FromCompiler(c) && IsEvaluated(c, Untimed(None)) && ShapeOf(c.target) == Two(ComplexityDelta, Cyclomatic)
    ensures (forall delta :: MirrorsAt(c, ctx, delta)) <==> D7SeesAll(c)
  {
    forall delta ensures MirrorsAt(c, ctx, delta) <==> !MissedByD7(c, delta) {
      MirrorMisses(c, ctx, delta);
    }
    CompiledIsChecked(c);
    if D7SeesAll(c) {
      forall delta ensures MirrorsAt(c, ctx, delta) { NothingIsMissed(c, delta); }
    } else {
      var delta := SomethingIsMissed(c);
      assert !MirrorsAt(c, ctx, delta);
    }
  }

  lemma NothingIsMissed(c: Constraint, delta: int)
    requires D7SeesAll(c)
    ensures !MissedByD7(c, delta)
  {
  }

  lemma MirrorMisses(c: Constraint, ctx: Context, delta: int)
    requires FromCompiler(c) && IsEvaluated(c, Untimed(None)) && ShapeOf(c.target) == Two(ComplexityDelta, Cyclomatic)
    ensures MirrorsAt(c, ctx, delta) <==> !MissedByD7(c, delta)
  {
    CompiledIsChecked(c);
    CyclomaticExact(c, WithCyclomatic(ctx, delta), Untimed(None));
  }

  /** `equals false` compiles, is violated by one extracted helper, and D7 says nothing. */
  lemma D7MissesEqualsFalse(ctx: Context)
    ensures var c := UserDelta(CyclomaticTarget(), Equals, Bool(false));
      && FromCompiler(c) && !RejectsCyclomatic(c, 1)
      && ResultOf(c, WithCyclomatic(ctx, 1), Untimed(None)).status == Violated
  {
    var c := UserDelta(CyclomaticTarget(), Equals, Bool(false));
    LeafCompiles(c);
    CyclomaticExact(c, WithCyclomatic(ctx, 1), Untimed(None));
  }

  /** So is `greater_than 5`. */
  lemma D7MissesGreaterThan(ctx: Context)
    ensures var c := UserDelta(CyclomaticTarget(), GreaterThan, Num(5.0));
      && FromCompiler(c) && !RejectsCyclomatic(c, 1)
      && ResultOf(c, WithCyclomatic(ctx, 1), Untimed(None)).status == Violated
  {
    var c := UserDelta(CyclomaticTarget(), GreaterThan, Num(5.0));
    LeafCompiles(c);
    CyclomaticExact(c, WithCyclomatic(ctx, 1), Untimed(None));
  }
}
