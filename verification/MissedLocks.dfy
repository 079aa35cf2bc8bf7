/**
  The doctor's classifications from the other side: which constraints hold on every unchanged state
  without being classed lock-only, and which fail on it without being classed a positive addition.
 */
module MissedLocks {
  import opened Values
  import opened Vocabulary
  import opened States
  import opened DeltaLaws
  import opened Paths
  import opened Operators
  import opened Compiler
  import opened Evaluator
  import opened CompileSoundness
  import opened Doctor
  import opened Literals
  import opened ItemLaws

  /**
    It holds of nothing and is not classed: a literal of another type that equals nothing or differs
    from it, or a bound that only its tolerance lets zero meet.
   */
  predicate MissedLock(c: Constraint) {
    var e, tol, number := c.expected, Tolerance(c.tolerance), CategoryOf(c.target).ScalarNumber?;
    match c.operator
    case Equals => if number then e == Bool(false) else e == Map([])
    case NotEquals => if number then e == Seq([]) else e == Num(0.0)
    case LessThan => e.Num? && e.n <= 0.0 && 0.0 < e.n + tol
    case LessThanOrEqual => e.Num? && e.n < 0.0 && 0.0 <= e.n + tol
    case GreaterThan => e.Num? && e.n >= 0.0 && 0.0 > e.n - tol
    case GreaterThanOrEqual => e.Num? && e.n > 0.0 && 0.0 >= e.n - tol
    case WithinRange =>
      e.Seq? && |e.items| == 2 && e.items[0].Num? && e.items[1].Num?
      && !(e.items[0].n <= 0.0 <= e.items[1].n) && e.items[0].n - tol <= 0.0 <= e.items[1].n + tol
    case _ => false
  }

  /** A user constraint on a leaf of the delta, coverage apart. */
  predicate IsLeafConstraint(c: Constraint) {
    c.kind.DeltaKind? && c.source.FromUser? && IsLeaf(c.target) && !IsOpenTarget(c.target)
    && !c.target.head.tag.CoverageDelta?
  }

  lemma NothingListed(c: Constraint)
    requires IsExpectedCollectionOperator(c.operator) && c.expected.Seq?
    ensures EvalPure(c.operator, Seq([]), c.expected, c.tolerance)
         == Decide(|| c.operator.ExcludesAll? || c.operator.SubsetOf?
                   || (!c.operator.IncludesAny? && c.expected == Seq([])))
  {
    ItemsOfNothing();
    if c.expected != Seq([]) { assert Canonical(c.expected).parts[0] in CollectionItems(c.expected).value; }
  }

  lemma ListLeaf(c: Constraint, s: CodeState)
    requires WellTyped(c) && IsLeafConstraint(c) && IsPureOperator(c.operator)
    requires IsCollectionCategory(CategoryOf(c.target))
    ensures EvalPure(c.operator, Seq([]), c.expected, c.tolerance)
         == Decide((IsLockOnly(c) && LockHolds(c, s)) || MissedLock(c))
  {
    if IsExpectedCollectionOperator(c.operator) {
      NothingListed(c);
    } else {
      EmptyCanonical(c.expected);
    }
  }

  lemma NumberLeaf(c: Constraint, s: CodeState)
    requires WellTyped(c) && IsLeafConstraint(c) && IsPureOperator(c.operator) && CategoryOf(c.target).ScalarNumber?
    ensures EvalPure(c.operator, Num(0.0), c.expected, c.tolerance)
         == Decide((IsLockOnly(c) && LockHolds(c, s)) || MissedLock(c))
  {
    EmptyCanonical(c.expected);
  }

  lemma LeafReads(c: Constraint)
    requires WellTyped(c) && IsLeafConstraint(c) && !c.operator.ChangedOnlyIn?
    ensures IsPureOperator(c.operator) && IsDeltaRoot(c.target.head.tag)
    ensures IsCollectionCategory(CategoryOf(c.target)) || CategoryOf(c.target).ScalarNumber?
    ensures Resolve(NDelta(EmptyDelta()), c.target)
         == Some(if CategoryOf(c.target).ScalarNumber? then Num(0.0) else Seq([]))
  {
    DeltaPathResolves(EmptyDelta(), c.target);
    EmptyLeaf(ShapeOf(c.target));
  }

  /**
    On every unchanged state a compiled user constraint on a leaf of the delta is satisfied exactly when
    it is classed lock-only and its literal fits, or is one of the locks the doctor misses, and is
    violated otherwise.
   */
  lemma LeafExactly(c: Constraint, s: CodeState, apiAllow: seq<ApiAllowRule>, effectAllow: seq<EffectAllowRule>,
                    mode: Mode)
    requires FromCompiler(c) && IsLeafConstraint(c) && IsEvaluated(c, mode)
    ensures ResultOf(c, Unchanging(s, apiAllow, effectAllow), mode).status
         == if (IsLockOnly(c) && LockHolds(c, s)) || MissedLock(c) then Satisfied else Violated
  {
    CompiledIsWellTyped(c);
    LeafReads(c);
    ViewOfNothing(c, Unchanging(s, apiAllow, effectAllow));
    if CategoryOf(c.target).ScalarNumber? {
      NumberLeaf(c, s);
      DeltaResult(c, Unchanging(s, apiAllow, effectAllow), mode, Num(0.0));
    } else {
      ListLeaf(c, s);
      DeltaResult(c, Unchanging(s, apiAllow, effectAllow), mode, Seq([]));
    }
  }

  /** The doctor never classes a constraint on a whole record or list of the delta, nor a state constraint. */
  lemma OnlyLeavesAndBaselines(c: Constraint)
    requires c.source.FromUser? && IsLockOnly(c)
    ensures c.kind.DeltaKind? && (IsBaselineOperator(c.operator) || IsLeaf(c.target)) && !MissedLock(c)
  {
  }

  /** What a comparison with the baseline comes to when nothing changed. */
  lemma SelfCompared(c: Constraint, s: CodeState, apiAllow: seq<ApiAllowRule>, effectAllow: seq<EffectAllowRule>,
                     mode: Mode)
    requires WellTyped(c) && ComparesStates(c) && IsEvaluated(c, mode)
    requires c.operator.NotEqualsBaseline? || c.operator.HasChanged?
    ensures ResultOf(c, Unchanging(s, apiAllow, effectAllow), mode).status == Violated
  {
    ComparedResult(c, Unchanging(s, apiAllow, effectAllow), mode);
  }

  lemma ComparisonClassed(c: Constraint)
    requires WellTyped(c) && ComparesStates(c) && c.target.Dotted?
    ensures IsLockOnly(c) <==> !c.operator.NotEqualsBaseline? && !c.operator.HasChanged?
  {
    ComparedPath(c);
  }

  /** A comparison with the baseline is classed exactly when an unchanged state satisfies it, coverage apart. */
  lemma BaselineExactly(c: Constraint, s: CodeState, apiAllow: seq<ApiAllowRule>, effectAllow: seq<EffectAllowRule>,
                        mode: Mode)
    requires Checked(c) && ComparesStates(c) && IsEvaluated(c, mode)
    requires ShapeOf(c.target) == One(Coverage) ==> s.coverage.Some?
    ensures ResultOf(c, Unchanging(s, apiAllow, effectAllow), mode).status == Satisfied <==> IsLockOnly(c)
  {
    ComparisonClassed(c);
    if IsLockOnly(c) {
      ComparisonHolds(c, s);
      LockOnlyExact(c, s, apiAllow, effectAllow, mode);
    } else {
      SelfCompared(c, s, apiAllow, effectAllow, mode);
    }
  }

  lemma ComparisonHolds(c: Constraint, s: CodeState)
    requires WellTyped(c) && ComparesStates(c) && c.target.Dotted?
    requires ShapeOf(c.target) == One(Coverage) ==> s.coverage.Some?
    ensures LockHolds(c, s)
  {
    ComparedPath(c);
  }

  // ---- positive additions ----

  /** The list paths of additions that the doctor watches. */
  predicate WatchesAddition(p: Shape) {
    p == Two(ApiSurfaceDelta, Added) || p == Three(ApiSurfaceDelta, Added, Fqns) || p == Two(TestSurfaceDelta, NewCases)
  }

  /** It fails on an empty list. */
  predicate FailsOnNothing(c: Constraint) {
    if c.expected == Map([]) then c.operator.NotEquals? else IsPositiveAddition(c)
  }

  lemma AdditionOnNothing(c: Constraint)
    requires WellTyped(c) && IsLeafConstraint(c) && IsPureOperator(c.operator) && Participates(c)
    requires WatchesAddition(ShapeOf(c.target)) && (c.operator.IncludesAny? ==> c.expected != Seq([]))
    ensures EvalPure(c.operator, Seq([]), c.expected, c.tolerance) == Decide(!FailsOnNothing(c))
  {
    if IsExpectedCollectionOperator(c.operator) {
      NothingListed(c);
    } else {
      EmptyCanonical(c.expected);
    }
  }

  /** The compiler lets no `includes_any` of nothing through. */
  lemma CompiledAny(c: Constraint)
    requires FromCompiler(c) && c.source.FromUser? && !c.kind.RepairKind? && c.operator.IncludesAny?
    ensures c.expected != Seq([])
  {
    if k :| c in Templates(k) {
      TemplatesHaveForm(k);
    } else {
      var u :| Accepts(u) && c == CompileUser(u);
      CompiledLiteral(u);
    }
  }

  lemma AdditionRead(c: Constraint)
    requires WellTyped(c) && c.kind.DeltaKind? && c.source.FromUser? && WatchesAddition(ShapeOf(c.target))
    requires Participates(c)
    ensures IsLeafConstraint(c) && IsPureOperator(c.operator) && IsDeltaRoot(c.target.head.tag)
    ensures Resolve(NDelta(EmptyDelta()), c.target) == Some(Seq([]))
  {
    LeafReads(c);
  }

  /**
    On those paths a constraint that takes part in the verdict is violated by every unchanged state
    exactly when it is classed a positive addition and is not `equals {}`, or is `not_equals {}`.
   */
  lemma AdditionExactly(c: Constraint, s: CodeState, apiAllow: seq<ApiAllowRule>, effectAllow: seq<EffectAllowRule>)
    requires FromCompiler(c) && c.source.FromUser? && c.kind.DeltaKind? && WatchesAddition(ShapeOf(c.target))
    requires Participates(c)
    ensures ResultOf(c, Unchanging(s, apiAllow, effectAllow), Untimed(None)).status
         == if FailsOnNothing(c) then Violated else Satisfied
  {
    CompiledIsWellTyped(c);
    AdditionRead(c);
    if c.operator.IncludesAny? { CompiledAny(c); }
    AdditionOnNothing(c);
    ViewOfNothing(c, Unchanging(s, apiAllow, effectAllow));
    DeltaResult(c, Unchanging(s, apiAllow, effectAllow), Untimed(None), Seq([]));
  }

  /** Whatever is classed a positive addition is on one of those paths. */
  lemma AdditionsAreWatched(c: Constraint)
    requires WellTyped(c) && IsPositiveAddition(c)
    ensures c.kind.DeltaKind? && WatchesAddition(ShapeOf(c.target))
  {
  }

  // ---- taking part in the verdict ----

  /** Some result of the constraint, blame apart, moves the verdict. */
  ghost predicate CanMoveVerdict(c: Constraint) {
    exists r: Result :: r.constraint == c && !r.cause.Authoring? && (ForcesFail(r) || ForcesRepair(r))
  }

  /** A constraint takes part when it is of a judged kind and can move the verdict. */
  lemma ParticipatesExactly(c: Constraint)
    ensures Participates(c) <==> !c.kind.RepairKind? && !c.operator.ChangedOnlyIn? && CanMoveVerdict(c)
  {
    var violated, unknown := Result(c, Violated, EViolation, NoCause), Result(c, Unknown, EPathUnresolved, Extraction);
    if Participates(c) {
      if c.severity.Info? {
        assert ForcesFail(unknown) || ForcesRepair(unknown);
      } else {
        assert ForcesFail(violated) || ForcesRepair(violated);
      }
    }
  }

  // ---- a missed lock ----

  /** `complexity_delta.cyclomatic < 0` with tolerance 1. */
  function TolerantBound(): Constraint {
    UserDelta(CyclomaticTarget(), LessThan, Num(0.0)).(tolerance := Some(1.0))
  }

  /** It compiles, every unchanged state satisfies it, and the doctor does not class it lock-only. */
  lemma ToleranceIsMissed(s: CodeState, apiAllow: seq<ApiAllowRule>, effectAllow: seq<EffectAllowRule>)
    ensures FromCompiler(TolerantBound()) && !IsLockOnly(TolerantBound())
    ensures ResultOf(TolerantBound(), Unchanging(s, apiAllow, effectAllow), Untimed(None)).status == Satisfied
  {
    var c := TolerantBound();
    LeafCompiles(c);
    LeafExactly(c, s, apiAllow, effectAllow, Untimed(None));
  }
}
