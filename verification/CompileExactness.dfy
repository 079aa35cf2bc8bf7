/**
  The compile-time checks from the other side: what they reject the evaluator could not have judged,
  but for two forms, and what they accept is compiled without changing anything but the literal.
 */
module CompileExactness {
  import opened Values
  import opened Vocabulary
  import opened States
  import opened DeltaLaws
  import opened Paths
  import opened Operators
  import opened Compiler
  import opened Evaluator
  import opened CompileSoundness

  // ---- the schema is the table of paths ----

  /** The shape a category promises of a value. */
  predicate HasCategory(v: Value, k: Category) {
    match k
    case RecordCategory => v.Map? || v.Null?
    case RecordCollection => v.Seq?
    case StringCollection => v.Seq? && forall x | x in v.items :: x.Str?
    case ScalarNumber => v.Num? || v.Null?
    case UnknownOpen => true
  }

  lemma StringsAreTexts(ss: seq<string>)
    ensures HasCategory(Strings(ss), StringCollection)
  {
  }

  lemma ProjectionsAreTexts(records: seq<Value>, key: string)
    ensures HasCategory(Project(records, key), StringCollection)
  {
    var kept := Filter(records, IsTextAt(key));
    FilterMembers(records, IsTextAt(key));
    forall i | 0 <= i < |kept| ensures TextAt(key)(kept[i]).Str? { assert kept[i] in kept; }
  }

  /** A path is in the schema when some delta has a value there, and its category is that of every value. */
  lemma SchemaIsTable(d: CodeStateDelta, p: Shape)
    ensures DeltaCategory(p).None? ==> DeltaValue(d, p).None?
    ensures DeltaCategory(p).Some? && DeltaValue(d, p).Some? ==>
              HasCategory(DeltaValue(d, p).value, DeltaCategory(p).value)
    ensures DeltaCategory(p).Some? && d.coverageDelta.Some? ==> DeltaValue(d, p).Some?
  {
    StringsAreTexts(d.testSurfaceDelta.newFiles);
    StringsAreTexts(d.testSurfaceDelta.newCases);
    StringsAreTexts(d.testSurfaceDelta.removedCases);
    ProjectionsAreTexts(d.apiSurfaceDelta.added, "fqn");
    ProjectionsAreTexts(d.effectChanges.added, "fqn");
    ProjectionsAreTexts(d.importsDelta.added, "module");
  }

  /** A value that is no mapping has nothing below it, projections aside. */
  lemma ValueStops(v: Value, segs: seq<Segment>, i: nat)
    requires !v.Map? && 2 <= i < |segs| && (i == 2 ==> ProjectionKey(segs, i).None?)
    ensures Walk(NValue(v), segs, i) == None
  {
    assert Step(NValue(v), segs, i) == None;
  }

  /** Below a closed root there are leaves, and they are no mappings. */
  lemma LeafStep(d: CodeStateDelta, root: Tag, segs: seq<Segment>)
    requires IsDeltaRoot(root) && !IsOpenTag(root) && |segs| > 1 && segs[0].tag == root
    ensures var second := Step(DeltaField(d, root).value, segs, 1);
      second.Some? ==> DeltaCategory(Two(root, segs[1].tag)).Some? && second.value.NValue? && !second.value.value.Map?
  {
  }

  lemma ProjectedShape(segs: seq<Segment>)
    requires |segs| > 2 && ProjectionKey(segs, 2).Some?
    ensures DeltaCategory(Three(segs[0].tag, segs[1].tag, segs[2].tag)).Some?
  {
  }

  lemma ProjectedStep(v: Value, segs: seq<Segment>)
    requires |segs| > 3 && !v.Map? && ProjectionKey(segs, 2).Some?
    ensures Walk(NValue(v), segs, 2) == None
  {
    var third := Step(NValue(v), segs, 2);
    if third.Some? {
      assert third.value.NValue? && third.value.value.Seq?;
      ValueStops(third.value.value, segs, 3);
    }
  }

  /** The roots the checks and the evaluator know are those of the two tables, and the open ones. */
  lemma RootsAreTables(s: CodeState, t: Tag)
    ensures IsStateRoot(t) <==> StateValue(s, t).Some?
    ensures IsDeltaRoot(t) <==> DeltaCategory(One(t)).Some? || IsOpenTag(t)
  {
  }

  /** Why an evaluated constraint is unknown: on an open path a fact of the run, off the schema the author. */
  lemma UnknownCauses(c: Constraint, root: Node)
    requires c.target.Dotted? && IsPureOperator(c.operator) && EvalPureAt(c, root).Done?
    requires EvalPureAt(c, root).result.status.Unknown?
    ensures EvalPureAt(c, root).result.cause
         == if IsOpenTag(c.target.head.tag) then OpenRuntime
            else if Resolve(root, c.target) == None && IsDeltaPath(ShapeOf(c.target)) then Extraction else Authoring
    ensures EvalPureAt(c, root).result.error
         == if Resolve(root, c.target) == None then EPathUnresolved else ETypeMismatch
  {
  }

  /** Off the schema nothing resolves. */
  lemma OffSchemaUnresolved(d: CodeStateDelta, t: Target)
    requires t.Dotted? && IsDeltaRoot(t.head.tag) && !IsOpenTag(t.head.tag) && DeltaCategory(ShapeOf(t)).None?
    ensures Resolve(NDelta(d), t) == None
  {
    var segs := Segments(t);
    RootStep(d, t);
    RootInSchema(t);
    var first := DeltaField(d, t.head.tag).value;
    assert Walk(NDelta(d), segs, 0) == Walk(first, segs, 1);
    LeafStep(d, t.head.tag, segs);
    var second := Step(first, segs, 1);
    if second.Some? { BelowLeaf(second.value.value, t); }
  }

  lemma RootInSchema(t: Target)
    requires t.Dotted? && IsDeltaRoot(t.head.tag) && !IsOpenTag(t.head.tag) && DeltaCategory(ShapeOf(t)).None?
    ensures |Segments(t)| > 1 && Segments(t)[0] == t.head && DeltaField(EmptyDelta(), t.head.tag).Some?
    ensures forall d :: DeltaField(d, t.head.tag).Some?
    ensures |t.rest| == 1 ==> DeltaCategory(Two(t.head.tag, Segments(t)[1].tag)).None?
    ensures |t.rest| == 2 ==> DeltaCategory(Three(t.head.tag, Segments(t)[1].tag, Segments(t)[2].tag)).None?
  {
    assert |t.rest| > 0;
    assert Segments(t)[1] == t.rest[0];
    if |t.rest| > 1 { assert Segments(t)[2] == t.rest[1]; }
  }

  lemma BelowLeaf(v: Value, t: Target)
    requires t.Dotted? && IsDeltaRoot(t.head.tag) && !IsOpenTag(t.head.tag) && DeltaCategory(ShapeOf(t)).None?
    requires !v.Map? && t.rest != [] && DeltaCategory(Two(t.head.tag, t.rest[0].tag)).Some?
    ensures Walk(NValue(v), Segments(t), 2) == None
  {
    var segs := Segments(t);
    RootInSchema(t);
    assert segs[1] == t.rest[0] && |t.rest| > 1;
    if ProjectionKey(segs, 2).Some? {
      ProjectedShape(segs);
      ProjectedStep(v, segs);
    } else {
      ValueStops(v, segs, 2);
    }
  }

  // ---- nothing judgeable is rejected ----

  /** A user constraint on a closed path that the evaluator would get to, with a literal that normalises. */
  predicate IsPlainUser(c: Constraint, mode: Mode) {
    && c.source.FromUser? && IsEvaluated(c, mode) && !IsOpenTarget(c.target)
    && NormalizeExpected(c.target, c.operator, c.expected).Some?
  }

  /** The two forms the checks reject although the evaluator would compare mappings as lists of pairs. */
  predicate ReadsPairs(c: Constraint) {
    || (IsCollectionOperator(c.operator) && CategoryOf(c.target).RecordCategory?)
    || (IsExpectedCollectionOperator(c.operator) && c.expected.Map?)
  }

  /** Unknown, and for the author to repair unless coverage is missing. */
  predicate IsUnjudged(r: Result) {
    var t := r.constraint.target;
    r.status.Unknown? && (r.cause.Authoring? || (t.Dotted? && t.head.tag.CoverageDelta?))
  }

  lemma StateLeafUnresolved(s: CodeState, t: Target)
    requires t.Dotted? && t.rest != [] && IsStateRoot(t.head.tag) && !IsOpenTag(t.head.tag)
    ensures Resolve(NState(s), t) == None
  {
    var segs := Segments(t);
    assert segs[0] == t.head && segs[1] == t.rest[0];
    var first := Step(NState(s), segs, 0);
    if first.Some? {
      assert first.value.NValue? && !first.value.value.Map?;
      assert Step(first.value, segs, 1) == None;
      assert Walk(NState(s), segs, 0) == Walk(first.value, segs, 1);
    }
  }

  lemma UserViews(c: Constraint, ctx: Context)
    requires c.source.FromUser?
    ensures DeltaView(c, ctx) == ctx.delta
    ensures StateView(c, ctx.baseline, ctx) == ctx.baseline && StateView(c, ctx.candidate, ctx) == ctx.candidate
  {
  }

  lemma UnresolvedIsUnjudged(c: Constraint, root: Node)
    requires c.target.Dotted? && Resolve(root, c.target) == None && !IsOpenTarget(c.target)
    requires !c.operator.ChangedOnlyIn? && !IsDeltaPath(ShapeOf(c.target))
    ensures EvalPureAt(c, root).Done? && IsUnjudged(EvalPureAt(c, root).result)
  {
  }

  lemma BadStatePath(c: Constraint, ctx: Context, mode: Mode)
    requires IsPlainUser(c, mode) && c.kind.StateKind? && !IsStatePath(ShapeOf(c.target))
    ensures IsUnjudged(ResultOf(c, ctx, mode))
  {
    if IsStateRoot(c.target.head.tag) {
      StateLeafUnresolved(ctx.candidate, c.target);
      UnresolvedIsUnjudged(c, NState(ctx.candidate));
    }
  }

  lemma BadDeltaPath(c: Constraint, ctx: Context, mode: Mode)
    requires IsPlainUser(c, mode) && c.kind.DeltaKind? && !IsDeltaPath(ShapeOf(c.target))
    ensures IsUnjudged(ResultOf(c, ctx, mode))
  {
    UserViews(c, ctx);
    if IsDeltaRoot(c.target.head.tag) {
      OffSchemaUnresolved(ctx.delta, c.target);
      UnresolvedIsUnjudged(c, NDelta(ctx.delta));
    } else if IsStateRoot(c.target.head.tag) {
      StateLeafUnresolved(ctx.baseline, c.target);
    }
  }

  lemma BadOperator(c: Constraint, ctx: Context, mode: Mode)
    requires IsPlainUser(c, mode) && PathFits(c.kind, c.target) && !OperatorFits(c.kind, c.target, c.operator)
    ensures IsUnjudged(ResultOf(c, ctx, mode))
  {
    UserViews(c, ctx);
  }

  /** A value the operator cannot read, or a literal it cannot. */
  lemma Unreadable(c: Constraint, v: Value)
    requires HasCategory(v, CategoryOf(c.target)) || v.Null?
    requires IsPureOperator(c.operator) && !TypeFits(c.target, c.operator, c.expected) && !ReadsPairs(c)
    requires !CategoryOf(c.target).UnknownOpen?
    ensures EvalPure(c.operator, v, c.expected, c.tolerance) == Mismatch
  {
  }

  lemma BadStateType(c: Constraint, ctx: Context, mode: Mode)
    requires IsPlainUser(c, mode) && c.kind.StateKind? && PathFits(c.kind, c.target)
    requires OperatorFits(c.kind, c.target, c.operator) && !TypeFits(c.target, c.operator, c.expected) && !ReadsPairs(c)
    ensures IsUnjudged(ResultOf(c, ctx, mode))
  {
    StatePathResolves(ctx.candidate, c.target);
    StateShape(ctx.candidate, c.target.head.tag);
    Unreadable(c, StateValue(ctx.candidate, c.target.head.tag).value);
  }

  lemma BadDeltaType(c: Constraint, ctx: Context, mode: Mode)
    requires IsPlainUser(c, mode) && c.kind.DeltaKind? && PathFits(c.kind, c.target)
    requires OperatorFits(c.kind, c.target, c.operator) && !TypeFits(c.target, c.operator, c.expected) && !ReadsPairs(c)
    ensures IsUnjudged(ResultOf(c, ctx, mode))
  {
    UserViews(c, ctx);
    DeltaPathResolves(ctx.delta, c.target);
    SchemaIsTable(ctx.delta, ShapeOf(c.target));
    DeltaShape(ctx.delta, ShapeOf(c.target));
    if DeltaValue(ctx.delta, ShapeOf(c.target)).Some? {
      Unreadable(c, DeltaValue(ctx.delta, ShapeOf(c.target)).value);
    }
  }

  /**
    The checks reject nothing the evaluator could judge, but for the two forms: whatever else they
    reject is unknown in every run that evaluates it.
   */
  lemma RejectedIsUnjudged(c: Constraint, ctx: Context, mode: Mode)
    requires IsPlainUser(c, mode) && !Accepts(c) && !ReadsPairs(c)
    ensures IsUnjudged(ResultOf(c, ctx, mode))
  {
    if !PathFits(c.kind, c.target) {
      if c.kind.StateKind? { BadStatePath(c, ctx, mode); } else { BadDeltaPath(c, ctx, mode); }
    } else if !OperatorFits(c.kind, c.target, c.operator) {
      BadOperator(c, ctx, mode);
    } else if c.kind.StateKind? {
      BadStateType(c, ctx, mode);
    } else {
      BadDeltaType(c, ctx, mode);
    }
  }
}
