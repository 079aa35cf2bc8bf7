/**
  Smoke mode extracts fewer dimensions and skips constraints on the others. It is sound: it never
  reports a worse verdict than a full run, except through constraints on bare `python_specific`.
 */
module SmokeMode {
  import opened Values
  import opened Vocabulary
  import opened Ordering
  import opened States
  import opened Deltas
  import opened DeltaLaws
  import opened Paths
  import opened Compiler
  import opened Evaluator
  import opened ShortCircuit
  import opened Reads

  /** What the six extractors produce on one revision. */
  datatype Extracted = Extracted(
    apiSurface: seq<ApiEntry>, effects: seq<EffectEntry>, imports: seq<ImportEntry>,
    complexity: seq<ComplexityEntry>, testSurface: seq<TestEntry>, moduleGraph: seq<ModuleEntry>)

  const SMOKE_DIMENSIONS: set<Dimension> := {DimApi, DimEffects, DimImports}

  predicate ShouldExtract(d: Dimension, dims: Option<set<Dimension>>) {
    dims.None? || d in dims.value
  }

  /** A dimension is present when it is selected and did not time out; otherwise it is empty. */
  function Kept<T>(d: Dimension, dims: Option<set<Dimension>>, slow: set<Dimension>, value: seq<T>): seq<T> {
    if ShouldExtract(d, dims) && d !in slow then value else []
  }

  function Assembled(x: Extracted, dims: Option<set<Dimension>>, slow: set<Dimension>): CodeState {
    CodeState(
      Kept(DimApi, dims, slow, x.apiSurface), [], Kept(DimEffects, dims, slow, x.effects), [], [],
      Kept(DimImports, dims, slow, x.imports), Kept(DimComplexity, dims, slow, x.complexity),
      Kept(DimTests, dims, slow, x.testSurface), None, Kept(DimModuleGraph, dims, slow, x.moduleGraph), None, None)
  }

  const EXTRACTOR_ORDER: seq<Dimension> :=
    [DimApi, DimEffects, DimImports, DimComplexity, DimTests, DimModuleGraph]

  /** `_assemble_code_state`: each selected extractor runs in turn and may report a timeout. */
  method AssembleCodeState(x: Extracted, dims: Option<set<Dimension>>, slow: set<Dimension>)
    returns (state: CodeState, timedOut: set<Dimension>)
    ensures state == Assembled(x, dims, slow)
    ensures timedOut == set d | d in EXTRACTOR_ORDER && ShouldExtract(d, dims) && d in slow
  {
    state := CodeState([], [], [], [], [], [], [], [], None, [], None, None);
    timedOut := {};
    for i := 0 to |EXTRACTOR_ORDER|
      invariant timedOut == set d | d in EXTRACTOR_ORDER[..i] && ShouldExtract(d, dims) && d in slow
      invariant state == CodeState(
        if i > 0 then Kept(DimApi, dims, slow, x.apiSurface) else [], [],
        if i > 1 then Kept(DimEffects, dims, slow, x.effects) else [], [], [],
        if i > 2 then Kept(DimImports, dims, slow, x.imports) else [],
        if i > 3 then Kept(DimComplexity, dims, slow, x.complexity) else [],
        if i > 4 then Kept(DimTests, dims, slow, x.testSurface) else [], None,
        if i > 5 then Kept(DimModuleGraph, dims, slow, x.moduleGraph) else [], None, None)
    {
      var d := EXTRACTOR_ORDER[i];
      assert EXTRACTOR_ORDER[..i + 1] == EXTRACTOR_ORDER[..i] + [d];
      if ShouldExtract(d, dims) {
        if d in slow {
          timedOut := timedOut + {d};
        } else {
          match d {
            case DimApi => state := state.(apiSurface := x.apiSurface);
            case DimEffects => state := state.(effects := x.effects);
            case DimImports => state := state.(imports := x.imports);
            case DimComplexity => state := state.(complexity := x.complexity);
            case DimTests => state := state.(testSurface := x.testSurface);
            case _ => state := state.(moduleGraph := x.moduleGraph);
          }
        }
      }
    }
    assert EXTRACTOR_ORDER[..6] == EXTRACTOR_ORDER;
  }

  /** A dimension that was selected and finished in time. */
  predicate IsExtracted(d: Dimension, dims: Option<set<Dimension>>, slow: set<Dimension>) {
    d !in slow && (dims.Some? ==> d in dims.value)
  }

  /** The state holds what the extractors of those dimensions found, and nothing else. */
  lemma AssembledExactly(x: Extracted, dims: Option<set<Dimension>>, slow: set<Dimension>)
    ensures var s := Assembled(x, dims, slow);
      && s.apiSurface == (if IsExtracted(DimApi, dims, slow) then x.apiSurface else [])
      && s.effects == (if IsExtracted(DimEffects, dims, slow) then x.effects else [])
      && s.imports == (if IsExtracted(DimImports, dims, slow) then x.imports else [])
      && s.complexity == (if IsExtracted(DimComplexity, dims, slow) then x.complexity else [])
      && s.testSurface == (if IsExtracted(DimTests, dims, slow) then x.testSurface else [])
      && s.moduleGraph == (if IsExtracted(DimModuleGraph, dims, slow) then x.moduleGraph else [])
      && s.typeRelations == [] && s.controlFlow == [] && s.dataFlow == [] && s.coverage == None
      && s.pythonSpecific == None && s.typescriptSpecific == None
  {
  }

  // ---- one run of the pipeline, without timeouts ----

  function RunMode(dims: Option<set<Dimension>>): Mode { Mode(dims, {}, {}) }

  function RunContext(b: Extracted, c: Extracted, dims: Option<set<Dimension>>, o: Overlay, rules: Rules): Context {
    var baseline, candidate := Assembled(b, dims, {}), Assembled(c, dims, {});
    Context(OverlayDelta(ComputeDelta(baseline, candidate), o), baseline, candidate, rules.apiAllow, rules.effectAllow)
  }

  /** Targets whose dimension is declared: everything but bare `python_specific` read from a delta. */
  predicate SmokeSafe(k: Kind, t: Target) {
    !(k.DeltaKind? && ShapeOf(t) == One(PythonSpecific))
  }

  // ---- what a run over fewer dimensions leaves as it was ----

  predicate DeltasAgree(d: CodeStateDelta, e: CodeStateDelta, dims: set<Dimension>) {
    && d.apiSurfaceDelta == e.apiSurfaceDelta && d.decoratorsDelta == e.decoratorsDelta
    && d.typeChanges == e.typeChanges && d.cfgDelta == e.cfgDelta && d.coverageDelta == e.coverageDelta
    && d.filesTouched == e.filesTouched && d.locDelta == e.locDelta && d.renames == e.renames
    && d.typescriptSpecific == e.typescriptSpecific
    && (DimEffects in dims ==> d.effectChanges == e.effectChanges)
    && (DimImports in dims ==> d.importsDelta == e.importsDelta)
    && (DimComplexity in dims ==> d.complexityDelta == e.complexityDelta)
    && (DimTests in dims ==> d.testSurfaceDelta == e.testSurfaceDelta)
    && (DimModuleGraph in dims ==> DetailsOf(d).moduleGraphDelta == DetailsOf(e).moduleGraphDelta)
    && (DimComplexity in dims ==> DetailsOf(d).complexityChanges == DetailsOf(e).complexityChanges)
    && (DimTests in dims ==> DetailsOf(d).testSurfaceChanges == DetailsOf(e).testSurfaceChanges)
  }

  predicate StatesAgree(s: CodeState, u: CodeState, dims: set<Dimension>) {
    && s.apiSurface == u.apiSurface
    && (DimEffects in dims ==> s.effects == u.effects)
    && (DimImports in dims ==> s.imports == u.imports)
    && (DimComplexity in dims ==> s.complexity == u.complexity)
    && (DimTests in dims ==> s.testSurface == u.testSurface)
    && (DimModuleGraph in dims ==> s.moduleGraph == u.moduleGraph)
    && s.typeRelations == u.typeRelations && s.controlFlow == u.controlFlow && s.dataFlow == u.dataFlow
    && s.coverage == u.coverage && s.pythonSpecific == u.pythonSpecific && s.typescriptSpecific == u.typescriptSpecific
  }

  lemma DeltasOfAgreeingStates(b: CodeState, c: CodeState, b': CodeState, c': CodeState, dims: set<Dimension>)
    requires StatesAgree(b, b', dims) && StatesAgree(c, c', dims)
    ensures DeltasAgree(ComputeDelta(b, c), ComputeDelta(b', c'), dims)
  {
    DetailsIsFieldwise(b, c, b', c');
    DeltaIsFieldwise(b, c, b', c');
  }

  lemma OverlayAgrees(d: CodeStateDelta, e: CodeStateDelta, dims: set<Dimension>, o: Overlay)
    requires DeltasAgree(d, e, dims)
    ensures DeltasAgree(OverlayDelta(d, o), OverlayDelta(e, o), dims)
  {
  }

  predicate ContextsAgree(x: Context, y: Context, dims: set<Dimension>) {
    && x.apiAllow == y.apiAllow && x.effectAllow == y.effectAllow
    && DeltasAgree(x.delta, y.delta, dims)
    && StatesAgree(x.baseline, y.baseline, dims) && StatesAgree(x.candidate, y.candidate, dims)
  }

  lemma RunsAgree(b: Extracted, c: Extracted, dims: set<Dimension>, o: Overlay, rules: Rules)
    requires DimApi in dims
    ensures var partial, full := RunContext(b, c, Some(dims), o, rules), RunContext(b, c, None, o, rules);
            ContextsAgree(partial, full, dims)
  {
    var pb, pc := Assembled(b, Some(dims), {}), Assembled(c, Some(dims), {});
    var fb, fc := Assembled(b, None, {}), Assembled(c, None, {});
    DeltasOfAgreeingStates(pb, pc, fb, fc, dims);
    OverlayAgrees(ComputeDelta(pb, pc), ComputeDelta(fb, fc), dims, o);
  }

  /** Views through the same rules keep two contexts in agreement. */
  lemma ViewsAgree(c: Constraint, x: Context, y: Context, dims: set<Dimension>)
    requires x.apiAllow == y.apiAllow && x.effectAllow == y.effectAllow
    requires DeltasAgree(x.delta, y.delta, dims)
    ensures DeltasAgree(DeltaView(c, x), DeltaView(c, y), dims)
  {
    ViewsKeepOthers(c, x);
    ViewsKeepOthers(c, y);
  }

  /** A delta view rewrites at most the removed symbols and the added effects. */
  lemma ViewsKeepOthers(c: Constraint, x: Context)
    ensures DeltaView(c, x) == x.delta.(
        apiSurfaceDelta := x.delta.apiSurfaceDelta.(removed := DeltaView(c, x).apiSurfaceDelta.removed),
        effectChanges := x.delta.effectChanges.(added := DeltaView(c, x).effectChanges.added))
    ensures DeltaView(c, x).apiSurfaceDelta.removed
         == if IsRemovedApiTemplate(c) then Filter(x.delta.apiSurfaceDelta.removed, KeepRecord(x.apiAllow))
            else x.delta.apiSurfaceDelta.removed
    ensures DeltaView(c, x).effectChanges.added
         == if IsNewEffectsTemplate(c) then Filter(x.delta.effectChanges.added, KeepEffect(x.effectAllow))
            else x.delta.effectChanges.added
  {
  }

  lemma StateViewsAgree(c: Constraint, x: Context, y: Context, dims: set<Dimension>, s: CodeState, u: CodeState)
    requires x.apiAllow == y.apiAllow && StatesAgree(s, u, dims)
    ensures StatesAgree(StateView(c, s, x), StateView(c, u, y), dims)
  {
  }

  lemma StateResolvesAlike(s: CodeState, u: CodeState, dims: set<Dimension>, t: Target)
    requires t.Dotted? && StatesAgree(s, u, dims) && DimApi in dims && !IsSkipped(t, RunMode(Some(dims)))
    ensures Resolve(NState(s), t) == Resolve(NState(u), t)
  {
    assert Segments(t)[0] == t.head;
    SameFirstStep(NState(s), NState(u), t);
  }

  /** Below `python_specific`, resolution depends only on the sub-record the second segment names. */
  lemma DetailResolvesAlike(d: CodeStateDelta, e: CodeStateDelta, t: Target)
    requires t.Dotted? && t.head.tag.PythonSpecific? && t.rest != []
    requires RecordField(RDetails(DetailsOf(d)), t.rest[0].tag) == RecordField(RDetails(DetailsOf(e)), t.rest[0].tag)
    ensures Resolve(NDelta(d), t) == Resolve(NDelta(e), t)
  {
    DetailStep(d, t);
    DetailStep(e, t);
  }

  lemma DetailStep(d: CodeStateDelta, t: Target)
    requires t.Dotted? && t.head.tag.PythonSpecific? && t.rest != []
    ensures Walk(NDelta(d), Segments(t), 0)
         == match RecordField(RDetails(DetailsOf(d)), t.rest[0].tag)
            case Some(v) => Walk(NValue(v), Segments(t), 2)
            case None => None
  {
    var segs := Segments(t);
    assert segs[0] == t.head && segs[1] == t.rest[0];
    RootStep(d, t);
    var first := DeltaField(d, PythonSpecific).value;
    assert Walk(NDelta(d), segs, 0) == Walk(first, segs, 1);
    var second := Step(first, segs, 1);
    assert second
      == match RecordField(RDetails(DetailsOf(d)), t.rest[0].tag) case Some(v) => Some(NValue(v)) case None => None;
  }

  lemma DeltaResolvesAlike(d: CodeStateDelta, e: CodeStateDelta, dims: set<Dimension>, t: Target)
    requires t.Dotted? && DeltasAgree(d, e, dims) && DimApi in dims && !IsSkipped(t, RunMode(Some(dims)))
    requires SmokeSafe(DeltaKind, t)
    ensures Resolve(NDelta(d), t) == Resolve(NDelta(e), t)
  {
    if t.head.tag.PythonSpecific? {
      DetailResolvesAlike(d, e, t);
    } else {
      RootStep(d, t);
      RootStep(e, t);
      SameFirstStep(NDelta(d), NDelta(e), t);
    }
  }

  // ---- soundness ----

  /** The partial run skips the constraint or reports exactly the full run's own result for it. */
  predicate SkippedOrSame(partial: Result, full: Result) {
    partial.status.Skipped? || partial == full
  }

  lemma PureAlike(c: Constraint, x: Node, y: Node)
    requires c.target.Dotted? && Resolve(x, c.target) == Resolve(y, c.target)
    ensures EvalPureAt(c, x) == EvalPureAt(c, y)
  {
  }

  lemma BaselineAlike(c: Constraint, b: CodeState, v: CodeState, b': CodeState, v': CodeState)
    requires c.target.Dotted?
    requires Resolve(NState(b), c.target) == Resolve(NState(b'), c.target)
    requires Resolve(NState(v), c.target) == Resolve(NState(v'), c.target)
    ensures EvalBaselineAt(c, b, v) == EvalBaselineAt(c, b', v')
  {
  }

  lemma EvaluatedAlike(c: Constraint, x: Context, y: Context, dims: set<Dimension>)
    requires DimApi in dims && c.target.Dotted? && !IsSkipped(c.target, RunMode(Some(dims)))
    requires ContextsAgree(x, y, dims) && SmokeSafe(c.kind, c.target)
    requires !c.kind.RepairKind? && !c.operator.ChangedOnlyIn?
    ensures Evaluate(c, x, RunMode(Some(dims))) == Evaluate(c, y, RunMode(None))
  {
    if c.kind.StateKind? {
      StateResolvesAlike(x.candidate, y.candidate, dims, c.target);
      PureAlike(c, NState(x.candidate), NState(y.candidate));
    } else {
      ViewsAgree(c, x, y, dims);
      StateViewsAgree(c, x, y, dims, x.baseline, y.baseline);
      StateViewsAgree(c, x, y, dims, x.candidate, y.candidate);
      var d, e := DeltaView(c, x), DeltaView(c, y);
      var b, v := StateView(c, x.baseline, x), StateView(c, x.candidate, x);
      var b', v' := StateView(c, y.baseline, y), StateView(c, y.candidate, y);
      if IsDeltaRoot(c.target.head.tag) {
        DeltaResolvesAlike(d, e, dims, c.target);
        PureAlike(c, NDelta(d), NDelta(e));
      } else if IsStateRoot(c.target.head.tag) {
        StateResolvesAlike(b, b', dims, c.target);
        StateResolvesAlike(v, v', dims, c.target);
        BaselineAlike(c, b, v, b', v');
      }
    }
  }

  lemma ResultsAlike(c: Constraint, x: Context, y: Context, dims: set<Dimension>)
    requires DimApi in dims && ContextsAgree(x, y, dims) && SmokeSafe(c.kind, c.target)
    ensures SkippedOrSame(ResultOf(c, x, RunMode(Some(dims))), ResultOf(c, y, RunMode(None)))
  {
    if !c.kind.RepairKind? && !c.operator.ChangedOnlyIn? && c.target.Dotted?
        && !IsSkipped(c.target, RunMode(Some(dims))) {
      EvaluatedAlike(c, x, y, dims);
    }
  }

  lemma VerdictsAlike(cs: seq<Constraint>, x: Context, y: Context, dims: set<Dimension>)
    requires DimApi in dims && ContextsAgree(x, y, dims)
    requires forall c | c in cs :: SmokeSafe(c.kind, c.target)
    ensures Rank(RunVerdict(cs, x, RunMode(Some(dims)))) <= Rank(RunVerdict(cs, y, RunMode(None)))
  {
    var partial, full := AllResults(cs, x, RunMode(Some(dims))), AllResults(cs, y, RunMode(None));
    forall i | 0 <= i < |cs| ensures SkippedOrSame(partial[i], full[i]) {
      ResultsAlike(cs[i], x, y, dims);
    }
    VerdictMonotone(partial, full);
    VerdictPreserved(cs, x, RunMode(Some(dims)));
    VerdictPreserved(cs, y, RunMode(None));
  }

  /**
    A run over any dimensions that include the API surface (smoke mode's three do) skips each
    constraint or reports the full run's own result for it, and gives a verdict no worse than the
    full run's, although either run may stop at a lock the other does not reach.
   */
  lemma SmokeSound(cs: seq<Constraint>, b: Extracted, v: Extracted, dims: set<Dimension>, o: Overlay, rules: Rules)
    requires DimApi in dims
    requires forall c | c in cs :: SmokeSafe(c.kind, c.target)
    ensures forall c | c in cs ::
              SkippedOrSame(ResultOf(c, RunContext(b, v, Some(dims), o, rules), RunMode(Some(dims))),
                            ResultOf(c, RunContext(b, v, None, o, rules), RunMode(None)))
    ensures Rank(RunVerdict(cs, RunContext(b, v, Some(dims), o, rules), RunMode(Some(dims))))
         <= Rank(RunVerdict(cs, RunContext(b, v, None, o, rules), RunMode(None)))
  {
    var x, y := RunContext(b, v, Some(dims), o, rules), RunContext(b, v, None, o, rules);
    RunsAgree(b, v, dims, o, rules);
    VerdictsAlike(cs, x, y, dims);
    forall c | c in cs ensures SkippedOrSame(ResultOf(c, x, RunMode(Some(dims))), ResultOf(c, y, RunMode(None))) {
      ResultsAlike(c, x, y, dims);
    }
  }

  // ---- the exception is exact ----

  function Nothing(): Extracted { Extracted([], [], [], [], [], []) }

  function OneFunction(): Extracted { Nothing().(complexity := [ComplexityEntry("f", Some(1), Some(0))]) }

  function NoOverlay(): Overlay { Overlay(0, LocRecord(0, 0), []) }

  /** `python_specific not_equals null`. */
  function MustHaveDetails(t: Target): Constraint {
    Constraint(Named("details"), DeltaKind, t, NotEquals, Null, Hard, OnUnknownFail, None, FromUser)
  }

  lemma AddedFunctionHasDetails()
    ensures DetailsOf(ComputeDelta(Assembled(Nothing(), None, {}),
                                   Assembled(OneFunction(), None, {}))).complexityChanges.Some?
  {
    DetailsAreFieldwise(Assembled(Nothing(), None, {}), Assembled(OneFunction(), None, {}));
    var e := ComplexityEntry("f", Some(1), Some(0));
    assert [e][..0] == [];
    var cand := IndexBy([e], ComplexityKey);
    assert ComplexityKey(e) in cand;
    var base := IndexBy([], ComplexityKey);
    assert ComplexityKey(e) in SortedSet(cand.Keys - base.Keys);
    assert FunctionDiff([], [e]).added != [];
  }

  lemma SmokeSeesNoDetails()
    ensures ComputeDelta(Assembled(Nothing(), Some(SMOKE_DIMENSIONS), {}),
                         Assembled(OneFunction(), Some(SMOKE_DIMENSIONS), {})).pythonSpecific == None
  {
    UnchangedIsEmpty(Assembled(Nothing(), Some(SMOKE_DIMENSIONS), {}));
  }

  lemma BareDetailsValue(d: CodeStateDelta, t: Target)
    requires ShapeOf(t) == One(PythonSpecific)
    ensures Resolve(NDelta(d), t)
         == Some(match d.pythonSpecific case Some(p) => RecordValue(RDetails(p)) case None => Null)
  {
    RootStep(d, t);
    var first := DeltaField(d, PythonSpecific).value;
    assert Walk(first, Segments(t), 1) == Some(first);
  }

  lemma DetailsDecide(c: Constraint, x: Context, mode: Mode)
    requires c == MustHaveDetails(c.target) && ShapeOf(c.target) == One(PythonSpecific)
    ensures ResultOf(c, x, mode).status == if x.delta.pythonSpecific.Some? then Satisfied else Violated
  {
    assert DeltaView(c, x) == x.delta;
    BareDetailsValue(x.delta, c.target);
  }

  lemma DetailsCompile(t: Target)
    requires ShapeOf(t) == One(PythonSpecific)
    ensures FromCompiler(MustHaveDetails(t))
  {
    var c := MustHaveDetails(t);
    assert Accepts(c) && CompileUser(c) == c;
  }

  /** Smoke mode violates a compiled constraint that the full run satisfies: the excluded target is really unsound. */
  lemma BarePythonSpecificIsUnsound(t: Target)
    requires ShapeOf(t) == One(PythonSpecific)
    ensures var c, rules := MustHaveDetails(t), Rules([], []);
            && FromCompiler(c)
            && ResultOf(c, RunContext(Nothing(), OneFunction(), Some(SMOKE_DIMENSIONS), NoOverlay(), rules),
                        RunMode(Some(SMOKE_DIMENSIONS))).status == Violated
            && ResultOf(c, RunContext(Nothing(), OneFunction(), None, NoOverlay(), rules),
                        RunMode(None)).status == Satisfied
  {
    var c, rules := MustHaveDetails(t), Rules([], []);
    DetailsCompile(t);
    AddedFunctionHasDetails();
    SmokeSeesNoDetails();
    DetailsDecide(c, RunContext(Nothing(), OneFunction(), Some(SMOKE_DIMENSIONS), NoOverlay(), rules),
                  RunMode(Some(SMOKE_DIMENSIONS)));
    DetailsDecide(c, RunContext(Nothing(), OneFunction(), None, NoOverlay(), rules), RunMode(None));
  }

  ghost predicate SmokeAgrees(c: Constraint, b: Extracted, v: Extracted, o: Overlay, rules: Rules) {
    SkippedOrSame(ResultOf(c, RunContext(b, v, Some(SMOKE_DIMENSIONS), o, rules), RunMode(Some(SMOKE_DIMENSIONS))),
                  ResultOf(c, RunContext(b, v, None, o, rules), RunMode(None)))
  }

  /** A kind and target are safe in smoke mode exactly when they do not read bare `python_specific` of a delta. */
  lemma SmokeSafeIsExact(k: Kind, t: Target)
    ensures SmokeSafe(k, t) <==>
            forall c: Constraint, b, v, o, rules | c.kind == k && c.target == t :: SmokeAgrees(c, b, v, o, rules)
  {
    if SmokeSafe(k, t) {
      forall c: Constraint, b, v, o, rules | c.kind == k && c.target == t ensures SmokeAgrees(c, b, v, o, rules) {
        SafeAgrees(c, b, v, o, rules);
      }
    } else {
      UnsafeDisagrees(t);
    }
  }

  lemma SafeAgrees(c: Constraint, b: Extracted, v: Extracted, o: Overlay, rules: Rules)
    requires SmokeSafe(c.kind, c.target)
    ensures SmokeAgrees(c, b, v, o, rules)
  {
    SmokeSound([c], b, v, SMOKE_DIMENSIONS, o, rules);
  }

  lemma UnsafeDisagrees(t: Target)
    requires ShapeOf(t) == One(PythonSpecific)
    ensures !SmokeAgrees(MustHaveDetails(t), Nothing(), OneFunction(), NoOverlay(), Rules([], []))
  {
    BarePythonSpecificIsUnsound(t);
  }

  // ---- which constraints a partial run leaves out ----

  /** The target reads what the extractor of the dimension produces, or its part of a delta. */
  predicate ReadsDimension(t: Target, d: Dimension)
    requires t.Dotted?
  {
    var root := t.head.tag;
    var detail := if root.PythonSpecific? && t.rest != [] then t.rest[0].tag else Plain;
    match d
    case DimApi => root == ApiSurface || root == ApiSurfacePublic || root == ApiSurfaceDelta
    case DimEffects => root == Effects || root == EffectChanges
    case DimImports => root == Imports || root == ImportsDelta
    case DimComplexity => root == Complexity || root == ComplexityDelta || detail == ComplexityChanges
    case DimTests => root == TestSurface || root == TestSurfaceDelta || detail == TestSurfaceChanges
    case DimModuleGraph => root == ModuleGraph || detail == ModuleGraphDelta
    case DimTypes => root == TypeRelations || root == TypeChanges
    case DimControlFlow => root == ControlFlow || root == CfgDelta
    case DimDataFlow => root == DataFlow
    case DimCoverage => root == Coverage || root == CoverageDelta
    case DimTypescript => root == TypescriptSpecific
  }

  lemma DimensionRead(t: Target, d: Dimension)
    requires t.Dotted?
    ensures DimensionOf(t) == Some(d) <==> ReadsDimension(t, d)
  {
  }

  /** A constraint that the evaluator judges at all. */
  predicate IsJudged(c: Constraint) { !c.kind.RepairKind? && !c.operator.ChangedOnlyIn? && c.target.Dotted? }

  /** It is skipped exactly when it reads a dimension that was not extracted. */
  lemma SkippedExactly(c: Constraint, ctx: Context, mode: Mode)
    ensures ResultOf(c, ctx, mode).error == EDimensionSkipped <==>
              && IsJudged(c) && mode.extracted.Some?
              && exists d :: ReadsDimension(c.target, d) && d !in mode.extracted.value
    ensures ResultOf(c, ctx, mode).error == EDimensionSkipped ==> ResultOf(c, ctx, mode).status == Skipped
  {
    if c.target.Dotted? {
      forall d ensures DimensionOf(c.target) == Some(d) <==> ReadsDimension(c.target, d) { DimensionRead(c.target, d); }
    }
  }

  /**
    It is unknown for a timeout exactly when it is not skipped and reads a dimension that timed out: on
    the candidate for a state constraint, on either side for a delta constraint.
   */
  lemma TimedOutExactly(c: Constraint, ctx: Context, mode: Mode)
    ensures ResultOf(c, ctx, mode).error == EDimensionTimedOut <==>
              IsJudged(c) && ResultOf(c, ctx, mode).error != EDimensionSkipped && exists d ::
                ReadsDimension(c.target, d) &&
                (d in mode.candidateTimedOut || (c.kind.DeltaKind? && d in mode.baselineTimedOut))
    ensures ResultOf(c, ctx, mode).error == EDimensionTimedOut ==>
              ResultOf(c, ctx, mode).status == Unknown && ResultOf(c, ctx, mode).cause == Extraction
  {
    if c.target.Dotted? {
      forall d ensures DimensionOf(c.target) == Some(d) <==> ReadsDimension(c.target, d) { DimensionRead(c.target, d); }
    }
  }

  /** Smoke mode skips only what reads complexity, tests, the module graph or a dimension without extractor. */
  lemma SmokeSkipsExactly(c: Constraint, ctx: Context)
    ensures ResultOf(c, ctx, RunMode(Some(SMOKE_DIMENSIONS))).error == EDimensionSkipped <==>
              && IsJudged(c)
              && exists d :: ReadsDimension(c.target, d) && d != DimApi && d != DimEffects && d != DimImports
  {
    SkippedExactly(c, ctx, RunMode(Some(SMOKE_DIMENSIONS)));
  }
}
