/**
  Target paths: the schema's path and category table, and the segment-by-segment resolver that
  reads a path from a code state or a delta.
 */
module Paths {
  import opened Values
  import opened Vocabulary
  import opened States

  // ---- the schema table ----

  datatype Category =
    | RecordCategory | RecordCollection | StringCollection | ScalarNumber | UnknownOpen

  predicate IsCollectionCategory(c: Category) {
    c.RecordCollection? || c.StringCollection?
  }

  /** First segments of `CodeState` paths, with the `api_surface_public` alias. */
  predicate IsStateRoot(t: Tag) {
    t.ApiSurface? || t.TypeRelations? || t.Effects? || t.ControlFlow? || t.DataFlow? || t.Imports? ||
    t.Complexity? || t.TestSurface? || t.Coverage? || t.ModuleGraph? || t.PythonSpecific? ||
    t.TypescriptSpecific? || t.ApiSurfacePublic?
  }

  /** First segments of `CodeStateDelta` paths. */
  predicate IsDeltaRoot(t: Tag) {
    t.ApiSurfaceDelta? || t.DecoratorsDelta? || t.TypeChanges? || t.EffectChanges? || t.CfgDelta? ||
    t.ImportsDelta? || t.ComplexityDelta? || t.TestSurfaceDelta? || t.CoverageDelta? || t.FilesTouched? ||
    t.LocDelta? || t.Renames? || t.PythonSpecific? || t.TypescriptSpecific?
  }

  /** `valid_state_target_paths`: no state field holds a nested model, so the roots are all. */
  predicate IsStatePath(p: Shape) {
    p.One? && IsStateRoot(p.a)
  }

  /** Category of every path below a closed `CodeStateDelta` field; `None` off the schema. */
  function DeltaCategory(p: Shape): Option<Category> {
    match p
    case One(ApiSurfaceDelta) => Some(RecordCategory)
    case One(DecoratorsDelta) => Some(RecordCategory)
    case One(TypeChanges) => Some(RecordCollection)
    case One(EffectChanges) => Some(RecordCategory)
    case One(CfgDelta) => Some(RecordCategory)
    case One(ImportsDelta) => Some(RecordCategory)
    case One(ComplexityDelta) => Some(RecordCategory)
    case One(TestSurfaceDelta) => Some(RecordCategory)
    case One(CoverageDelta) => Some(RecordCategory)
    case One(FilesTouched) => Some(ScalarNumber)
    case One(LocDelta) => Some(RecordCategory)
    case One(Renames) => Some(RecordCollection)
    case Two(ApiSurfaceDelta, Added) => Some(RecordCollection)
    case Two(ApiSurfaceDelta, Removed) => Some(RecordCollection)
    case Two(ApiSurfaceDelta, Changed) => Some(RecordCollection)
    case Two(ApiSurfaceDelta, RemovedPublic) => Some(RecordCollection)
    case Three(ApiSurfaceDelta, Added, Fqns) => Some(StringCollection)
    case Two(DecoratorsDelta, Added) => Some(RecordCollection)
    case Two(DecoratorsDelta, Removed) => Some(RecordCollection)
    case Two(DecoratorsDelta, Changed) => Some(RecordCollection)
    case Two(EffectChanges, Added) => Some(RecordCollection)
    case Two(EffectChanges, Removed) => Some(RecordCollection)
    case Three(EffectChanges, Added, Fqns) => Some(StringCollection)
    case Two(CfgDelta, NewBranches) => Some(ScalarNumber)
    case Two(CfgDelta, RemovedBranches) => Some(ScalarNumber)
    case Two(ImportsDelta, Added) => Some(RecordCollection)
    case Two(ImportsDelta, Removed) => Some(RecordCollection)
    case Three(ImportsDelta, Added, Modules) => Some(StringCollection)
    case Two(ComplexityDelta, Cyclomatic) => Some(ScalarNumber)
    case Two(ComplexityDelta, Cognitive) => Some(ScalarNumber)
    case Two(TestSurfaceDelta, NewFiles) => Some(StringCollection)
    case Two(TestSurfaceDelta, NewCases) => Some(StringCollection)
    case Two(TestSurfaceDelta, RemovedCases) => Some(StringCollection)
    case Two(CoverageDelta, Line) => Some(ScalarNumber)
    case Two(CoverageDelta, Branch) => Some(ScalarNumber)
    case Two(LocDelta, Added) => Some(ScalarNumber)
    case Two(LocDelta, Removed) => Some(ScalarNumber)
    case _ => None
  }

  /** `valid_delta_target_paths`: delta paths, and state paths for the baseline operators. */
  predicate IsDeltaPath(p: Shape) {
    IsStatePath(p) || DeltaCategory(p).Some?
  }

  /** `category_for_target`. */
  function CategoryOf(t: Target): Category {
    var p := ShapeOf(t);
    if IsOpenTarget(t) then UnknownOpen
    else if IsStatePath(p) then RecordCollection
    else match DeltaCategory(p)
      case Some(c) => c
      case None => UnknownOpen
  }

  // ---- what a path reads ----

  predicate IsPublicEntry(e: ApiEntry) { e.visibility == Some("public") }

  predicate IsPublicRecord(v: Value) { FieldOf(v, "visibility") == Str("public") }

  function IsTextAt(key: string): Value -> bool { (v: Value) => FieldOf(v, key).Str? }
  function TextAt(key: string): Value -> Value { (v: Value) => FieldOf(v, key) }

  /** `_project_field`: the string values of one key. */
  function Project(entries: seq<Value>, key: string): Value {
    Seq(MapSeq(TextAt(key), Filter(entries, IsTextAt(key))))
  }

  function OptMap(o: Option<seq<Entry>>): Value {
    match o
    case Some(es) => Map(es)
    case None => Null
  }

  function StateField(s: CodeState, t: Tag): Option<Value> {
    match t
    case ApiSurface => Some(Seq(MapSeq(DumpApi, s.apiSurface)))
    case TypeRelations => Some(Seq(s.typeRelations))
    case Effects => Some(Seq(MapSeq(DumpEffect, s.effects)))
    case ControlFlow => Some(Seq(s.controlFlow))
    case DataFlow => Some(Seq(s.dataFlow))
    case Imports => Some(Seq(MapSeq(DumpImport, s.imports)))
    case Complexity => Some(Seq(MapSeq(DumpComplexity, s.complexity)))
    case TestSurface => Some(Seq(MapSeq(DumpTest, s.testSurface)))
    case Coverage => Some(match s.coverage case Some(c) => Seq(c) case None => Null)
    case ModuleGraph => Some(Seq(MapSeq(DumpModule, s.moduleGraph)))
    case PythonSpecific => Some(OptMap(s.pythonSpecific))
    case TypescriptSpecific => Some(OptMap(s.typescriptSpecific))
    case _ => None
  }

  function PublicSurface(s: CodeState): Value {
    Seq(MapSeq(DumpApi, Filter(s.apiSurface, IsPublicEntry)))
  }

  /** The nested models of a delta. */
  datatype Record =
    | RSymbols(symbols: SymbolDelta)
    | RItems(items: ItemDelta)
    | RCfg(cfg: CfgRecord)
    | RComplexity(totals: ComplexityTotals)
    | RTests(tests: TestDelta)
    | RCoverage(coverage: CoverageRecord)
    | RLoc(loc: LocRecord)
    | RDetails(details: Details)

  function RecordField(r: Record, t: Tag): Option<Value> {
    match (r, t)
    case (RSymbols(d), Added) => Some(Seq(d.added))
    case (RSymbols(d), Removed) => Some(Seq(d.removed))
    case (RSymbols(d), Changed) => Some(Seq(d.changed))
    case (RItems(d), Added) => Some(Seq(d.added))
    case (RItems(d), Removed) => Some(Seq(d.removed))
    case (RCfg(d), NewBranches) => Some(Num(d.newBranches as real))
    case (RCfg(d), RemovedBranches) => Some(Num(d.removedBranches as real))
    case (RComplexity(d), Cyclomatic) => Some(Num(d.cyclomatic as real))
    case (RComplexity(d), Cognitive) => Some(Num(d.cognitive as real))
    case (RTests(d), NewFiles) => Some(Strings(d.newFiles))
    case (RTests(d), NewCases) => Some(Strings(d.newCases))
    case (RTests(d), RemovedCases) => Some(Strings(d.removedCases))
    case (RCoverage(d), Line) => Some(OptReal(d.line))
    case (RCoverage(d), Branch) => Some(OptReal(d.branch))
    case (RLoc(d), Added) => Some(Num(d.added as real))
    case (RLoc(d), Removed) => Some(Num(d.removed as real))
    case (RDetails(d), ModuleGraphDelta) => d.moduleGraphDelta
    case (RDetails(d), ComplexityChanges) => d.complexityChanges
    case (RDetails(d), TestSurfaceChanges) => d.testSurfaceChanges
    case _ => None
  }

  function Present(key: string, v: Option<Value>): seq<Entry> {
    match v
    case Some(x) => [Entry(key, x)]
    case None => []
  }

  function RecordValue(r: Record): Value {
    match r
    case RSymbols(d) => Map([Entry("added", Seq(d.added)), Entry("changed", Seq(d.changed)),
                             Entry("removed", Seq(d.removed))])
    case RItems(d) => Map([Entry("added", Seq(d.added)), Entry("removed", Seq(d.removed))])
    case RCfg(d) => Map([Entry("new_branches", Num(d.newBranches as real)),
                         Entry("removed_branches", Num(d.removedBranches as real))])
    case RComplexity(d) => Map([Entry("cognitive", Num(d.cognitive as real)),
                                Entry("cyclomatic", Num(d.cyclomatic as real))])
    case RTests(d) => Map([Entry("new_cases", Strings(d.newCases)), Entry("new_files", Strings(d.newFiles)),
                           Entry("removed_cases", Strings(d.removedCases))])
    case RCoverage(d) => Map([Entry("branch", OptReal(d.branch)), Entry("line", OptReal(d.line))])
    case RLoc(d) => Map([Entry("added", Num(d.added as real)), Entry("removed", Num(d.removed as real))])
    case RDetails(d) =>
      Map(Present("complexity_changes", d.complexityChanges) + Present("module_graph_delta", d.moduleGraphDelta)
          + Present("test_surface_changes", d.testSurfaceChanges))
  }

  /** Where the walk stands: at a root model, a nested model, or a JSON value. */
  datatype Node =
    | NState(state: CodeState)
    | NDelta(delta: CodeStateDelta)
    | NRecord(record: Record)
    | NValue(value: Value)

  function DeltaField(d: CodeStateDelta, t: Tag): Option<Node> {
    match t
    case ApiSurfaceDelta => Some(NRecord(RSymbols(d.apiSurfaceDelta)))
    case DecoratorsDelta => Some(NRecord(RSymbols(d.decoratorsDelta)))
    case TypeChanges => Some(NValue(Seq(d.typeChanges)))
    case EffectChanges => Some(NRecord(RItems(d.effectChanges)))
    case CfgDelta => Some(NRecord(RCfg(d.cfgDelta)))
    case ImportsDelta => Some(NRecord(RItems(d.importsDelta)))
    case ComplexityDelta => Some(NRecord(RComplexity(d.complexityDelta)))
    case TestSurfaceDelta => Some(NRecord(RTests(d.testSurfaceDelta)))
    case CoverageDelta => Some(match d.coverageDelta case Some(c) => NRecord(RCoverage(c)) case None => NValue(Null))
    case FilesTouched => Some(NValue(Num(d.filesTouched as real)))
    case LocDelta => Some(NRecord(RLoc(d.locDelta)))
    case Renames => Some(NValue(Seq(MapSeq(DumpRename, d.renames))))
    case PythonSpecific => Some(match d.pythonSpecific case Some(p) => NRecord(RDetails(p)) case None => NValue(Null))
    case TypescriptSpecific => Some(NValue(OptMap(d.typescriptSpecific)))
    case _ => None
  }

  /** `_FLAT_PROJECTION_ALIASES`, by path prefix. */
  function ProjectionKey(segments: seq<Segment>, i: nat): Option<string>
    requires i < |segments|
  {
    if i == 2 && segments[1].tag.Added? then
      match (segments[0].tag, segments[2].tag)
      case (ApiSurfaceDelta, Fqns) => Some("fqn")
      case (EffectChanges, Fqns) => Some("fqn")
      case (ImportsDelta, Modules) => Some("module")
      case _ => None
    else None
  }

  function ItemsOf(n: Node): seq<Value> {
    if n.NValue? && n.value.Seq? then n.value.items else []
  }

  /** One iteration of `resolve_path`; `None` is UNRESOLVED. */
  function Step(current: Node, segments: seq<Segment>, i: nat): Option<Node>
    requires i < |segments|
  {
    var seg := segments[i];
    if current == NValue(Null) then None
    else if current.NState? && seg.tag.ApiSurfacePublic? then Some(NValue(PublicSurface(current.state)))
    else if seg.tag.RemovedPublic? && i == 1 && segments[0].tag.ApiSurfaceDelta?
            && current.NRecord? && current.record.RSymbols? then
      Some(NValue(Seq(Filter(current.record.symbols.removed, IsPublicRecord))))
    else if ProjectionKey(segments, i).Some? then
      Some(NValue(Project(ItemsOf(current), ProjectionKey(segments, i).value)))
    else match current
      case NState(s) => (match StateField(s, seg.tag) case Some(v) => Some(NValue(v)) case None => None)
      case NDelta(d) => DeltaField(d, seg.tag)
      case NRecord(r) => (match RecordField(r, seg.tag) case Some(v) => Some(NValue(v)) case None => None)
      case NValue(v) =>
        if v.Map? then (match LookupKey(v.entries, seg.text) case Some(x) => Some(NValue(x)) case None => None)
        else None
  }

  function Walk(current: Node, segments: seq<Segment>, i: nat): Option<Node>
    requires i <= |segments|
    decreases |segments| - i
  {
    if i == |segments| then Some(current)
    else match Step(current, segments, i)
      case Some(next) => Walk(next, segments, i + 1)
      case None => None
  }

  function NodeValue(n: Node): Value {
    match n
    case NValue(v) => v
    case NRecord(r) => RecordValue(r)
    case _ => Null
  }

  function Segments(t: Target): seq<Segment>
    requires t.Dotted?
  {
    [t.head] + t.rest
  }

  function Resolve(root: Node, t: Target): Option<Value>
    requires t.Dotted?
  {
    match Walk(root, Segments(t), 0)
    case Some(n) => Some(NodeValue(n))
    case None => None
  }

  /** `resolve_path` as the source runs it. */
  method ResolvePath(root: Node, t: Target) returns (r: Option<Value>)
    requires t.Dotted?
    ensures r == Resolve(root, t)
  {
    var current := root;
    var segments := Segments(t);
    for i := 0 to |segments|
      invariant Walk(current, segments, i) == Walk(root, segments, 0)
    {
      match Step(current, segments, i) {
        case Some(next) => current := next;
        case None => return None;
      }
    }
    return Some(NodeValue(current));
  }

  // ---- resolution agrees with the table ----

  function SymbolsRecord(d: SymbolDelta): Value {
    Map([Entry("added", Seq(d.added)), Entry("changed", Seq(d.changed)), Entry("removed", Seq(d.removed))])
  }

  function ItemsRecord(d: ItemDelta): Value { Map([Entry("added", Seq(d.added)), Entry("removed", Seq(d.removed))]) }

  function PairRecord(key: string, x: Value, other: string, y: Value): Value { Map([Entry(key, x), Entry(other, y)]) }

  function Count(n: int): Value { Num(n as real) }

  /** The table of delta paths: the field or view each names, read from the delta itself. */
  function DeltaValue(d: CodeStateDelta, p: Shape): Option<Value> {
    match p
    case One(ApiSurfaceDelta) => Some(SymbolsRecord(d.apiSurfaceDelta))
    case One(DecoratorsDelta) => Some(SymbolsRecord(d.decoratorsDelta))
    case One(TypeChanges) => Some(Seq(d.typeChanges))
    case One(EffectChanges) => Some(ItemsRecord(d.effectChanges))
    case One(CfgDelta) =>
      Some(PairRecord("new_branches", Count(d.cfgDelta.newBranches), "removed_branches",
                      Count(d.cfgDelta.removedBranches)))
    case One(ImportsDelta) => Some(ItemsRecord(d.importsDelta))
    case One(ComplexityDelta) =>
      Some(PairRecord("cognitive", Count(d.complexityDelta.cognitive), "cyclomatic",
                      Count(d.complexityDelta.cyclomatic)))
    case One(TestSurfaceDelta) =>
      Some(Map([Entry("new_cases", Strings(d.testSurfaceDelta.newCases)),
                Entry("new_files", Strings(d.testSurfaceDelta.newFiles)),
                Entry("removed_cases", Strings(d.testSurfaceDelta.removedCases))]))
    case One(CoverageDelta) =>
      Some(if d.coverageDelta.None? then Null
           else PairRecord("branch", OptReal(d.coverageDelta.value.branch), "line",
                           OptReal(d.coverageDelta.value.line)))
    case One(FilesTouched) => Some(Count(d.filesTouched))
    case One(LocDelta) => Some(PairRecord("added", Count(d.locDelta.added), "removed", Count(d.locDelta.removed)))
    case One(Renames) => Some(Seq(MapSeq(DumpRename, d.renames)))
    case Two(ApiSurfaceDelta, Added) => Some(Seq(d.apiSurfaceDelta.added))
    case Two(ApiSurfaceDelta, Removed) => Some(Seq(d.apiSurfaceDelta.removed))
    case Two(ApiSurfaceDelta, Changed) => Some(Seq(d.apiSurfaceDelta.changed))
    case Two(ApiSurfaceDelta, RemovedPublic) => Some(Seq(Filter(d.apiSurfaceDelta.removed, IsPublicRecord)))
    case Two(DecoratorsDelta, Added) => Some(Seq(d.decoratorsDelta.added))
    case Two(DecoratorsDelta, Removed) => Some(Seq(d.decoratorsDelta.removed))
    case Two(DecoratorsDelta, Changed) => Some(Seq(d.decoratorsDelta.changed))
    case Two(EffectChanges, Added) => Some(Seq(d.effectChanges.added))
    case Two(EffectChanges, Removed) => Some(Seq(d.effectChanges.removed))
    case Two(CfgDelta, NewBranches) => Some(Count(d.cfgDelta.newBranches))
    case Two(CfgDelta, RemovedBranches) => Some(Count(d.cfgDelta.removedBranches))
    case Two(ImportsDelta, Added) => Some(Seq(d.importsDelta.added))
    case Two(ImportsDelta, Removed) => Some(Seq(d.importsDelta.removed))
    case Two(ComplexityDelta, Cyclomatic) => Some(Count(d.complexityDelta.cyclomatic))
    case Two(ComplexityDelta, Cognitive) => Some(Count(d.complexityDelta.cognitive))
    case Two(TestSurfaceDelta, NewFiles) => Some(Strings(d.testSurfaceDelta.newFiles))
    case Two(TestSurfaceDelta, NewCases) => Some(Strings(d.testSurfaceDelta.newCases))
    case Two(TestSurfaceDelta, RemovedCases) => Some(Strings(d.testSurfaceDelta.removedCases))
    case Two(CoverageDelta, Line) => if d.coverageDelta.None? then None else Some(OptReal(d.coverageDelta.value.line))
    case Two(CoverageDelta, Branch) =>
      if d.coverageDelta.None? then None else Some(OptReal(d.coverageDelta.value.branch))
    case Two(LocDelta, Added) => Some(Count(d.locDelta.added))
    case Two(LocDelta, Removed) => Some(Count(d.locDelta.removed))
    case Three(ApiSurfaceDelta, Added, Fqns) => Some(Project(d.apiSurfaceDelta.added, "fqn"))
    case Three(EffectChanges, Added, Fqns) => Some(Project(d.effectChanges.added, "fqn"))
    case Three(ImportsDelta, Added, Modules) => Some(Project(d.importsDelta.added, "module"))
    case _ => None
  }

  /** The table of state paths. */
  function StateValue(s: CodeState, t: Tag): Option<Value> {
    match t
    case ApiSurface => Some(Seq(MapSeq(DumpApi, s.apiSurface)))
    case ApiSurfacePublic => Some(Seq(MapSeq(DumpApi, Filter(s.apiSurface, IsPublicEntry))))
    case TypeRelations => Some(Seq(s.typeRelations))
    case Effects => Some(Seq(MapSeq(DumpEffect, s.effects)))
    case ControlFlow => Some(Seq(s.controlFlow))
    case DataFlow => Some(Seq(s.dataFlow))
    case Imports => Some(Seq(MapSeq(DumpImport, s.imports)))
    case Complexity => Some(Seq(MapSeq(DumpComplexity, s.complexity)))
    case TestSurface => Some(Seq(MapSeq(DumpTest, s.testSurface)))
    case Coverage => Some(if s.coverage.Some? then Seq(s.coverage.value) else Null)
    case ModuleGraph => Some(Seq(MapSeq(DumpModule, s.moduleGraph)))
    case PythonSpecific => Some(if s.pythonSpecific.Some? then Map(s.pythonSpecific.value) else Null)
    case TypescriptSpecific => Some(if s.typescriptSpecific.Some? then Map(s.typescriptSpecific.value) else Null)
    case _ => None
  }

  /** State paths resolve to their field or view; any other root is unresolved. */
  lemma StatePathResolves(s: CodeState, t: Target)
    requires t.Dotted? && t.rest == []
    ensures Resolve(NState(s), t) == StateValue(s, t.head.tag)
  {
    var segs := Segments(t);
    assert segs == [t.head];
    var next := Step(NState(s), segs, 0);
    if next.Some? { assert Walk(next.value, segs, 1) == Some(next.value); }
  }

  lemma RootStep(d: CodeStateDelta, t: Target)
    requires t.Dotted?
    ensures Step(NDelta(d), Segments(t), 0) == DeltaField(d, t.head.tag)
  {
    assert Segments(t)[0] == t.head;
  }

  lemma RootPathResolves(d: CodeStateDelta, t: Target)
    requires t.Dotted? && t.rest == [] && DeltaCategory(ShapeOf(t)).Some?
    ensures Resolve(NDelta(d), t) == DeltaValue(d, ShapeOf(t))
  {
    RootStep(d, t);
    var first := DeltaField(d, t.head.tag);
    assert first.Some?;
    assert Walk(NDelta(d), Segments(t), 0) == Walk(first.value, Segments(t), 1);
  }

  lemma LeafPathResolves(d: CodeStateDelta, t: Target)
    requires t.Dotted? && |t.rest| == 1 && DeltaCategory(ShapeOf(t)).Some?
    ensures Resolve(NDelta(d), t) == DeltaValue(d, ShapeOf(t))
  {
    var segs := Segments(t);
    RootStep(d, t);
    var first := DeltaField(d, t.head.tag);
    assert first.Some?;
    assert Walk(NDelta(d), segs, 0) == Walk(first.value, segs, 1);
    assert segs[1] == t.rest[0];
    var second := Step(first.value, segs, 1);
    if second.Some? { assert Walk(second.value, segs, 2) == second; }
  }

  lemma ProjectionResolves(d: CodeStateDelta, t: Target)
    requires t.Dotted? && |t.rest| == 2 && DeltaCategory(ShapeOf(t)).Some?
    ensures Resolve(NDelta(d), t) == DeltaValue(d, ShapeOf(t))
  {
    var segs := Segments(t);
    RootStep(d, t);
    var first := DeltaField(d, t.head.tag);
    assert segs[1] == t.rest[0] && segs[2] == t.rest[1];
    var second := Step(first.value, segs, 1);
    var third := Step(second.value, segs, 2);
    assert Walk(NDelta(d), segs, 0) == Walk(first.value, segs, 1);
    assert Walk(first.value, segs, 1) == Walk(second.value, segs, 2) == Walk(third.value, segs, 3) == third;
  }

  /** Every closed delta path of the schema resolves to exactly what the table says it names. */
  lemma DeltaPathResolves(d: CodeStateDelta, t: Target)
    requires t.Dotted? && DeltaCategory(ShapeOf(t)).Some?
    ensures Resolve(NDelta(d), t) == DeltaValue(d, ShapeOf(t))
  {
    if |t.rest| == 0 {
      RootPathResolves(d, t);
    } else if |t.rest| == 1 {
      LeafPathResolves(d, t);
    } else {
      ProjectionResolves(d, t);
    }
  }

  /** A path below `python_specific` goes on in the sub-record that its second segment names. */
  lemma DetailPathResolves(d: CodeStateDelta, t: Target)
    requires t.Dotted? && t.head.tag.PythonSpecific? && |t.rest| == 1
    ensures Resolve(NDelta(d), t) ==
              match t.rest[0].tag
              case ModuleGraphDelta => DetailsOf(d).moduleGraphDelta
              case ComplexityChanges => DetailsOf(d).complexityChanges
              case TestSurfaceChanges => DetailsOf(d).testSurfaceChanges
              case _ => None
  {
    var segs := Segments(t);
    RootStep(d, t);
    var first := DeltaField(d, t.head.tag);
    assert Walk(NDelta(d), segs, 0) == Walk(first.value, segs, 1);
    assert segs[1] == t.rest[0];
    var second := Step(first.value, segs, 1);
    if second.Some? { assert Walk(second.value, segs, 2) == second; }
  }
}
