/**
  `CodeState` and `CodeStateDelta`: the extracted facts about one revision and the record of
  what changed between two, with the JSON dumps the evaluator reads.
 */
module States {
  import opened Values
  import opened Vocabulary

  datatype ApiEntry = ApiEntry(
    fqn: string, kind: string, signature: Option<string>, visibility: Option<string>, decorators: seq<string>)

  datatype EffectEntry = EffectEntry(
    fqn: string, effectClass: EffectClass, confidence: Option<real>, evidence: Value)

  datatype ImportEntry = ImportEntry(importedModule: string, fromModule: Option<string>, symbols: seq<string>)

  datatype ComplexityEntry = ComplexityEntry(fqn: string, cyclomatic: Option<int>, cognitive: Option<int>)

  datatype TestEntry = TestEntry(
    testFile: string, testFunction: string, asserts: Option<int>, parametrizeCount: Option<int>)

  datatype ModuleEntry = ModuleEntry(name: string, imports: seq<string>, importedBy: seq<string>)

  /** The dimensions no extractor fills are kept as already-dumped records. */
  datatype CodeState = CodeState(
    apiSurface: seq<ApiEntry>,
    typeRelations: seq<Value>,
    effects: seq<EffectEntry>,
    controlFlow: seq<Value>,
    dataFlow: seq<Value>,
    imports: seq<ImportEntry>,
    complexity: seq<ComplexityEntry>,
    testSurface: seq<TestEntry>,
    coverage: Option<seq<Value>>,
    moduleGraph: seq<ModuleEntry>,
    pythonSpecific: Option<seq<Entry>>,
    typescriptSpecific: Option<seq<Entry>>)

  datatype SymbolDelta = SymbolDelta(added: seq<Value>, removed: seq<Value>, changed: seq<Value>)
  datatype ItemDelta = ItemDelta(added: seq<Value>, removed: seq<Value>)
  datatype CfgRecord = CfgRecord(newBranches: int, removedBranches: int)
  datatype ComplexityTotals = ComplexityTotals(cyclomatic: int, cognitive: int)
  datatype TestDelta = TestDelta(newFiles: seq<string>, newCases: seq<string>, removedCases: seq<string>)
  datatype CoverageRecord = CoverageRecord(line: Option<real>, branch: Option<real>)
  datatype LocRecord = LocRecord(added: int, removed: int)
  datatype RenameEntry = RenameEntry(oldPath: string, newPath: string)

  /** The three optional sub-records `_build_python_specific` can produce. */
  datatype Details = Details(
    moduleGraphDelta: Option<Value>, complexityChanges: Option<Value>, testSurfaceChanges: Option<Value>)

  datatype CodeStateDelta = CodeStateDelta(
    apiSurfaceDelta: SymbolDelta,
    decoratorsDelta: SymbolDelta,
    typeChanges: seq<Value>,
    effectChanges: ItemDelta,
    cfgDelta: CfgRecord,
    importsDelta: ItemDelta,
    complexityDelta: ComplexityTotals,
    testSurfaceDelta: TestDelta,
    coverageDelta: Option<CoverageRecord>,
    filesTouched: int,
    locDelta: LocRecord,
    renames: seq<RenameEntry>,
    pythonSpecific: Option<Details>,
    typescriptSpecific: Option<seq<Entry>>)

  /** The sub-records of `python_specific`, absent ones included. */
  function DetailsOf(d: CodeStateDelta): Details {
    if d.pythonSpecific.Some? then d.pythonSpecific.value else Details(None, None, None)
  }

  function EffectClassText(c: EffectClass): string {
    match c
    case Pure => "pure"
    case Io => "io"
    case Net => "net"
    case Fs => "fs"
    case Process => "process"
    case Env => "env"
    case TimeRandom => "time_random"
    case Stdout => "stdout"
    case DynamicCode => "dynamic_code"
    case UnsafeDeserialize => "unsafe_deserialize"
    case GlobalMutation => "global_mutation"
  }

  // Dumps list their items in key order.

  function DumpApi(e: ApiEntry): Value {
    Map([Entry("decorators", Strings(e.decorators)), Entry("fqn", Str(e.fqn)), Entry("kind", Str(e.kind)),
         Entry("signature", OptString(e.signature)), Entry("visibility", OptString(e.visibility))])
  }

  /** `_api_variant_dump`: the dump without decorators, used in deltas. */
  function DumpApiVariant(e: ApiEntry): Value {
    Map([Entry("fqn", Str(e.fqn)), Entry("kind", Str(e.kind)),
         Entry("signature", OptString(e.signature)), Entry("visibility", OptString(e.visibility))])
  }

  function DumpEffect(e: EffectEntry): Value {
    Map([Entry("confidence", OptReal(e.confidence)), Entry("effect_class", Str(EffectClassText(e.effectClass))),
         Entry("evidence", e.evidence), Entry("fqn", Str(e.fqn))])
  }

  /** Dump of an import inside a state, where the field keeps its Python name. */
  function DumpImport(e: ImportEntry): Value {
    Map([Entry("from_", OptString(e.fromModule)), Entry("module", Str(e.importedModule)),
         Entry("symbols", Strings(e.symbols))])
  }

  /** `_dump_import`: deltas dump imports by alias. */
  function DumpImportByAlias(e: ImportEntry): Value {
    Map([Entry("from", OptString(e.fromModule)), Entry("module", Str(e.importedModule)),
         Entry("symbols", Strings(e.symbols))])
  }

  function DumpComplexity(e: ComplexityEntry): Value {
    Map([Entry("cognitive", OptInt(e.cognitive)), Entry("cyclomatic", OptInt(e.cyclomatic)), Entry("fqn", Str(e.fqn))])
  }

  function DumpTest(e: TestEntry): Value {
    Map([Entry("asserts", OptInt(e.asserts)), Entry("parametrize_count", OptInt(e.parametrizeCount)),
         Entry("test_file", Str(e.testFile)), Entry("test_function", Str(e.testFunction))])
  }

  function DumpModule(e: ModuleEntry): Value {
    Map([Entry("imported_by", Strings(e.importedBy)), Entry("imports", Strings(e.imports)),
         Entry("module", Str(e.name))])
  }

  function DumpRename(e: RenameEntry): Value {
    Map([Entry("new_path", Str(e.newPath)), Entry("old_path", Str(e.oldPath))])
  }
}
