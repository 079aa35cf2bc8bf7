/** `compute_code_state_delta`: the pure diff of two code states. */
module Deltas {
  import opened Values
  import opened States
  import opened Ordering

  // ---- keyed and grouped indexes ----

  /** `_index_by`: the first entry of each key. */
  function IndexBy<T>(entries: seq<T>, key: T -> Key): map<Key, T>
  {
    if entries == [] then map[]
    else
      var last := entries[|entries| - 1];
      var m := IndexBy(entries[..|entries| - 1], key);
      if key(last) in m then m else m[key(last) := last]
  }

  /** `_group_by`: all entries of each key, in order. */
  function GroupBy<T>(entries: seq<T>, key: T -> Key): map<Key, seq<T>>
  {
    if entries == [] then map[]
    else
      var last := entries[|entries| - 1];
      var m := GroupBy(entries[..|entries| - 1], key);
      m[key(last) := (if key(last) in m then m[key(last)] else []) + [last]]
  }

  /** e is the first entry with its key. */
  ghost predicate IsFirst<T>(entries: seq<T>, key: T -> Key, e: T) {
    exists i :: 0 <= i < |entries| && entries[i] == e && forall j | 0 <= j < i :: key(entries[j]) != key(e)
  }

  /** The index holds, for every key that occurs, its first entry. */
  lemma {:induction false} IndexIsFirst<T>(entries: seq<T>, key: T -> Key, k: Key)
    ensures k in IndexBy(entries, key) <==> exists i :: 0 <= i < |entries| && key(entries[i]) == k
    ensures k in IndexBy(entries, key) ==>
              key(IndexBy(entries, key)[k]) == k && IsFirst(entries, key, IndexBy(entries, key)[k])
  {
    if entries != [] {
      var init, last := entries[..|entries| - 1], entries[|entries| - 1];
      IndexIsFirst(init, key, k);
      assert entries == init + [last];
      if k in IndexBy(init, key) {
        var e := IndexBy(init, key)[k];
        var i :| 0 <= i < |init| && init[i] == e && forall j | 0 <= j < i :: key(init[j]) != key(e);
        assert entries[i] == e && forall j | 0 <= j < i :: key(entries[j]) == key(init[j]);
      } else if key(last) == k {
        assert entries[|init|] == last;
        assert forall j | 0 <= j < |init| :: key(entries[j]) == key(init[j]) != k;
      }
    }
  }

  function HasKey<T>(key: T -> Key, k: Key): T -> bool { (e: T) => key(e) == k }

  lemma {:induction false} FilterAppend<T>(s: seq<T>, x: T, keep: T -> bool)
    ensures Filter(s + [x], keep) == Filter(s, keep) + (if keep(x) then [x] else [])
  {
    if s == [] {
      assert s + [x] == [x];
    } else {
      assert (s + [x])[1..] == s[1..] + [x];
      FilterAppend(s[1..], x, keep);
    }
  }

  /** A group is the subsequence of the entries with its key, and only keys that occur have one. */
  lemma {:induction false} GroupIsSubsequence<T>(entries: seq<T>, key: T -> Key, k: Key)
    ensures (if k in GroupBy(entries, key) then GroupBy(entries, key)[k] else []) == Filter(entries, HasKey(key, k))
    ensures k in GroupBy(entries, key) <==> Filter(entries, HasKey(key, k)) != []
  {
    if entries != [] {
      var init, last := entries[..|entries| - 1], entries[|entries| - 1];
      GroupIsSubsequence(init, key, k);
      FilterAppend(init, last, HasKey(key, k));
      assert entries == init + [last];
    }
  }

  method BuildIndex<T>(entries: seq<T>, key: T -> Key) returns (indexed: map<Key, T>)
    ensures indexed == IndexBy(entries, key)
    ensures forall k :: k in indexed <==> exists i :: 0 <= i < |entries| && key(entries[i]) == k
    ensures forall k | k in indexed :: key(indexed[k]) == k && IsFirst(entries, key, indexed[k])
  {
    indexed := map[];
    for i := 0 to |entries|
      invariant indexed == IndexBy(entries[..i], key)
    {
      assert entries[..i + 1][..i] == entries[..i];
      if key(entries[i]) !in indexed {
        indexed := indexed[key(entries[i]) := entries[i]];
      }
    }
    assert entries[..|entries|] == entries;
    forall k { IndexIsFirst(entries, key, k); }
  }

  method BuildGroups<T>(entries: seq<T>, key: T -> Key) returns (grouped: map<Key, seq<T>>)
    ensures grouped == GroupBy(entries, key)
    ensures forall k :: k in grouped <==> Filter(entries, HasKey(key, k)) != []
    ensures forall k | k in grouped :: grouped[k] == Filter(entries, HasKey(key, k))
  {
    grouped := map[];
    for i := 0 to |entries|
      invariant grouped == GroupBy(entries[..i], key)
    {
      assert entries[..i + 1][..i] == entries[..i];
      var k := key(entries[i]);
      if k !in grouped {
        grouped := grouped[k := []];
      }
      grouped := grouped[k := grouped[k] + [entries[i]]];
    }
    assert entries[..|entries|] == entries;
    forall k { GroupIsSubsequence(entries, key, k); }
  }

  function AddedKeys<T>(base: map<Key, T>, cand: map<Key, T>): seq<Key> {
    SortedSet(cand.Keys - base.Keys)
  }

  function CommonKeys<T>(base: map<Key, T>, cand: map<Key, T>): seq<Key> {
    SortedSet(base.Keys * cand.Keys)
  }

  /** Stable insertion of `x` into an ascending sequence. */
  function InsertByKey<T>(x: T, s: seq<T>, key: T -> Key): seq<T>
  {
    if s == [] then [x]
    else if KeyLe(key(s[|s| - 1]), key(x)) then s + [x]
    else InsertByKey(x, s[..|s| - 1], key) + [s[|s| - 1]]
  }

  function SortByKey<T>(s: seq<T>, key: T -> Key): seq<T>
  {
    if s == [] then [] else InsertByKey(s[|s| - 1], SortByKey(s[..|s| - 1], key), key)
  }

  // ---- API surface ----

  function ApiKey(e: ApiEntry): Key { [e.fqn, e.kind] }

  function ApiVariantKey(e: ApiEntry): Key {
    [e.fqn, e.kind,
     if e.signature.Some? then e.signature.value else "",
     if e.visibility.Some? then e.visibility.value else ""]
  }

  function GroupDumps(entries: seq<ApiEntry>): seq<Value> {
    MapSeq(DumpApiVariant, SortByKey(entries, ApiVariantKey))
  }

  function FlattenGroups(keys: seq<Key>, groups: map<Key, seq<ApiEntry>>): seq<Value>
    requires forall k | k in keys :: k in groups
  {
    if keys == [] then [] else GroupDumps(groups[keys[0]]) + FlattenGroups(keys[1..], groups)
  }

  function ChangedPayload(entries: seq<ApiEntry>, forceList: bool): Value {
    var dumps := GroupDumps(entries);
    if forceList || dumps == [] then Seq(dumps) else dumps[0]
  }

  function ChangedRecord(key: Key, before: seq<ApiEntry>, after: seq<ApiEntry>): Value {
    var forceList := |before| != 1 || |after| != 1;
    Map([Entry("after", ChangedPayload(after, forceList)), Entry("before", ChangedPayload(before, forceList)),
         Entry("fqn", Str(if |key| > 0 then key[0] else "")), Entry("kind", Str(if |key| > 1 then key[1] else ""))])
  }

  function ChangedRecords(keys: seq<Key>, base: map<Key, seq<ApiEntry>>, cand: map<Key, seq<ApiEntry>>): seq<Value>
    requires forall k | k in keys :: k in base && k in cand
  {
    if keys == [] then []
    else
      (if GroupDumps(base[keys[0]]) != GroupDumps(cand[keys[0]])
       then [ChangedRecord(keys[0], base[keys[0]], cand[keys[0]])] else [])
      + ChangedRecords(keys[1..], base, cand)
  }

  function ApiSurfaceDiff(baseline: seq<ApiEntry>, candidate: seq<ApiEntry>): SymbolDelta {
    var base, cand := GroupBy(baseline, ApiKey), GroupBy(candidate, ApiKey);
    SymbolDelta(
      FlattenGroups(AddedKeys(base, cand), cand),
      FlattenGroups(AddedKeys(cand, base), base),
      ChangedRecords(CommonKeys(base, cand), base, cand))
  }

  // ---- decorators ----

  function DecoratorPairs(entries: seq<ApiEntry>): set<Key> {
    set e, d | e in entries && e.visibility == Some("public") && d in e.decorators :: [e.fqn, d]
  }

  function LeafName(path: string): string
  {
    if path == [] then []
    else if path[|path| - 1] == '.' then []
    else LeafName(path[..|path| - 1]) + [path[|path| - 1]]
  }

  function DecoratorRecord(pair: Key): Value {
    var fqn, decorator := if |pair| > 0 then pair[0] else "", if |pair| > 1 then pair[1] else "";
    Map([Entry("decorator", Str(decorator)), Entry("decorator_leaf", Str(LeafName(decorator))), Entry("fqn", Str(fqn))])
  }

  function DecoratorsDiff(baseline: seq<ApiEntry>, candidate: seq<ApiEntry>): SymbolDelta {
    var base, cand := DecoratorPairs(baseline), DecoratorPairs(candidate);
    SymbolDelta(MapSeq(DecoratorRecord, SortedSet(cand - base)), MapSeq(DecoratorRecord, SortedSet(base - cand)), [])
  }

  // ---- effects and imports ----

  function ResolvedCall(evidence: Value): string {
    if evidence.Map? then
      match LookupKey(evidence.entries, "resolved_call")
      case Some(Str(s)) => s
      case _ => ""
    else ""
  }

  function EffectKey(e: EffectEntry): Key { [e.fqn, EffectClassText(e.effectClass), ResolvedCall(e.evidence)] }

  function StringKey(s: string): Key { [s] }

  function SortStrings(ss: seq<string>): seq<string> { SortByKey(ss, StringKey) }

  function FlatKey(keys: seq<Key>): seq<string>
  {
    if keys == [] then [] else keys[0] + FlatKey(keys[1..])
  }

  function ImportKey(e: ImportEntry): Key {
    [e.importedModule, if e.fromModule.Some? then e.fromModule.value else ""] + SortStrings(e.symbols)
  }

  function DumpsAt<T>(keys: seq<Key>, m: map<Key, T>, dump: T -> Value): seq<Value>
    requires forall k | k in keys :: k in m
  {
    if keys == [] then [] else [dump(m[keys[0]])] + DumpsAt(keys[1..], m, dump)
  }

  function ItemDiff<T>(baseline: seq<T>, candidate: seq<T>, key: T -> Key, dump: T -> Value): ItemDelta {
    var base, cand := IndexBy(baseline, key), IndexBy(candidate, key);
    ItemDelta(DumpsAt(AddedKeys(base, cand), cand, dump), DumpsAt(AddedKeys(cand, base), base, dump))
  }

  // ---- complexity ----

  function OrZero(o: Option<int>): int { if o.Some? then o.value else 0 }

  function CyclomaticOf(e: ComplexityEntry): int { OrZero(e.cyclomatic) }
  function CognitiveOf(e: ComplexityEntry): int { OrZero(e.cognitive) }

  /** `_sum_complexity`. */
  function Total(entries: seq<ComplexityEntry>, field: ComplexityEntry -> int): int
  {
    if entries == [] then 0
    else Total(entries[..|entries| - 1], field) + field(entries[|entries| - 1])
  }

  function ComplexityDiff(baseline: seq<ComplexityEntry>, candidate: seq<ComplexityEntry>): ComplexityTotals {
    ComplexityTotals(
      Total(candidate, CyclomaticOf) - Total(baseline, CyclomaticOf),
      Total(candidate, CognitiveOf) - Total(baseline, CognitiveOf))
  }

  function ComplexityKey(e: ComplexityEntry): Key { [e.fqn] }

  predicate ComplexityDiffers(before: ComplexityEntry, after: ComplexityEntry) {
    before.cyclomatic != after.cyclomatic || before.cognitive != after.cognitive
  }

  /** The per-function part of the diff: entries added, removed, and changed as (before, after). */
  datatype FunctionChanges = FunctionChanges(
    added: seq<ComplexityEntry>, removed: seq<ComplexityEntry>, changed: seq<(ComplexityEntry, ComplexityEntry)>)

  function EntriesAt<T>(keys: seq<Key>, m: map<Key, T>): seq<T>
    requires forall k | k in keys :: k in m
  {
    if keys == [] then [] else EntriesAt(keys[..|keys| - 1], m) + [m[keys[|keys| - 1]]]
  }

  function ChangedPairs(keys: seq<Key>, base: map<Key, ComplexityEntry>, cand: map<Key, ComplexityEntry>)
    : seq<(ComplexityEntry, ComplexityEntry)>
    requires forall k | k in keys :: k in base && k in cand
  {
    if keys == [] then []
    else
      var k := keys[|keys| - 1];
      ChangedPairs(keys[..|keys| - 1], base, cand)
      + (if ComplexityDiffers(base[k], cand[k]) then [(base[k], cand[k])] else [])
  }

  function FunctionDiff(baseline: seq<ComplexityEntry>, candidate: seq<ComplexityEntry>): FunctionChanges {
    var base, cand := IndexBy(baseline, ComplexityKey), IndexBy(candidate, ComplexityKey);
    FunctionChanges(
      EntriesAt(AddedKeys(base, cand), cand),
      EntriesAt(AddedKeys(cand, base), base),
      ChangedPairs(CommonKeys(base, cand), base, cand))
  }

  function DumpChangedPair(p: (ComplexityEntry, ComplexityEntry)): Value {
    Map([Entry("after", DumpComplexity(p.1)), Entry("before", DumpComplexity(p.0)), Entry("fqn", Str(p.0.fqn))])
  }

  /** `_complexity_changes`: nothing when all three lists are empty. */
  function ComplexityChangesRecord(baseline: seq<ComplexityEntry>, candidate: seq<ComplexityEntry>): Option<Value> {
    var f := FunctionDiff(baseline, candidate);
    if f.added == [] && f.removed == [] && f.changed == [] then None
    else Some(Map([Entry("added", Seq(MapSeq(DumpComplexity, f.added))),
                   Entry("changed", Seq(MapSeq(DumpChangedPair, f.changed))),
                   Entry("removed", Seq(MapSeq(DumpComplexity, f.removed)))]))
  }

  // ---- test surface ----

  function CaseId(e: TestEntry): string { e.testFile + "::" + e.testFunction }

  function SortedStrings(s: set<Key>): seq<string> { FlatKey(SortedSet(s)) }

  function TestFiles(entries: seq<TestEntry>): set<Key> { set e | e in entries :: [e.testFile] }

  function TestCases(entries: seq<TestEntry>): set<Key> { set e | e in entries :: [CaseId(e)] }

  function TestDiff(baseline: seq<TestEntry>, candidate: seq<TestEntry>): TestDelta {
    TestDelta(
      SortedStrings(TestFiles(candidate) - TestFiles(baseline)),
      SortedStrings(TestCases(candidate) - TestCases(baseline)),
      SortedStrings(TestCases(baseline) - TestCases(candidate)))
  }

  function TestKey(e: TestEntry): Key { [e.testFile, e.testFunction] }

  predicate TestDiffers(before: TestEntry, after: TestEntry) {
    before.asserts != after.asserts || before.parametrizeCount != after.parametrizeCount
  }

  function ChangedTests(keys: seq<Key>, base: map<Key, TestEntry>, cand: map<Key, TestEntry>): seq<Value>
    requires forall k | k in keys :: k in base && k in cand
  {
    if keys == [] then []
    else
      var k := keys[0];
      (if TestDiffers(base[k], cand[k])
       then [Map([Entry("after", DumpTest(cand[k])), Entry("before", DumpTest(base[k])),
                  Entry("test_file", Str(base[k].testFile)), Entry("test_function", Str(base[k].testFunction))])]
       else [])
      + ChangedTests(keys[1..], base, cand)
  }

  function TestSurfaceChangesRecord(baseline: seq<TestEntry>, candidate: seq<TestEntry>): Option<Value> {
    var base, cand := IndexBy(baseline, TestKey), IndexBy(candidate, TestKey);
    var changed := ChangedTests(CommonKeys(base, cand), base, cand);
    if changed == [] then None else Some(Map([Entry("changed", Seq(changed))]))
  }

  // ---- module graph ----

  function ModuleEdges(entries: seq<ModuleEntry>): set<Key> {
    set e, i | e in entries && i in e.imports :: [e.name, i]
  }

  function ModuleGraphRecord(baseline: seq<ModuleEntry>, candidate: seq<ModuleEntry>): Option<Value> {
    var added := SortedSet(ModuleEdges(candidate) - ModuleEdges(baseline));
    var removed := SortedSet(ModuleEdges(baseline) - ModuleEdges(candidate));
    if added == [] && removed == [] then None
    else Some(Map([Entry("added_edges", Seq(MapSeq(Strings, added))),
                   Entry("removed_edges", Seq(MapSeq(Strings, removed)))]))
  }

  // ---- the delta ----

  /** `_build_python_specific`: null when every sub-record is empty. */
  function DetailsDiff(baseline: CodeState, candidate: CodeState): Option<Details> {
    var d := Details(
      ModuleGraphRecord(baseline.moduleGraph, candidate.moduleGraph),
      ComplexityChangesRecord(baseline.complexity, candidate.complexity),
      TestSurfaceChangesRecord(baseline.testSurface, candidate.testSurface));
    if d == Details(None, None, None) then None else Some(d)
  }

  function ComputeDelta(baseline: CodeState, candidate: CodeState): CodeStateDelta {
    CodeStateDelta(
      ApiSurfaceDiff(baseline.apiSurface, candidate.apiSurface),
      DecoratorsDiff(baseline.apiSurface, candidate.apiSurface),
      [],
      ItemDiff(baseline.effects, candidate.effects, EffectKey, DumpEffect),
      CfgRecord(0, 0),
      ItemDiff(baseline.imports, candidate.imports, ImportKey, DumpImportByAlias),
      ComplexityDiff(baseline.complexity, candidate.complexity),
      TestDiff(baseline.testSurface, candidate.testSurface),
      None,
      0,
      LocRecord(0, 0),
      [],
      DetailsDiff(baseline, candidate),
      None)
  }

  /** `overlay_delta`: git-derived facts laid over the pure delta. */
  datatype Overlay = Overlay(filesTouched: int, locDelta: LocRecord, renames: seq<RenameEntry>)

  function OverlayDelta(d: CodeStateDelta, o: Overlay): CodeStateDelta {
    d.(filesTouched := o.filesTouched, locDelta := o.locDelta, renames := o.renames)
  }
}
