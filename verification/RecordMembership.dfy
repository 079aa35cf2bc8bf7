/**
  The records of the computed delta: each is the dump of an entry of one state whose key the other
  state does not have, or of a pair of entries with one key that differ; and a dump can be read back.
 */
module RecordMembership {
  import opened Values
  import opened Vocabulary
  import opened States
  import opened Ordering
  import opened Deltas
  import opened DeltaLaws
  import opened ApiDeltaLaws
  import opened Sorting
  import opened ExcludedPaths
  import Paths

  // ---- dumps read back ----

  function Text(v: Value, key: string): string { TextOf(FieldOf(v, key)) }

  function Number(v: Value, key: string): Option<int> {
    match FieldOf(v, key)
    case Num(n) => Some(n.Floor)
    case _ => None
  }

  function ReadComplexity(v: Value): ComplexityEntry {
    ComplexityEntry(Text(v, "fqn"), Number(v, "cyclomatic"), Number(v, "cognitive"))
  }

  function ReadTest(v: Value): TestEntry {
    TestEntry(Text(v, "test_file"), Text(v, "test_function"), Number(v, "asserts"), Number(v, "parametrize_count"))
  }

  function ReadModule(v: Value): ModuleEntry {
    ModuleEntry(Text(v, "module"), TextsOf(FieldOf(v, "imports")), TextsOf(FieldOf(v, "imported_by")))
  }

  function OptText(v: Value, key: string): Option<string> {
    match FieldOf(v, key)
    case Str(s) => Some(s)
    case _ => None
  }

  function ReadImport(v: Value, from: string): ImportEntry {
    ImportEntry(Text(v, "module"), OptText(v, from), TextsOf(FieldOf(v, "symbols")))
  }

  function ReadApi(v: Value): ApiEntry {
    ApiEntry(Text(v, "fqn"), Text(v, "kind"), OptText(v, "signature"), OptText(v, "visibility"),
             TextsOf(FieldOf(v, "decorators")))
  }

  function ReadRename(v: Value): RenameEntry { RenameEntry(Text(v, "old_path"), Text(v, "new_path")) }

  lemma TextsBack(ss: seq<string>)
    ensures TextsOf(Strings(ss)) == ss
  {
  }

  lemma NumberBack(o: Option<int>)
    ensures match OptInt(o) case Num(n) => o == Some(n.Floor) case _ => o == None
  {
  }

  lemma ComplexityBack(e: ComplexityEntry)
    ensures ReadComplexity(DumpComplexity(e)) == e
  {
    var es := DumpComplexity(e).entries;
    LookupAt(es, 0);
    LookupAt(es, 1);
    LookupAt(es, 2);
    NumberBack(e.cyclomatic);
    NumberBack(e.cognitive);
  }

  lemma TestBack(e: TestEntry)
    ensures ReadTest(DumpTest(e)) == e
  {
    var es := DumpTest(e).entries;
    LookupAt(es, 0);
    LookupAt(es, 1);
    LookupAt(es, 2);
    LookupAt(es, 3);
    NumberBack(e.asserts);
    NumberBack(e.parametrizeCount);
  }

  lemma ModuleBack(e: ModuleEntry)
    ensures ReadModule(DumpModule(e)) == e
  {
    var es := DumpModule(e).entries;
    LookupAt(es, 0);
    LookupAt(es, 1);
    LookupAt(es, 2);
    TextsBack(e.imports);
    TextsBack(e.importedBy);
  }

  lemma ImportBack(e: ImportEntry)
    ensures ReadImport(DumpImport(e), "from_") == e && ReadImport(DumpImportByAlias(e), "from") == e
  {
    var es, fs := DumpImport(e).entries, DumpImportByAlias(e).entries;
    LookupAt(es, 0);
    LookupAt(es, 1);
    LookupAt(es, 2);
    LookupAt(fs, 0);
    LookupAt(fs, 1);
    LookupAt(fs, 2);
    TextsBack(e.symbols);
  }

  lemma {:induction false} LookupMisses(es: seq<Entry>, key: string)
    requires forall i | 0 <= i < |es| :: es[i].key != key
    ensures LookupKey(es, key) == None
  {
    if es != [] { LookupMisses(es[1..], key); }
  }

  lemma ApiBack(e: ApiEntry)
    ensures ReadApi(DumpApi(e)) == e && ReadApi(DumpApiVariant(e)) == e.(decorators := [])
  {
    var es := DumpApi(e).entries;
    LookupAt(es, 0);
    LookupAt(es, 1);
    LookupAt(es, 2);
    LookupAt(es, 3);
    LookupAt(es, 4);
    TextsBack(e.decorators);
    VariantBack(e);
  }

  lemma VariantBack(e: ApiEntry)
    ensures ReadApi(DumpApiVariant(e)) == e.(decorators := [])
  {
    DumpFields(e);
    LookupMisses(DumpApiVariant(e).entries, "decorators");
  }

  lemma RenameBack(e: RenameEntry)
    ensures ReadRename(DumpRename(e)) == e
  {
    var es := DumpRename(e).entries;
    LookupAt(es, 0);
    LookupAt(es, 1);
  }

  /** Every dump of an entry can be read back from the names of its fields. */
  lemma DumpsReadBack(api: ApiEntry, imported: ImportEntry, cost: ComplexityEntry, test: TestEntry, m: ModuleEntry,
                      rename: RenameEntry)
    ensures ReadApi(DumpApi(api)) == api && ReadApi(DumpApiVariant(api)) == api.(decorators := [])
    ensures ReadImport(DumpImport(imported), "from_") == imported
    ensures ReadImport(DumpImportByAlias(imported), "from") == imported
    ensures ReadComplexity(DumpComplexity(cost)) == cost && ReadTest(DumpTest(test)) == test
    ensures ReadModule(DumpModule(m)) == m && ReadRename(DumpRename(rename)) == rename
  {
    ApiBack(api);
    ImportBack(imported);
    ComplexityBack(cost);
    TestBack(test);
    ModuleBack(m);
    RenameBack(rename);
  }

  // ---- items of a keyed diff ----

  /** Some entry has the key. */
  ghost predicate HasEntry<T>(entries: seq<T>, key: T -> Key, k: Key) {
    exists i :: 0 <= i < |entries| && key(entries[i]) == k
  }

  lemma {:induction false} DumpedAt<T>(keys: seq<Key>, m: map<Key, T>, dump: T -> Value, v: Value)
    requires forall k | k in keys :: k in m
    ensures v in DumpsAt(keys, m, dump) <==> exists k :: k in keys && v == dump(m[k])
  {
    if keys != [] {
      DumpedAt(keys[1..], m, dump, v);
      assert DumpsAt(keys, m, dump) == [dump(m[keys[0]])] + DumpsAt(keys[1..], m, dump);
      assert keys == [keys[0]] + keys[1..];
    }
  }

  /** There is one first entry of a key. */
  lemma FirstUnique<T>(entries: seq<T>, key: T -> Key, x: T, y: T)
    requires IsFirst(entries, key, x) && IsFirst(entries, key, y) && key(x) == key(y)
    ensures x == y
  {
    var i :| 0 <= i < |entries| && entries[i] == x && forall j | 0 <= j < i :: key(entries[j]) != key(x);
    var k :| 0 <= k < |entries| && entries[k] == y && forall j | 0 <= j < k :: key(entries[j]) != key(y);
    assert i == k;
  }

  lemma FirstIndexed<T>(entries: seq<T>, key: T -> Key, e: T)
    ensures IsFirst(entries, key, e) <==> key(e) in IndexBy(entries, key) && IndexBy(entries, key)[key(e)] == e
  {
    IndexIsFirst(entries, key, key(e));
    if IsFirst(entries, key, e) {
      FirstUnique(entries, key, e, IndexBy(entries, key)[key(e)]);
    }
  }

  /** The first entry of a key that the other list does not have. */
  ghost predicate IsNew<T>(entries: seq<T>, other: seq<T>, key: T -> Key, e: T) {
    IsFirst(entries, key, e) && !HasEntry(other, key, key(e))
  }

  ghost predicate DumpOfNew<T(!new)>(entries: seq<T>, other: seq<T>, key: T -> Key, dump: T -> Value, v: Value) {
    exists e :: IsNew(entries, other, key, e) && v == dump(e)
  }

  lemma NewIndexed<T>(b: seq<T>, c: seq<T>, key: T -> Key, e: T)
    ensures IsNew(c, b, key, e)
       <==> key(e) in AddedKeys(IndexBy(b, key), IndexBy(c, key)) && IndexBy(c, key)[key(e)] == e
  {
    FirstIndexed(c, key, e);
    IndexIsFirst(b, key, key(e));
  }

  /** An added item is the dump of the first entry of a key that only the candidate has. */
  lemma AddedItems<T(!new)>(b: seq<T>, c: seq<T>, key: T -> Key, dump: T -> Value, v: Value)
    ensures v in ItemDiff(b, c, key, dump).added <==> DumpOfNew(c, b, key, dump, v)
  {
    var base, cand := IndexBy(b, key), IndexBy(c, key);
    var keys := AddedKeys(base, cand);
    DumpedAt(keys, cand, dump, v);
    if k :| k in keys && v == dump(cand[k]) {
      IndexIsFirst(c, key, k);
      NewIndexed(b, c, key, cand[k]);
    }
    if e :| IsNew(c, b, key, e) && v == dump(e) {
      NewIndexed(b, c, key, e);
      assert v == dump(cand[key(e)]);
    }
  }

  /** Effects and imports: what is added and removed, in terms of the entries of the two states. */
  lemma ItemsExactly(b: CodeState, c: CodeState, v: Value)
    ensures var d := ComputeDelta(b, c);
      && (v in d.effectChanges.added <==> DumpOfNew(c.effects, b.effects, EffectKey, DumpEffect, v))
      && (v in d.effectChanges.removed <==> DumpOfNew(b.effects, c.effects, EffectKey, DumpEffect, v))
      && (v in d.importsDelta.added <==> DumpOfNew(c.imports, b.imports, ImportKey, DumpImportByAlias, v))
      && (v in d.importsDelta.removed <==> DumpOfNew(b.imports, c.imports, ImportKey, DumpImportByAlias, v))
  {
    AddedItems(b.effects, c.effects, EffectKey, DumpEffect, v);
    AddedItems(c.effects, b.effects, EffectKey, DumpEffect, v);
    AddedItems(b.imports, c.imports, ImportKey, DumpImportByAlias, v);
    AddedItems(c.imports, b.imports, ImportKey, DumpImportByAlias, v);
    SwapItems(b.effects, c.effects, EffectKey, DumpEffect);
    SwapItems(b.imports, c.imports, ImportKey, DumpImportByAlias);
  }

  // ---- functions ----

  ghost predicate FirstOfName(s: CodeState, e: ComplexityEntry) { IsFirst(s.complexity, ComplexityKey, e) }

  ghost predicate HasFunction(s: CodeState, name: string) { HasEntry(s.complexity, ComplexityKey, [name]) }

  lemma {:induction false} EntriesIn<T>(keys: seq<Key>, m: map<Key, T>, x: T)
    requires forall k | k in keys :: k in m
    ensures x in EntriesAt(keys, m) <==> exists k :: k in keys && x == m[k]
  {
    if keys != [] {
      EntriesIn(keys[..|keys| - 1], m, x);
      assert keys == keys[..|keys| - 1] + [keys[|keys| - 1]];
    }
  }

  lemma {:induction false} PairsIn(keys: seq<Key>, base: map<Key, ComplexityEntry>, cand: map<Key, ComplexityEntry>,
                                   p: (ComplexityEntry, ComplexityEntry))
    requires forall k | k in keys :: k in base && k in cand
    ensures p in ChangedPairs(keys, base, cand)
       <==> (p.0.cyclomatic != p.1.cyclomatic || p.0.cognitive != p.1.cognitive)
            && exists k :: k in keys && p == (base[k], cand[k])
  {
    if keys != [] {
      PairsIn(keys[..|keys| - 1], base, cand, p);
      assert keys == keys[..|keys| - 1] + [keys[|keys| - 1]];
    }
  }

  lemma AddedFunctions(b: seq<ComplexityEntry>, c: seq<ComplexityEntry>, e: ComplexityEntry)
    ensures e in FunctionDiff(b, c).added
       <==> IsFirst(c, ComplexityKey, e) && !HasEntry(b, ComplexityKey, ComplexityKey(e))
  {
    var base, cand := IndexBy(b, ComplexityKey), IndexBy(c, ComplexityKey);
    EntriesIn(AddedKeys(base, cand), cand, e);
    FirstIndexed(c, ComplexityKey, e);
    IndexIsFirst(b, ComplexityKey, ComplexityKey(e));
    if k :| k in AddedKeys(base, cand) && e == cand[k] {
      IndexIsFirst(c, ComplexityKey, k);
    }
  }

  lemma ChangedFunctions(b: seq<ComplexityEntry>, c: seq<ComplexityEntry>, x: ComplexityEntry, y: ComplexityEntry)
    ensures (x, y) in FunctionDiff(b, c).changed
       <==> IsFirst(b, ComplexityKey, x) && IsFirst(c, ComplexityKey, y) && x.fqn == y.fqn
            && (x.cyclomatic != y.cyclomatic || x.cognitive != y.cognitive)
  {
    var base, cand := IndexBy(b, ComplexityKey), IndexBy(c, ComplexityKey);
    PairsIn(CommonKeys(base, cand), base, cand, (x, y));
    FirstIndexed(b, ComplexityKey, x);
    FirstIndexed(c, ComplexityKey, y);
    assert ComplexityKey(x) == ComplexityKey(y) <==> x.fqn == y.fqn by {
      assert ComplexityKey(x)[0] == x.fqn && ComplexityKey(y)[0] == y.fqn;
    }
    if k :| k in CommonKeys(base, cand) && x == base[k] && y == cand[k] {
      IndexIsFirst(b, ComplexityKey, k);
      IndexIsFirst(c, ComplexityKey, k);
    }
  }

  /** Functions added, removed and changed, as the pair of their first entries. */
  lemma FunctionsExactly(b: CodeState, c: CodeState, x: ComplexityEntry, y: ComplexityEntry)
    ensures var d := FunctionDiff(b.complexity, c.complexity);
      && (y in d.added <==> FirstOfName(c, y) && !HasFunction(b, y.fqn))
      && (x in d.removed <==> FirstOfName(b, x) && !HasFunction(c, x.fqn))
      && ((x, y) in d.changed <==> FirstOfName(b, x) && FirstOfName(c, y) && x.fqn == y.fqn
                                   && (x.cyclomatic != y.cyclomatic || x.cognitive != y.cognitive))
  {
    AddedFunctions(b.complexity, c.complexity, y);
    AddedFunctions(c.complexity, b.complexity, x);
    SwapFunctions(b.complexity, c.complexity);
    ChangedFunctions(b.complexity, c.complexity, x, y);
  }

  // ---- the records of functions and tests ----

  function ReadAll<T>(record: Value, key: string, read: Value -> T): seq<T> {
    match FieldOf(record, key)
    case Seq(items) => MapSeq(read, items)
    case _ => []
  }

  function ReadPair(v: Value): (ComplexityEntry, ComplexityEntry) {
    (ReadComplexity(FieldOf(v, "before")), ReadComplexity(FieldOf(v, "after")))
  }

  lemma PairBack(p: (ComplexityEntry, ComplexityEntry))
    ensures ReadPair(DumpChangedPair(p)) == p && FieldOf(DumpChangedPair(p), "fqn") == Str(p.0.fqn)
  {
    var es := DumpChangedPair(p).entries;
    LookupAt(es, 0);
    LookupAt(es, 1);
    LookupAt(es, 2);
    ComplexityBack(p.0);
    ComplexityBack(p.1);
  }

  lemma ThreeFields(added: Value, changed: Value, removed: Value)
    ensures var r := Map([Entry("added", added), Entry("changed", changed), Entry("removed", removed)]);
      FieldOf(r, "added") == added && FieldOf(r, "changed") == changed && FieldOf(r, "removed") == removed
  {
    var es := [Entry("added", added), Entry("changed", changed), Entry("removed", removed)];
    LookupAt(es, 0);
    LookupAt(es, 1);
    LookupAt(es, 2);
  }

  lemma MapsBack<A, B>(dump: A -> B, read: B -> A, xs: seq<A>)
    requires forall i | 0 <= i < |xs| :: read(dump(xs[i])) == xs[i]
    ensures MapSeq(read, MapSeq(dump, xs)) == xs
  {
  }

  lemma ListsBack(d: FunctionChanges)
    ensures MapSeq(ReadComplexity, MapSeq(DumpComplexity, d.added)) == d.added
    ensures MapSeq(ReadComplexity, MapSeq(DumpComplexity, d.removed)) == d.removed
    ensures MapSeq(ReadPair, MapSeq(DumpChangedPair, d.changed)) == d.changed
  {
    forall e: ComplexityEntry ensures ReadComplexity(DumpComplexity(e)) == e { ComplexityBack(e); }
    forall p: (ComplexityEntry, ComplexityEntry) ensures ReadPair(DumpChangedPair(p)) == p { PairBack(p); }
    MapsBack(DumpComplexity, ReadComplexity, d.added);
    MapsBack(DumpComplexity, ReadComplexity, d.removed);
    MapsBack(DumpChangedPair, ReadPair, d.changed);
  }

  /** A record that reads back as these changes. */
  predicate RecordsChanges(r: Value, d: FunctionChanges) {
    && ReadAll(r, "added", ReadComplexity) == d.added
    && ReadAll(r, "removed", ReadComplexity) == d.removed
    && ReadAll(r, "changed", ReadPair) == d.changed
  }

  function ChangesRecord(d: FunctionChanges): Value {
    Map([Entry("added", Seq(MapSeq(DumpComplexity, d.added))),
         Entry("changed", Seq(MapSeq(DumpChangedPair, d.changed))),
         Entry("removed", Seq(MapSeq(DumpComplexity, d.removed)))])
  }

  lemma ChangesRead(d: FunctionChanges)
    ensures RecordsChanges(ChangesRecord(d), d)
  {
    ThreeFields(Seq(MapSeq(DumpComplexity, d.added)), Seq(MapSeq(DumpChangedPair, d.changed)),
                Seq(MapSeq(DumpComplexity, d.removed)));
    ListsBack(d);
  }

  lemma ChangesBack(b: seq<ComplexityEntry>, c: seq<ComplexityEntry>)
    ensures var r, d := ComplexityChangesRecord(b, c), FunctionDiff(b, c);
      if r.Some? then RecordsChanges(r.value, d) && d != FunctionChanges([], [], [])
      else d == FunctionChanges([], [], [])
  {
    var d := FunctionDiff(b, c);
    ChangesRead(d);
    assert ComplexityChangesRecord(b, c) == if d == FunctionChanges([], [], []) then None else Some(ChangesRecord(d));
  }

  /** The record of changed functions reads back as the three lists; without any there is no record. */
  lemma FunctionRecordBack(b: CodeState, c: CodeState)
    ensures var r, d := DetailsOf(ComputeDelta(b, c)).complexityChanges, FunctionDiff(b.complexity, c.complexity);
      if r.Some? then RecordsChanges(r.value, d) && d != FunctionChanges([], [], [])
      else d == FunctionChanges([], [], [])
  {
    DetailsAreFieldwise(b, c);
    ChangesBack(b.complexity, c.complexity);
  }

  function ReadTests(v: Value): (TestEntry, TestEntry) {
    (ReadTest(FieldOf(v, "before")), ReadTest(FieldOf(v, "after")))
  }

  lemma TestsBack(x: TestEntry, y: TestEntry)
    ensures var v := ChangedTest(x, y);
      && ReadTests(v) == (x, y)
      && FieldOf(v, "test_file") == Str(x.testFile) && FieldOf(v, "test_function") == Str(x.testFunction)
  {
    var es := ChangedTest(x, y).entries;
    LookupAt(es, 0);
    LookupAt(es, 1);
    LookupAt(es, 2);
    LookupAt(es, 3);
    TestBack(x);
    TestBack(y);
  }

  /** Two measurements of one test that differ. */
  predicate CountsDiffer(x: TestEntry, y: TestEntry) {
    x.asserts != y.asserts || x.parametrizeCount != y.parametrizeCount
  }

  lemma {:induction false} TestsIn(keys: seq<Key>, base: map<Key, TestEntry>, cand: map<Key, TestEntry>,
                                   x: TestEntry, y: TestEntry)
    requires forall k | k in keys :: k in base && k in cand
    ensures (x, y) in MapSeq(ReadTests, ChangedTests(keys, base, cand))
       <==> CountsDiffer(x, y) && exists k :: k in keys && x == base[k] && y == cand[k]
  {
    if keys != [] {
      var k := keys[0];
      TestsIn(keys[1..], base, cand, x, y);
      TestsBack(base[k], cand[k]);
      var one := if CountsDiffer(base[k], cand[k]) then [ChangedTest(base[k], cand[k])] else [];
      var rest := ChangedTests(keys[1..], base, cand);
      assert ChangedTests(keys, base, cand) == one + rest;
      assert MapSeq(ReadTests, one + rest) == MapSeq(ReadTests, one) + MapSeq(ReadTests, rest);
      assert MapSeq(ReadTests, one) == if CountsDiffer(base[k], cand[k]) then [(base[k], cand[k])] else [];
      assert keys == [k] + keys[1..];
    }
  }

  lemma SameTest(x: TestEntry, y: TestEntry)
    ensures TestKey(x) == TestKey(y) <==> x.testFile == y.testFile && x.testFunction == y.testFunction
  {
    assert TestKey(x)[0] == x.testFile && TestKey(x)[1] == x.testFunction;
    assert TestKey(y)[0] == y.testFile && TestKey(y)[1] == y.testFunction;
  }

  /** Tests of both lists whose first entries differ in their assertions or parameters. */
  lemma ChangedTestPairs(b: seq<TestEntry>, c: seq<TestEntry>, x: TestEntry, y: TestEntry)
    ensures (x, y) in MapSeq(ReadTests, TestChanges(b, c))
       <==> IsFirst(b, TestKey, x) && IsFirst(c, TestKey, y)
            && x.testFile == y.testFile && x.testFunction == y.testFunction && CountsDiffer(x, y)
  {
    var base, cand := IndexBy(b, TestKey), IndexBy(c, TestKey);
    TestsIn(CommonKeys(base, cand), base, cand, x, y);
    FirstIndexed(b, TestKey, x);
    FirstIndexed(c, TestKey, y);
    SameTest(x, y);
    if k :| k in CommonKeys(base, cand) && x == base[k] && y == cand[k] {
      IndexIsFirst(b, TestKey, k);
      IndexIsFirst(c, TestKey, k);
    }
  }

  lemma TestRecord(changed: seq<Value>)
    ensures FieldOf(Map([Entry("changed", Seq(changed))]), "changed") == Seq(changed)
  {
    LookupAt([Entry("changed", Seq(changed))], 0);
  }

  function ReadTestChanges(r: Option<Value>): seq<(TestEntry, TestEntry)> {
    if r.Some? then ReadAll(r.value, "changed", ReadTests) else []
  }

  lemma TestChangesBack(b: CodeState, c: CodeState)
    ensures ReadTestChanges(DetailsOf(ComputeDelta(b, c)).testSurfaceChanges)
         == MapSeq(ReadTests, TestChanges(b.testSurface, c.testSurface))
  {
    DetailsAreFieldwise(b, c);
    TestRecordBack(b.testSurface, c.testSurface);
  }

  lemma TestRecordBack(b: seq<TestEntry>, c: seq<TestEntry>)
    ensures ReadTestChanges(TestSurfaceChangesRecord(b, c)) == MapSeq(ReadTests, TestChanges(b, c))
  {
    TestRecord(TestChanges(b, c));
  }

  /** The record of changed tests reads back as the pairs of entries that differ. */
  lemma ChangedTestsExactly(b: CodeState, c: CodeState, x: TestEntry, y: TestEntry)
    ensures (x, y) in ReadTestChanges(DetailsOf(ComputeDelta(b, c)).testSurfaceChanges)
       <==> IsFirst(b.testSurface, TestKey, x) && IsFirst(c.testSurface, TestKey, y)
            && x.testFile == y.testFile && x.testFunction == y.testFunction && CountsDiffer(x, y)
  {
    ChangedTestPairs(b.testSurface, c.testSurface, x, y);
    TestChangesBack(b, c);
  }

  // ---- symbols ----

  ghost predicate HasSymbol(s: CodeState, fqn: string, kind: string) {
    exists e :: e in s.apiSurface && e.fqn == fqn && e.kind == kind
  }

  /** The record of a symbol of one state that the other does not have. */
  ghost predicate DumpOfLost(s: CodeState, other: CodeState, v: Value) {
    exists e :: e in s.apiSurface && !HasSymbol(other, e.fqn, e.kind) && v == DumpApiVariant(e)
  }

  lemma SymbolGrouped(s: CodeState, fqn: string, kind: string)
    ensures [fqn, kind] in GroupBy(s.apiSurface, ApiKey) <==> HasSymbol(s, fqn, kind)
  {
    GroupHolds(s.apiSurface, ApiKey, [fqn, kind]);
    if [fqn, kind] in KeySet(s.apiSurface, ApiKey) {
      var e :| e in s.apiSurface && ApiKey(e) == [fqn, kind];
      assert ApiKey(e)[0] == [fqn, kind][0] && ApiKey(e)[1] == [fqn, kind][1];
    }
    if e :| e in s.apiSurface && e.fqn == fqn && e.kind == kind {
      assert ApiKey(e) in KeySet(s.apiSurface, ApiKey);
    }
  }

  lemma GroupedEntry(entries: seq<ApiEntry>, e: ApiEntry)
    requires e in entries
    ensures ApiKey(e) in GroupBy(entries, ApiKey) && e in GroupBy(entries, ApiKey)[ApiKey(e)]
  {
    GroupIsSubsequence(entries, ApiKey, ApiKey(e));
    FilterMembers(entries, HasKey(ApiKey, ApiKey(e)));
  }

  lemma GroupDumped(entries: seq<ApiEntry>, v: Value)
    ensures v in GroupDumps(entries) <==> exists e :: e in entries && v == DumpApiVariant(e)
  {
    var sorted := SortByKey(entries, ApiVariantKey);
    if v in GroupDumps(entries) {
      var i :| 0 <= i < |sorted| && DumpApiVariant(sorted[i]) == v;
      SortHolds(entries, ApiVariantKey, sorted[i]);
    }
    if e :| e in entries && v == DumpApiVariant(e) {
      SortHolds(entries, ApiVariantKey, e);
      var i :| 0 <= i < |sorted| && sorted[i] == e;
      assert GroupDumps(entries)[i] == v;
    }
  }

  lemma {:induction false} FlattenHolds(keys: seq<Key>, groups: map<Key, seq<ApiEntry>>, v: Value)
    requires forall k | k in keys :: k in groups
    ensures v in FlattenGroups(keys, groups) <==> exists k :: k in keys && v in GroupDumps(groups[k])
  {
    if keys != [] {
      FlattenHolds(keys[1..], groups, v);
      assert keys == [keys[0]] + keys[1..];
    }
  }

  lemma AddedRecords(b: CodeState, c: CodeState, v: Value)
    ensures v in ApiSurfaceDiff(b.apiSurface, c.apiSurface).added <==> DumpOfLost(c, b, v)
  {
    var base, cand := GroupBy(b.apiSurface, ApiKey), GroupBy(c.apiSurface, ApiKey);
    var keys := AddedKeys(base, cand);
    FlattenHolds(keys, cand, v);
    if k :| k in keys && v in GroupDumps(cand[k]) {
      GroupDumped(cand[k], v);
      var e :| e in cand[k] && v == DumpApiVariant(e);
      GroupHolds(c.apiSurface, ApiKey, k);
      SymbolGrouped(b, e.fqn, e.kind);
    }
    if e :| e in c.apiSurface && !HasSymbol(b, e.fqn, e.kind) && v == DumpApiVariant(e) {
      GroupedEntry(c.apiSurface, e);
      SymbolGrouped(b, e.fqn, e.kind);
      GroupDumped(cand[ApiKey(e)], v);
      assert ApiKey(e) in keys;
    }
  }

  /** Symbols: every variant of a new symbol is added, and every variant of a lost one is removed. */
  lemma SymbolsExactly(b: CodeState, c: CodeState, v: Value)
    ensures v in ComputeDelta(b, c).apiSurfaceDelta.added <==> DumpOfLost(c, b, v)
    ensures v in ComputeDelta(b, c).apiSurfaceDelta.removed <==> DumpOfLost(b, c, v)
  {
    AddedRecords(b, c, v);
    AddedRecords(c, b, v);
    SwapApi(b.apiSurface, c.apiSurface);
  }

  /** The records on one side of a changed symbol: one record, or the list of its variants. */
  function SideRecords(side: Value): seq<Value> { if side.Seq? then side.items else [side] }

  lemma SideList(entries: seq<ApiEntry>)
    ensures ChangedPayload(entries, true) == Seq(GroupDumps(entries))
    ensures multiset(GroupDumps(entries)) == VariantDumps(entries)
  {
    SortDumps(entries);
  }

  lemma SideOne(entries: seq<ApiEntry>)
    requires |entries| == 1
    ensures ChangedPayload(entries, false) == DumpApiVariant(entries[0])
    ensures multiset([DumpApiVariant(entries[0])]) == VariantDumps(entries)
  {
    assert entries == [entries[0]] && entries[..0] == [];
    assert SortByKey(entries, ApiVariantKey) == entries;
    assert GroupDumps(entries) == [DumpApiVariant(entries[0])];
    assert MapSeq(DumpApiVariant, entries) == [DumpApiVariant(entries[0])];
  }

  lemma SideBack(entries: seq<ApiEntry>, forceList: bool)
    requires !forceList ==> |entries| == 1
    ensures multiset(SideRecords(ChangedPayload(entries, forceList))) == VariantDumps(entries)
    ensures ChangedPayload(entries, forceList).Seq? <==> forceList
  {
    if forceList { SideList(entries); } else { SideOne(entries); }
  }

  lemma ChangedFields(k: Key, before: seq<ApiEntry>, after: seq<ApiEntry>)
    ensures var v := ChangedRecord(k, before, after); var listed := |before| != 1 || |after| != 1;
      && FieldOf(v, "before") == ChangedPayload(before, listed)
      && FieldOf(v, "after") == ChangedPayload(after, listed)
  {
    var es := ChangedRecord(k, before, after).entries;
    LookupAt(es, 0);
    LookupAt(es, 1);
  }

  /** Each side of the record lists that state's variants, singly when both have just one. */
  predicate ListsSides(v: Value, before: seq<ApiEntry>, after: seq<ApiEntry>) {
    && multiset(SideRecords(FieldOf(v, "before"))) == VariantDumps(before)
    && multiset(SideRecords(FieldOf(v, "after"))) == VariantDumps(after)
    && (FieldOf(v, "before").Seq? <==> |before| != 1 || |after| != 1)
    && (FieldOf(v, "after").Seq? <==> |before| != 1 || |after| != 1)
  }

  lemma RecordListsSides(k: Key, before: seq<ApiEntry>, after: seq<ApiEntry>)
    ensures ListsSides(ChangedRecord(k, before, after), before, after)
  {
    ChangedFields(k, before, after);
    SideBack(before, |before| != 1 || |after| != 1);
    SideBack(after, |before| != 1 || |after| != 1);
  }

  lemma {:induction false} ChangedIn(keys: seq<Key>, base: map<Key, seq<ApiEntry>>, cand: map<Key, seq<ApiEntry>>,
                                     v: Value)
    requires forall k | k in keys :: k in base && k in cand
    requires v in ChangedRecords(keys, base, cand)
    ensures exists k :: k in keys && v == ChangedRecord(k, base[k], cand[k])
  {
    var k := keys[0];
    if v in ChangedRecords(keys[1..], base, cand) {
      ChangedIn(keys[1..], base, cand, v);
      var l :| l in keys[1..] && v == ChangedRecord(l, base[l], cand[l]);
      assert l in keys;
    } else {
      assert v == ChangedRecord(k, base[k], cand[k]);
    }
  }

  /** Every changed record of a delta names its symbol and lists the variants of both states. */
  lemma ChangedSidesExactly(b: CodeState, c: CodeState, v: Value)
    requires v in ComputeDelta(b, c).apiSurfaceDelta.changed
    ensures ListsSides(v, EntriesOf(b.apiSurface, ApiDumpKey(v)), EntriesOf(c.apiSurface, ApiDumpKey(v)))
  {
    var base, cand := GroupBy(b.apiSurface, ApiKey), GroupBy(c.apiSurface, ApiKey);
    ChangedIn(CommonKeys(base, cand), base, cand, v);
    var k :| k in CommonKeys(base, cand) && v == ChangedRecord(k, base[k], cand[k]);
    GroupByIsGrouping(b.apiSurface);
    ChangedKey(k, base[k], cand[k]);
    GroupIsSubsequence(b.apiSurface, ApiKey, k);
    GroupIsSubsequence(c.apiSurface, ApiKey, k);
    RecordListsSides(k, base[k], cand[k]);
  }

  // ---- flat projections ----

  lemma ProjectedText(records: seq<Value>, key: string, s: string)
    ensures Str(s) in Paths.Project(records, key).items
       <==> exists i :: 0 <= i < |records| && FieldOf(records[i], key) == Str(s)
  {
    var kept := Filter(records, Paths.IsTextAt(key));
    FilterMembers(records, Paths.IsTextAt(key));
    var texts := MapSeq(Paths.TextAt(key), kept);
    if Str(s) in texts {
      var i :| 0 <= i < |kept| && texts[i] == Str(s);
      assert kept[i] in records;
    }
    if i :| 0 <= i < |records| && FieldOf(records[i], key) == Str(s) {
      assert records[i] in kept;
      var j :| 0 <= j < |kept| && kept[j] == records[i];
      assert texts[j] == Str(s);
    }
  }

  lemma EffectName(e: EffectEntry)
    ensures FieldOf(DumpEffect(e), "fqn") == Str(e.fqn)
  {
    LookupAt(DumpEffect(e).entries, 3);
  }

  lemma ImportName(e: ImportEntry)
    ensures FieldOf(DumpImportByAlias(e), "module") == Str(e.importedModule)
  {
    LookupAt(DumpImportByAlias(e).entries, 1);
  }

  lemma AddedSymbolNames(b: CodeState, c: CodeState, s: string)
    ensures Str(s) in Paths.Project(ApiSurfaceDiff(b.apiSurface, c.apiSurface).added, "fqn").items
       <==> exists e :: e in c.apiSurface && !HasSymbol(b, e.fqn, e.kind) && e.fqn == s
  {
    var added := ApiSurfaceDiff(b.apiSurface, c.apiSurface).added;
    ProjectedText(added, "fqn", s);
    forall e: ApiEntry ensures FieldOf(DumpApiVariant(e), "fqn") == Str(e.fqn) { DumpFields(e); }
    if i :| 0 <= i < |added| && FieldOf(added[i], "fqn") == Str(s) {
      AddedRecords(b, c, added[i]);
    }
    if e :| e in c.apiSurface && !HasSymbol(b, e.fqn, e.kind) && e.fqn == s {
      AddedRecords(b, c, DumpApiVariant(e));
    }
  }

  lemma AddedNames<T(!new)>(b: seq<T>, c: seq<T>, key: T -> Key, dump: T -> Value, field: string, name: T -> string,
                            s: string)
    requires forall e: T :: FieldOf(dump(e), field) == Str(name(e))
    ensures Str(s) in Paths.Project(ItemDiff(b, c, key, dump).added, field).items
       <==> exists e :: IsNew(c, b, key, e) && name(e) == s
  {
    var added := ItemDiff(b, c, key, dump).added;
    ProjectedText(added, field, s);
    if i :| 0 <= i < |added| && FieldOf(added[i], field) == Str(s) {
      AddedItems(b, c, key, dump, added[i]);
    }
    if e :| IsNew(c, b, key, e) && name(e) == s {
      AddedItems(b, c, key, dump, dump(e));
    }
  }

  function NameOfEffect(e: EffectEntry): string { e.fqn }

  function NameOfImport(e: ImportEntry): string { e.importedModule }

  ghost predicate NewEffectNamed(b: CodeState, c: CodeState, s: string) {
    exists e :: IsNew(c.effects, b.effects, EffectKey, e) && e.fqn == s
  }

  ghost predicate NewImportNamed(b: CodeState, c: CodeState, s: string) {
    exists e :: IsNew(c.imports, b.imports, ImportKey, e) && e.importedModule == s
  }

  lemma AddedEffectNames(b: CodeState, c: CodeState, s: string)
    ensures Str(s) in Paths.Project(ItemDiff(b.effects, c.effects, EffectKey, DumpEffect).added, "fqn").items
       <==> NewEffectNamed(b, c, s)
  {
    forall e: EffectEntry ensures FieldOf(DumpEffect(e), "fqn") == Str(NameOfEffect(e)) { EffectName(e); }
    AddedNames(b.effects, c.effects, EffectKey, DumpEffect, "fqn", NameOfEffect, s);
  }

  lemma AddedImportNames(b: CodeState, c: CodeState, s: string)
    ensures Str(s) in Paths.Project(ItemDiff(b.imports, c.imports, ImportKey, DumpImportByAlias).added, "module").items
       <==> NewImportNamed(b, c, s)
  {
    forall e: ImportEntry ensures FieldOf(DumpImportByAlias(e), "module") == Str(NameOfImport(e)) { ImportName(e); }
    AddedNames(b.imports, c.imports, ImportKey, DumpImportByAlias, "module", NameOfImport, s);
  }

  /** The flat paths list the names of what is new: symbols, effects and imported modules. */
  lemma NamesExactly(b: CodeState, c: CodeState, s: string)
    ensures var d := ComputeDelta(b, c);
      && (Str(s) in Paths.Project(d.apiSurfaceDelta.added, "fqn").items
          <==> exists e :: e in c.apiSurface && !HasSymbol(b, e.fqn, e.kind) && e.fqn == s)
      && (Str(s) in Paths.Project(d.effectChanges.added, "fqn").items <==> NewEffectNamed(b, c, s))
      && (Str(s) in Paths.Project(d.importsDelta.added, "module").items <==> NewImportNamed(b, c, s))
  {
    AddedSymbolNames(b, c, s);
    AddedEffectNames(b, c, s);
    AddedImportNames(b, c, s);
  }

  // ---- what makes two entries one ----

  /** The call an effect's evidence records, if it does. */
  function CallOf(e: EffectEntry): string {
    match e.evidence
    case Map(es) => (match LookupKey(es, "resolved_call") case Some(Str(s)) => s case _ => "")
    case _ => ""
  }

  /** Effects are told apart by function, class and call; imports by module, source and set of symbols. */
  lemma KeysExactly(e: EffectEntry, f: EffectEntry, i: ImportEntry, j: ImportEntry)
    ensures EffectKey(e) == EffectKey(f) <==>
              e.fqn == f.fqn && e.effectClass == f.effectClass && CallOf(e) == CallOf(f)
    ensures ImportKey(i) == ImportKey(j) <==>
              && i.importedModule == j.importedModule && SourceOf(i) == SourceOf(j)
              && multiset(i.symbols) == multiset(j.symbols)
  {
    EffectKeyParts(e, f);
    ImportKeyParts(i, j);
  }

  function SourceOf(i: ImportEntry): string { if i.fromModule.Some? then i.fromModule.value else "" }

  lemma ClassTexts(x: EffectClass, y: EffectClass)
    ensures EffectClassText(x) == EffectClassText(y) ==> x == y
  {
    var a, b := EffectClassText(x), EffectClassText(y);
    assert |a| > 1 && |b| > 1;
    assert a == b ==> |a| == |b| && a[0] == b[0] && a[1] == b[1];
  }

  lemma EffectKeyParts(e: EffectEntry, f: EffectEntry)
    ensures EffectKey(e) == EffectKey(f) <==>
              e.fqn == f.fqn && e.effectClass == f.effectClass && CallOf(e) == CallOf(f)
  {
    var x, y := EffectKey(e), EffectKey(f);
    ClassTexts(e.effectClass, f.effectClass);
    assert x[0] == e.fqn && x[1] == EffectClassText(e.effectClass) && x[2] == CallOf(e);
    assert y[0] == f.fqn && y[1] == EffectClassText(f.effectClass) && y[2] == CallOf(f);
  }

  lemma ImportKeyParts(i: ImportEntry, j: ImportEntry)
    ensures ImportKey(i) == ImportKey(j) <==>
              && i.importedModule == j.importedModule && SourceOf(i) == SourceOf(j)
              && multiset(i.symbols) == multiset(j.symbols)
  {
    var x, y := ImportKey(i), ImportKey(j);
    SortedPatternsAgree(i.symbols, j.symbols);
    assert x[0] == i.importedModule && x[1] == SourceOf(i) && x[2..] == SortStrings(i.symbols);
    assert y[0] == j.importedModule && y[1] == SourceOf(j) && y[2..] == SortStrings(j.symbols);
  }

  /** A further entry of the candidate adds its counts to the delta, and one of the baseline takes them away. */
  lemma EntryCounts(b: seq<ComplexityEntry>, c: seq<ComplexityEntry>, e: ComplexityEntry)
    ensures ComplexityDiff(b, c + [e]).cyclomatic
         == ComplexityDiff(b, c).cyclomatic + (if e.cyclomatic.Some? then e.cyclomatic.value else 0)
    ensures ComplexityDiff(b, c + [e]).cognitive
         == ComplexityDiff(b, c).cognitive + (if e.cognitive.Some? then e.cognitive.value else 0)
    ensures ComplexityDiff(b + [e], c).cyclomatic
         == ComplexityDiff(b, c).cyclomatic - (if e.cyclomatic.Some? then e.cyclomatic.value else 0)
    ensures ComplexityDiff(b + [e], c).cognitive
         == ComplexityDiff(b, c).cognitive - (if e.cognitive.Some? then e.cognitive.value else 0)
  {
    assert (c + [e])[..|c|] == c && (b + [e])[..|b|] == b;
  }
}
