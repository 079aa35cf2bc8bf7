/**
  What the computed delta says of the two states, entry by entry: a name, record or edge is reported
  as added exactly when the candidate has it and the baseline does not, and as removed the other way.
 */
module DeltaMembership {
  import opened Values
  import opened States
  import opened Ordering
  import opened Deltas
  import opened DeltaLaws

  // ---- sorted lists of names ----

  lemma {:induction false} FlatSingles(keys: seq<Key>)
    requires forall k | k in keys :: |k| == 1
    ensures |FlatKey(keys)| == |keys| && forall i | 0 <= i < |keys| :: keys[i] == [FlatKey(keys)[i]]
  {
    if keys != [] { FlatSingles(keys[1..]); }
  }

  /** Keys of one name each are listed as those names, strictly ascending. */
  lemma NamesOfKeys(s: set<Key>, x: string)
    requires forall k | k in s :: |k| == 1
    ensures x in SortedStrings(s) <==> [x] in s
    ensures NamesAscend(SortedStrings(s))
  {
    var keys, names := SortedSet(s), SortedStrings(s);
    FlatSingles(keys);
    SortedSetAscends(s);
    if x in names {
      var i :| 0 <= i < |names| && names[i] == x;
      assert keys[i] in keys;
    }
    if [x] in keys {
      var i :| 0 <= i < |keys| && keys[i] == [x];
      assert [names[i]][0] == [x][0];
    }
    forall i, j | 0 <= i < j < |names| ensures names[i] != names[j] && KeyLe([names[i]], [names[j]]) {
      assert keys[i] != keys[j];
    }
  }

  // ---- tests ----

  ghost predicate HasTest(s: CodeState, name: string) {
    exists e :: e in s.testSurface && e.testFile + "::" + e.testFunction == name
  }

  ghost predicate HasTestFile(s: CodeState, file: string) { exists e :: e in s.testSurface && e.testFile == file }

  lemma NamesTest(s: CodeState, x: string)
    ensures [x] in TestCases(s.testSurface) <==> HasTest(s, x)
  {
    if [x] in TestCases(s.testSurface) {
      var e :| e in s.testSurface && [CaseId(e)] == [x];
      assert [CaseId(e)][0] == [x][0];
    }
  }

  lemma NamesTestFile(s: CodeState, x: string)
    ensures [x] in TestFiles(s.testSurface) <==> HasTestFile(s, x)
  {
    if [x] in TestFiles(s.testSurface) {
      var e :| e in s.testSurface && [e.testFile] == [x];
      assert [e.testFile][0] == [x][0];
    }
  }

  /** New and removed test cases and new test files, each list strictly ascending. */
  lemma TestsExactly(b: CodeState, c: CodeState, x: string)
    ensures var d := ComputeDelta(b, c).testSurfaceDelta;
      && (x in d.newCases <==> HasTest(c, x) && !HasTest(b, x))
      && (x in d.removedCases <==> HasTest(b, x) && !HasTest(c, x))
      && (x in d.newFiles <==> HasTestFile(c, x) && !HasTestFile(b, x))
      && NamesAscend(d.newCases) && NamesAscend(d.removedCases) && NamesAscend(d.newFiles)
  {
    NamesTest(b, x);
    NamesTest(c, x);
    NamesTestFile(b, x);
    NamesTestFile(c, x);
    NamesOfKeys(TestCases(c.testSurface) - TestCases(b.testSurface), x);
    NamesOfKeys(TestCases(b.testSurface) - TestCases(c.testSurface), x);
    NamesOfKeys(TestFiles(c.testSurface) - TestFiles(b.testSurface), x);
  }

  // ---- decorators ----

  /** A public symbol carries the decorator. */
  ghost predicate IsDecorated(s: CodeState, fqn: string, decorator: string) {
    exists e :: e in s.apiSurface && e.fqn == fqn && e.visibility == Some("public") && decorator in e.decorators
  }

  /** The record names the symbol and its decorator. */
  predicate SaysDecorated(record: Value, fqn: string, decorator: string) {
    FieldOf(record, "fqn") == Str(fqn) && FieldOf(record, "decorator") == Str(decorator)
  }

  ghost predicate NamesDecorator(records: seq<Value>, fqn: string, decorator: string) {
    exists i :: 0 <= i < |records| && SaysDecorated(records[i], fqn, decorator)
  }

  lemma PairOf(s: CodeState, fqn: string, decorator: string)
    ensures [fqn, decorator] in DecoratorPairs(s.apiSurface) <==> IsDecorated(s, fqn, decorator)
  {
    if [fqn, decorator] in DecoratorPairs(s.apiSurface) {
      var e, d :| e in s.apiSurface && e.visibility == Some("public") && d in e.decorators
                  && [e.fqn, d] == [fqn, decorator];
      assert [e.fqn, d][0] == [fqn, decorator][0] && [e.fqn, d][1] == [fqn, decorator][1];
    }
  }

  lemma DecoratorRecordSays(fqn: string, decorator: string)
    ensures var r := DecoratorRecord([fqn, decorator]);
      && FieldOf(r, "fqn") == Str(fqn) && FieldOf(r, "decorator") == Str(decorator)
      && FieldOf(r, "decorator_leaf") == Str(LeafName(decorator))
  {
    var es := DecoratorRecord([fqn, decorator]).entries;
    LookupAt(es, 0);
    LookupAt(es, 1);
    LookupAt(es, 2);
  }

  lemma RecordOfPair(k: Key, fqn: string, decorator: string)
    requires |k| == 2
    ensures SaysDecorated(DecoratorRecord(k), fqn, decorator) <==> k == [fqn, decorator]
  {
    assert k == [k[0], k[1]];
    DecoratorRecordSays(k[0], k[1]);
  }

  lemma PairsNamed(s: set<Key>, fqn: string, decorator: string)
    requires forall k | k in s :: |k| == 2
    ensures NamesDecorator(MapSeq(DecoratorRecord, SortedSet(s)), fqn, decorator) <==> [fqn, decorator] in s
  {
    var keys := SortedSet(s);
    var records := MapSeq(DecoratorRecord, keys);
    forall i | 0 <= i < |keys| ensures SaysDecorated(records[i], fqn, decorator) <==> keys[i] == [fqn, decorator] {
      assert keys[i] in keys;
      RecordOfPair(keys[i], fqn, decorator);
    }
    if [fqn, decorator] in s {
      var i :| 0 <= i < |keys| && keys[i] == [fqn, decorator];
      assert SaysDecorated(records[i], fqn, decorator);
    }
  }

  /** Decorators gained and lost by public symbols; a decorator is never reported as changed. */
  lemma DecoratorsExactly(b: CodeState, c: CodeState, fqn: string, decorator: string)
    ensures var d := ComputeDelta(b, c).decoratorsDelta;
      && (NamesDecorator(d.added, fqn, decorator)
          <==> IsDecorated(c, fqn, decorator) && !IsDecorated(b, fqn, decorator))
      && (NamesDecorator(d.removed, fqn, decorator)
          <==> IsDecorated(b, fqn, decorator) && !IsDecorated(c, fqn, decorator))
      && d.changed == []
  {
    PairOf(b, fqn, decorator);
    PairOf(c, fqn, decorator);
    PairsNamed(DecoratorPairs(c.apiSurface) - DecoratorPairs(b.apiSurface), fqn, decorator);
    PairsNamed(DecoratorPairs(b.apiSurface) - DecoratorPairs(c.apiSurface), fqn, decorator);
  }

  /** The leaf is what follows the last dot. */
  lemma {:induction false} LeafExactly(path: string)
    ensures '.' !in LeafName(path)
    ensures '.' !in path ==> LeafName(path) == path
    ensures '.' in path ==> exists p :: path == p + ['.'] + LeafName(path)
  {
    if path != [] {
      var init, last := path[..|path| - 1], path[|path| - 1];
      assert path == init + [last];
      if last == '.' {
        assert path == init + ['.'] + LeafName(path);
      } else {
        LeafExactly(init);
        if '.' in init {
          var p :| init == p + ['.'] + LeafName(init);
          assert path == p + ['.'] + LeafName(path);
        }
      }
    }
  }

  // ---- module edges ----

  ghost predicate HasEdge(s: CodeState, importer: string, imported: string) {
    exists e :: e in s.moduleGraph && e.name == importer && imported in e.imports
  }

  predicate EdgeIn(items: seq<Value>, importer: string, imported: string) {
    Seq([Str(importer), Str(imported)]) in items
  }

  ghost predicate ListsEdge(record: Option<Value>, key: string, importer: string, imported: string) {
    record.Some? && FieldOf(record.value, key).Seq? && EdgeIn(FieldOf(record.value, key).items, importer, imported)
  }

  lemma EdgeOf(s: CodeState, importer: string, imported: string)
    ensures [importer, imported] in ModuleEdges(s.moduleGraph) <==> HasEdge(s, importer, imported)
  {
    if [importer, imported] in ModuleEdges(s.moduleGraph) {
      var e, i :| e in s.moduleGraph && i in e.imports && [e.name, i] == [importer, imported];
      assert [e.name, i][0] == [importer, imported][0] && [e.name, i][1] == [importer, imported][1];
    }
  }

  lemma EdgeRecord(k: Key, importer: string, imported: string)
    requires |k| == 2
    ensures Strings(k) == Seq([Str(importer), Str(imported)]) <==> k == [importer, imported]
  {
    var r := Strings(k).items;
    assert r == [Str(k[0]), Str(k[1])];
    assert r == [Str(importer), Str(imported)] <==> r[0] == Str(importer) && r[1] == Str(imported);
    assert k == [k[0], k[1]];
  }

  lemma EdgesListed(s: set<Key>, importer: string, imported: string)
    requires forall k | k in s :: |k| == 2
    ensures EdgeIn(MapSeq(Strings, SortedSet(s)), importer, imported) <==> [importer, imported] in s
  {
    var keys := SortedSet(s);
    var records := MapSeq(Strings, keys);
    forall i | 0 <= i < |keys|
      ensures records[i] == Seq([Str(importer), Str(imported)]) <==> keys[i] == [importer, imported]
    {
      assert keys[i] in keys;
      EdgeRecord(keys[i], importer, imported);
    }
    if [importer, imported] in s {
      var i :| 0 <= i < |keys| && keys[i] == [importer, imported];
      assert records[i] == Seq([Str(importer), Str(imported)]);
    }
  }

  lemma EdgeFields(gained: Value, lost: Value)
    ensures var r := Map([Entry("added_edges", gained), Entry("removed_edges", lost)]);
      FieldOf(r, "added_edges") == gained && FieldOf(r, "removed_edges") == lost
  {
    var es := [Entry("added_edges", gained), Entry("removed_edges", lost)];
    LookupAt(es, 0);
    LookupAt(es, 1);
  }

  /** The record holds the two differences of the edge sets. */
  lemma GraphRecordHolds(b: seq<ModuleEntry>, c: seq<ModuleEntry>)
    ensures var r := ModuleGraphRecord(b, c);
      var gained, lost := SortedSet(ModuleEdges(c) - ModuleEdges(b)), SortedSet(ModuleEdges(b) - ModuleEdges(c));
      if r.Some? then
        && FieldOf(r.value, "added_edges") == Seq(MapSeq(Strings, gained))
        && FieldOf(r.value, "removed_edges") == Seq(MapSeq(Strings, lost))
      else gained == [] && lost == []
  {
    EdgeFields(Seq(MapSeq(Strings, SortedSet(ModuleEdges(c) - ModuleEdges(b)))),
               Seq(MapSeq(Strings, SortedSet(ModuleEdges(b) - ModuleEdges(c)))));
  }

  /** Import edges gained and lost. */
  lemma EdgesExactly(b: CodeState, c: CodeState, importer: string, imported: string)
    ensures var r := DetailsOf(ComputeDelta(b, c)).moduleGraphDelta;
      && (ListsEdge(r, "added_edges", importer, imported)
          <==> HasEdge(c, importer, imported) && !HasEdge(b, importer, imported))
      && (ListsEdge(r, "removed_edges", importer, imported)
          <==> HasEdge(b, importer, imported) && !HasEdge(c, importer, imported))
  {
    DetailsAreFieldwise(b, c);
    EdgeOf(b, importer, imported);
    EdgeOf(c, importer, imported);
    GraphRecordHolds(b.moduleGraph, c.moduleGraph);
    EdgesListed(ModuleEdges(c.moduleGraph) - ModuleEdges(b.moduleGraph), importer, imported);
    EdgesListed(ModuleEdges(b.moduleGraph) - ModuleEdges(c.moduleGraph), importer, imported);
  }
}
