/** Laws of the code-state delta: conservation of complexity, telescoping, replay, and the empty delta. */
module DeltaLaws {
  import opened Values
  import opened States
  import opened Ordering
  import opened Deltas

  // ---- sums over key sets ----

  ghost function SumOver(s: set<Key>, m: map<Key, ComplexityEntry>, f: ComplexityEntry -> int): int
    requires s <= m.Keys
    decreases |s|
  {
    if s == {} then 0
    else var k :| k in s; f(m[k]) + SumOver(s - {k}, m, f)
  }

  lemma {:induction false} SumRemove(s: set<Key>, k: Key, m: map<Key, ComplexityEntry>, f: ComplexityEntry -> int)
    requires s <= m.Keys && k in s
    ensures SumOver(s, m, f) == f(m[k]) + SumOver(s - {k}, m, f)
    decreases |s|
  {
    var p :| p in s && SumOver(s, m, f) == f(m[p]) + SumOver(s - {p}, m, f);
    if p != k {
      SumRemove(s - {p}, k, m, f);
      SumRemove(s - {k}, p, m, f);
      assert s - {p} - {k} == s - {k} - {p};
    }
  }

  lemma {:induction false} SumSplit(s: set<Key>, t: set<Key>, m: map<Key, ComplexityEntry>, f: ComplexityEntry -> int)
    requires s !! t && s + t <= m.Keys
    ensures SumOver(s + t, m, f) == SumOver(s, m, f) + SumOver(t, m, f)
    decreases |s|
  {
    if s == {} {
      assert s + t == t;
    } else {
      var k :| k in s;
      SumRemove(s, k, m, f);
      SumRemove(s + t, k, m, f);
      SumSplit(s - {k}, t, m, f);
      assert s + t - {k} == (s - {k}) + t;
    }
  }

  lemma {:induction false} SumAgree(
    s: set<Key>, m: map<Key, ComplexityEntry>, n: map<Key, ComplexityEntry>, f: ComplexityEntry -> int)
    requires s <= m.Keys && s <= n.Keys && forall k | k in s :: f(m[k]) == f(n[k])
    ensures SumOver(s, m, f) == SumOver(s, n, f)
    decreases |s|
  {
    if s != {} {
      var k :| k in s;
      SumRemove(s, k, m, f);
      SumRemove(s, k, n, f);
      SumAgree(s - {k}, m, n, f);
    }
  }

  lemma {:induction false} EntriesTotal(keys: seq<Key>, s: set<Key>, m: map<Key, ComplexityEntry>,
                                        f: ComplexityEntry -> int)
    requires Distinct(keys) && (forall k :: k in keys <==> k in s) && s <= m.Keys
    ensures Total(EntriesAt(keys, m), f) == SumOver(s, m, f)
  {
    if keys == [] {
      assert s == {};
    } else {
      var init, k := keys[..|keys| - 1], keys[|keys| - 1];
      assert keys == init + [k];
      assert k !in init;
      EntriesTotal(init, s - {k}, m, f);
      SumRemove(s, k, m, f);
    }
  }

  function ChangeTotal(pairs: seq<(ComplexityEntry, ComplexityEntry)>, f: ComplexityEntry -> int): int
  {
    if pairs == [] then 0
    else ChangeTotal(pairs[..|pairs| - 1], f) + f(pairs[|pairs| - 1].1) - f(pairs[|pairs| - 1].0)
  }

  /** `f` reads one of the two measured fields, so it cannot tell apart entries that do not differ. */
  ghost predicate Measured(f: ComplexityEntry -> int) {
    forall a, b | !ComplexityDiffers(a, b) :: f(a) == f(b)
  }

  lemma {:induction false} ChangedTotal(
    keys: seq<Key>, s: set<Key>, base: map<Key, ComplexityEntry>, cand: map<Key, ComplexityEntry>,
    f: ComplexityEntry -> int)
    requires Distinct(keys) && (forall k :: k in keys <==> k in s) && s <= base.Keys && s <= cand.Keys
    requires Measured(f)
    ensures ChangeTotal(ChangedPairs(keys, base, cand), f) == SumOver(s, cand, f) - SumOver(s, base, f)
  {
    if keys == [] {
      assert s == {};
    } else {
      var init, k := keys[..|keys| - 1], keys[|keys| - 1];
      assert keys == init + [k];
      assert k !in init;
      ChangedTotal(init, s - {k}, base, cand, f);
      SumRemove(s, k, base, f);
      SumRemove(s, k, cand, f);
      var rest := ChangedPairs(init, base, cand);
      if ComplexityDiffers(base[k], cand[k]) {
        var all := rest + [(base[k], cand[k])];
        assert all[..|all| - 1] == rest;
      } else {
        assert ChangedPairs(keys, base, cand) == rest;
      }
    }
  }

  // ---- net totals against per-function changes ----

  /** The total of entries hidden behind an earlier entry of the same function name. */
  function Shadowed(entries: seq<ComplexityEntry>, f: ComplexityEntry -> int): int
  {
    if entries == [] then 0
    else
      var init, last := entries[..|entries| - 1], entries[|entries| - 1];
      Shadowed(init, f) + if ComplexityKey(last) in IndexBy(init, ComplexityKey) then f(last) else 0
  }

  lemma {:induction false} IndexTotal(entries: seq<ComplexityEntry>, f: ComplexityEntry -> int)
    ensures var m := IndexBy(entries, ComplexityKey);
            Total(entries, f) == SumOver(m.Keys, m, f) + Shadowed(entries, f)
  {
    if entries != [] {
      var init, last := entries[..|entries| - 1], entries[|entries| - 1];
      IndexTotal(init, f);
      var m, k := IndexBy(init, ComplexityKey), ComplexityKey(last);
      if k !in m {
        var m' := m[k := last];
        SumRemove(m'.Keys, k, m', f);
        assert m'.Keys - {k} == m.Keys;
        SumAgree(m.Keys, m, m', f);
      }
    }
  }

  function PerFunction(c: FunctionChanges, f: ComplexityEntry -> int): int {
    Total(c.added, f) - Total(c.removed, f) + ChangeTotal(c.changed, f)
  }

  lemma SumPartition(m: map<Key, ComplexityEntry>, other: set<Key>, f: ComplexityEntry -> int)
    ensures SumOver(m.Keys, m, f) == SumOver(m.Keys - other, m, f) + SumOver(m.Keys * other, m, f)
  {
    assert m.Keys == (m.Keys - other) + (m.Keys * other);
    SumSplit(m.Keys - other, m.Keys * other, m, f);
  }

  lemma SortedTotal(s: set<Key>, m: map<Key, ComplexityEntry>, f: ComplexityEntry -> int)
    requires s <= m.Keys
    ensures Total(EntriesAt(SortedSet(s), m), f) == SumOver(s, m, f)
  {
    SortedSetAscends(s);
    EntriesTotal(SortedSet(s), s, m, f);
  }

  lemma IndexedLaw(base: map<Key, ComplexityEntry>, cand: map<Key, ComplexityEntry>, f: ComplexityEntry -> int)
    requires Measured(f)
    ensures SumOver(cand.Keys, cand, f) - SumOver(base.Keys, base, f)
         == Total(EntriesAt(AddedKeys(base, cand), cand), f) - Total(EntriesAt(AddedKeys(cand, base), base), f)
            + ChangeTotal(ChangedPairs(CommonKeys(base, cand), base, cand), f)
  {
    SumPartition(cand, base.Keys, f);
    SumPartition(base, cand.Keys, f);
    SortedTotal(cand.Keys - base.Keys, cand, f);
    SortedTotal(base.Keys - cand.Keys, base, f);
    SortedSetAscends(base.Keys * cand.Keys);
    ChangedTotal(CommonKeys(base, cand), base.Keys * cand.Keys, base, cand, f);
    assert cand.Keys * base.Keys == base.Keys * cand.Keys;
  }

  /**
    On all inputs the net total is the per-function change plus the change in shadowed entries:
    the two views agree exactly when the shadowed totals do.
   */
  lemma NetTotalLaw(baseline: seq<ComplexityEntry>, candidate: seq<ComplexityEntry>, f: ComplexityEntry -> int)
    requires Measured(f)
    ensures Total(candidate, f) - Total(baseline, f)
         == PerFunction(FunctionDiff(baseline, candidate), f) + Shadowed(candidate, f) - Shadowed(baseline, f)
  {
    IndexTotal(baseline, f);
    IndexTotal(candidate, f);
    IndexedLaw(IndexBy(baseline, ComplexityKey), IndexBy(candidate, ComplexityKey), f);
  }

  predicate UniqueNames(entries: seq<ComplexityEntry>) {
    forall i, j | 0 <= i < j < |entries| :: entries[i].fqn != entries[j].fqn
  }

  lemma {:induction false} IndexKeys<T>(entries: seq<T>, key: T -> Key)
    ensures forall k :: k in IndexBy(entries, key) <==> exists i :: 0 <= i < |entries| && key(entries[i]) == k
    ensures forall k | k in IndexBy(entries, key) :: key(IndexBy(entries, key)[k]) == k
  {
    if entries != [] {
      var init, last := entries[..|entries| - 1], entries[|entries| - 1];
      IndexKeys(init, key);
      forall k ensures k in IndexBy(entries, key) <==> exists i :: 0 <= i < |entries| && key(entries[i]) == k {
        if i :| 0 <= i < |entries| && key(entries[i]) == k {
          if i < |init| { assert key(init[i]) == k; }
        }
        if k in IndexBy(entries, key) {
          if k in IndexBy(init, key) {
            var i :| 0 <= i < |init| && key(init[i]) == k;
            assert key(entries[i]) == k;
          } else {
            assert key(entries[|entries| - 1]) == k;
          }
        }
      }
    }
  }

  lemma {:induction false} NothingShadowed(entries: seq<ComplexityEntry>, f: ComplexityEntry -> int)
    requires UniqueNames(entries)
    ensures Shadowed(entries, f) == 0
  {
    if entries != [] {
      var init := entries[..|entries| - 1];
      NothingShadowed(init, f);
      IndexKeys(init, ComplexityKey);
    }
  }

  /** `complexity_delta` against `python_specific.complexity_changes`, and telescoping of both. */
  lemma ComplexityConservation(a: seq<ComplexityEntry>, b: seq<ComplexityEntry>, c: seq<ComplexityEntry>)
    requires UniqueNames(a) && UniqueNames(b) && UniqueNames(c)
    ensures ComplexityDiff(a, b).cyclomatic == PerFunction(FunctionDiff(a, b), CyclomaticOf)
    ensures ComplexityDiff(a, b).cognitive == PerFunction(FunctionDiff(a, b), CognitiveOf)
    ensures PerFunction(FunctionDiff(a, c), CyclomaticOf)
         == PerFunction(FunctionDiff(a, b), CyclomaticOf) + PerFunction(FunctionDiff(b, c), CyclomaticOf)
    ensures PerFunction(FunctionDiff(a, c), CognitiveOf)
         == PerFunction(FunctionDiff(a, b), CognitiveOf) + PerFunction(FunctionDiff(b, c), CognitiveOf)
  {
    ConservationOf(a, b, CyclomaticOf);
    ConservationOf(b, c, CyclomaticOf);
    ConservationOf(a, c, CyclomaticOf);
    ConservationOf(a, b, CognitiveOf);
    ConservationOf(b, c, CognitiveOf);
    ConservationOf(a, c, CognitiveOf);
  }

  lemma ConservationOf(a: seq<ComplexityEntry>, b: seq<ComplexityEntry>, f: ComplexityEntry -> int)
    requires UniqueNames(a) && UniqueNames(b) && Measured(f)
    ensures Total(b, f) - Total(a, f) == PerFunction(FunctionDiff(a, b), f)
  {
    NetTotalLaw(a, b, f);
    NothingShadowed(a, f);
    NothingShadowed(b, f);
  }

  /** The two views agree exactly when the entries the index drops add up to the same on both sides. */
  lemma ConservationExactly(a: seq<ComplexityEntry>, b: seq<ComplexityEntry>)
    ensures ComplexityDiff(a, b).cyclomatic == PerFunction(FunctionDiff(a, b), CyclomaticOf)
       <==> Shadowed(a, CyclomaticOf) == Shadowed(b, CyclomaticOf)
    ensures ComplexityDiff(a, b).cognitive == PerFunction(FunctionDiff(a, b), CognitiveOf)
       <==> Shadowed(a, CognitiveOf) == Shadowed(b, CognitiveOf)
  {
    NetTotalLaw(a, b, CyclomaticOf);
    NetTotalLaw(a, b, CognitiveOf);
  }

  /** With a repeated name the two views can disagree: the net total counts both entries. */
  lemma RepeatedNameBreaksConservation()
    ensures var e := ComplexityEntry("f", Some(1), Some(0));
            ComplexityDiff([e], [e, e]).cyclomatic == 1
            && PerFunction(FunctionDiff([e], [e, e]), CyclomaticOf) == 0
  {
    var e := ComplexityEntry("f", Some(1), Some(0));
    NetTotalLaw([e], [e, e], CyclomaticOf);
    assert [e][..0] == [] && [e, e][..1] == [e];
    assert Total([e], CyclomaticOf) == 1;
    assert IndexBy([e], ComplexityKey) == map[ComplexityKey(e) := e];
    assert Shadowed([e], CyclomaticOf) == 0;
  }

  // ---- replay of effect and import deltas ----

  ghost predicate Recovers<T(!new)>(keyOfDump: Value -> Key, key: T -> Key, dump: T -> Value) {
    forall e: T :: keyOfDump(dump(e)) == key(e)
  }

  lemma {:induction false} DumpKeys<T(!new)>(
    keys: seq<Key>, m: map<Key, T>, key: T -> Key, dump: T -> Value, keyOfDump: Value -> Key)
    requires forall k | k in keys :: k in m && key(m[k]) == k
    requires Recovers(keyOfDump, key, dump)
    ensures MapSeq(keyOfDump, DumpsAt(keys, m, dump)) == keys
  {
    if keys != [] {
      DumpKeys(keys[1..], m, key, dump, keyOfDump);
      var rest := DumpsAt(keys[1..], m, dump);
      var all := DumpsAt(keys, m, dump);
      assert all == [dump(m[keys[0]])] + rest;
      assert keyOfDump(dump(m[keys[0]])) == keys[0];
      assert MapSeq(keyOfDump, all) == [keys[0]] + MapSeq(keyOfDump, rest);
      assert keys == [keys[0]] + keys[1..];
    }
  }

  ghost function KeySet<T>(entries: seq<T>, key: T -> Key): set<Key> { set e | e in entries :: key(e) }

  /** The keys a delta's records name, read back from the dumped records. */
  function RecordKeys(records: seq<Value>, keyOfDump: Value -> Key): set<Key> {
    set k | k in MapSeq(keyOfDump, records)
  }

  lemma DiffKeys<T(!new)>(baseline: seq<T>, candidate: seq<T>, key: T -> Key, dump: T -> Value, keyOfDump: Value -> Key)
    requires Recovers(keyOfDump, key, dump)
    ensures RecordKeys(ItemDiff(baseline, candidate, key, dump).added, keyOfDump)
         == KeySet(candidate, key) - KeySet(baseline, key)
  {
    var base, cand := IndexBy(baseline, key), IndexBy(candidate, key);
    IndexKeys(candidate, key);
    IndexKeySet(baseline, key);
    IndexKeySet(candidate, key);
    var keys := AddedKeys(base, cand);
    DumpKeys(keys, cand, key, dump, keyOfDump);
    KeysRead(DumpsAt(keys, cand, dump), keyOfDump, keys, cand.Keys - base.Keys);
  }

  lemma KeysRead(records: seq<Value>, keyOfDump: Value -> Key, keys: seq<Key>, s: set<Key>)
    requires MapSeq(keyOfDump, records) == keys && forall k :: k in keys <==> k in s
    ensures RecordKeys(records, keyOfDump) == s
  {
  }

  /** Removing the removed keys and adding the added ones turns the baseline's keys into the candidate's. */
  lemma ReplayLaw<T(!new)>(baseline: seq<T>, candidate: seq<T>, key: T -> Key, dump: T -> Value,
                           keyOfDump: Value -> Key)
    requires Recovers(keyOfDump, key, dump)
    ensures var d := ItemDiff(baseline, candidate, key, dump);
            && KeySet(candidate, key)
               == KeySet(baseline, key) - RecordKeys(d.removed, keyOfDump) + RecordKeys(d.added, keyOfDump)
            && RecordKeys(d.removed, keyOfDump) <= KeySet(baseline, key)
            && RecordKeys(d.added, keyOfDump) !! KeySet(baseline, key)
  {
    DiffKeys(baseline, candidate, key, dump, keyOfDump);
    DiffKeys(candidate, baseline, key, dump, keyOfDump);
    assert ItemDiff(candidate, baseline, key, dump).added == ItemDiff(baseline, candidate, key, dump).removed;
  }

  lemma IndexKeySet<T>(entries: seq<T>, key: T -> Key)
    ensures IndexBy(entries, key).Keys == KeySet(entries, key)
  {
    IndexKeys(entries, key);
    forall k ensures k in IndexBy(entries, key).Keys <==> k in KeySet(entries, key) {
      if k in KeySet(entries, key) {
        var e :| e in entries && key(e) == k;
        var i :| 0 <= i < |entries| && entries[i] == e;
        assert key(entries[i]) == k;
      }
      if k in IndexBy(entries, key) {
        var i :| 0 <= i < |entries| && key(entries[i]) == k;
        assert entries[i] in entries;
      }
    }
  }

  function TextOf(v: Value): string { if v.Str? then v.s else "" }

  function TextsOf(v: Value): seq<string> {
    if v.Seq? then seq(|v.items|, i requires 0 <= i < |v.items| => TextOf(v.items[i])) else []
  }

  function EffectDumpKey(v: Value): Key {
    [TextOf(FieldOf(v, "fqn")), TextOf(FieldOf(v, "effect_class")), ResolvedCall(FieldOf(v, "evidence"))]
  }

  function ImportDumpKey(v: Value): Key {
    [TextOf(FieldOf(v, "module")), TextOf(FieldOf(v, "from"))] + SortStrings(TextsOf(FieldOf(v, "symbols")))
  }

  lemma {:induction false} LookupAt(entries: seq<Entry>, i: nat)
    requires i < |entries| && forall j | 0 <= j < i :: entries[j].key != entries[i].key
    ensures LookupKey(entries, entries[i].key) == Some(entries[i].value)
  {
    if i > 0 { LookupAt(entries[1..], i - 1); }
  }

  lemma EffectDumpsRecover()
    ensures Recovers(EffectDumpKey, EffectKey, DumpEffect)
  {
    forall e: EffectEntry ensures EffectDumpKey(DumpEffect(e)) == EffectKey(e) {
      var es := DumpEffect(e).entries;
      LookupAt(es, 1);
      LookupAt(es, 2);
      LookupAt(es, 3);
    }
  }

  lemma ImportDumpsRecover()
    ensures Recovers(ImportDumpKey, ImportKey, DumpImportByAlias)
  {
    forall e: ImportEntry ensures ImportDumpKey(DumpImportByAlias(e)) == ImportKey(e) {
      var es := DumpImportByAlias(e).entries;
      LookupAt(es, 0);
      LookupAt(es, 1);
      LookupAt(es, 2);
      assert TextsOf(Strings(e.symbols)) == e.symbols;
    }
  }

  /** Replay on the effect and import parts of the computed delta. */
  lemma DeltaReplays(b: CodeState, c: CodeState)
    ensures var d := ComputeDelta(b, c);
            && KeySet(c.effects, EffectKey)
               == KeySet(b.effects, EffectKey) - RecordKeys(d.effectChanges.removed, EffectDumpKey)
                  + RecordKeys(d.effectChanges.added, EffectDumpKey)
            && KeySet(c.imports, ImportKey)
               == KeySet(b.imports, ImportKey) - RecordKeys(d.importsDelta.removed, ImportDumpKey)
                  + RecordKeys(d.importsDelta.added, ImportDumpKey)
  {
    EffectDumpsRecover();
    ReplayLaw(b.effects, c.effects, EffectKey, DumpEffect, EffectDumpKey);
    ImportDumpsRecover();
    ReplayLaw(b.imports, c.imports, ImportKey, DumpImportByAlias, ImportDumpKey);
  }

  lemma SwapItems<T>(b: seq<T>, c: seq<T>, key: T -> Key, dump: T -> Value)
    ensures ItemDiff(c, b, key, dump) == ItemDelta(ItemDiff(b, c, key, dump).removed, ItemDiff(b, c, key, dump).added)
  {
  }

  lemma SwapApi(b: seq<ApiEntry>, c: seq<ApiEntry>)
    ensures ApiSurfaceDiff(c, b).added == ApiSurfaceDiff(b, c).removed
    ensures ApiSurfaceDiff(c, b).removed == ApiSurfaceDiff(b, c).added
  {
  }

  /** A changed pair read backwards. */
  function Backwards(p: (ComplexityEntry, ComplexityEntry)): (ComplexityEntry, ComplexityEntry) { (p.1, p.0) }

  function AllBackwards(ps: seq<(ComplexityEntry, ComplexityEntry)>): seq<(ComplexityEntry, ComplexityEntry)> {
    seq(|ps|, i requires 0 <= i < |ps| => Backwards(ps[i]))
  }

  lemma {:induction false} SwapPairs(keys: seq<Key>, base: map<Key, ComplexityEntry>, cand: map<Key, ComplexityEntry>)
    requires forall k | k in keys :: k in base && k in cand
    ensures ChangedPairs(keys, cand, base) == AllBackwards(ChangedPairs(keys, base, cand))
  {
    if keys != [] {
      var init, k := keys[..|keys| - 1], keys[|keys| - 1];
      SwapPairs(init, base, cand);
      var one := if ComplexityDiffers(base[k], cand[k]) then [(base[k], cand[k])] else [];
      assert AllBackwards(ChangedPairs(init, base, cand) + one)
        == AllBackwards(ChangedPairs(init, base, cand)) + AllBackwards(one);
    }
  }

  lemma SwapFunctions(b: seq<ComplexityEntry>, c: seq<ComplexityEntry>)
    ensures FunctionDiff(c, b) == FunctionChanges(
      FunctionDiff(b, c).removed, FunctionDiff(b, c).added, AllBackwards(FunctionDiff(b, c).changed))
  {
    var base, cand := IndexBy(b, ComplexityKey), IndexBy(c, ComplexityKey);
    assert base.Keys * cand.Keys == cand.Keys * base.Keys;
    SwapPairs(CommonKeys(base, cand), base, cand);
  }

  /** A module-graph record with its two edge lists exchanged. */
  function SwapEdges(record: Option<Value>): Option<Value> {
    match record
    case None => None
    case Some(v) =>
      Some(Map([Entry("added_edges", FieldOf(v, "removed_edges")), Entry("removed_edges", FieldOf(v, "added_edges"))]))
  }

  lemma SwapGraph(b: seq<ModuleEntry>, c: seq<ModuleEntry>)
    ensures ModuleGraphRecord(c, b) == SwapEdges(ModuleGraphRecord(b, c))
  {
    var r := ModuleGraphRecord(b, c);
    if r.Some? {
      LookupAt(r.value.entries, 0);
      LookupAt(r.value.entries, 1);
    }
  }

  lemma SwapDetails(b: CodeState, c: CodeState)
    ensures DetailsOf(ComputeDelta(c, b)).moduleGraphDelta == SwapEdges(DetailsOf(ComputeDelta(b, c)).moduleGraphDelta)
  {
    SwapGraph(b.moduleGraph, c.moduleGraph);
    DetailsAreFieldwise(b, c);
    DetailsAreFieldwise(c, b);
  }

  lemma SwapDecorators(b: seq<ApiEntry>, c: seq<ApiEntry>)
    ensures DecoratorsDiff(c, b) == SymbolDelta(DecoratorsDiff(b, c).removed, DecoratorsDiff(b, c).added, [])
  {
  }

  lemma SwapTests(b: seq<TestEntry>, c: seq<TestEntry>)
    ensures TestDiff(c, b).newCases == TestDiff(b, c).removedCases
    ensures TestDiff(c, b).removedCases == TestDiff(b, c).newCases
  {
  }

  lemma SwapTotals(b: CodeState, c: CodeState)
    ensures ComputeDelta(c, b).complexityDelta == Negated(ComputeDelta(b, c).complexityDelta)
  {
    TotalsOf(b, c);
    TotalsOf(c, b);
    NegatedTotals(b.complexity, c.complexity);
  }

  lemma TotalsOf(b: CodeState, c: CodeState)
    ensures ComputeDelta(b, c).complexityDelta == ComplexityDiff(b.complexity, c.complexity)
  {
  }

  lemma NegatedTotals(b: seq<ComplexityEntry>, c: seq<ComplexityEntry>)
    ensures ComplexityDiff(c, b) == Negated(ComplexityDiff(b, c))
  {
  }

  function Negated(t: ComplexityTotals): ComplexityTotals { ComplexityTotals(-t.cyclomatic, -t.cognitive) }

  // ---- changed records read backwards ----

  /** A changed record with its two sides exchanged. */
  function SwapSides(v: Value): Value {
    if v.Map? && |v.entries| >= 2 then
      Map([Entry("after", v.entries[1].value), Entry("before", v.entries[0].value)] + v.entries[2..])
    else v
  }

  function SwapAllSides(vs: seq<Value>): seq<Value> {
    seq(|vs|, i requires 0 <= i < |vs| => SwapSides(vs[i]))
  }

  lemma SwapAllConcat(a: seq<Value>, b: seq<Value>)
    ensures SwapAllSides(a + b) == SwapAllSides(a) + SwapAllSides(b)
  {
  }

  lemma SwapRecord(k: Key, before: seq<ApiEntry>, after: seq<ApiEntry>)
    ensures ChangedRecord(k, after, before) == SwapSides(ChangedRecord(k, before, after))
  {
    var x, y := ChangedRecord(k, before, after).entries, ChangedRecord(k, after, before).entries;
    assert y == [y[0], y[1]] + y[2..] && x[2..] == y[2..];
  }

  lemma {:induction false} SwapChanged(keys: seq<Key>, base: map<Key, seq<ApiEntry>>, cand: map<Key, seq<ApiEntry>>)
    requires forall k | k in keys :: k in base && k in cand
    ensures ChangedRecords(keys, cand, base) == SwapAllSides(ChangedRecords(keys, base, cand))
  {
    if keys != [] {
      var k := keys[0];
      SwapChanged(keys[1..], base, cand);
      SwapRecord(k, base[k], cand[k]);
      var one := if GroupDumps(base[k]) != GroupDumps(cand[k]) then [ChangedRecord(k, base[k], cand[k])] else [];
      SwapAllConcat(one, ChangedRecords(keys[1..], base, cand));
      assert SwapAllSides(one)
        == if GroupDumps(base[k]) != GroupDumps(cand[k]) then [ChangedRecord(k, cand[k], base[k])] else [];
    }
  }

  lemma SwapApiChanged(b: seq<ApiEntry>, c: seq<ApiEntry>)
    ensures ApiSurfaceDiff(c, b).changed == SwapAllSides(ApiSurfaceDiff(b, c).changed)
  {
    var base, cand := GroupBy(b, ApiKey), GroupBy(c, ApiKey);
    assert base.Keys * cand.Keys == cand.Keys * base.Keys;
    SwapChanged(CommonKeys(base, cand), base, cand);
  }

  /** The record of a test whose counts changed. */
  function ChangedTest(before: TestEntry, after: TestEntry): Value {
    Map([Entry("after", DumpTest(after)), Entry("before", DumpTest(before)),
         Entry("test_file", Str(before.testFile)), Entry("test_function", Str(before.testFunction))])
  }

  lemma SwapTest(before: TestEntry, after: TestEntry)
    requires TestKey(before) == TestKey(after)
    ensures ChangedTest(after, before) == SwapSides(ChangedTest(before, after))
  {
    var k, l := TestKey(before), TestKey(after);
    assert k[0] == l[0] && k[1] == l[1];
    var x, y := ChangedTest(before, after).entries, ChangedTest(after, before).entries;
    assert y == [y[0], y[1]] + y[2..] && x[2..] == y[2..];
  }

  lemma {:induction false} SwapChangedTests(keys: seq<Key>, base: map<Key, TestEntry>, cand: map<Key, TestEntry>)
    requires forall k | k in keys :: k in base && k in cand && TestKey(base[k]) == k && TestKey(cand[k]) == k
    ensures ChangedTests(keys, cand, base) == SwapAllSides(ChangedTests(keys, base, cand))
  {
    if keys != [] {
      var k := keys[0];
      SwapChangedTests(keys[1..], base, cand);
      SwapTest(base[k], cand[k]);
      var one := if TestDiffers(base[k], cand[k]) then [ChangedTest(base[k], cand[k])] else [];
      SwapAllConcat(one, ChangedTests(keys[1..], base, cand));
      assert SwapAllSides(one) == if TestDiffers(base[k], cand[k]) then [ChangedTest(cand[k], base[k])] else [];
    }
  }

  /** The changed tests of two surfaces. */
  function TestChanges(b: seq<TestEntry>, c: seq<TestEntry>): seq<Value> {
    var base, cand := IndexBy(b, TestKey), IndexBy(c, TestKey);
    ChangedTests(CommonKeys(base, cand), base, cand)
  }

  lemma SwapTestChanges(b: seq<TestEntry>, c: seq<TestEntry>)
    ensures TestChanges(c, b) == SwapAllSides(TestChanges(b, c))
  {
    var base, cand := IndexBy(b, TestKey), IndexBy(c, TestKey);
    IndexKeys(b, TestKey);
    IndexKeys(c, TestKey);
    assert base.Keys * cand.Keys == cand.Keys * base.Keys;
    SwapChangedTests(CommonKeys(base, cand), base, cand);
  }

  lemma ChangedSidesSwap(b: CodeState, c: CodeState)
    ensures ComputeDelta(c, b).apiSurfaceDelta.changed == SwapAllSides(ComputeDelta(b, c).apiSurfaceDelta.changed)
    ensures DetailsOf(ComputeDelta(b, c)).testSurfaceChanges
         == if TestChanges(b.testSurface, c.testSurface) == [] then None
            else Some(Map([Entry("changed", Seq(TestChanges(b.testSurface, c.testSurface)))]))
  {
    SwapApiChanged(b.apiSurface, c.apiSurface);
    DetailsAreFieldwise(b, c);
  }

  /** Two deltas, each with the other's additions and removals exchanged. */
  predicate Exchanged(d: CodeStateDelta, back: CodeStateDelta) {
    && back.effectChanges == ItemDelta(d.effectChanges.removed, d.effectChanges.added)
    && back.importsDelta == ItemDelta(d.importsDelta.removed, d.importsDelta.added)
    && back.apiSurfaceDelta.added == d.apiSurfaceDelta.removed
    && back.apiSurfaceDelta.removed == d.apiSurfaceDelta.added
    && back.decoratorsDelta == SymbolDelta(d.decoratorsDelta.removed, d.decoratorsDelta.added, [])
    && back.testSurfaceDelta.newCases == d.testSurfaceDelta.removedCases
    && back.testSurfaceDelta.removedCases == d.testSurfaceDelta.newCases
  }

  lemma DeltaExchanges(b: CodeState, c: CodeState)
    ensures Exchanged(ComputeDelta(b, c), ComputeDelta(c, b))
  {
    SwapItems(b.effects, c.effects, EffectKey, DumpEffect);
    SwapItems(b.imports, c.imports, ImportKey, DumpImportByAlias);
    SwapApi(b.apiSurface, c.apiSurface);
    SwapDecorators(b.apiSurface, c.apiSurface);
    SwapTests(b.testSurface, c.testSurface);
  }

  /**
    Swapping the two states swaps added with removed in every keyed dimension (symbols, decorators,
    effects, imports, test cases, module edges and functions), reverses each changed pair of
    functions, exchanges the sides of every changed record of a symbol or a test, and negates the
    complexity totals.
   */
  lemma DeltaSwaps(b: CodeState, c: CodeState)
    ensures Exchanged(ComputeDelta(b, c), ComputeDelta(c, b))
    ensures ComputeDelta(c, b).apiSurfaceDelta.changed == SwapAllSides(ComputeDelta(b, c).apiSurfaceDelta.changed)
    ensures TestChanges(c.testSurface, b.testSurface) == SwapAllSides(TestChanges(b.testSurface, c.testSurface))
    ensures ComputeDelta(c, b).complexityDelta == Negated(ComputeDelta(b, c).complexityDelta)
    ensures DetailsOf(ComputeDelta(c, b)).moduleGraphDelta == SwapEdges(DetailsOf(ComputeDelta(b, c)).moduleGraphDelta)
    ensures FunctionDiff(c.complexity, b.complexity) == FunctionChanges(
      FunctionDiff(b.complexity, c.complexity).removed, FunctionDiff(b.complexity, c.complexity).added,
      AllBackwards(FunctionDiff(b.complexity, c.complexity).changed))
  {
    DeltaExchanges(b, c);
    ChangedSidesSwap(b, c);
    SwapTestChanges(b.testSurface, c.testSurface);
    SwapTotals(b, c);
    SwapDetails(b, c);
    SwapFunctions(b.complexity, c.complexity);
  }

  /** Each part of a delta depends on one part of the two states. */
  lemma DeltaIsFieldwise(b1: CodeState, c1: CodeState, b2: CodeState, c2: CodeState)
    ensures b1.apiSurface == b2.apiSurface && c1.apiSurface == c2.apiSurface ==>
              && ComputeDelta(b1, c1).apiSurfaceDelta == ComputeDelta(b2, c2).apiSurfaceDelta
              && ComputeDelta(b1, c1).decoratorsDelta == ComputeDelta(b2, c2).decoratorsDelta
    ensures b1.effects == b2.effects && c1.effects == c2.effects ==>
              ComputeDelta(b1, c1).effectChanges == ComputeDelta(b2, c2).effectChanges
    ensures b1.imports == b2.imports && c1.imports == c2.imports ==>
              ComputeDelta(b1, c1).importsDelta == ComputeDelta(b2, c2).importsDelta
    ensures b1.complexity == b2.complexity && c1.complexity == c2.complexity ==>
              ComputeDelta(b1, c1).complexityDelta == ComputeDelta(b2, c2).complexityDelta
    ensures b1.testSurface == b2.testSurface && c1.testSurface == c2.testSurface ==>
              ComputeDelta(b1, c1).testSurfaceDelta == ComputeDelta(b2, c2).testSurfaceDelta
  {
  }

  lemma DetailsAreFieldwise(b: CodeState, c: CodeState)
    ensures DetailsOf(ComputeDelta(b, c)) == Details(
              ModuleGraphRecord(b.moduleGraph, c.moduleGraph),
              ComplexityChangesRecord(b.complexity, c.complexity),
              TestSurfaceChangesRecord(b.testSurface, c.testSurface))
  {
  }

  lemma DetailsIsFieldwise(b1: CodeState, c1: CodeState, b2: CodeState, c2: CodeState)
    ensures b1.moduleGraph == b2.moduleGraph && c1.moduleGraph == c2.moduleGraph ==>
              DetailsOf(ComputeDelta(b1, c1)).moduleGraphDelta == DetailsOf(ComputeDelta(b2, c2)).moduleGraphDelta
    ensures b1.complexity == b2.complexity && c1.complexity == c2.complexity ==>
              DetailsOf(ComputeDelta(b1, c1)).complexityChanges == DetailsOf(ComputeDelta(b2, c2)).complexityChanges
    ensures b1.testSurface == b2.testSurface && c1.testSurface == c2.testSurface ==>
              DetailsOf(ComputeDelta(b1, c1)).testSurfaceChanges == DetailsOf(ComputeDelta(b2, c2)).testSurfaceChanges
  {
    DetailsAreFieldwise(b1, c1);
    DetailsAreFieldwise(b2, c2);
  }

  // ---- the unchanged state ----

  function EmptyDelta(): CodeStateDelta {
    CodeStateDelta(SymbolDelta([], [], []), SymbolDelta([], [], []), [], ItemDelta([], []), CfgRecord(0, 0),
                   ItemDelta([], []), ComplexityTotals(0, 0), TestDelta([], [], []), None, 0, LocRecord(0, 0), [],
                   None, None)
  }

  lemma {:induction false} NoChangedGroups(keys: seq<Key>, m: map<Key, seq<ApiEntry>>)
    requires forall k | k in keys :: k in m
    ensures ChangedRecords(keys, m, m) == []
  {
    if keys != [] { NoChangedGroups(keys[1..], m); }
  }

  lemma {:induction false} NoChangedPairs(keys: seq<Key>, m: map<Key, ComplexityEntry>)
    requires forall k | k in keys :: k in m
    ensures ChangedPairs(keys, m, m) == []
  {
    if keys != [] { NoChangedPairs(keys[..|keys| - 1], m); }
  }

  lemma {:induction false} NoChangedTests(keys: seq<Key>, m: map<Key, TestEntry>)
    requires forall k | k in keys :: k in m
    ensures ChangedTests(keys, m, m) == []
  {
    if keys != [] { NoChangedTests(keys[1..], m); }
  }

  lemma UnchangedApi(entries: seq<ApiEntry>)
    ensures ApiSurfaceDiff(entries, entries) == SymbolDelta([], [], [])
    ensures DecoratorsDiff(entries, entries) == SymbolDelta([], [], [])
  {
    var api, pairs := GroupBy(entries, ApiKey), DecoratorPairs(entries);
    assert api.Keys - api.Keys == {};
    NoChangedGroups(CommonKeys(api, api), api);
    assert pairs - pairs == {};
  }

  lemma UnchangedItems<T>(entries: seq<T>, key: T -> Key, dump: T -> Value)
    ensures ItemDiff(entries, entries, key, dump) == ItemDelta([], [])
  {
    var m := IndexBy(entries, key);
    assert m.Keys - m.Keys == {};
  }

  lemma UnchangedFunctions(entries: seq<ComplexityEntry>)
    ensures ComplexityChangesRecord(entries, entries) == None
  {
    var m := IndexBy(entries, ComplexityKey);
    assert m.Keys - m.Keys == {};
    NoChangedPairs(CommonKeys(m, m), m);
  }

  lemma UnchangedTests(entries: seq<TestEntry>)
    ensures TestDiff(entries, entries) == TestDelta([], [], [])
    ensures TestSurfaceChangesRecord(entries, entries) == None
  {
    var files, cases, m := TestFiles(entries), TestCases(entries), IndexBy(entries, TestKey);
    assert files - files == {} && cases - cases == {};
    NoChangedTests(CommonKeys(m, m), m);
  }

  lemma UnchangedGraph(entries: seq<ModuleEntry>)
    ensures ModuleGraphRecord(entries, entries) == None
  {
    var edges := ModuleEdges(entries);
    assert edges - edges == {};
  }

  /** The delta of a state with itself is empty, whatever duplicates the state holds. */
  lemma UnchangedIsEmpty(s: CodeState)
    ensures ComputeDelta(s, s) == EmptyDelta()
  {
    UnchangedApi(s.apiSurface);
    UnchangedItems(s.effects, EffectKey, DumpEffect);
    UnchangedItems(s.imports, ImportKey, DumpImportByAlias);
    UnchangedFunctions(s.complexity);
    UnchangedTests(s.testSurface);
    UnchangedGraph(s.moduleGraph);
  }
}
