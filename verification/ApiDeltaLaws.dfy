/** The API surface delta, read back from its records: what was added, removed and changed. */
module ApiDeltaLaws {
  import opened Values
  import opened States
  import opened Ordering
  import opened Deltas
  import opened DeltaLaws
  import opened Sorting

  // ---- groups ----

  lemma {:induction false} GroupHolds<T>(entries: seq<T>, key: T -> Key, k: Key)
    ensures k in GroupBy(entries, key) <==> k in KeySet(entries, key)
    ensures k in GroupBy(entries, key) ==>
              GroupBy(entries, key)[k] != [] && forall e | e in GroupBy(entries, key)[k] :: e in entries && key(e) == k
  {
    if entries != [] {
      var init, last := entries[..|entries| - 1], entries[|entries| - 1];
      GroupHolds(init, key, k);
      assert entries == init + [last];
      assert KeySet(entries, key) == KeySet(init, key) + {key(last)};
    }
  }

  lemma GroupKeySet<T>(entries: seq<T>, key: T -> Key)
    ensures GroupBy(entries, key).Keys == KeySet(entries, key)
  {
    forall k ensures k in GroupBy(entries, key).Keys <==> k in KeySet(entries, key) { GroupHolds(entries, key, k); }
  }

  // ---- records ----

  /** The symbol a record names. */
  function ApiDumpKey(v: Value): Key { [TextOf(FieldOf(v, "fqn")), TextOf(FieldOf(v, "kind"))] }

  lemma VariantKey(e: ApiEntry)
    ensures ApiDumpKey(DumpApiVariant(e)) == ApiKey(e)
  {
    var es := DumpApiVariant(e).entries;
    LookupAt(es, 0);
    LookupAt(es, 1);
  }

  lemma ChangedKey(k: Key, before: seq<ApiEntry>, after: seq<ApiEntry>)
    requires |k| == 2
    ensures ApiDumpKey(ChangedRecord(k, before, after)) == k
  {
    var es := ChangedRecord(k, before, after).entries;
    LookupAt(es, 2);
    LookupAt(es, 3);
  }

  /** A group's records all name the group, and there is at least one. */
  lemma GroupRecords(entries: seq<ApiEntry>, k: Key)
    requires entries != [] && forall e | e in entries :: ApiKey(e) == k
    ensures RecordKeys(GroupDumps(entries), ApiDumpKey) == {k}
  {
    var sorted, dumps := SortByKey(entries, ApiVariantKey), GroupDumps(entries);
    SortHolds(entries, ApiVariantKey, entries[0]);
    forall i | 0 <= i < |dumps| ensures ApiDumpKey(dumps[i]) == k {
      SortHolds(entries, ApiVariantKey, sorted[i]);
      VariantKey(sorted[i]);
    }
    assert dumps != [];
    assert MapSeq(ApiDumpKey, dumps)[0] == k;
  }

  lemma RecordKeysConcat(a: seq<Value>, b: seq<Value>)
    ensures RecordKeys(a + b, ApiDumpKey) == RecordKeys(a, ApiDumpKey) + RecordKeys(b, ApiDumpKey)
  {
    assert MapSeq(ApiDumpKey, a + b) == MapSeq(ApiDumpKey, a) + MapSeq(ApiDumpKey, b);
  }

  lemma {:induction false} FlattenedKeys(keys: seq<Key>, groups: map<Key, seq<ApiEntry>>)
    requires forall k | k in keys :: k in groups && groups[k] != [] && forall e | e in groups[k] :: ApiKey(e) == k
    ensures RecordKeys(FlattenGroups(keys, groups), ApiDumpKey) == set k | k in keys
  {
    if keys != [] {
      FlattenedKeys(keys[1..], groups);
      GroupRecords(groups[keys[0]], keys[0]);
      RecordKeysConcat(GroupDumps(groups[keys[0]]), FlattenGroups(keys[1..], groups));
      assert keys == [keys[0]] + keys[1..];
    }
  }

  /** The keys whose variant records differ. */
  ghost predicate Differs(base: map<Key, seq<ApiEntry>>, cand: map<Key, seq<ApiEntry>>, k: Key) {
    k in base && k in cand && GroupDumps(base[k]) != GroupDumps(cand[k])
  }

  lemma OneChanged(k: Key, base: map<Key, seq<ApiEntry>>, cand: map<Key, seq<ApiEntry>>, one: seq<Value>)
    requires k in base && k in cand && |k| == 2
    requires one == if GroupDumps(base[k]) != GroupDumps(cand[k]) then [ChangedRecord(k, base[k], cand[k])] else []
    ensures RecordKeys(one, ApiDumpKey) == if Differs(base, cand, k) then {k} else {}
  {
    ChangedKey(k, base[k], cand[k]);
    assert one != [] ==> MapSeq(ApiDumpKey, one) == [k];
  }

  lemma {:induction false} ChangedKeys(keys: seq<Key>, base: map<Key, seq<ApiEntry>>, cand: map<Key, seq<ApiEntry>>,
                                       x: Key)
    requires forall k | k in keys :: k in base && k in cand && |k| == 2
    ensures x in RecordKeys(ChangedRecords(keys, base, cand), ApiDumpKey) <==> x in keys && Differs(base, cand, x)
  {
    if keys != [] {
      var k := keys[0];
      ChangedKeys(keys[1..], base, cand, x);
      var one := if GroupDumps(base[k]) != GroupDumps(cand[k]) then [ChangedRecord(k, base[k], cand[k])] else [];
      OneChanged(k, base, cand, one);
      RecordKeysConcat(one, ChangedRecords(keys[1..], base, cand));
    }
  }

  /** Groups that are not empty and hold only their own symbol. */
  ghost predicate IsGrouping(groups: map<Key, seq<ApiEntry>>) {
    forall k | k in groups :: |k| == 2 && groups[k] != [] && forall e | e in groups[k] :: ApiKey(e) == k
  }

  lemma GroupByIsGrouping(entries: seq<ApiEntry>)
    ensures IsGrouping(GroupBy(entries, ApiKey))
  {
    forall k | k in GroupBy(entries, ApiKey)
      ensures |k| == 2 && GroupBy(entries, ApiKey)[k] != []
      ensures forall e | e in GroupBy(entries, ApiKey)[k] :: ApiKey(e) == k
    {
      GroupHolds(entries, ApiKey, k);
      var e := GroupBy(entries, ApiKey)[k][0];
      assert e in GroupBy(entries, ApiKey)[k];
    }
  }

  lemma AddedKeysOf(base: map<Key, seq<ApiEntry>>, cand: map<Key, seq<ApiEntry>>)
    requires IsGrouping(cand)
    ensures RecordKeys(FlattenGroups(AddedKeys(base, cand), cand), ApiDumpKey) == cand.Keys - base.Keys
  {
    FlattenedKeys(AddedKeys(base, cand), cand);
  }

  lemma AddedSymbols(baseline: seq<ApiEntry>, candidate: seq<ApiEntry>)
    ensures RecordKeys(ApiSurfaceDiff(baseline, candidate).added, ApiDumpKey)
         == KeySet(candidate, ApiKey) - KeySet(baseline, ApiKey)
  {
    GroupKeySet(baseline, ApiKey);
    GroupKeySet(candidate, ApiKey);
    GroupByIsGrouping(candidate);
    AddedKeysOf(GroupBy(baseline, ApiKey), GroupBy(candidate, ApiKey));
  }

  lemma RemovedSymbols(baseline: seq<ApiEntry>, candidate: seq<ApiEntry>)
    ensures RecordKeys(ApiSurfaceDiff(baseline, candidate).removed, ApiDumpKey)
         == KeySet(baseline, ApiKey) - KeySet(candidate, ApiKey)
  {
    AddedSymbols(candidate, baseline);
  }

  lemma ChangedSymbols(baseline: seq<ApiEntry>, candidate: seq<ApiEntry>, k: Key)
    ensures k in RecordKeys(ApiSurfaceDiff(baseline, candidate).changed, ApiDumpKey)
       <==> Differs(GroupBy(baseline, ApiKey), GroupBy(candidate, ApiKey), k)
  {
    var base, cand := GroupBy(baseline, ApiKey), GroupBy(candidate, ApiKey);
    GroupByIsGrouping(baseline);
    ChangedKeys(CommonKeys(base, cand), base, cand, k);
  }

  // ---- when a symbol has changed ----

  /** The records of a symbol's variants, in no order. */
  function VariantDumps(entries: seq<ApiEntry>): multiset<Value> { multiset(MapSeq(DumpApiVariant, entries)) }

  lemma DumpsAppend(s: seq<ApiEntry>, x: ApiEntry)
    ensures VariantDumps(s + [x]) == VariantDumps(s) + multiset{DumpApiVariant(x)}
  {
    assert MapSeq(DumpApiVariant, s + [x]) == MapSeq(DumpApiVariant, s) + [DumpApiVariant(x)];
  }

  lemma {:induction false} InsertDumps(x: ApiEntry, s: seq<ApiEntry>)
    ensures VariantDumps(InsertByKey(x, s, ApiVariantKey)) == VariantDumps(s) + multiset{DumpApiVariant(x)}
  {
    DumpsAppend(s, x);
    if s == [] {
      assert s + [x] == [x];
    } else if !KeyLe(ApiVariantKey(s[|s| - 1]), ApiVariantKey(x)) {
      var init, last := s[..|s| - 1], s[|s| - 1];
      InsertDumps(x, init);
      DumpsAppend(init, last);
      DumpsAppend(InsertByKey(x, init, ApiVariantKey), last);
      assert s == init + [last];
    }
  }

  /** Sorting a group rearranges its records. */
  lemma {:induction false} SortDumps(s: seq<ApiEntry>)
    ensures multiset(GroupDumps(s)) == VariantDumps(s)
  {
    if s != [] {
      var init, last := s[..|s| - 1], s[|s| - 1];
      SortDumps(init);
      InsertDumps(last, SortByKey(init, ApiVariantKey));
      DumpsAppend(init, last);
      assert s == init + [last];
    }
  }

  /** No variant has an empty text where another may have none; the two sort alike. */
  predicate NoEmptyText(entries: seq<ApiEntry>) {
    forall e | e in entries :: e.signature != Some("") && e.visibility != Some("")
  }

  /** The sort key of a record. */
  function DumpSortKey(v: Value): Key {
    [TextOf(FieldOf(v, "fqn")), TextOf(FieldOf(v, "kind")),
     TextOf(FieldOf(v, "signature")), TextOf(FieldOf(v, "visibility"))]
  }

  lemma DumpFields(e: ApiEntry)
    ensures var v := DumpApiVariant(e);
      && FieldOf(v, "fqn") == Str(e.fqn) && FieldOf(v, "kind") == Str(e.kind)
      && FieldOf(v, "signature") == OptString(e.signature) && FieldOf(v, "visibility") == OptString(e.visibility)
  {
    var es := DumpApiVariant(e).entries;
    LookupAt(es, 0);
    LookupAt(es, 1);
    LookupAt(es, 2);
    LookupAt(es, 3);
  }

  lemma DumpSortsAlike(e: ApiEntry)
    ensures DumpSortKey(DumpApiVariant(e)) == ApiVariantKey(e)
  {
    DumpFields(e);
  }

  lemma KeyTellsVariants(e: ApiEntry, f: ApiEntry)
    requires NoEmptyText([e, f]) && ApiVariantKey(e) == ApiVariantKey(f)
    ensures DumpApiVariant(e) == DumpApiVariant(f)
  {
    assert e in [e, f] && f in [e, f];
    var a, b := ApiVariantKey(e), ApiVariantKey(f);
    assert a[0] == b[0] && a[1] == b[1] && a[2] == b[2] && a[3] == b[3];
  }

  lemma GroupDumpsAscend(entries: seq<ApiEntry>)
    ensures Ascends(GroupDumps(entries), DumpSortKey)
  {
    var sorted, dumps := SortByKey(entries, ApiVariantKey), GroupDumps(entries);
    SortAscends(entries, ApiVariantKey);
    forall i, j | 0 <= i < j < |dumps| ensures KeyLe(DumpSortKey(dumps[i]), DumpSortKey(dumps[j])) {
      DumpSortsAlike(sorted[i]);
      DumpSortsAlike(sorted[j]);
    }
  }

  lemma GroupDumpsApart(entries: seq<ApiEntry>)
    requires NoEmptyText(entries)
    ensures TellsApart(GroupDumps(entries), DumpSortKey)
  {
    var sorted, dumps := SortByKey(entries, ApiVariantKey), GroupDumps(entries);
    forall x, y | x in dumps && y in dumps && DumpSortKey(x) == DumpSortKey(y) ensures x == y {
      var i :| 0 <= i < |dumps| && dumps[i] == x;
      var j :| 0 <= j < |dumps| && dumps[j] == y;
      SortHolds(entries, ApiVariantKey, sorted[i]);
      SortHolds(entries, ApiVariantKey, sorted[j]);
      DumpSortsAlike(sorted[i]);
      DumpSortsAlike(sorted[j]);
      KeyTellsVariants(sorted[i], sorted[j]);
    }
  }

  /** Groups differ when their records do, and only then unless an empty text ties with none. */
  lemma DifferByRecords(a: seq<ApiEntry>, b: seq<ApiEntry>)
    ensures VariantDumps(a) != VariantDumps(b) ==> GroupDumps(a) != GroupDumps(b)
    ensures NoEmptyText(a) ==> (GroupDumps(a) != GroupDumps(b) <==> VariantDumps(a) != VariantDumps(b))
  {
    SortDumps(a);
    SortDumps(b);
    if NoEmptyText(a) && VariantDumps(a) == VariantDumps(b) {
      GroupDumpsAscend(a);
      GroupDumpsAscend(b);
      GroupDumpsApart(a);
      AscendingUnique(GroupDumps(a), GroupDumps(b), DumpSortKey);
    }
  }

  /** Two variants of one symbol, one without a signature and one with an empty one. */
  function Unsigned(): ApiEntry { ApiEntry("f", "function", None, None, []) }

  function EmptySigned(): ApiEntry { Unsigned().(signature := Some("")) }

  lemma PairDumps(a: ApiEntry, b: ApiEntry)
    ensures VariantDumps([a, b]) == multiset{DumpApiVariant(a), DumpApiVariant(b)}
  {
    assert MapSeq(DumpApiVariant, [a, b]) == [DumpApiVariant(a), DumpApiVariant(b)];
  }

  /** The same two variants in the other order are reported as a change. */
  lemma TieIsReported()
    ensures VariantDumps([Unsigned(), EmptySigned()]) == VariantDumps([EmptySigned(), Unsigned()])
    ensures GroupDumps([Unsigned(), EmptySigned()]) != GroupDumps([EmptySigned(), Unsigned()])
  {
    var a, b := Unsigned(), EmptySigned();
    PairDumps(a, b);
    PairDumps(b, a);
    TiedGroup(a, b);
    TiedGroup(b, a);
    DumpFields(a);
    DumpFields(b);
    assert GroupDumps([a, b])[0] != GroupDumps([b, a])[0];
  }

  lemma TiedGroup(a: ApiEntry, b: ApiEntry)
    requires ApiVariantKey(a) == ApiVariantKey(b)
    ensures GroupDumps([a, b]) == [DumpApiVariant(a), DumpApiVariant(b)]
  {
    KeyTotal(ApiVariantKey(a), ApiVariantKey(b));
    assert [a, b][..1] == [a] && [a][..0] == [];
    assert SortByKey([a], ApiVariantKey) == [a];
    assert SortByKey([a, b], ApiVariantKey) == [a] + [b];
    assert [a] + [b] == [a, b];
  }

  /** The entries of one symbol, in order. */
  function EntriesOf(entries: seq<ApiEntry>, k: Key): seq<ApiEntry> { Filter(entries, HasKey(ApiKey, k)) }

  lemma ChangedByRecords(baseline: seq<ApiEntry>, candidate: seq<ApiEntry>, k: Key)
    requires k in KeySet(baseline, ApiKey) && k in KeySet(candidate, ApiKey)
    ensures var b, c := EntriesOf(baseline, k), EntriesOf(candidate, k);
      var changed := k in RecordKeys(ApiSurfaceDiff(baseline, candidate).changed, ApiDumpKey);
      && (VariantDumps(b) != VariantDumps(c) ==> changed)
      && (NoEmptyText(b) ==> (changed <==> VariantDumps(b) != VariantDumps(c)))
  {
    ChangedSymbols(baseline, candidate, k);
    GroupHolds(baseline, ApiKey, k);
    GroupHolds(candidate, ApiKey, k);
    GroupIsSubsequence(baseline, ApiKey, k);
    GroupIsSubsequence(candidate, ApiKey, k);
    DifferByRecords(EntriesOf(baseline, k), EntriesOf(candidate, k));
  }

  /**
    The API delta names as added exactly the candidate's new symbols, as removed exactly those it
    lost, and as changed symbols of both sides: every one whose variants have other records, and only
    those unless a variant has an empty text, which sorts like none at all.
   */
  lemma ApiDeltaExact(b: CodeState, c: CodeState, k: Key)
    ensures var d := ComputeDelta(b, c).apiSurfaceDelta;
      && (k in RecordKeys(d.added, ApiDumpKey)
          <==> k in KeySet(c.apiSurface, ApiKey) && k !in KeySet(b.apiSurface, ApiKey))
      && (k in RecordKeys(d.removed, ApiDumpKey)
          <==> k in KeySet(b.apiSurface, ApiKey) && k !in KeySet(c.apiSurface, ApiKey))
    ensures var changed := k in RecordKeys(ComputeDelta(b, c).apiSurfaceDelta.changed, ApiDumpKey);
      var before, after := EntriesOf(b.apiSurface, k), EntriesOf(c.apiSurface, k);
      && (changed ==> k in KeySet(b.apiSurface, ApiKey) && k in KeySet(c.apiSurface, ApiKey))
      && (k in KeySet(b.apiSurface, ApiKey) && k in KeySet(c.apiSurface, ApiKey) ==>
            && (VariantDumps(before) != VariantDumps(after) ==> changed)
            && (NoEmptyText(before) ==> (changed <==> VariantDumps(before) != VariantDumps(after))))
  {
    AddedSymbols(b.apiSurface, c.apiSurface);
    RemovedSymbols(b.apiSurface, c.apiSurface);
    ChangedIsCommon(b.apiSurface, c.apiSurface, k);
    if k in KeySet(b.apiSurface, ApiKey) && k in KeySet(c.apiSurface, ApiKey) {
      ChangedByRecords(b.apiSurface, c.apiSurface, k);
    }
  }

  lemma ChangedIsCommon(baseline: seq<ApiEntry>, candidate: seq<ApiEntry>, k: Key)
    ensures k in RecordKeys(ApiSurfaceDiff(baseline, candidate).changed, ApiDumpKey) ==>
              k in KeySet(baseline, ApiKey) && k in KeySet(candidate, ApiKey)
  {
    ChangedSymbols(baseline, candidate, k);
    GroupHolds(baseline, ApiKey, k);
    GroupHolds(candidate, ApiKey, k);
  }
}
