/**
  What compilation makes of a literal: records may use exactly the keys that identify an entry at the
  target, a text stands for the record that names it, and an empty list is refused where it would
  decide nothing.
 */
module Literals {
  import opened Values
  import opened Vocabulary
  import opened States
  import opened Ordering
  import opened Deltas
  import opened DeltaLaws
  import opened Compiler
  import opened ItemLaws

  // ---- match schemas and the records they are for ----

  /** Keys of a record that describe an entry without identifying it. */
  const DETAIL_KEYS := {"signature", "decorators", "confidence", "evidence", "symbols", "before", "after"}

  function PublicKey(key: string): string { if key == "from_" then "from" else key }

  ghost predicate HasPublicKey(record: Value, key: string) {
    record.Map? && exists i :: 0 <= i < |record.entries| && PublicKey(record.entries[i].key) == key
  }

  /** A schema that allows exactly the identifying keys of a record and asks for one of some of them. */
  ghost predicate Identifies(p: Shape, record: Value, enough: set<string>, key: string) {
    && IsSchema(p, enough)
    && (key in SchemaFor(p).value.allowed <==> HasPublicKey(record, key) && key !in DETAIL_KEYS)
    && FieldOf(record, SchemaFor(p).value.requiredKey).Str?
  }

  /** A schema whose sufficient keys are these, the one a text stands for among them. */
  predicate IsSchema(p: Shape, enough: set<string>) {
    && SchemaFor(p).Some? && SchemaFor(p).value.requiredAny == enough && enough <= SchemaFor(p).value.allowed
    && SchemaFor(p).value.requiredKey in enough
  }

  /** The public keys of a record, listed. */
  lemma PublicKeys(es: seq<Entry>, keys: seq<string>, key: string)
    requires |es| == |keys| && forall i | 0 <= i < |es| :: PublicKey(es[i].key) == keys[i]
    ensures HasPublicKey(Map(es), key) <==> key in keys
  {
    if key in keys {
      var i :| 0 <= i < |keys| && keys[i] == key;
      assert PublicKey(es[i].key) == key;
    }
  }

  lemma Identified(p: Shape, record: Value, enough: set<string>, keys: seq<string>, key: string)
    requires record.Map? && |record.entries| == |keys|
    requires forall i | 0 <= i < |keys| :: PublicKey(record.entries[i].key) == keys[i]
    requires IsSchema(p, enough) && FieldOf(record, SchemaFor(p).value.requiredKey).Str?
    requires key in SchemaFor(p).value.allowed <==> key in keys && key !in DETAIL_KEYS
    ensures Identifies(p, record, enough, key)
  {
    PublicKeys(record.entries, keys, key);
  }

  lemma ApiSchemaKeys(p: Shape, key: string)
    requires p == One(ApiSurface) || p == One(ApiSurfacePublic)
    ensures IsSchema(p, {"fqn"}) && SchemaFor(p).value.requiredKey == "fqn"
    ensures key in SchemaFor(p).value.allowed
       <==> key in ["decorators", "fqn", "kind", "signature", "visibility"] && key !in DETAIL_KEYS
  {
  }

  lemma ApiSchema(p: Shape, e: ApiEntry, key: string)
    requires p == One(ApiSurface) || p == One(ApiSurfacePublic)
    ensures Identifies(p, DumpApi(e), {"fqn"}, key)
  {
    ApiSchemaKeys(p, key);
    LookupAt(DumpApi(e).entries, 1);
    Identified(p, DumpApi(e), {"fqn"}, ["decorators", "fqn", "kind", "signature", "visibility"], key);
  }

  lemma ApiDeltaSchemaKeys(p: Shape, key: string)
    requires p.Two? && p.a == ApiSurfaceDelta && (p.b == Added || p.b == Removed || p.b == RemovedPublic)
    ensures IsSchema(p, {"fqn"}) && SchemaFor(p).value.requiredKey == "fqn"
    ensures key in SchemaFor(p).value.allowed
       <==> key in ["fqn", "kind", "signature", "visibility"] && key !in DETAIL_KEYS
  {
  }

  lemma ApiDeltaSchema(p: Shape, e: ApiEntry, key: string)
    requires p.Two? && p.a == ApiSurfaceDelta && (p.b == Added || p.b == Removed || p.b == RemovedPublic)
    ensures Identifies(p, DumpApiVariant(e), {"fqn"}, key)
  {
    ApiDeltaSchemaKeys(p, key);
    LookupAt(DumpApiVariant(e).entries, 0);
    Identified(p, DumpApiVariant(e), {"fqn"}, ["fqn", "kind", "signature", "visibility"], key);
  }

  lemma ChangedSchemaKeys(p: Shape, key: string)
    requires p == Two(ApiSurfaceDelta, Changed)
    ensures IsSchema(p, {"fqn"}) && SchemaFor(p).value.requiredKey == "fqn"
    ensures key in SchemaFor(p).value.allowed
       <==> key in ["after", "before", "fqn", "kind"] && key !in DETAIL_KEYS
  {
  }

  lemma ChangedSchema(p: Shape, k: Key, before: seq<ApiEntry>, after: seq<ApiEntry>, key: string)
    requires p == Two(ApiSurfaceDelta, Changed)
    ensures Identifies(p, ChangedRecord(k, before, after), {"fqn"}, key)
  {
    ChangedSchemaKeys(p, key);
    LookupAt(ChangedRecord(k, before, after).entries, 2);
    Identified(p, ChangedRecord(k, before, after), {"fqn"}, ["after", "before", "fqn", "kind"], key);
  }

  lemma EffectSchemaKeys(p: Shape, key: string)
    requires p == One(Effects) || p == Two(EffectChanges, Added) || p == Two(EffectChanges, Removed)
    ensures IsSchema(p, {"fqn", "effect_class"}) && SchemaFor(p).value.requiredKey == "fqn"
    ensures key in SchemaFor(p).value.allowed
       <==> key in ["confidence", "effect_class", "evidence", "fqn"] && key !in DETAIL_KEYS
  {
  }

  lemma EffectSchema(p: Shape, e: EffectEntry, key: string)
    requires p == One(Effects) || p == Two(EffectChanges, Added) || p == Two(EffectChanges, Removed)
    ensures Identifies(p, DumpEffect(e), {"fqn", "effect_class"}, key)
  {
    EffectSchemaKeys(p, key);
    LookupAt(DumpEffect(e).entries, 3);
    Identified(p, DumpEffect(e), {"fqn", "effect_class"}, ["confidence", "effect_class", "evidence", "fqn"], key);
  }

  lemma DecoratorSchemaKeys(p: Shape, key: string)
    requires p == Two(DecoratorsDelta, Added) || p == Two(DecoratorsDelta, Removed)
    ensures IsSchema(p, {"decorator", "decorator_leaf"}) && SchemaFor(p).value.requiredKey == "decorator"
    ensures key in SchemaFor(p).value.allowed
       <==> key in ["decorator", "decorator_leaf", "fqn"] && key !in DETAIL_KEYS
  {
  }

  lemma DecoratorSchema(p: Shape, k: Key, key: string)
    requires p == Two(DecoratorsDelta, Added) || p == Two(DecoratorsDelta, Removed)
    ensures Identifies(p, DecoratorRecord(k), {"decorator", "decorator_leaf"}, key)
  {
    DecoratorSchemaKeys(p, key);
    LookupAt(DecoratorRecord(k).entries, 0);
    Identified(p, DecoratorRecord(k), {"decorator", "decorator_leaf"}, ["decorator", "decorator_leaf", "fqn"], key);
  }

  lemma ImportSchemaKeys(p: Shape, key: string)
    requires p == One(Imports)
    ensures IsSchema(p, {"module"}) && SchemaFor(p).value.requiredKey == "module"
    ensures key in SchemaFor(p).value.allowed
       <==> key in ["from", "module", "symbols"] && key !in DETAIL_KEYS
  {
  }

  lemma ImportSchema(p: Shape, e: ImportEntry, key: string)
    requires p == One(Imports)
    ensures Identifies(p, DumpImport(e), {"module"}, key)
  {
    ImportSchemaKeys(p, key);
    LookupAt(DumpImport(e).entries, 1);
    Identified(p, DumpImport(e), {"module"}, ["from", "module", "symbols"], key);
  }

  lemma ImportDeltaSchemaKeys(p: Shape, key: string)
    requires p == Two(ImportsDelta, Added) || p == Two(ImportsDelta, Removed)
    ensures IsSchema(p, {"module"}) && SchemaFor(p).value.requiredKey == "module"
    ensures key in SchemaFor(p).value.allowed
       <==> key in ["from", "module", "symbols"] && key !in DETAIL_KEYS
  {
  }

  lemma ImportDeltaSchema(p: Shape, e: ImportEntry, key: string)
    requires p == Two(ImportsDelta, Added) || p == Two(ImportsDelta, Removed)
    ensures Identifies(p, DumpImportByAlias(e), {"module"}, key)
  {
    ImportDeltaSchemaKeys(p, key);
    LookupAt(DumpImportByAlias(e).entries, 1);
    Identified(p, DumpImportByAlias(e), {"module"}, ["from", "module", "symbols"], key);
  }

  lemma RenameSchemaKeys(p: Shape, key: string)
    requires p == One(Renames)
    ensures IsSchema(p, {"old_path", "new_path"}) && SchemaFor(p).value.requiredKey == "old_path"
    ensures key in SchemaFor(p).value.allowed
       <==> key in ["new_path", "old_path"] && key !in DETAIL_KEYS
  {
  }

  lemma RenameSchema(p: Shape, e: RenameEntry, key: string)
    requires p == One(Renames)
    ensures Identifies(p, DumpRename(e), {"old_path", "new_path"}, key)
  {
    RenameSchemaKeys(p, key);
    LookupAt(DumpRename(e).entries, 1);
    Identified(p, DumpRename(e), {"old_path", "new_path"}, ["new_path", "old_path"], key);
  }

  // ---- items ----

  /** A record with a foreign key, or without any key that suffices. */
  predicate IsMisfit(s: MatchSchema, entries: seq<Entry>) {
    || (exists i :: 0 <= i < |entries| && entries[i].key !in s.allowed)
    || (forall i | 0 <= i < |entries| :: entries[i].key !in s.requiredAny)
  }

  /** Only records are refused: all of them without a schema, and the misfits under one. */
  lemma ItemRejectedExactly(schema: Option<MatchSchema>, item: Value)
    ensures NormalizeItem(schema, item).None?
       <==> item.Map? && (schema.None? || IsMisfit(schema.value, item.entries))
    ensures NormalizeItem(schema, item).Some? && !item.Str? ==> NormalizeItem(schema, item).value == item
  {
    if item.Map? && schema.Some? {
      var es := item.entries;
      forall i | 0 <= i < |es| ensures es[i] in es { }
    }
  }

  lemma OneKey(key: string, v: Value, other: string)
    ensures LookupKey([Entry(key, v)], other) == if other == key then Some(v) else None
  {
    var es := [Entry(key, v)];
    assert es[1..] == [];
  }

  /** A text under a schema stands for the records that have it as their name. */
  lemma ShorthandMatches(schema: MatchSchema, s: string, observed: seq<Entry>)
    requires DistinctKeys(observed) && observed != [] && schema.requiredKey != "from_"
    ensures NormalizeItem(Some(schema), Str(s)).Some?
    ensures Matches(NormalizeItem(Some(schema), Str(s)).value, Map(observed))
       <==> ReadKey(observed, schema.requiredKey) == Some(Str(s))
  {
    var one := [Entry(schema.requiredKey, Str(s))];
    RecordsMatch(one, observed);
    forall key ensures ReadKey(one, key) == if key == schema.requiredKey then Some(Str(s)) else None {
      OneKey(schema.requiredKey, Str(s), key);
      OneKey(schema.requiredKey, Str(s), "from_");
    }
    assert forall v :: Alike(Str(s), v) ==> v == Str(s);
  }

  // ---- whole literals ----

  /** An empty list is refused exactly where it would decide nothing: it has nothing to meet and nothing to exclude. */
  lemma EmptyListRefused(t: Target, op: Operator, observed: seq<Value>)
    requires IsExpectedCollectionOperator(op)
    ensures NormalizeExpected(t, op, Seq([])).None? <==> op.ExcludesAll? || op.IncludesAny?
    ensures op.ExcludesAll? ==> CollectionHolds(op, observed, [])
    ensures op.IncludesAny? ==> !CollectionHolds(op, observed, [])
  {
  }

  /** Compilation keeps a user constraint but for its literal, whose items it normalises in place. */
  lemma CompiledLiteral(u: Constraint)
    requires Accepts(u)
    ensures CompileUser(u).(expected := u.expected, source := u.source) == u && CompileUser(u).source.FromUser?
    ensures !IsExpectedCollectionOperator(u.operator) || u.kind.RepairKind? ==> CompileUser(u).expected == u.expected
    ensures IsExpectedCollectionOperator(u.operator) && !u.kind.RepairKind? ==>
              && u.expected.Seq? && CompileUser(u).expected.Seq?
              && (u.expected.items != [] ==>
                    IsNormalized(SchemaFor(ShapeOf(u.target)), u.expected.items, CompileUser(u).expected.items))
              && (u.expected.items == [] ==> CompileUser(u).expected.items == [])
  {
    if IsExpectedCollectionOperator(u.operator) && !u.kind.RepairKind? {
      NormalizedPointwise(SchemaFor(ShapeOf(u.target)), u.expected.items);
    }
  }
}
