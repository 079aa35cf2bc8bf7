/**
  What a compiled target owes by its kind of change, stated on the two states and the allow rules:
  the template rows fail a run exactly when the states break the contract of the kind, and otherwise
  leave the verdict to the user's own constraints.
 */
module KindContracts {
  import opened Values
  import opened Vocabulary
  import opened States
  import opened Ordering
  import opened Deltas
  import opened DeltaLaws
  import opened ApiDeltaLaws
  import opened RecordMembership
  import opened Paths
  import opened Compiler
  import opened Evaluator
  import opened ShortCircuit
  import opened AllowLists
  import opened Doctor
  import opened ItemLaws

  // ---- what allow rules name ----

  /** A rule names a symbol by its full name or by a prefix of it. */
  ghost predicate NamesSymbol(r: ApiAllowRule, fqn: string) {
    r.fqn == Some(fqn) || (r.fqnPrefix.Some? && exists rest :: fqn == r.fqnPrefix.value + rest)
  }

  ghost predicate AllowsSymbol(rules: Rules, fqn: string) {
    exists i :: 0 <= i < |rules.apiAllow| && NamesSymbol(rules.apiAllow[i], fqn)
  }

  /** A rule names an effect by the function that has it or the call it makes, by its class, or by both. */
  ghost predicate NamesEffect(r: EffectAllowRule, e: EffectEntry) {
    && (r.fqn.Some? ==> r.fqn.value == e.fqn || FieldOf(e.evidence, "resolved_call") == Str(r.fqn.value))
    && (r.effectClass.Some? ==> r.effectClass.value == e.effectClass)
  }

  ghost predicate AllowsEffect(rules: Rules, e: EffectEntry) {
    exists i :: 0 <= i < |rules.effectAllow| && NamesEffect(rules.effectAllow[i], e)
  }

  lemma PrefixExactly(s: string, p: string)
    ensures HasPrefix(s, p) <==> exists rest :: s == p + rest
  {
    if HasPrefix(s, p) { assert s == p + s[|p|..]; }
  }

  lemma SymbolAllowed(rules: Rules, fqn: string)
    ensures ApiAllowed(fqn, rules.apiAllow) <==> AllowsSymbol(rules, fqn)
  {
    forall r: ApiAllowRule ensures ApiRuleMatches(fqn, r) <==> NamesSymbol(r, fqn) {
      if r.fqnPrefix.Some? { PrefixExactly(fqn, r.fqnPrefix.value); }
    }
    if r :| r in rules.apiAllow && ApiRuleMatches(fqn, r) {
      var i :| 0 <= i < |rules.apiAllow| && rules.apiAllow[i] == r;
      assert NamesSymbol(rules.apiAllow[i], fqn);
    }
  }

  lemma EffectFields(e: EffectEntry)
    ensures FieldOf(DumpEffect(e), "fqn") == Str(e.fqn)
    ensures FieldOf(DumpEffect(e), "evidence") == e.evidence
    ensures FieldOf(DumpEffect(e), "effect_class") == Str(EffectClassText(e.effectClass))
  {
    var es := DumpEffect(e).entries;
    LookupAt(es, 1);
    LookupAt(es, 2);
    LookupAt(es, 3);
  }

  lemma RuleNamesEffect(r: EffectAllowRule, e: EffectEntry)
    ensures EffectRuleMatches(DumpEffect(e), r) <==> NamesEffect(r, e)
  {
    EffectFields(e);
    if r.effectClass.Some? { ClassTexts(r.effectClass.value, e.effectClass); }
  }

  lemma EffectAllowedExactly(rules: Rules, e: EffectEntry)
    ensures EffectAllowed(DumpEffect(e), rules.effectAllow) <==> AllowsEffect(rules, e)
  {
    forall r: EffectAllowRule ensures EffectRuleMatches(DumpEffect(e), r) <==> NamesEffect(r, e) {
      RuleNamesEffect(r, e);
    }
    if r :| r in rules.effectAllow && EffectRuleMatches(DumpEffect(e), r) {
      var i :| 0 <= i < |rules.effectAllow| && rules.effectAllow[i] == r;
      assert NamesEffect(rules.effectAllow[i], e);
    }
  }

  // ---- the contracts ----

  /** An effect of the candidate that the baseline does not have and no rule allows. */
  ghost predicate AddsEffect(b: CodeState, c: CodeState, rules: Rules) {
    exists e :: IsNew(c.effects, b.effects, EffectKey, e) && !AllowsEffect(rules, e)
  }

  ghost predicate SameEffects(b: CodeState, c: CodeState) {
    KeySet(b.effects, EffectKey) == KeySet(c.effects, EffectKey)
  }

  /** A public symbol of the baseline that the candidate does not have and no rule allows to go. */
  ghost predicate LosesSymbol(b: CodeState, c: CodeState, rules: Rules) {
    exists e :: e in b.apiSurface && e.visibility == Some("public") && !AllowsSymbol(rules, e.fqn)
                && !HasSymbol(c, e.fqn, e.kind)
  }

  /** The public symbols that no rule exempts from the comparison. */
  ghost function GuardedSurface(s: CodeState, rules: Rules): seq<ApiEntry> {
    Filter(s.apiSurface, IsGuarded(rules))
  }

  ghost function IsGuarded(rules: Rules): ApiEntry -> bool {
    (e: ApiEntry) => e.visibility == Some("public") && !AllowsSymbol(rules, e.fqn)
  }

  /** The states break what a change of the kind promises. */
  ghost predicate Breaks(kind: ChangeKind, b: CodeState, c: CodeState, rules: Rules) {
    match kind
    case Refactor =>
      GuardedSurface(b, rules) != GuardedSurface(c, rules) || !SameList(b.typeRelations, c.typeRelations)
      || !SameEffects(b, c) || b.testSurface != c.testSurface
    case Bugfix => GuardedSurface(b, rules) != GuardedSurface(c, rules) || AddsEffect(b, c, rules)
    case Feature => LosesSymbol(b, c, rules) || AddsEffect(b, c, rules)
    case TestUpdate =>
      GuardedSurface(b, rules) != GuardedSurface(c, rules) || !SameEffects(b, c) || b.imports != c.imports
    case Generic => false
  }

  // ---- lists of dumps ----

  lemma EqualStrings(a: seq<string>, b: seq<string>)
    ensures Canonical(Strings(a)) == Canonical(Strings(b)) <==> a == b
  {
    if Canonical(Strings(a)) == Canonical(Strings(b)) {
      EqualLists(Strings(a), Strings(b));
      forall i | 0 <= i < |a| ensures a[i] == b[i] {
        assert Alike(Strings(a).items[i], Strings(b).items[i]);
      }
    }
  }

  /** A dump whose canonical form tells its entries apart. */
  ghost predicate Faithful<T(!new)>(dump: T -> Value) {
    forall x, y: T :: Canonical(dump(x)) == Canonical(dump(y)) ==> x == y
  }

  lemma EqualDumps<T(!new)>(xs: seq<T>, ys: seq<T>, dump: T -> Value)
    requires Faithful(dump)
    ensures Canonical(Seq(MapSeq(dump, xs))) == Canonical(Seq(MapSeq(dump, ys))) <==> xs == ys
  {
    EqualLists(Seq(MapSeq(dump, xs)), Seq(MapSeq(dump, ys)));
    if SameList(MapSeq(dump, xs), MapSeq(dump, ys)) {
      forall i | 0 <= i < |xs| ensures xs[i] == ys[i] {
        assert Alike(MapSeq(dump, xs)[i], MapSeq(dump, ys)[i]);
      }
    }
  }

  /** Records with the same canonical form agree entry by entry. */
  lemma EqualEntries(xs: seq<Entry>, ys: seq<Entry>, i: nat)
    requires Canonical(Map(xs)) == Canonical(Map(ys)) && i < |xs|
    ensures |xs| == |ys| && Canonical(xs[i].value) == Canonical(ys[i].value)
  {
    var x, y := Canonical(Map(xs)).parts, Canonical(Map(ys)).parts;
    assert |x| == |xs| && |y| == |ys|;
    assert x[i].parts[1] == Canonical(xs[i].value) && y[i].parts[1] == Canonical(ys[i].value);
  }

  lemma EqualApi(x: ApiEntry, y: ApiEntry)
    requires Canonical(DumpApi(x)) == Canonical(DumpApi(y))
    ensures x == y
  {
    var xs, ys := DumpApi(x).entries, DumpApi(y).entries;
    EqualEntries(xs, ys, 0);
    EqualEntries(xs, ys, 1);
    EqualEntries(xs, ys, 2);
    EqualEntries(xs, ys, 3);
    EqualEntries(xs, ys, 4);
    EqualStrings(x.decorators, y.decorators);
  }

  lemma EqualTests(x: TestEntry, y: TestEntry)
    requires Canonical(DumpTest(x)) == Canonical(DumpTest(y))
    ensures x == y
  {
    var xs, ys := DumpTest(x).entries, DumpTest(y).entries;
    EqualEntries(xs, ys, 0);
    EqualEntries(xs, ys, 1);
    EqualEntries(xs, ys, 2);
    EqualEntries(xs, ys, 3);
    NumberBack(x.asserts);
    NumberBack(y.asserts);
    NumberBack(x.parametrizeCount);
    NumberBack(y.parametrizeCount);
  }

  lemma EqualImports(x: ImportEntry, y: ImportEntry)
    requires Canonical(DumpImport(x)) == Canonical(DumpImport(y))
    ensures x == y
  {
    var xs, ys := DumpImport(x).entries, DumpImport(y).entries;
    EqualEntries(xs, ys, 0);
    EqualEntries(xs, ys, 1);
    EqualEntries(xs, ys, 2);
    EqualStrings(x.symbols, y.symbols);
  }

  lemma FaithfulDumps()
    ensures Faithful(DumpApi) && Faithful(DumpTest) && Faithful(DumpImport)
  {
    forall x, y: ApiEntry ensures Canonical(DumpApi(x)) == Canonical(DumpApi(y)) ==> x == y {
      if Canonical(DumpApi(x)) == Canonical(DumpApi(y)) { EqualApi(x, y); }
    }
    forall x, y: TestEntry ensures Canonical(DumpTest(x)) == Canonical(DumpTest(y)) ==> x == y {
      if Canonical(DumpTest(x)) == Canonical(DumpTest(y)) { EqualTests(x, y); }
    }
    forall x, y: ImportEntry ensures Canonical(DumpImport(x)) == Canonical(DumpImport(y)) ==> x == y {
      if Canonical(DumpImport(x)) == Canonical(DumpImport(y)) { EqualImports(x, y); }
    }
  }

  // ---- the rows, on any run ----

  function StatusOf(row: Constraint, ctx: Context): Status { ResultOf(row, ctx, Untimed(None)).status }

  function Decided(holds: bool): Status { if holds then Satisfied else Violated }

  lemma {:induction false} FilterBoth(s: seq<ApiEntry>, first: ApiEntry -> bool, second: ApiEntry -> bool,
                                      both: ApiEntry -> bool)
    requires forall e | e in s :: both(e) <==> first(e) && second(e)
    ensures Filter(Filter(s, first), second) == Filter(s, both)
  {
    if s != [] {
      FilterBoth(s[1..], first, second, both);
      FilterHead(s, first);
      FilterPrepend(s[0], Filter(s[1..], first), second);
    }
  }

  lemma SurfaceIsGuarded(s: CodeState, rules: Rules)
    ensures Surface(s, rules.apiAllow) == GuardedSurface(s, rules)
  {
    forall e: ApiEntry
      ensures IsGuarded(rules)(e) <==> KeepEntry(rules.apiAllow)(e) && IsPublicEntry(e)
    {
      SymbolAllowed(rules, e.fqn);
    }
    FilterBoth(s.apiSurface, KeepEntry(rules.apiAllow), IsPublicEntry, IsGuarded(rules));
  }

  lemma SameSurfaces(b: CodeState, c: CodeState, rules: Rules)
    ensures SameDumps(Surface(c, rules.apiAllow), Surface(b, rules.apiAllow))
       <==> GuardedSurface(b, rules) == GuardedSurface(c, rules)
  {
    SurfaceIsGuarded(b, rules);
    SurfaceIsGuarded(c, rules);
    FaithfulDumps();
    CanonicalSurface(GuardedSurface(c, rules), GuardedSurface(b, rules));
    EqualDumps(GuardedSurface(c, rules), GuardedSurface(b, rules), DumpApi);
  }

  /** A row that compares a state path with its baseline. */
  function BaselineRow(rule: TemplateId, tag: Tag, text: string): Constraint {
    TemplateConstraint(rule, Root(tag, text), EqualsBaseline, Null)
  }

  lemma SurfaceRow(row: Constraint, ctx: Context)
    requires IsUnchangedApiTemplate(row) && row.kind.DeltaKind?
    ensures StatusOf(row, ctx)
         == Decided(SameDumps(Surface(ctx.candidate, ctx.apiAllow), Surface(ctx.baseline, ctx.apiAllow)))
  {
    PublicSurfaceResult(row, ctx);
  }

  lemma ComparedRow(row: Constraint, ctx: Context, x: Value, y: Value)
    requires row.kind.DeltaKind? && row.operator.EqualsBaseline? && row.target.Dotted? && !IsUnchangedApiTemplate(row)
    requires IsStateRoot(row.target.head.tag) && !IsDeltaRoot(row.target.head.tag)
    requires Resolve(NState(ctx.baseline), row.target) == Some(x)
    requires Resolve(NState(ctx.candidate), row.target) == Some(y)
    ensures StatusOf(row, ctx) == Decided(Canonical(y) == Canonical(x))
  {
  }

  lemma EqualRow(row: Constraint, ctx: Context, v: Value)
    requires row.kind.DeltaKind? && row.operator.Equals? && row.target.Dotted? && IsDeltaRoot(row.target.head.tag)
    requires Resolve(NDelta(DeltaView(row, ctx)), row.target) == Some(v)
    ensures StatusOf(row, ctx) == Decided(Canonical(v) == Canonical(row.expected))
  {
  }

  lemma RecordRow(row: Constraint, ctx: Context)
    requires row.kind.DeltaKind? && row.operator.Equals? && ShapeOf(row.target) == One(EffectChanges)
    requires row.expected == NoItems()
    ensures StatusOf(row, ctx) == Decided(ctx.delta.effectChanges == ItemDelta([], []))
  {
    assert DeltaView(row, ctx) == ctx.delta;
    DeltaPathResolves(ctx.delta, row.target);
    EqualRow(row, ctx, ItemsRecord(ctx.delta.effectChanges));
    EmptyRecord(ctx.delta.effectChanges);
  }

  lemma EmptyList(items: seq<Value>)
    ensures Canonical(Seq(items)) == Canonical(Seq([])) <==> items == []
  {
    EqualLists(Seq(items), Seq([]));
  }

  lemma AddedRow(row: Constraint, ctx: Context)
    requires IsNewEffectsTemplate(row) && row.kind.DeltaKind? && row.expected == Seq([])
    ensures StatusOf(row, ctx) == Decided(Filter(ctx.delta.effectChanges.added, KeepEffect(ctx.effectAllow)) == [])
  {
    var kept := Filter(ctx.delta.effectChanges.added, KeepEffect(ctx.effectAllow));
    DeltaPathResolves(DeltaView(row, ctx), row.target);
    EqualRow(row, ctx, Seq(kept));
    EmptyList(kept);
  }

  lemma RemovedRow(row: Constraint, ctx: Context)
    requires IsRemovedApiTemplate(row) && row.kind.DeltaKind? && row.expected == Seq([])
    ensures StatusOf(row, ctx) == Decided(
      Filter(Filter(ctx.delta.apiSurfaceDelta.removed, KeepRecord(ctx.apiAllow)), IsPublicRecord) == [])
  {
    var kept := Filter(Filter(ctx.delta.apiSurfaceDelta.removed, KeepRecord(ctx.apiAllow)), IsPublicRecord);
    DeltaPathResolves(DeltaView(row, ctx), row.target);
    EqualRow(row, ctx, Seq(kept));
    EmptyList(kept);
  }

  // ---- the two states behind the delta ----

  lemma {:induction false} DumpsCount<T>(keys: seq<Key>, m: map<Key, T>, dump: T -> Value)
    requires forall k | k in keys :: k in m
    ensures |DumpsAt(keys, m, dump)| == |keys|
  {
    if keys != [] { DumpsCount(keys[1..], m, dump); }
  }

  lemma NothingAdded<T>(b: seq<T>, c: seq<T>, key: T -> Key, dump: T -> Value)
    ensures ItemDiff(b, c, key, dump).added == [] <==> KeySet(c, key) <= KeySet(b, key)
  {
    var base, cand := IndexBy(b, key), IndexBy(c, key);
    IndexKeySet(b, key);
    IndexKeySet(c, key);
    DumpsCount(AddedKeys(base, cand), cand, dump);
    var gained := KeySet(c, key) - KeySet(b, key);
    assert |SortedSet(gained)| == |gained|;
    if gained == {} {
      forall k | k in KeySet(c, key) ensures k in KeySet(b, key) { assert k !in gained; }
    }
  }

  lemma NoEffectChanges(b: seq<EffectEntry>, c: seq<EffectEntry>)
    ensures ItemDiff(b, c, EffectKey, DumpEffect) == ItemDelta([], []) <==> KeySet(b, EffectKey) == KeySet(c, EffectKey)
  {
    NothingAdded(b, c, EffectKey, DumpEffect);
    NothingAdded(c, b, EffectKey, DumpEffect);
    SwapItems(b, c, EffectKey, DumpEffect);
  }

  lemma EmptyRecord(d: ItemDelta)
    ensures Canonical(ItemsRecord(d)) == Canonical(NoItems()) <==> d == ItemDelta([], [])
  {
    if Canonical(ItemsRecord(d)) == Canonical(NoItems()) {
      EqualEntries(ItemsRecord(d).entries, NoItems().entries, 0);
      EqualEntries(ItemsRecord(d).entries, NoItems().entries, 1);
      EqualLists(Seq(d.added), Seq([]));
      EqualLists(Seq(d.removed), Seq([]));
    }
  }

  lemma NewEffectsKept(b: CodeState, c: CodeState, rules: Rules)
    ensures Filter(ItemDiff(b.effects, c.effects, EffectKey, DumpEffect).added, KeepEffect(rules.effectAllow)) == []
       <==> !AddsEffect(b, c, rules)
  {
    var added := ItemDiff(b.effects, c.effects, EffectKey, DumpEffect).added;
    FilterEmptiness(added, KeepEffect(rules.effectAllow));
    if v :| v in added && KeepEffect(rules.effectAllow)(v) {
      AddedItems(b.effects, c.effects, EffectKey, DumpEffect, v);
      var e :| IsNew(c.effects, b.effects, EffectKey, e) && v == DumpEffect(e);
      EffectAllowedExactly(rules, e);
    }
    if e :| IsNew(c.effects, b.effects, EffectKey, e) && !AllowsEffect(rules, e) {
      AddedItems(b.effects, c.effects, EffectKey, DumpEffect, DumpEffect(e));
      EffectAllowedExactly(rules, e);
      assert DumpEffect(e) in added && KeepEffect(rules.effectAllow)(DumpEffect(e));
    }
  }

  lemma KeptRecord(e: ApiEntry, rules: Rules)
    ensures KeepRecord(rules.apiAllow)(DumpApiVariant(e)) <==> !AllowsSymbol(rules, e.fqn)
    ensures IsPublicRecord(DumpApiVariant(e)) <==> e.visibility == Some("public")
  {
    DumpFields(e);
    SymbolAllowed(rules, e.fqn);
  }

  function LostRecords(b: CodeState, c: CodeState): seq<Value> { ApiSurfaceDiff(b.apiSurface, c.apiSurface).removed }

  lemma LostRecord(b: CodeState, c: CodeState, v: Value)
    ensures v in LostRecords(b, c) <==> DumpOfLost(b, c, v)
  {
    AddedRecords(c, b, v);
    SwapApi(b.apiSurface, c.apiSurface);
  }

  lemma LostSymbolsKept(b: CodeState, c: CodeState, rules: Rules)
    ensures Filter(Filter(LostRecords(b, c), KeepRecord(rules.apiAllow)), IsPublicRecord) == []
       <==> !LosesSymbol(b, c, rules)
  {
    var removed := LostRecords(b, c);
    var kept := Filter(removed, KeepRecord(rules.apiAllow));
    FilterMembers(removed, KeepRecord(rules.apiAllow));
    FilterEmptiness(kept, IsPublicRecord);
    if v :| v in kept && IsPublicRecord(v) {
      LostRecord(b, c, v);
      var e :| e in b.apiSurface && !HasSymbol(c, e.fqn, e.kind) && v == DumpApiVariant(e);
      KeptRecord(e, rules);
    }
    if e :| e in b.apiSurface && e.visibility == Some("public") && !AllowsSymbol(rules, e.fqn)
            && !HasSymbol(c, e.fqn, e.kind) {
      LostRecord(b, c, DumpApiVariant(e));
      KeptRecord(e, rules);
      assert DumpApiVariant(e) in kept;
    }
  }

  // ---- the rows of a kind ----

  /** A full run over two states, whatever an overlay adds to the delta. */
  predicate IsRun(ctx: Context, b: CodeState, c: CodeState, rules: Rules) {
    && ctx.baseline == b && ctx.candidate == c && ctx.apiAllow == rules.apiAllow && ctx.effectAllow == rules.effectAllow
    && ctx.delta.effectChanges == ItemDiff(b.effects, c.effects, EffectKey, DumpEffect)
    && ctx.delta.apiSurfaceDelta.removed == LostRecords(b, c)
  }

  /** What each template rule asks of two states. */
  ghost predicate RuleHolds(rule: TemplateId, b: CodeState, c: CodeState, rules: Rules) {
    match rule
    case RefactorApi => GuardedSurface(b, rules) == GuardedSurface(c, rules)
    case RefactorTypes => SameList(b.typeRelations, c.typeRelations)
    case RefactorEffects => SameEffects(b, c)
    case RefactorTests => b.testSurface == c.testSurface
    case BugfixApi => GuardedSurface(b, rules) == GuardedSurface(c, rules)
    case BugfixEffects => !AddsEffect(b, c, rules)
    case FeatureRemovedApi => !LosesSymbol(b, c, rules)
    case FeatureEffects => !AddsEffect(b, c, rules)
    case TestUpdateApi => GuardedSurface(b, rules) == GuardedSurface(c, rules)
    case TestUpdateEffects => SameEffects(b, c)
    case TestUpdateImports => b.imports == c.imports
  }

  /** A row of the template table, by its rule. */
  predicate IsRow(row: Constraint) {
    && row.id.Template? && row.kind.DeltaKind? && row.severity.Hard? && row.source.FromTemplate?
    && match row.id.rule
       case RefactorTypes => row.operator.EqualsBaseline? && ShapeOf(row.target) == One(TypeRelations)
       case RefactorTests => row.operator.EqualsBaseline? && ShapeOf(row.target) == One(TestSurface)
       case TestUpdateImports => row.operator.EqualsBaseline? && ShapeOf(row.target) == One(Imports)
       case RefactorEffects => IsEffectsRow(row)
       case TestUpdateEffects => IsEffectsRow(row)
       case BugfixEffects => IsNewEffectsTemplate(row) && row.expected == Seq([])
       case FeatureEffects => IsNewEffectsTemplate(row) && row.expected == Seq([])
       case FeatureRemovedApi => IsRemovedApiTemplate(row) && row.expected == Seq([])
       case _ => IsUnchangedApiTemplate(row)
  }

  predicate IsEffectsRow(row: Constraint) {
    row.operator.Equals? && ShapeOf(row.target) == One(EffectChanges) && row.expected == NoItems()
  }

  lemma TableRows(kind: ChangeKind)
    ensures forall i | 0 <= i < |Templates(kind)| :: IsRow(Templates(kind)[i])
  {
  }

  predicate ComparesDimension(rule: TemplateId) {
    rule == RefactorTypes || rule == RefactorTests || rule == TestUpdateImports
  }

  lemma ComparedValues(rule: TemplateId, b: CodeState, c: CodeState, rules: Rules, tag: Tag)
    requires tag == match rule case RefactorTypes => TypeRelations case RefactorTests => TestSurface case _ => Imports
    requires ComparesDimension(rule)
    ensures StateValue(b, tag).Some? && StateValue(c, tag).Some?
    ensures Canonical(StateValue(c, tag).value) == Canonical(StateValue(b, tag).value) <==> RuleHolds(rule, b, c, rules)
  {
    match rule
    case RefactorTypes => EqualLists(Seq(b.typeRelations), Seq(c.typeRelations));
    case RefactorTests => FaithfulDumps(); EqualDumps(c.testSurface, b.testSurface, DumpTest);
    case _ => FaithfulDumps(); EqualDumps(c.imports, b.imports, DumpImport);
  }

  lemma ComparedReads(row: Constraint, b: CodeState, c: CodeState, rules: Rules) returns (x: Value, y: Value)
    requires IsRow(row) && ComparesDimension(row.id.rule)
    ensures Resolve(NState(b), row.target) == Some(x) && Resolve(NState(c), row.target) == Some(y)
    ensures Canonical(y) == Canonical(x) <==> RuleHolds(row.id.rule, b, c, rules)
  {
    var tag := row.target.head.tag;
    ComparedValues(row.id.rule, b, c, rules, tag);
    StatePathResolves(b, row.target);
    StatePathResolves(c, row.target);
    x, y := StateValue(b, tag).value, StateValue(c, tag).value;
  }

  lemma RowCompares(row: Constraint)
    requires IsRow(row) && ComparesDimension(row.id.rule)
    ensures row.operator.EqualsBaseline? && row.target.Dotted? && !IsUnchangedApiTemplate(row)
    ensures IsStateRoot(row.target.head.tag) && !IsDeltaRoot(row.target.head.tag)
  {
  }

  lemma ComparedRowStatus(row: Constraint, ctx: Context, x: Value, y: Value, holds: bool)
    requires row.kind.DeltaKind? && row.operator.EqualsBaseline? && row.target.Dotted? && !IsUnchangedApiTemplate(row)
    requires IsStateRoot(row.target.head.tag) && !IsDeltaRoot(row.target.head.tag)
    requires Resolve(NState(ctx.baseline), row.target) == Some(x)
    requires Resolve(NState(ctx.candidate), row.target) == Some(y)
    requires Canonical(y) == Canonical(x) <==> holds
    ensures StatusOf(row, ctx) == Decided(holds)
  {
    ComparedRow(row, ctx, x, y);
  }

  lemma ComparedRowHolds(row: Constraint, ctx: Context, b: CodeState, c: CodeState, rules: Rules)
    requires IsRun(ctx, b, c, rules) && IsRow(row) && ComparesDimension(row.id.rule)
    ensures StatusOf(row, ctx) == Decided(RuleHolds(row.id.rule, b, c, rules))
  {
    var x, y := ComparedReads(row, b, c, rules);
    ghost var holds := RuleHolds(row.id.rule, b, c, rules);
    RowCompares(row);
    ComparedRowStatus(row, ctx, x, y, holds);
  }

  lemma SurfaceRowHolds(row: Constraint, ctx: Context, b: CodeState, c: CodeState, rules: Rules)
    requires IsRun(ctx, b, c, rules) && IsRow(row) && IsUnchangedApiTemplate(row)
    ensures StatusOf(row, ctx) == Decided(RuleHolds(row.id.rule, b, c, rules))
  {
    SurfaceRow(row, ctx);
    SameSurfaces(b, c, rules);
  }

  lemma EffectRowHolds(row: Constraint, ctx: Context, b: CodeState, c: CodeState, rules: Rules)
    requires IsRun(ctx, b, c, rules) && IsRow(row)
    requires row.id.rule == RefactorEffects || row.id.rule == TestUpdateEffects
    ensures StatusOf(row, ctx) == Decided(RuleHolds(row.id.rule, b, c, rules))
  {
    RecordRow(row, ctx);
    NoEffectChanges(b.effects, c.effects);
  }

  lemma NewEffectRowHolds(row: Constraint, ctx: Context, b: CodeState, c: CodeState, rules: Rules)
    requires IsRun(ctx, b, c, rules) && IsRow(row) && IsNewEffectsTemplate(row)
    ensures StatusOf(row, ctx) == Decided(RuleHolds(row.id.rule, b, c, rules))
  {
    AddedRow(row, ctx);
    NewEffectsKept(b, c, rules);
  }

  lemma RemovedRowHolds(row: Constraint, ctx: Context, b: CodeState, c: CodeState, rules: Rules)
    requires IsRun(ctx, b, c, rules) && IsRow(row) && IsRemovedApiTemplate(row)
    ensures StatusOf(row, ctx) == Decided(RuleHolds(row.id.rule, b, c, rules))
  {
    RemovedRow(row, ctx);
    LostSymbolsKept(b, c, rules);
  }

  /** Every row is satisfied when its rule holds of the two states, and violated otherwise. */
  lemma RowHolds(row: Constraint, ctx: Context, b: CodeState, c: CodeState, rules: Rules)
    requires IsRun(ctx, b, c, rules) && IsRow(row)
    ensures StatusOf(row, ctx) == Decided(RuleHolds(row.id.rule, b, c, rules))
  {
    if IsUnchangedApiTemplate(row) {
      SurfaceRowHolds(row, ctx, b, c, rules);
    } else if IsNewEffectsTemplate(row) {
      NewEffectRowHolds(row, ctx, b, c, rules);
    } else if IsRemovedApiTemplate(row) {
      RemovedRowHolds(row, ctx, b, c, rules);
    } else if row.operator.Equals? {
      EffectRowHolds(row, ctx, b, c, rules);
    } else {
      ComparedRowHolds(row, ctx, b, c, rules);
    }
  }

  // ---- the contract of a kind ----

  /** The rules a kind is held to. */
  function RulesOf(kind: ChangeKind): seq<TemplateId> {
    match kind
    case Refactor => [RefactorApi, RefactorTypes, RefactorEffects, RefactorTests]
    case Bugfix => [BugfixApi, BugfixEffects]
    case Feature => [FeatureRemovedApi, FeatureEffects]
    case TestUpdate => [TestUpdateApi, TestUpdateEffects, TestUpdateImports]
    case Generic => []
  }

  lemma TableRules(kind: ChangeKind)
    ensures |Templates(kind)| == |RulesOf(kind)|
    ensures forall i | 0 <= i < |Templates(kind)| :: Templates(kind)[i].id == Template(RulesOf(kind)[i])
  {
  }

  lemma BreaksSomeRule(kind: ChangeKind, b: CodeState, c: CodeState, rules: Rules)
    ensures Breaks(kind, b, c, rules)
       <==> exists i :: 0 <= i < |RulesOf(kind)| && !RuleHolds(RulesOf(kind)[i], b, c, rules)
  {
    var ids := RulesOf(kind);
    assert |ids| <= 4;
    assert Breaks(kind, b, c, rules) <==>
      || (|ids| > 0 && !RuleHolds(ids[0], b, c, rules)) || (|ids| > 1 && !RuleHolds(ids[1], b, c, rules))
      || (|ids| > 2 && !RuleHolds(ids[2], b, c, rules)) || (|ids| > 3 && !RuleHolds(ids[3], b, c, rules));
  }

  // ---- the verdict ----

  /** Hard results that are decided leave the rest of a list alone, or make the verdict FAIL. */
  lemma DecidedFirst(rows: seq<Result>, rest: seq<Result>)
    requires forall i | 0 <= i < |rows| :: rows[i].constraint.severity.Hard?
    requires forall i | 0 <= i < |rows| :: rows[i].status == Satisfied || rows[i].status == Violated
    ensures VerdictOf(rows + rest)
         == if exists i :: 0 <= i < |rows| && rows[i].status == Violated then Fail else VerdictOf(rest)
  {
    var all := rows + rest;
    forall i | 0 <= i < |rest| ensures all[|rows| + i] == rest[i] {
    }
    if i :| 0 <= i < |rows| && rows[i].status == Violated {
      assert ForcesFail(all[i]);
    } else {
      assert forall i | 0 <= i < |rows| :: !ForcesFail(all[i]) && !ForcesRepair(all[i]);
      if i :| 0 <= i < |rest| && ForcesFail(rest[i]) { assert ForcesFail(all[|rows| + i]); }
      if i :| 0 <= i < |rest| && ForcesRepair(rest[i]) { assert ForcesRepair(all[|rows| + i]); }
    }
  }

  lemma RowsFirst(rows: seq<Constraint>, user: seq<Constraint>, ctx: Context, holds: seq<bool>)
    requires |holds| == |rows| && forall i | 0 <= i < |rows| :: rows[i].severity.Hard?
    requires forall i | 0 <= i < |rows| :: StatusOf(rows[i], ctx) == Decided(holds[i])
    ensures RunVerdict(rows + user, ctx, Untimed(None))
         == if false in holds then Fail else RunVerdict(user, ctx, Untimed(None))
  {
    var first, rest := AllResults(rows, ctx, Untimed(None)), AllResults(user, ctx, Untimed(None));
    VerdictPreserved(rows + user, ctx, Untimed(None));
    VerdictPreserved(user, ctx, Untimed(None));
    assert AllResults(rows + user, ctx, Untimed(None)) == first + rest;
    forall i | 0 <= i < |rows| ensures first[i].status == Decided(holds[i]) && first[i].constraint == rows[i] {
    }
    DecidedFirst(first, rest);
    if i :| 0 <= i < |holds| && holds[i] == false { assert first[i].status == Violated; }
  }

  lemma RulesHold(kind: ChangeKind, b: CodeState, c: CodeState, rules: Rules) returns (holds: seq<bool>)
    ensures |holds| == |RulesOf(kind)|
    ensures forall i | 0 <= i < |holds| :: holds[i] == RuleHolds(RulesOf(kind)[i], b, c, rules)
    ensures false in holds <==> Breaks(kind, b, c, rules)
  {
    var ids := RulesOf(kind);
    BreaksSomeRule(kind, b, c, rules);
    holds := seq(|ids|, i requires 0 <= i < |ids| => RuleHolds(ids[i], b, c, rules));
    if i :| 0 <= i < |ids| && !RuleHolds(ids[i], b, c, rules) { assert holds[i] == false; }
  }

  lemma RowsHold(kind: ChangeKind, ctx: Context, b: CodeState, c: CodeState, rules: Rules, holds: seq<bool>)
    requires IsRun(ctx, b, c, rules) && |holds| == |RulesOf(kind)|
    requires forall i | 0 <= i < |holds| :: holds[i] == RuleHolds(RulesOf(kind)[i], b, c, rules)
    ensures |holds| == |Templates(kind)|
    ensures forall i | 0 <= i < |holds| :: Templates(kind)[i].severity.Hard?
    ensures forall i | 0 <= i < |holds| :: StatusOf(Templates(kind)[i], ctx) == Decided(holds[i])
  {
    var rows := Templates(kind);
    TableRows(kind);
    TableRules(kind);
    forall i | 0 <= i < |rows| ensures StatusOf(rows[i], ctx) == Decided(holds[i]) {
      RowHolds(rows[i], ctx, b, c, rules);
    }
  }

  lemma KindOnRun(kind: ChangeKind, user: seq<Constraint>, ctx: Context, b: CodeState, c: CodeState, rules: Rules)
    requires IsRun(ctx, b, c, rules)
    ensures RunVerdict(Templates(kind) + user, ctx, Untimed(None))
         == if Breaks(kind, b, c, rules) then Fail else RunVerdict(user, ctx, Untimed(None))
  {
    var holds := RulesHold(kind, b, c, rules);
    RowsHold(kind, ctx, b, c, rules, holds);
    RowsFirst(Templates(kind), user, ctx, holds);
  }

  lemma EmptyRun(ctx: Context)
    ensures RunVerdict([], ctx, Untimed(None)) == Pass
  {
  }

  /** A full run of a compiled target on two states, under any overlay. */
  function RunOf(svp: TargetSvp, b: CodeState, c: CodeState, o: Overlay): Context
    requires Compiles(svp)
  {
    ContextOf(Compiled(svp), OverlayDelta(ComputeDelta(b, c), o), b, c)
  }

  lemma RunOfIsRun(svp: TargetSvp, b: CodeState, c: CodeState, o: Overlay)
    requires Compiles(svp)
    ensures IsRun(RunOf(svp, b, c, o), b, c, Rules(svp.apiAllow, svp.effectAllow))
  {
  }

  /**
    The whole meaning of a compiled target: the run fails when the two states break the contract of
    the kind of change, and otherwise has the verdict of the user's own constraints.
   */
  lemma KindContract(svp: TargetSvp, b: CodeState, c: CodeState, o: Overlay)
    requires Compiles(svp)
    ensures RunVerdict(Compiled(svp).constraints, RunOf(svp, b, c, o), Untimed(None))
         == if Breaks(svp.primaryKind, b, c, Rules(svp.apiAllow, svp.effectAllow)) then Fail
            else RunVerdict(CompileAll(svp.constraints), RunOf(svp, b, c, o), Untimed(None))
  {
    var ctx := RunOf(svp, b, c, o);
    RunOfIsRun(svp, b, c, o);
    KindOnRun(svp.primaryKind, CompileAll(svp.constraints), ctx, b, c, Rules(svp.apiAllow, svp.effectAllow));
  }

  /** Without user constraints the verdict is PASS or FAIL by the contract alone. */
  lemma KindAlone(svp: TargetSvp, b: CodeState, c: CodeState, o: Overlay)
    requires Compiles(svp) && svp.constraints == []
    ensures RunVerdict(Compiled(svp).constraints, RunOf(svp, b, c, o), Untimed(None))
         == if Breaks(svp.primaryKind, b, c, Rules(svp.apiAllow, svp.effectAllow)) then Fail else Pass
  {
    KindContract(svp, b, c, o);
    EmptyRun(RunOf(svp, b, c, o));
    assert CompileAll(svp.constraints) == [];
  }

  // ---- which rules compile ----

  /** An API rule compiles when it names some symbol and not the empty name: it states no empty text. */
  lemma ApiRuleExactly(r: ApiAllowRule)
    ensures ApiRuleFits(r) <==> !NamesSymbol(r, "") && exists fqn :: NamesSymbol(r, fqn)
  {
    if r.fqn.Some? { assert NamesSymbol(r, r.fqn.value); }
    if r.fqnPrefix.Some? {
      assert r.fqnPrefix.value + "" == r.fqnPrefix.value;
      assert NamesSymbol(r, r.fqnPrefix.value);
      if r.fqnPrefix.value == "" { assert "" == r.fqnPrefix.value + ""; }
    }
  }

  /** An effect rule compiles when it does not name every effect. */
  lemma EffectRuleExactly(r: EffectAllowRule)
    ensures EffectRuleFits(r) <==> exists e :: !NamesEffect(r, e)
  {
    var other := if r.effectClass == Some(Net) then Io else Net;
    var e := EffectEntry(if r.fqn == Some("a") then "b" else "a", other, None, Null);
    if EffectRuleFits(r) { assert !NamesEffect(r, e); }
  }
}
