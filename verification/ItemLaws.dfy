/**
  What the operators decide, stated item by item on the values they read, and what that makes of the
  constraints that use them and of the verdict of a run.
 */
module ItemLaws {
  import opened Values
  import opened Vocabulary
  import opened States
  import opened Paths
  import opened Operators
  import opened Evaluator
  import opened ShortCircuit
  import opened CompileSoundness
  import opened Doctor
  import opened VacuousPass

  // ---- items ----

  /** The items of a list, or of a mapping as pairs of key and value. */
  function ItemsIn(v: Value): Option<seq<Value>> {
    match v
    case Seq(items) => Some(items)
    case Map(es) => Some(seq(|es|, i requires 0 <= i < |es| => Seq([Str(es[i].key), es[i].value])))
    case _ => None
  }

  /** Equal as the evaluator compares: numbers with booleans, and mappings with their lists of pairs. */
  predicate Alike(x: Value, y: Value) { Canonical(x) == Canonical(y) }

  predicate Has(xs: seq<Value>, y: Value) { exists i :: 0 <= i < |xs| && Alike(xs[i], y) }

  /** Every item of one list has its like in the other. */
  predicate AllIn(xs: seq<Value>, ys: seq<Value>) { forall i | 0 <= i < |xs| :: Has(ys, xs[i]) }

  /** The same items in the same order. */
  predicate SameList(xs: seq<Value>, ys: seq<Value>) {
    |xs| == |ys| && forall i | 0 <= i < |xs| :: Alike(xs[i], ys[i])
  }

  lemma CanonicalItems(v: Value)
    ensures ItemsIn(v).Some? <==> Canonical(v).CTuple?
    ensures ItemsIn(v).Some? ==>
              |Canonical(v).parts| == |ItemsIn(v).value|
              && forall i | 0 <= i < |ItemsIn(v).value| :: Canonical(v).parts[i] == Canonical(ItemsIn(v).value[i])
  {
    if v.Map? {
      forall i | 0 <= i < |v.entries|
        ensures Canonical(v).parts[i] == Canonical(ItemsIn(v).value[i])
      {
        var pair := Seq([Str(v.entries[i].key), v.entries[i].value]);
        assert Canonical(pair).parts == [CStr(v.entries[i].key), Canonical(v.entries[i].value)];
      }
    }
  }

  lemma ItemSet(v: Value)
    ensures CollectionItems(v).Some? <==> ItemsIn(v).Some?
    ensures ItemsIn(v).Some? ==> forall x :: x in CollectionItems(v).value <==>
              exists i :: 0 <= i < |ItemsIn(v).value| && Canonical(ItemsIn(v).value[i]) == x
  {
    CanonicalItems(v);
    if ItemsIn(v).Some? {
      var items, parts := ItemsIn(v).value, Canonical(v).parts;
      forall x ensures x in parts <==> exists i :: 0 <= i < |items| && Canonical(items[i]) == x {
        if i :| 0 <= i < |items| && Canonical(items[i]) == x { assert parts[i] == x; }
      }
    }
  }

  // ---- the baseline operators ----

  lemma ItemsWithin(x: Value, y: Value)
    requires ItemsIn(x).Some? && ItemsIn(y).Some?
    ensures CollectionItems(x).value <= CollectionItems(y).value <==> AllIn(ItemsIn(x).value, ItemsIn(y).value)
  {
    var xs, ys := ItemsIn(x).value, ItemsIn(y).value;
    ItemSet(x);
    ItemSet(y);
    if CollectionItems(x).value <= CollectionItems(y).value {
      forall i | 0 <= i < |xs| ensures Has(ys, xs[i]) {
        assert Canonical(xs[i]) in CollectionItems(x).value;
      }
    }
    if AllIn(xs, ys) {
      forall c | c in CollectionItems(x).value ensures c in CollectionItems(y).value {
        var i :| 0 <= i < |xs| && Canonical(xs[i]) == c;
        assert Has(ys, xs[i]);
      }
    }
  }

  lemma EqualLists(x: Value, y: Value)
    requires ItemsIn(x).Some? && ItemsIn(y).Some?
    ensures Canonical(x) == Canonical(y) <==> SameList(ItemsIn(x).value, ItemsIn(y).value)
  {
    CanonicalItems(x);
    CanonicalItems(y);
    if SameList(ItemsIn(x).value, ItemsIn(y).value) {
      assert Canonical(x).parts == Canonical(y).parts;
    }
  }

  /** What a comparison with the baseline asks of the two lists of items. */
  predicate BaselineHolds(op: Operator, before: seq<Value>, after: seq<Value>) {
    match op
    case NoNewItems => AllIn(after, before)
    case NoRemovedItems => AllIn(before, after)
    case SupersetOfBaseline => AllIn(before, after)
    case EqualsBaseline => SameList(before, after)
    case Unchanged => SameList(before, after)
    case _ => !SameList(before, after)
  }

  lemma ItemComparison(op: Operator, b: Value, c: Value)
    requires op.NoNewItems? || op.NoRemovedItems? || op.SupersetOfBaseline?
    requires ItemsIn(b).Some? && ItemsIn(c).Some?
    ensures EvalBaseline(op, b, c) == Decide(BaselineHolds(op, ItemsIn(b).value, ItemsIn(c).value))
  {
    ItemSet(b);
    ItemSet(c);
    ItemsWithin(b, c);
    ItemsWithin(c, b);
  }

  lemma BaselineMeaning(op: Operator, b: Value, c: Value)
    requires IsBaselineOperator(op) && ItemsIn(b).Some? && ItemsIn(c).Some?
    ensures EvalBaseline(op, b, c) == Decide(BaselineHolds(op, ItemsIn(b).value, ItemsIn(c).value))
  {
    if op.NoNewItems? || op.NoRemovedItems? || op.SupersetOfBaseline? {
      ItemComparison(op, b, c);
    } else {
      EqualLists(b, c);
    }
  }

  // ---- the collection operators ----

  /** An expected item matches an observed one. */
  predicate Matches(expected: Value, observed: Value) { MatchItem(Canonical(expected), Canonical(observed)) }

  predicate MatchesSome(expected: Value, observed: seq<Value>) {
    exists i :: 0 <= i < |observed| && Matches(expected, observed[i])
  }

  predicate MatchedBySome(observed: Value, expected: seq<Value>) {
    exists i :: 0 <= i < |expected| && Matches(expected[i], observed)
  }

  /** What a collection operator asks of the observed and the expected items. */
  predicate CollectionHolds(op: Operator, observed: seq<Value>, expected: seq<Value>) {
    match op
    case IncludesAny => exists i :: 0 <= i < |expected| && MatchesSome(expected[i], observed)
    case ExcludesAll => forall i | 0 <= i < |expected| :: !MatchesSome(expected[i], observed)
    case SubsetOf => forall i | 0 <= i < |observed| :: MatchedBySome(observed[i], expected)
    case _ => forall i | 0 <= i < |expected| :: MatchesSome(expected[i], observed)
  }

  lemma SomeMatch(e: Value, o: Value)
    requires ItemsIn(o).Some?
    ensures MatchesSome(e, ItemsIn(o).value) <==> exists x | x in CollectionItems(o).value :: MatchItem(Canonical(e), x)
    ensures MatchedBySome(e, ItemsIn(o).value)
       <==> exists x | x in CollectionItems(o).value :: MatchItem(x, Canonical(e))
  {
    ItemSet(o);
    var os := ItemsIn(o).value;
    forall i | 0 <= i < |os| ensures Canonical(os[i]) in CollectionItems(o).value { }
  }

  lemma CoversMeaning(o: Value, e: Value)
    requires ItemsIn(o).Some? && ItemsIn(e).Some?
    ensures Covers(CollectionItems(o).value, CollectionItems(e).value)
       <==> CollectionHolds(IncludesAll, ItemsIn(o).value, ItemsIn(e).value)
  {
    var es := ItemsIn(e).value;
    ItemSet(e);
    if Covers(CollectionItems(o).value, CollectionItems(e).value) {
      forall i | 0 <= i < |es| ensures MatchesSome(es[i], ItemsIn(o).value) {
        assert Canonical(es[i]) in CollectionItems(e).value;
        SomeMatch(es[i], o);
      }
    }
    if CollectionHolds(IncludesAll, ItemsIn(o).value, es) {
      forall x | x in CollectionItems(e).value ensures exists y | y in CollectionItems(o).value :: MatchItem(x, y) {
        var i :| 0 <= i < |es| && Canonical(es[i]) == x;
        SomeMatch(es[i], o);
      }
    }
  }

  lemma MeetsFound(o: Value, e: Value)
    requires ItemsIn(o).Some? && ItemsIn(e).Some? && Meets(CollectionItems(o).value, CollectionItems(e).value)
    ensures CollectionHolds(IncludesAny, ItemsIn(o).value, ItemsIn(e).value)
  {
    var es := ItemsIn(e).value;
    ItemSet(e);
    var x :| x in CollectionItems(e).value && exists y | y in CollectionItems(o).value :: MatchItem(x, y);
    var i :| 0 <= i < |es| && Canonical(es[i]) == x;
    SomeMatch(es[i], o);
  }

  lemma FoundMeets(o: Value, e: Value)
    requires ItemsIn(o).Some? && ItemsIn(e).Some? && CollectionHolds(IncludesAny, ItemsIn(o).value, ItemsIn(e).value)
    ensures Meets(CollectionItems(o).value, CollectionItems(e).value)
  {
    var es := ItemsIn(e).value;
    ItemSet(e);
    var i :| 0 <= i < |es| && MatchesSome(es[i], ItemsIn(o).value);
    SomeMatch(es[i], o);
    assert Canonical(es[i]) in CollectionItems(e).value;
  }

  lemma MeetsMeaning(o: Value, e: Value)
    requires ItemsIn(o).Some? && ItemsIn(e).Some?
    ensures Meets(CollectionItems(o).value, CollectionItems(e).value)
       <==> CollectionHolds(IncludesAny, ItemsIn(o).value, ItemsIn(e).value)
  {
    if Meets(CollectionItems(o).value, CollectionItems(e).value) { MeetsFound(o, e); }
    if CollectionHolds(IncludesAny, ItemsIn(o).value, ItemsIn(e).value) { FoundMeets(o, e); }
  }

  lemma CoveredByMeaning(o: Value, e: Value)
    requires ItemsIn(o).Some? && ItemsIn(e).Some?
    ensures CoveredBy(CollectionItems(o).value, CollectionItems(e).value)
       <==> CollectionHolds(SubsetOf, ItemsIn(o).value, ItemsIn(e).value)
  {
    var os := ItemsIn(o).value;
    ItemSet(o);
    if CoveredBy(CollectionItems(o).value, CollectionItems(e).value) {
      forall i | 0 <= i < |os| ensures MatchedBySome(os[i], ItemsIn(e).value) {
        assert Canonical(os[i]) in CollectionItems(o).value;
        SomeMatch(os[i], e);
      }
    }
    if CollectionHolds(SubsetOf, os, ItemsIn(e).value) {
      forall y | y in CollectionItems(o).value ensures exists x | x in CollectionItems(e).value :: MatchItem(x, y) {
        var i :| 0 <= i < |os| && Canonical(os[i]) == y;
        SomeMatch(os[i], e);
      }
    }
  }

  lemma CollectionMeaning(op: Operator, o: Value, e: Value, tolerance: Option<real>)
    requires IsExpectedCollectionOperator(op) && ItemsIn(o).Some? && ItemsIn(e).Some?
    ensures EvalPure(op, o, e, tolerance) == Decide(CollectionHolds(op, ItemsIn(o).value, ItemsIn(e).value))
  {
    ItemSet(o);
    ItemSet(e);
    CoversMeaning(o, e);
    MeetsMeaning(o, e);
    CoveredByMeaning(o, e);
  }

  // ---- matching records ----

  predicate DistinctKeys(es: seq<Entry>) { forall i, j | 0 <= i < j < |es| :: es[i].key != es[j].key }

  /** What a record says under a key; `from` may be written `from_`. */
  function ReadKey(es: seq<Entry>, key: string): Option<Value> {
    if key == "from" && LookupKey(es, key).None? then LookupKey(es, "from_") else LookupKey(es, key)
  }

  function Pairs(es: seq<Entry>): seq<Canon> {
    seq(|es|, i requires 0 <= i < |es| => CTuple([CStr(es[i].key), Canonical(es[i].value)]))
  }

  lemma PairsArePairs(es: seq<Entry>)
    ensures forall p | p in Pairs(es) :: p.CTuple? && |p.parts| == 2
    ensures Canonical(Map(es)) == CTuple(Pairs(es))
    ensures es != [] ==> LooksLikePairs(Canonical(Map(es)))
  {
  }

  lemma {:induction false} LookupAppend(es: seq<Entry>, e: Entry, key: string)
    ensures LookupKey(es + [e], key)
         == if LookupKey(es, key).Some? then LookupKey(es, key) else if e.key == key then Some(e.value) else None
  {
    if es == [] {
      assert es + [e] == [e];
    } else {
      assert (es + [e])[1..] == es[1..] + [e];
      LookupAppend(es[1..], e, key);
    }
  }

  lemma {:induction false} LookupFinds(es: seq<Entry>, key: string)
    ensures LookupKey(es, key).Some? <==> exists i :: 0 <= i < |es| && es[i].key == key
  {
    if es != [] {
      LookupFinds(es[1..], key);
      if i :| 0 <= i < |es| && es[i].key == key && i > 0 { assert es[1..][i - 1].key == key; }
      if i :| 0 <= i < |es[1..]| && es[1..][i].key == key { assert es[i + 1].key == key; }
    }
  }

  lemma {:induction false} DictMembers(es: seq<Entry>, key: string)
    requires DistinctKeys(es)
    ensures (forall p | p in Pairs(es) :: p.CTuple? && |p.parts| == 2)
    ensures var m := DictOf(Pairs(es));
      if LookupKey(es, key).Some? then CStr(key) in m && m[CStr(key)] == Canonical(LookupKey(es, key).value)
      else CStr(key) !in m
  {
    PairsArePairs(es);
    if es != [] {
      var init, last := es[..|es| - 1], es[|es| - 1];
      assert es == init + [last];
      DictMembers(init, key);
      LookupAppend(init, last, key);
      LookupFinds(init, key);
      assert Pairs(es)[..|es| - 1] == Pairs(init);
    }
  }

  lemma {:induction false} DictKeys(es: seq<Entry>, k: Canon)
    requires forall p | p in Pairs(es) :: p.CTuple? && |p.parts| == 2
    ensures k in DictOf(Pairs(es)) ==> k.CStr?
  {
    if es != [] {
      PairsArePairs(es[..|es| - 1]);
      DictKeys(es[..|es| - 1], k);
      assert Pairs(es)[..|es| - 1] == Pairs(es[..|es| - 1]);
    }
  }

  lemma RecordView(es: seq<Entry>, key: string)
    requires DistinctKeys(es) && es != []
    ensures View(Canonical(Map(es))).Some?
    ensures var m := View(Canonical(Map(es))).value;
      if ReadKey(es, key).Some? then CStr(key) in m && m[CStr(key)] == Canonical(ReadKey(es, key).value)
      else CStr(key) !in m
    ensures forall k | k in View(Canonical(Map(es))).value :: k.CStr?
  {
    PairsArePairs(es);
    DictMembers(es, key);
    DictMembers(es, "from");
    DictMembers(es, "from_");
    forall k ensures k in DictOf(Pairs(es)) ==> k.CStr? { DictKeys(es, k); }
  }

  /** An expected record matches when the observed one says the same under each key it uses. */
  lemma RecordsMatch(expected: seq<Entry>, observed: seq<Entry>)
    requires DistinctKeys(expected) && expected != [] && DistinctKeys(observed) && observed != []
    ensures Matches(Map(expected), Map(observed)) <==> forall key | ReadKey(expected, key).Some? ::
              ReadKey(observed, key).Some? && Alike(ReadKey(expected, key).value, ReadKey(observed, key).value)
  {
    var e, o := View(Canonical(Map(expected))), View(Canonical(Map(observed)));
    RecordView(expected, "");
    RecordView(observed, "");
    if Matches(Map(expected), Map(observed)) {
      forall key | ReadKey(expected, key).Some?
        ensures ReadKey(observed, key).Some? && Alike(ReadKey(expected, key).value, ReadKey(observed, key).value)
      {
        RecordView(expected, key);
        RecordView(observed, key);
        assert CStr(key) in e.value;
      }
    } else {
      var k :| k in e.value && !(k in o.value && o.value[k] == e.value[k]);
      RecordView(expected, k.s);
      RecordView(observed, k.s);
      assert ReadKey(expected, k.s).Some?;
    }
  }

  /** A text expects a text: it matches its like and no record. */
  lemma TextsMatch(s: string, observed: Value)
    ensures Matches(Str(s), observed) <==> observed == Str(s)
  {
  }

  /** A record given as a list of pairs reads as the mapping does. */
  lemma {:induction false} PairsReadAlike(es: seq<Entry>, key: string)
    ensures FieldOf(Seq(ItemsIn(Map(es)).value), key) == FieldOf(Map(es), key)
  {
    var pairs := ItemsIn(Map(es)).value;
    if es != [] {
      assert pairs[0].items == [Str(es[0].key), es[0].value];
      assert pairs[1..] == ItemsIn(Map(es[1..])).value;
      PairsReadAlike(es[1..], key);
    }
  }

  // ---- constraints that compare the two states ----

  /** A user constraint that compares a state path of the candidate with the baseline. */
  predicate ComparesStates(c: Constraint) {
    c.kind.DeltaKind? && IsBaselineOperator(c.operator) && c.source.FromUser?
  }

  /** The items at a state path; a missing coverage has none. */
  function StateItems(s: CodeState, c: Constraint): Option<seq<Value>>
    requires c.target.Dotted?
  {
    match StateValue(s, c.target.head.tag)
    case Some(Seq(items)) => Some(items)
    case _ => None
  }

  lemma ComparedPath(c: Constraint)
    requires WellTyped(c) && ComparesStates(c) && c.target.Dotted?
    ensures c.target.rest == [] && IsStateRoot(c.target.head.tag) && !IsDeltaRoot(c.target.head.tag)
    ensures !IsOpenTag(c.target.head.tag)
  {
  }

  lemma ComparedResult(c: Constraint, ctx: Context, mode: Mode)
    requires WellTyped(c) && ComparesStates(c) && IsEvaluated(c, mode)
    ensures var t := c.target.head.tag;
      && StateValue(ctx.baseline, t).Some? && StateValue(ctx.candidate, t).Some?
      && ResultOf(c, ctx, mode) == FromOutcome(
           c, EvalBaseline(c.operator, StateValue(ctx.baseline, t).value, StateValue(ctx.candidate, t).value))
  {
    ComparedPath(c);
    StateShape(ctx.baseline, c.target.head.tag);
    StateShape(ctx.candidate, c.target.head.tag);
    StatePathResolves(ctx.baseline, c.target);
    StatePathResolves(ctx.candidate, c.target);
  }

  /** Such a constraint is decided by the items of the two values, whatever its operator is. */
  lemma ComparedExactly(c: Constraint, ctx: Context, mode: Mode)
    requires WellTyped(c) && ComparesStates(c) && IsEvaluated(c, mode)
    requires StateItems(ctx.baseline, c).Some? && StateItems(ctx.candidate, c).Some?
    ensures ResultOf(c, ctx, mode).status
         == if BaselineHolds(c.operator, StateItems(ctx.baseline, c).value, StateItems(ctx.candidate, c).value)
            then Satisfied else Violated
  {
    ComparedResult(c, ctx, mode);
    BaselineMeaning(c.operator, StateValue(ctx.baseline, c.target.head.tag).value,
                    StateValue(ctx.candidate, c.target.head.tag).value);
  }

  /** A constraint of the same target with another operator. */
  function With(c: Constraint, op: Operator): Constraint { c.(operator := op) }

  /** The run with the two states exchanged. */
  function Exchanged(ctx: Context): Context { ctx.(baseline := ctx.candidate, candidate := ctx.baseline) }

  predicate ListsItems(c: Constraint, ctx: Context) {
    c.target.Dotted? && StateItems(ctx.baseline, c).Some? && StateItems(ctx.candidate, c).Some?
  }

  lemma StateItemsMissing(s: CodeState, c: Constraint)
    requires WellTyped(c) && ComparesStates(c) && c.target.Dotted? && StateItems(s, c).None?
    ensures StateValue(s, c.target.head.tag) == Some(Null)
  {
    ComparedPath(c);
    StateShape(s, c.target.head.tag);
  }

  /** Some item of the second list has no like in the first. */
  predicate HasNew(before: seq<Value>, after: seq<Value>) { exists i :: 0 <= i < |after| && !Has(before, after[i]) }

  lemma NewItemsStatus(c: Constraint, ctx: Context, mode: Mode)
    requires WellTyped(c) && ComparesStates(c) && IsEvaluated(c, mode) && c.operator.NoNewItems?
    ensures ResultOf(c, ctx, mode).status
         == if !ListsItems(c, ctx) then Unknown
            else if AllIn(StateItems(ctx.candidate, c).value, StateItems(ctx.baseline, c).value) then Satisfied
            else Violated
  {
    if ListsItems(c, ctx) {
      ComparedExactly(c, ctx, mode);
    } else {
      ComparedResult(c, ctx, mode);
      if StateItems(ctx.baseline, c).None? { StateItemsMissing(ctx.baseline, c); }
      if StateItems(ctx.candidate, c).None? { StateItemsMissing(ctx.candidate, c); }
    }
  }

  /**
    `no_new_items` is violated exactly when some item of the candidate has no like in the baseline,
    and unknown exactly when one of the two lists is missing.
   */
  lemma NewItemsExactly(c: Constraint, ctx: Context, mode: Mode)
    requires WellTyped(c) && ComparesStates(c) && IsEvaluated(c, mode) && c.operator.NoNewItems?
    ensures ResultOf(c, ctx, mode).status == Violated
       <==> ListsItems(c, ctx) && HasNew(StateItems(ctx.baseline, c).value, StateItems(ctx.candidate, c).value)
    ensures ResultOf(c, ctx, mode).status == Unknown <==> !ListsItems(c, ctx)
  {
    NewItemsStatus(c, ctx, mode);
  }

  lemma MirrorFits(c: Constraint, op: Operator)
    requires WellTyped(c) && ComparesStates(c) && IsBaselineOperator(op) && c.target.Dotted? && c.operator.NoNewItems?
    ensures WellTyped(With(c, op)) && ComparesStates(With(c, op))
  {
  }

  /** `no_removed_items` and `superset_of_baseline` are `no_new_items` with the two states exchanged. */
  lemma RemovedItemsMirror(c: Constraint, op: Operator, ctx: Context, mode: Mode)
    requires WellTyped(c) && ComparesStates(c) && IsEvaluated(c, mode) && c.operator.NoNewItems?
    requires op.NoRemovedItems? || op.SupersetOfBaseline?
    ensures ResultOf(With(c, op), ctx, mode).status == ResultOf(c, Exchanged(ctx), mode).status
  {
    MirrorFits(c, op);
    ComparedResult(c, Exchanged(ctx), mode);
    ComparedResult(With(c, op), ctx, mode);
  }

  /** Together they hold exactly when each item of either state has its like in the other. */
  lemma SameItemsExactly(c: Constraint, ctx: Context, mode: Mode)
    requires WellTyped(c) && ComparesStates(c) && IsEvaluated(c, mode) && c.operator.NoNewItems?
    ensures ResultOf(c, ctx, mode).status == Satisfied
            && ResultOf(With(c, NoRemovedItems), ctx, mode).status == Satisfied
       <==> ListsItems(c, ctx) && forall x ::
              Has(StateItems(ctx.baseline, c).value, x) <==> Has(StateItems(ctx.candidate, c).value, x)
  {
    NewItemsStatus(c, ctx, mode);
    NewItemsStatus(c, Exchanged(ctx), mode);
    RemovedItemsMirror(c, NoRemovedItems, ctx, mode);
    if ListsItems(c, ctx) {
      SameItems(StateItems(ctx.baseline, c).value, StateItems(ctx.candidate, c).value);
    }
  }

  lemma SameItems(xs: seq<Value>, ys: seq<Value>)
    ensures AllIn(xs, ys) && AllIn(ys, xs) <==> forall x :: Has(xs, x) <==> Has(ys, x)
  {
    if AllIn(xs, ys) && AllIn(ys, xs) {
      forall x ensures Has(xs, x) <==> Has(ys, x) {
        if Has(xs, x) { OneWay(xs, ys, x); }
        if Has(ys, x) { OneWay(ys, xs, x); }
      }
    }
    if forall x :: Has(xs, x) <==> Has(ys, x) {
      forall i | 0 <= i < |xs| ensures Has(ys, xs[i]) { assert Has(xs, xs[i]); }
      forall i | 0 <= i < |ys| ensures Has(xs, ys[i]) { assert Has(ys, ys[i]); }
    }
  }

  lemma OneWay(xs: seq<Value>, ys: seq<Value>, x: Value)
    requires AllIn(xs, ys) && Has(xs, x)
    ensures Has(ys, x)
  {
    var i :| 0 <= i < |xs| && Alike(xs[i], x);
    var j :| 0 <= j < |ys| && Alike(ys[j], xs[i]);
    assert Alike(ys[j], x);
  }

  // ---- constraints that expect a list ----

  /** A user constraint that expects a list of items at a closed path. */
  predicate ExpectsItems(c: Constraint) {
    IsExpectedCollectionOperator(c.operator) && c.source.FromUser? && c.target.Dotted? && !IsOpenTag(c.target.head.tag)
    && !c.kind.RepairKind?
  }

  /** The items it observes: at a state path of the candidate, or at a path of the delta. */
  function Observed(c: Constraint, ctx: Context): Option<seq<Value>>
    requires c.target.Dotted?
  {
    if c.kind.StateKind? then StateItems(ctx.candidate, c)
    else match DeltaValue(ctx.delta, ShapeOf(c.target))
      case Some(Seq(items)) => Some(items)
      case _ => None
  }

  lemma ObservedState(c: Constraint, ctx: Context, mode: Mode)
    requires WellTyped(c) && ExpectsItems(c) && IsEvaluated(c, mode) && c.kind.StateKind? && Observed(c, ctx).Some?
    ensures ResultOf(c, ctx, mode)
         == FromOutcome(c, EvalPure(c.operator, Seq(Observed(c, ctx).value), c.expected, c.tolerance))
  {
    StatePathResolves(ctx.candidate, c.target);
  }

  lemma ObservedDelta(c: Constraint, ctx: Context, mode: Mode)
    requires WellTyped(c) && ExpectsItems(c) && IsEvaluated(c, mode) && c.kind.DeltaKind? && Observed(c, ctx).Some?
    ensures ResultOf(c, ctx, mode)
         == FromOutcome(c, EvalPure(c.operator, Seq(Observed(c, ctx).value), c.expected, c.tolerance))
  {
    DeltaPathResolves(ctx.delta, c.target);
  }

  lemma ObservedResult(c: Constraint, ctx: Context, mode: Mode)
    requires WellTyped(c) && ExpectsItems(c) && IsEvaluated(c, mode) && Observed(c, ctx).Some?
    ensures ResultOf(c, ctx, mode)
         == FromOutcome(c, EvalPure(c.operator, Seq(Observed(c, ctx).value), c.expected, c.tolerance))
  {
    if c.kind.StateKind? { ObservedState(c, ctx, mode); } else { ObservedDelta(c, ctx, mode); }
  }

  /** Such a constraint is decided by the items it observes and those it expects. */
  lemma ExpectedExactly(c: Constraint, ctx: Context, mode: Mode)
    requires WellTyped(c) && ExpectsItems(c) && IsEvaluated(c, mode) && Observed(c, ctx).Some?
    ensures c.expected.Seq?
    ensures ResultOf(c, ctx, mode).status
         == if CollectionHolds(c.operator, Observed(c, ctx).value, c.expected.items) then Satisfied else Violated
  {
    ObservedResult(c, ctx, mode);
    CollectionMeaning(c.operator, Seq(Observed(c, ctx).value), c.expected, c.tolerance);
  }

  // ---- the verdict ----

  /** The constraint reads lists only: its result is a matter of items. */
  predicate DecidedByItems(c: Constraint, ctx: Context) {
    && WellTyped(c) && IsEvaluated(c, Untimed(None))
    && ((ComparesStates(c) && ListsItems(c, ctx)) || (ExpectsItems(c) && Observed(c, ctx).Some?))
  }

  /** What it asks of the items. */
  predicate ItemsHold(c: Constraint, ctx: Context)
    requires DecidedByItems(c, ctx)
  {
    if ComparesStates(c)
    then BaselineHolds(c.operator, StateItems(ctx.baseline, c).value, StateItems(ctx.candidate, c).value)
    else c.expected.Seq? && CollectionHolds(c.operator, Observed(c, ctx).value, c.expected.items)
  }

  lemma ItemsDecide(c: Constraint, ctx: Context)
    requires DecidedByItems(c, ctx)
    ensures Asks(ResultOf(c, ctx, Untimed(None))) == if ItemsHold(c, ctx) then Pass else BySeverity(c)
    ensures ResultOf(c, ctx, Untimed(None)).status == if ItemsHold(c, ctx) then Satisfied else Violated
  {
    if ComparesStates(c) {
      ComparedExactly(c, ctx, Untimed(None));
    } else {
      ExpectedExactly(c, ctx, Untimed(None));
    }
  }

  function ItemContributions(cs: seq<Constraint>, ctx: Context): seq<VerdictResult>
    requires forall c | c in cs :: DecidedByItems(c, ctx)
  {
    seq(|cs|, i requires 0 <= i < |cs| => if ItemsHold(cs[i], ctx) then Pass else BySeverity(cs[i]))
  }

  /** A run of such constraints ends in the worst severity of those whose items do not hold. */
  lemma ItemVerdictExact(cs: seq<Constraint>, ctx: Context)
    requires forall c | c in cs :: DecidedByItems(c, ctx)
    ensures RunVerdict(cs, ctx, Untimed(None)) == WorstOf(ItemContributions(cs, ctx))
  {
    var vs := ItemContributions(cs, ctx);
    forall i | 0 <= i < |cs| ensures Asks(ResultOf(cs[i], ctx, Untimed(None))) == vs[i] {
      assert cs[i] in cs;
      ItemsDecide(cs[i], ctx);
    }
    VerdictOfRun(cs, ctx, vs);
  }

  /** In any run, whatever else it holds, a hard one whose items do not hold makes the verdict FAIL. */
  lemma BrokenItemsFail(cs: seq<Constraint>, c: Constraint, ctx: Context)
    requires c in cs && c.severity.Hard? && DecidedByItems(c, ctx) && !ItemsHold(c, ctx)
    ensures RunVerdict(cs, ctx, Untimed(None)) == Fail
  {
    ItemsDecide(c, ctx);
    VerdictPreserved(cs, ctx, Untimed(None));
    var i :| 0 <= i < |cs| && cs[i] == c;
    assert ForcesFail(AllResults(cs, ctx, Untimed(None))[i]);
  }
}
