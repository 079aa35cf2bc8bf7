/**
  Laws of whole targets that rest on record matching being a preorder: loosening the literal of a
  collection constraint never worsens a verdict, growing the candidate never breaks what it must
  include, and the two inclusions of one literal pin a list of names exactly.
 */
module TargetLaws {
  import opened Values
  import opened Vocabulary
  import opened States
  import opened Paths
  import opened Operators
  import opened Compiler
  import opened Evaluator
  import opened ShortCircuit
  import opened Reads
  import opened CompileSoundness

  // ---- record matching ----

  /** Matching is a preorder: a record that says less matches whatever a record that says more matches. */
  lemma MatchPreorder(a: Canon, b: Canon, c: Canon)
    ensures MatchItem(a, a)
    ensures MatchItem(a, b) && MatchItem(b, c) ==> MatchItem(a, c)
  {
    if MatchItem(a, b) && MatchItem(b, c) && View(a).Some? && View(b).Some? {
      var va, vb := View(a).value, View(b).value;
      if View(c).Some? {
        var vc := View(c).value;
        forall k | k in va ensures k in vc && vc[k] == va[k] {
          assert k in vb && vb[k] == va[k];
        }
      }
    }
  }

  // ---- looser literals ----

  /** Nothing that the tighter literal lets through is stopped by the looser one. */
  predicate LooserItems(op: Operator, tight: set<Canon>, loose: set<Canon>) {
    match op
    case IncludesAll => Covers(tight, loose)
    case SupersetOf => Covers(tight, loose)
    case IncludesAny => CoveredBy(tight, loose)
    case SubsetOf => CoveredBy(tight, loose)
    case ExcludesAll => CoveredBy(loose, tight)
    case _ => false
  }

  lemma CoversLooser(os: set<Canon>, tight: set<Canon>, loose: set<Canon>)
    requires Covers(tight, loose) && Covers(os, tight)
    ensures Covers(os, loose)
  {
    forall z | z in loose ensures exists o | o in os :: MatchItem(z, o) {
      var y :| y in tight && MatchItem(z, y);
      var o :| o in os && MatchItem(y, o);
      MatchPreorder(z, y, o);
    }
  }

  lemma CoveredByLooser(os: set<Canon>, tight: set<Canon>, loose: set<Canon>)
    requires CoveredBy(tight, loose) && CoveredBy(os, tight)
    ensures CoveredBy(os, loose)
  {
    forall o | o in os ensures exists z | z in loose :: MatchItem(z, o) {
      var y :| y in tight && MatchItem(y, o);
      var z :| z in loose && MatchItem(z, y);
      MatchPreorder(z, y, o);
    }
  }

  lemma MeetsLooser(os: set<Canon>, tight: set<Canon>, loose: set<Canon>)
    requires CoveredBy(tight, loose) && Meets(os, tight)
    ensures Meets(os, loose)
  {
    var y :| y in tight && exists o | o in os :: MatchItem(y, o);
    var o :| o in os && MatchItem(y, o);
    var z :| z in loose && MatchItem(z, y);
    MatchPreorder(z, y, o);
  }

  function Test(op: Operator, os: set<Canon>, es: set<Canon>): bool {
    match op
    case IncludesAny => Meets(os, es)
    case ExcludesAll => !Meets(os, es)
    case SubsetOf => CoveredBy(os, es)
    case _ => Covers(os, es)
  }

  lemma LooserTest(op: Operator, os: set<Canon>, tight: set<Canon>, loose: set<Canon>)
    requires IsExpectedCollectionOperator(op) && LooserItems(op, tight, loose) && Test(op, os, tight)
    ensures Test(op, os, loose)
  {
    match op
    case IncludesAll => CoversLooser(os, tight, loose);
    case SupersetOf => CoversLooser(os, tight, loose);
    case SubsetOf => CoveredByLooser(os, tight, loose);
    case IncludesAny => MeetsLooser(os, tight, loose);
    case ExcludesAll => if Meets(os, loose) { MeetsLooser(os, loose, tight); }
  }

  function ItemsOf(v: Value): set<Canon> {
    if CollectionItems(v).Some? then CollectionItems(v).value else {}
  }

  lemma CollectionTest(op: Operator, observed: Value, expected: Value, tolerance: Option<real>)
    requires IsExpectedCollectionOperator(op)
    ensures EvalPure(op, observed, expected, tolerance)
         == if CollectionItems(observed).Some? && CollectionItems(expected).Some?
            then Decide(Test(op, ItemsOf(observed), ItemsOf(expected))) else Mismatch
  {
  }

  /** The same constraint with a looser list. */
  predicate Loosens(tight: Constraint, loose: Constraint) {
    && loose == tight.(expected := loose.expected)
    && IsExpectedCollectionOperator(tight.operator) && tight.expected.Seq? && loose.expected.Seq?
    && LooserItems(tight.operator, ItemsOf(tight.expected), ItemsOf(loose.expected))
  }

  lemma SeqIsCollection(v: Value)
    requires v.Seq?
    ensures CollectionItems(v).Some?
  {
  }

  /** What a value read by a tight constraint becomes under the loose one: no worse, and otherwise alike. */
  lemma LooserOutcome(tight: Constraint, loose: Constraint, v: Value)
    requires Loosens(tight, loose)
    ensures var t, l := EvalPure(tight.operator, v, tight.expected, tight.tolerance),
                        EvalPure(loose.operator, v, loose.expected, loose.tolerance);
      (t == Mismatch <==> l == Mismatch) && (t == Holds ==> l == Holds)
  {
    SeqIsCollection(tight.expected);
    SeqIsCollection(loose.expected);
    CollectionTest(tight.operator, v, tight.expected, tight.tolerance);
    CollectionTest(loose.operator, v, loose.expected, loose.tolerance);
    var os, ts := ItemsOf(v), ItemsOf(tight.expected);
    if CollectionItems(v).Some? && Test(tight.operator, os, ts) {
      LooserTest(tight.operator, os, ts, ItemsOf(loose.expected));
    }
  }

  /** Two results of which the second is satisfied, or as good as the first. */
  predicate NoWorse(first: Result, second: Result) {
    && (ForcesFail(second) ==> ForcesFail(first))
    && (ForcesRepair(second) ==> ForcesRepair(first) || ForcesFail(first))
    && (first.status.Satisfied? ==> second.status.Satisfied?)
  }

  lemma LooserAt(tight: Constraint, loose: Constraint, root: Node)
    requires Loosens(tight, loose) && tight.target.Dotted?
    ensures EvalPureAt(tight, root).Done? && EvalPureAt(loose, root).Done?
    ensures NoWorse(EvalPureAt(tight, root).result, EvalPureAt(loose, root).result)
  {
    if Resolve(root, tight.target).Some? {
      LooserOutcome(tight, loose, Resolve(root, tight.target).value);
    }
  }

  lemma LooserResult(tight: Constraint, loose: Constraint, ctx: Context, mode: Mode)
    requires Loosens(tight, loose) && tight.source.FromUser?
    ensures NoWorse(ResultOf(tight, ctx, mode), ResultOf(loose, ctx, mode))
  {
    if !IsEvaluated(tight, mode) {
      UnevaluatedAlike(tight, loose, ctx, mode);
    } else if tight.kind.StateKind? {
      StateReads(tight, ctx, mode);
      StateReads(loose, ctx, mode);
      if IsStateRoot(tight.target.head.tag) { LooserAt(tight, loose, NState(ctx.candidate)); }
    } else {
      DeltaReads(tight, ctx, mode);
      DeltaReads(loose, ctx, mode);
      if IsDeltaRoot(tight.target.head.tag) { LooserAt(tight, loose, NDelta(ctx.delta)); }
    }
  }

  /** A constraint that is not evaluated has the same status, error and cause whatever its literal. */
  lemma UnevaluatedAlike(tight: Constraint, loose: Constraint, ctx: Context, mode: Mode)
    requires loose == tight.(expected := loose.expected) && !IsEvaluated(tight, mode)
    ensures ResultOf(loose, ctx, mode) == ResultOf(tight, ctx, mode).(constraint := loose)
  {
  }

  /** What a state constraint reads. */
  lemma StateReads(c: Constraint, ctx: Context, mode: Mode)
    requires c.kind.StateKind? && IsEvaluated(c, mode)
    ensures IsStateRoot(c.target.head.tag) && EvalPureAt(c, NState(ctx.candidate)).Done? ==>
              ResultOf(c, ctx, mode) == EvalPureAt(c, NState(ctx.candidate)).result
    ensures !IsStateRoot(c.target.head.tag) ==> ResultOf(c, ctx, mode) == UnknownResult(c, EPathUnresolved, Authoring)
  {
  }

  /** What a user delta constraint with a pure operator reads. */
  lemma DeltaReads(c: Constraint, ctx: Context, mode: Mode)
    requires c.kind.DeltaKind? && IsEvaluated(c, mode) && c.source.FromUser? && IsPureOperator(c.operator)
    ensures IsDeltaRoot(c.target.head.tag) && EvalPureAt(c, NDelta(ctx.delta)).Done? ==>
              ResultOf(c, ctx, mode) == EvalPureAt(c, NDelta(ctx.delta)).result
    ensures !IsDeltaRoot(c.target.head.tag) ==> ResultOf(c, ctx, mode).status.Unknown?
    ensures !IsDeltaRoot(c.target.head.tag) ==> ResultOf(c, ctx, mode).cause.Authoring?
  {
  }

  /** The same constraint, or a user constraint with a looser list. */
  predicate SameOrLooser(tight: Constraint, loose: Constraint) {
    loose == tight || (Loosens(tight, loose) && tight.source.FromUser?)
  }

  lemma SameOrLooserResult(tight: Constraint, loose: Constraint, ctx: Context, mode: Mode)
    requires SameOrLooser(tight, loose)
    ensures NoWorse(ResultOf(tight, ctx, mode), ResultOf(loose, ctx, mode))
  {
    if loose != tight { LooserResult(tight, loose, ctx, mode); }
  }

  lemma ResultsNoWorse(worse: seq<Result>, better: seq<Result>)
    requires |worse| == |better| && forall i | 0 <= i < |worse| :: NoWorse(worse[i], better[i])
    ensures Rank(VerdictOf(better)) <= Rank(VerdictOf(worse))
  {
    VerdictMonotone(better, worse);
  }

  /**
    Loosening the literals of user constraints never worsens the verdict, on all states, deltas, rules
    and modes, although either run may stop at a lock that the other does not reach.
   */
  lemma LooserTargetNeverWorse(tight: seq<Constraint>, loose: seq<Constraint>, ctx: Context, mode: Mode)
    requires |tight| == |loose| && forall i | 0 <= i < |tight| :: SameOrLooser(tight[i], loose[i])
    ensures Rank(RunVerdict(loose, ctx, mode)) <= Rank(RunVerdict(tight, ctx, mode))
  {
    var worse, better := AllResults(tight, ctx, mode), AllResults(loose, ctx, mode);
    forall i | 0 <= i < |tight| ensures NoWorse(worse[i], better[i]) {
      SameOrLooserResult(tight[i], loose[i], ctx, mode);
    }
    ResultsNoWorse(worse, better);
    VerdictPreserved(tight, ctx, mode);
    VerdictPreserved(loose, ctx, mode);
  }

  // ---- growing observations ----

  predicate IsUpward(op: Operator) { op.IncludesAll? || op.SupersetOf? || op.IncludesAny? }

  lemma MoreObserved(op: Operator, os: set<Canon>, more: set<Canon>, es: set<Canon>)
    requires IsUpward(op) && os <= more && Test(op, os, es)
    ensures Test(op, more, es)
  {
    if op.IncludesAny? {
      var e :| e in es && exists o | o in os :: MatchItem(e, o);
      var o :| o in os && MatchItem(e, o);
      assert o in more;
    } else {
      forall e | e in es ensures exists o | o in more :: MatchItem(e, o) {
        var o :| o in os && MatchItem(e, o);
        assert o in more;
      }
    }
  }

  /** Every list of the state keeps its entries. */
  predicate Grows(s: CodeState, t: CodeState) {
    && (forall x | x in s.apiSurface :: x in t.apiSurface) && (forall x | x in s.effects :: x in t.effects)
    && (forall x | x in s.imports :: x in t.imports) && (forall x | x in s.complexity :: x in t.complexity)
    && (forall x | x in s.testSurface :: x in t.testSurface) && (forall x | x in s.moduleGraph :: x in t.moduleGraph)
  }

  predicate IsGrowingTag(t: Tag) {
    t.ApiSurface? || t.Effects? || t.Imports? || t.Complexity? || t.TestSurface? || t.ModuleGraph?
  }

  lemma DumpedItems<T>(xs: seq<T>, ys: seq<T>, dump: T -> Value)
    requires forall x | x in xs :: x in ys
    ensures ItemsOf(Seq(MapSeq(dump, xs))) <= ItemsOf(Seq(MapSeq(dump, ys)))
  {
    var a, b := Seq(MapSeq(dump, xs)), Seq(MapSeq(dump, ys));
    forall c | c in Canonical(a).parts ensures c in Canonical(b).parts {
      var i :| 0 <= i < |xs| && Canonical(a).parts[i] == c;
      assert xs[i] in xs;
      var j :| 0 <= j < |ys| && ys[j] == xs[i];
      assert Canonical(b).parts[j] == c;
    }
  }

  lemma GrowingItems(s: CodeState, t: CodeState, tag: Tag)
    requires Grows(s, t) && IsGrowingTag(tag)
    ensures StateValue(s, tag).Some? && StateValue(t, tag).Some?
    ensures StateValue(s, tag).value.Seq? && StateValue(t, tag).value.Seq?
    ensures ItemsOf(StateValue(s, tag).value) <= ItemsOf(StateValue(t, tag).value)
  {
    match tag
    case ApiSurface => DumpedItems(s.apiSurface, t.apiSurface, DumpApi);
    case Effects => DumpedItems(s.effects, t.effects, DumpEffect);
    case Imports => DumpedItems(s.imports, t.imports, DumpImport);
    case Complexity => DumpedItems(s.complexity, t.complexity, DumpComplexity);
    case TestSurface => DumpedItems(s.testSurface, t.testSurface, DumpTest);
    case ModuleGraph => DumpedItems(s.moduleGraph, t.moduleGraph, DumpModule);
  }

  /** A user constraint that asks an extracted dimension to include a list, or to keep its baseline's items. */
  predicate AsksInclusion(c: Constraint) {
    && c.target.Dotted? && c.target.rest == [] && IsGrowingTag(c.target.head.tag) && c.source.FromUser?
    && (|| (c.kind.StateKind? && IsUpward(c.operator) && c.expected.Seq?)
        || (c.kind.DeltaKind? && (c.operator.NoRemovedItems? || c.operator.SupersetOfBaseline?)))
  }

  lemma GrowthResult(c: Constraint, x: Context, y: Context, mode: Mode)
    requires AsksInclusion(c) && x.baseline == y.baseline && Grows(x.candidate, y.candidate)
    ensures NoWorse(ResultOf(c, x, mode), ResultOf(c, y, mode))
  {
    if IsEvaluated(c, mode) {
      GrowingItems(x.candidate, y.candidate, c.target.head.tag);
      GrowingItems(x.baseline, x.baseline, c.target.head.tag);
      var b := StateValue(x.baseline, c.target.head.tag).value;
      var v, u := StateValue(x.candidate, c.target.head.tag).value, StateValue(y.candidate, c.target.head.tag).value;
      if c.kind.StateKind? {
        GrowthOutcome(c, v, u);
        IncludingResult(c, x, mode);
        IncludingResult(c, y, mode);
      } else {
        KeepingOutcome(c.operator, b, v, u);
        KeepingResult(c, x, mode);
        KeepingResult(c, y, mode);
      }
    } else {
      UnevaluatedSame(c, x, y, mode);
    }
  }

  lemma IncludingResult(c: Constraint, x: Context, mode: Mode)
    requires AsksInclusion(c) && c.kind.StateKind? && IsEvaluated(c, mode)
    requires StateValue(x.candidate, c.target.head.tag).Some?
    ensures ResultOf(c, x, mode)
         == FromOutcome(c, EvalPure(c.operator, StateValue(x.candidate, c.target.head.tag).value,
                                    c.expected, c.tolerance))
  {
    StatePathResolves(x.candidate, c.target);
  }

  lemma KeepingResult(c: Constraint, x: Context, mode: Mode)
    requires AsksInclusion(c) && c.kind.DeltaKind? && IsEvaluated(c, mode)
    requires StateValue(x.baseline, c.target.head.tag).Some? && StateValue(x.candidate, c.target.head.tag).Some?
    ensures ResultOf(c, x, mode)
         == FromOutcome(c, EvalBaseline(c.operator, StateValue(x.baseline, c.target.head.tag).value,
                                        StateValue(x.candidate, c.target.head.tag).value))
  {
    StatePathResolves(x.baseline, c.target);
    StatePathResolves(x.candidate, c.target);
  }

  lemma UnevaluatedSame(c: Constraint, x: Context, y: Context, mode: Mode)
    requires !IsEvaluated(c, mode)
    ensures ResultOf(c, x, mode) == ResultOf(c, y, mode)
  {
  }

  lemma KeepingOutcome(op: Operator, b: Value, v: Value, u: Value)
    requires (op.NoRemovedItems? || op.SupersetOfBaseline?) && b.Seq? && v.Seq? && u.Seq? && ItemsOf(v) <= ItemsOf(u)
    ensures EvalBaseline(op, b, v) != Mismatch && EvalBaseline(op, b, u) != Mismatch
    ensures EvalBaseline(op, b, v) == Holds ==> EvalBaseline(op, b, u) == Holds
  {
    SeqIsCollection(b);
    SeqIsCollection(v);
    SeqIsCollection(u);
  }

  lemma GrowthOutcome(c: Constraint, v: Value, u: Value)
    requires IsUpward(c.operator) && c.expected.Seq? && v.Seq? && u.Seq? && ItemsOf(v) <= ItemsOf(u)
    ensures EvalPure(c.operator, v, c.expected, c.tolerance) != Mismatch
    ensures EvalPure(c.operator, u, c.expected, c.tolerance) != Mismatch
    ensures EvalPure(c.operator, v, c.expected, c.tolerance) == Holds ==>
              EvalPure(c.operator, u, c.expected, c.tolerance) == Holds
  {
    SeqIsCollection(v);
    SeqIsCollection(u);
    SeqIsCollection(c.expected);
    CollectionTest(c.operator, v, c.expected, c.tolerance);
    CollectionTest(c.operator, u, c.expected, c.tolerance);
    if Test(c.operator, ItemsOf(v), ItemsOf(c.expected)) {
      MoreObserved(c.operator, ItemsOf(v), ItemsOf(u), ItemsOf(c.expected));
    }
  }

  /**
    When every constraint of a target, template rows included, asks for inclusion or reads only what
    stays the same, adding entries to the candidate never worsens the verdict.
   */
  lemma GrowthNeverWorse(cs: seq<Constraint>, x: Context, y: Context, mode: Mode)
    requires forall c | c in cs :: AsksInclusion(c) || ReadsSame(c, x, y)
    requires x.baseline == y.baseline && Grows(x.candidate, y.candidate)
    ensures Rank(RunVerdict(cs, y, mode)) <= Rank(RunVerdict(cs, x, mode))
  {
    var worse, better := AllResults(cs, x, mode), AllResults(cs, y, mode);
    forall i | 0 <= i < |cs| ensures NoWorse(worse[i], better[i]) {
      assert cs[i] in cs;
      if AsksInclusion(cs[i]) { GrowthResult(cs[i], x, y, mode); } else { SameReads(cs[i], x, y, mode); }
    }
    ResultsNoWorse(worse, better);
    VerdictPreserved(cs, x, mode);
    VerdictPreserved(cs, y, mode);
  }

  // ---- pinning a list of names ----

  /** Items that are not records match only themselves. */
  predicate ArePlain(s: set<Canon>) { forall x | x in s :: View(x).None? }

  lemma PlainMatch(x: Canon, y: Canon)
    requires View(x).None?
    ensures MatchItem(x, y) <==> x == y
  {
  }

  /** On plain items the tests are set inclusion. */
  lemma PlainInclusion(os: set<Canon>, es: set<Canon>)
    requires ArePlain(os) && ArePlain(es)
    ensures Covers(os, es) <==> es <= os
    ensures CoveredBy(os, es) <==> os <= es
  {
    PlainCovers(os, es);
    PlainCoveredBy(os, es);
  }

  lemma PlainCovers(os: set<Canon>, es: set<Canon>)
    requires ArePlain(es)
    ensures Covers(os, es) <==> es <= os
  {
    if Covers(os, es) {
      forall e | e in es ensures e in os {
        var o :| o in os && MatchItem(e, o);
        PlainMatch(e, o);
      }
    }
    if es <= os {
      forall e | e in es ensures exists o | o in os :: MatchItem(e, o) { PlainMatch(e, e); }
    }
  }

  lemma PlainCoveredBy(os: set<Canon>, es: set<Canon>)
    requires ArePlain(es)
    ensures CoveredBy(os, es) <==> os <= es
  {
    if CoveredBy(os, es) {
      forall o | o in os ensures o in es {
        var e :| e in es && MatchItem(e, o);
        PlainMatch(e, o);
      }
    }
    if os <= es {
      forall o | o in os ensures exists e | e in es :: MatchItem(e, o) { PlainMatch(o, o); }
    }
  }

  function NameItems(ss: seq<string>): set<Canon> { set s | s in ss :: CStr(s) }

  lemma NameAt(ss: seq<string>, i: nat)
    requires i < |ss|
    ensures Canonical(Strings(ss)).CTuple? && |Canonical(Strings(ss)).parts| == |ss|
    ensures Canonical(Strings(ss)).parts[i] == CStr(ss[i])
  {
    var v := Strings(ss);
    assert v.items[i] == Str(ss[i]);
    assert Canonical(v.items[i]) == CStr(ss[i]);
  }

  lemma NamesArePlain(ss: seq<string>)
    ensures CollectionItems(Strings(ss)) == Some(NameItems(ss)) && ArePlain(NameItems(ss))
  {
    var parts := Canonical(Strings(ss)).parts;
    forall x ensures x in parts <==> x in NameItems(ss) {
      if x in parts {
        var i :| 0 <= i < |parts| && parts[i] == x;
        NameAt(ss, i);
        assert ss[i] in ss;
      }
      if x in NameItems(ss) {
        var s :| s in ss && x == CStr(s);
        var i :| 0 <= i < |ss| && ss[i] == s;
        NameAt(ss, i);
      }
    }
    assert (set x | x in parts) == NameItems(ss);
  }

  /** `test_surface_delta.new_cases` against a list of names. */
  function PinTests(op: Operator, names: seq<string>): Constraint {
    Constraint(Named("c"), DeltaKind, Leaf(TestSurfaceDelta, "test_surface_delta", NewCases, "new_cases"), op,
               Strings(names), Hard, OnUnknownFail, None, FromUser)
  }

  lemma {:induction false} NamesNormalize(items: seq<Value>)
    requires forall v | v in items :: v.Str?
    ensures NormalizeItems(None, items) == Some(items)
  {
    if items != [] {
      var init, last := items[..|items| - 1], items[|items| - 1];
      NamesNormalize(init);
      assert last in items && items == init + [last];
    }
  }

  lemma PinNormalizes(op: Operator, names: seq<string>)
    requires op.IncludesAll? || op.SubsetOf?
    ensures NormalizeExpected(PinTests(op, names).target, op, Strings(names)) == Some(Strings(names))
  {
    NamesNormalize(Strings(names).items);
    assert SchemaFor(ShapeOf(PinTests(op, names).target)) == None;
  }

  lemma PinCompiles(op: Operator, names: seq<string>)
    requires op.IncludesAll? || op.SubsetOf?
    ensures FromCompiler(PinTests(op, names))
  {
    PinNormalizes(op, names);
    assert Accepts(PinTests(op, names));
  }

  ghost function NameSet(names: seq<string>): set<string> { set n | n in names }

  lemma NamesAsItems(a: seq<string>, b: seq<string>)
    ensures NameItems(a) <= NameItems(b) <==> NameSet(a) <= NameSet(b)
  {
    if NameItems(a) <= NameItems(b) {
      forall n | n in NameSet(a) ensures n in NameSet(b) {
        assert CStr(n) in NameItems(a);
        var m :| m in b && CStr(m) == CStr(n);
      }
    }
    if NameSet(a) <= NameSet(b) {
      forall x | x in NameItems(a) ensures x in NameItems(b) {
        var n :| n in a && CStr(n) == x;
        assert n in NameSet(a);
      }
    }
  }

  lemma PinOutcome(op: Operator, names: seq<string>, seen: seq<string>)
    requires op.IncludesAll? || op.SubsetOf?
    ensures EvalPure(op, Strings(seen), Strings(names), None)
         == Decide(if op.SubsetOf? then NameSet(seen) <= NameSet(names) else NameSet(names) <= NameSet(seen))
  {
    NamesArePlain(names);
    NamesArePlain(seen);
    CollectionTest(op, Strings(seen), Strings(names), None);
    PlainInclusion(NameItems(seen), NameItems(names));
    NamesAsItems(seen, names);
    NamesAsItems(names, seen);
  }

  lemma PinValue(op: Operator, names: seq<string>, ctx: Context)
    ensures DeltaView(PinTests(op, names), ctx) == ctx.delta
    ensures Resolve(NDelta(ctx.delta), PinTests(op, names).target) == Some(Strings(ctx.delta.testSurfaceDelta.newCases))
  {
    DeltaPathResolves(ctx.delta, PinTests(op, names).target);
  }

  lemma PinResult(op: Operator, names: seq<string>, ctx: Context)
    requires op.IncludesAll? || op.SubsetOf?
    ensures var seen := ctx.delta.testSurfaceDelta.newCases;
      ResultOf(PinTests(op, names), ctx, Mode(None, {}, {})).status
      == if (if op.SubsetOf? then NameSet(seen) <= NameSet(names) else NameSet(names) <= NameSet(seen))
         then Satisfied else Violated
  {
    PinValue(op, names, ctx);
    PinOutcome(op, names, ctx.delta.testSurfaceDelta.newCases);
  }

  /**
    `includes_all` and `subset_of` one list of test names compile, and together they pass exactly when
    the new test cases are those names, whatever the rest of the run is.
   */
  lemma PinnedExactly(names: seq<string>, ctx: Context)
    ensures FromCompiler(PinTests(IncludesAll, names)) && FromCompiler(PinTests(SubsetOf, names))
    ensures RunVerdict([PinTests(IncludesAll, names), PinTests(SubsetOf, names)], ctx, Mode(None, {}, {}))
         == if NameSet(ctx.delta.testSurfaceDelta.newCases) == NameSet(names) then Pass else Fail
  {
    var cs, mode := [PinTests(IncludesAll, names), PinTests(SubsetOf, names)], Mode(None, {}, {});
    PinCompiles(IncludesAll, names);
    PinCompiles(SubsetOf, names);
    PinResult(IncludesAll, names, ctx);
    PinResult(SubsetOf, names, ctx);
    VerdictPreserved(cs, ctx, mode);
    var all := AllResults(cs, ctx, mode);
    assert all[0] == ResultOf(cs[0], ctx, mode) && all[1] == ResultOf(cs[1], ctx, mode);
    TwoHard(all);
  }

  lemma TwoHard(rs: seq<Result>)
    requires |rs| == 2 && rs[0].constraint.severity.Hard? && rs[1].constraint.severity.Hard?
    requires !rs[0].status.Unknown? && !rs[1].status.Unknown?
    ensures VerdictOf(rs) == if rs[0].status.Violated? || rs[1].status.Violated? then Fail else Pass
  {
    assert ForcesFail(rs[0]) <==> rs[0].status.Violated?;
    assert ForcesFail(rs[1]) <==> rs[1].status.Violated?;
  }
}
