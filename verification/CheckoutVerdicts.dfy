/**
  Advisory D4's claim for a real run: one tree, checked out in two directories, with a git overlay.
  The delta is empty, since effects are compared without their files, but the two states are not
  equal when the tree has an effect, and a lock on the effects themselves sees that.
 */
module CheckoutVerdicts {
  import opened Values
  import opened Vocabulary
  import opened States
  import opened Deltas
  import opened DeltaLaws
  import opened Paths
  import opened Operators
  import opened Compiler
  import opened Evaluator
  import opened ShortCircuit
  import opened Reads
  import opened CompileSoundness
  import opened Doctor
  import opened VacuousPass
  import opened CodeStateCache
  import opened StaleAnswers

  // ---- the delta of two checkouts ----

  lemma SameEffectKey(a: string, b: string, e: FoundEffect)
    ensures EffectKey(LocateEffect(a, e)) == EffectKey(LocateEffect(b, e))
  {
    SameCall(a, e);
    SameCall(b, e);
  }

  lemma SameCall(root: string, e: FoundEffect)
    ensures LookupKey(LocateEffect(root, e).evidence.entries, "resolved_call") == LookupKey(e.details, "resolved_call")
  {
    var es := LocateEffect(root, e).evidence.entries;
    assert es[1..] == e.details && es[0].key == "file";
    assert |"file"| != |"resolved_call"|;
  }

  lemma SameEffectKeys(a: string, b: string, found: Analysis)
    ensures KeySet(Locate(a, found).effects, EffectKey) <= KeySet(Locate(b, found).effects, EffectKey)
  {
    var xs, ys := Locate(a, found).effects, Locate(b, found).effects;
    forall k | k in KeySet(xs, EffectKey) ensures k in KeySet(ys, EffectKey) {
      var x :| x in xs && EffectKey(x) == k;
      var i :| 0 <= i < |xs| && xs[i] == x;
      SameEffectKey(a, b, found.effects[i]);
      assert ys[i] in ys;
    }
  }

  lemma NoEffectChanges(a: string, b: string, found: Analysis)
    ensures ItemDiff(Locate(a, found).effects, Locate(b, found).effects, EffectKey, DumpEffect) == ItemDelta([], [])
  {
    var xs, ys := Locate(a, found).effects, Locate(b, found).effects;
    SameEffectKeys(a, b, found);
    SameEffectKeys(b, a, found);
    IndexKeySet(xs, EffectKey);
    IndexKeySet(ys, EffectKey);
    var base, cand := IndexBy(xs, EffectKey), IndexBy(ys, EffectKey);
    assert cand.Keys - base.Keys == {} && base.Keys - cand.Keys == {};
  }

  /** Two checkouts of one analysis have no delta. */
  lemma CheckoutsHaveNoDelta(a: string, b: string, found: Analysis)
    ensures ComputeDelta(Locate(a, found), Locate(b, found)) == EmptyDelta()
  {
    var s, u := Locate(a, found), Locate(b, found);
    UnchangedIsEmpty(s);
    NoEffectChanges(a, b, found);
    OnlyEffectsDiffer(s, u);
  }

  lemma OnlyEffectsDiffer(s: CodeState, u: CodeState)
    requires u == s.(effects := u.effects)
    requires ItemDiff(s.effects, u.effects, EffectKey, DumpEffect) == ItemDelta([], [])
    requires ComputeDelta(s, s) == EmptyDelta()
    ensures ComputeDelta(s, u) == EmptyDelta()
  {
    assert ComputeDelta(s, u) == ComputeDelta(s, s).(
      effectChanges := ItemDiff(s.effects, u.effects, EffectKey, DumpEffect));
  }

  /** The context of a run over two checkouts. */
  function CheckedOut(a: string, b: string, found: Analysis, o: Overlay, rules: Rules): Context {
    Context(OverlayDelta(ComputeDelta(Locate(a, found), Locate(b, found)), o), Locate(a, found), Locate(b, found),
            rules.apiAllow, rules.effectAllow)
  }

  predicate ReadsEffects(c: Constraint) { c.target.Dotted? && c.target.head.tag.Effects? }

  /** A constraint that does not read the effects has the result it has on equal states. */
  lemma OthersUnmoved(c: Constraint, a: string, b: string, found: Analysis, o: Overlay, rules: Rules, mode: Mode)
    requires !ReadsEffects(c)
    ensures ResultOf(c, CheckedOut(a, b, found, o, rules), mode)
         == ResultOf(c, Overlaid(Locate(a, found), o, rules), mode)
  {
    OthersReadSame(c, a, b, found, o, rules);
    SameReads(c, CheckedOut(a, b, found, o, rules), Overlaid(Locate(a, found), o, rules), mode);
  }

  lemma OthersReadSame(c: Constraint, a: string, b: string, found: Analysis, o: Overlay, rules: Rules)
    requires !ReadsEffects(c)
    ensures ReadsSame(c, CheckedOut(a, b, found, o, rules), Overlaid(Locate(a, found), o, rules))
  {
    CheckedOutParts(a, b, found, o, rules);
    if c.target.Dotted? { OtherFieldsSame(Locate(a, found), Locate(b, found), c.target.head.tag); }
  }

  lemma CheckedOutParts(a: string, b: string, found: Analysis, o: Overlay, rules: Rules)
    ensures CheckedOut(a, b, found, o, rules) == Overlaid(Locate(a, found), o, rules).(candidate := Locate(b, found))
  {
    CheckoutsHaveNoDelta(a, b, found);
  }

  lemma OtherFieldsSame(s: CodeState, u: CodeState, t: Tag)
    requires u == s.(effects := u.effects) && !t.Effects?
    ensures SameField(u, s, t)
  {
  }

  // ---- the effects of two checkouts ----

  function FileOfEffect(root: string, e: FoundEffect): string { root + "/" + e.path }

  /** The longest and the shortest path among the effects. */
  lemma {:induction false} Extremes(es: seq<FoundEffect>) returns (shortest: nat, longest: nat)
    requires es != []
    ensures shortest < |es| && longest < |es|
    ensures forall i | 0 <= i < |es| :: |es[shortest].path| <= |es[i].path| <= |es[longest].path|
  {
    if |es| == 1 {
      shortest, longest := 0, 0;
    } else {
      var init := es[..|es| - 1];
      shortest, longest := Extremes(init);
      var last := |es| - 1;
      assert forall i | 0 <= i < |init| :: es[i] == init[i];
      if |es[last].path| < |es[shortest].path| { shortest := last; }
      if |es[last].path| > |es[longest].path| { longest := last; }
    }
  }

  /** In another directory some effect's file is nobody's: the directories have different lengths, or
      no two files agree. */
  lemma LonelyFile(a: string, b: string, es: seq<FoundEffect>) returns (i: nat)
    requires a != b && es != []
    ensures i < |es| && forall j | 0 <= j < |es| :: FileOfEffect(a, es[i]) != FileOfEffect(b, es[j])
  {
    var shortest, longest := Extremes(es);
    i := if |a| < |b| then shortest else longest;
    forall j | 0 <= j < |es| ensures FileOfEffect(a, es[i]) != FileOfEffect(b, es[j]) {
      if |a| == |b| {
        assert FileOfEffect(a, es[i])[..|a|] == a && FileOfEffect(b, es[j])[..|b|] == b;
      } else {
        assert |FileOfEffect(a, es[i])| != |FileOfEffect(b, es[j])|;
      }
    }
  }

  lemma DumpNamesFile(root: string, e: FoundEffect)
    ensures var c := Canonical(DumpEffect(LocateEffect(root, e)));
      && c.CTuple? && |c.parts| > 2 && c.parts[2].CTuple? && |c.parts[2].parts| == 2
      && c.parts[2].parts[1].CTuple? && |c.parts[2].parts[1].parts| > 0
      && c.parts[2].parts[1].parts[0] == CTuple([CStr("file"), CStr(FileOfEffect(root, e))])
  {
    FirstEvidence(root, e);
    var c := Canonical(DumpEffect(LocateEffect(root, e)));
    assert c.parts[2] == CTuple([CStr("evidence"), Canonical(LocateEffect(root, e).evidence)]);
  }

  lemma DumpsByFile(a: string, b: string, e: FoundEffect, f: FoundEffect)
    requires FileOfEffect(a, e) != FileOfEffect(b, f)
    ensures Canonical(DumpEffect(LocateEffect(a, e))) != Canonical(DumpEffect(LocateEffect(b, f)))
  {
    DumpNamesFile(a, e);
    DumpNamesFile(b, f);
    var x, y := Canonical(DumpEffect(LocateEffect(a, e))), Canonical(DumpEffect(LocateEffect(b, f)));
    assert x.parts[2].parts[1].parts[0].parts[1] != y.parts[2].parts[1].parts[0].parts[1];
  }

  function EffectItems(root: string, found: Analysis): set<Canon> {
    set i | 0 <= i < |found.effects| :: Canonical(DumpEffect(LocateEffect(root, found.effects[i])))
  }

  lemma ItemsOfEffects(root: string, found: Analysis)
    ensures CollectionItems(EffectDumps(Locate(root, found))) == Some(EffectItems(root, found))
  {
    var c := Canonical(EffectDumps(Locate(root, found)));
    assert |c.parts| == |found.effects|;
    assert forall i | 0 <= i < |found.effects| ::
      c.parts[i] == Canonical(DumpEffect(LocateEffect(root, found.effects[i])));
    forall x ensures x in c.parts <==> x in EffectItems(root, found) {
      if x in c.parts {
        var i :| 0 <= i < |c.parts| && c.parts[i] == x;
      }
      if x in EffectItems(root, found) {
        var i :| 0 <= i < |found.effects| && x == Canonical(DumpEffect(LocateEffect(root, found.effects[i])));
        assert c.parts[i] == x;
      }
    }
    assert (set x | x in c.parts) == EffectItems(root, found);
  }

  /** No checkout's effects include those of another directory. */
  lemma EffectItemsApart(a: string, b: string, found: Analysis)
    requires a != b && found.effects != []
    ensures !(EffectItems(a, found) <= EffectItems(b, found))
  {
    var i := LonelyFile(a, b, found.effects);
    var x := Canonical(DumpEffect(LocateEffect(a, found.effects[i])));
    assert x in EffectItems(a, found);
    forall j | 0 <= j < |found.effects| ensures Canonical(DumpEffect(LocateEffect(b, found.effects[j]))) != x {
      DumpsByFile(a, b, found.effects[i], found.effects[j]);
    }
  }

  predicate SameCheckout(a: string, b: string, found: Analysis) { a == b || found.effects == [] }

  /** Every lock operator on the effects holds exactly when the checkouts do not differ. */
  lemma EffectsOutcome(op: Operator, a: string, b: string, found: Analysis)
    requires IsBaselineOperator(op) && !op.NotEqualsBaseline? && !op.HasChanged?
    ensures EvalBaseline(op, EffectDumps(Locate(a, found)), EffectDumps(Locate(b, found)))
         == Decide(SameCheckout(a, b, found))
  {
    EffectListsDiffer(a, b, found);
    ItemsOfEffects(a, found);
    ItemsOfEffects(b, found);
    if SameCheckout(a, b, found) {
      assert Locate(a, found) == Locate(b, found);
    } else {
      EffectItemsApart(a, b, found);
      EffectItemsApart(b, a, found);
    }
  }

  /** What a lock on the effects reads. */
  lemma EffectsLockReadsBoth(c: Constraint, ctx: Context)
    requires WellTyped(c) && c.kind.DeltaKind? && ReadsEffects(c) && IsEvaluated(c, Untimed(None))
    ensures c.target.rest == [] && IsBaselineOperator(c.operator)
    ensures ResultOf(c, ctx, Untimed(None))
         == FromOutcome(c, EvalBaseline(c.operator, EffectDumps(ctx.baseline), EffectDumps(ctx.candidate)))
  {
    StatePathResolves(ctx.baseline, c.target);
    StatePathResolves(ctx.candidate, c.target);
  }

  lemma EffectsLockResult(c: Constraint, a: string, b: string, found: Analysis, o: Overlay, rules: Rules)
    requires Checked(c) && IsLockOnly(c) && ReadsEffects(c) && IsEvaluated(c, Untimed(None))
    ensures ResultOf(c, CheckedOut(a, b, found, o, rules), Untimed(None)).status
         == if SameCheckout(a, b, found) then Satisfied else Violated
  {
    EffectsLockReadsBoth(c, CheckedOut(a, b, found, o, rules));
    EffectsOutcome(c.operator, a, b, found);
  }

  // ---- the verdict ----

  /** A lock on the effects contributes its severity when the checkouts differ; nothing else changes. */
  function CheckoutContribution(c: Constraint, a: string, b: string, found: Analysis, o: Overlay, rules: Rules)
    : VerdictResult
  {
    if ReadsEffects(c) && Participates(c) && !SameCheckout(a, b, found) then BySeverity(c)
    else Contribution(c, Locate(a, found), o, rules)
  }

  lemma EffectsBystander(c: Constraint, s: CodeState, o: Overlay, rules: Rules)
    requires ReadsEffects(c)
    ensures !ReadsNullCoverage(c, Overlaid(s, o, rules)) && HoldsUnder(c, s, o) == LockHolds(c, s)
  {
  }

  lemma EffectsLockHolds(c: Constraint, s: CodeState)
    requires Checked(c) && IsLockOnly(c) && ReadsEffects(c)
    ensures LockHolds(c, s)
  {
  }

  lemma CheckoutAsks(c: Constraint, a: string, b: string, found: Analysis, o: Overlay, rules: Rules)
    requires FromCompiler(c) && (Participates(c) ==> IsLockOnly(c))
    ensures Asks(ResultOf(c, CheckedOut(a, b, found, o, rules), Untimed(None)))
         == CheckoutContribution(c, a, b, found, o, rules)
  {
    if ReadsEffects(c) {
      EffectsAsk(c, a, b, found, o, rules);
    } else {
      OthersUnmoved(c, a, b, found, o, rules, Untimed(None));
      ContributionExact(c, Locate(a, found), o, rules);
    }
  }

  lemma EffectsAsk(c: Constraint, a: string, b: string, found: Analysis, o: Overlay, rules: Rules)
    requires FromCompiler(c) && (Participates(c) ==> IsLockOnly(c)) && ReadsEffects(c)
    ensures Asks(ResultOf(c, CheckedOut(a, b, found, o, rules), Untimed(None)))
         == CheckoutContribution(c, a, b, found, o, rules)
  {
    var ctx, s := CheckedOut(a, b, found, o, rules), Locate(a, found);
    EffectsBystander(c, s, o, rules);
    if !IsEvaluated(c, Untimed(None)) {
      NotEvaluatedAsksNothing(c, ctx);
      EffectsAreEvaluated(c);
    } else if !Participates(c) {
      BystanderAsks(c, ctx);
      EffectsReadNoCoverage(c, ctx);
    } else {
      EffectsLockAsks(c, a, b, found, o, rules);
      CompiledIsChecked(c);
      EffectsLockHolds(c, s);
    }
  }

  lemma EffectsLockAsks(c: Constraint, a: string, b: string, found: Analysis, o: Overlay, rules: Rules)
    requires FromCompiler(c) && IsLockOnly(c) && ReadsEffects(c) && IsEvaluated(c, Untimed(None))
    ensures Asks(ResultOf(c, CheckedOut(a, b, found, o, rules), Untimed(None)))
         == if SameCheckout(a, b, found) then Pass else BySeverity(c)
  {
    CompiledIsChecked(c);
    EffectsLockResult(c, a, b, found, o, rules);
    AuthoringIsUnknown(c, CheckedOut(a, b, found, o, rules), Untimed(None));
    DecidedAsks(ResultOf(c, CheckedOut(a, b, found, o, rules), Untimed(None)));
  }

  lemma DecidedAsks(r: Result)
    requires (r.status.Satisfied? || r.status.Violated?) && !r.cause.Authoring?
    ensures Asks(r) == if r.status.Satisfied? then Pass else BySeverity(r.constraint)
  {
  }

  lemma EffectsReadNoCoverage(c: Constraint, ctx: Context)
    requires ReadsEffects(c)
    ensures !ReadsNullCoverage(c, ctx)
  {
  }

  /** In a full run a constraint that reads the effects is evaluated unless its kind or operator never is. */
  lemma EffectsAreEvaluated(c: Constraint)
    requires ReadsEffects(c) && !IsEvaluated(c, Untimed(None))
    ensures !Participates(c)
  {
  }

  function CheckoutContributions(
    cs: seq<Constraint>, a: string, b: string, found: Analysis, o: Overlay, rules: Rules): seq<VerdictResult>
  {
    seq(|cs|, i requires 0 <= i < |cs| => CheckoutContribution(cs[i], a, b, found, o, rules))
  }

  /**
    The verdict of every lock-only target on one tree in two directories, under any overlay: the worst
    contribution, where a participating lock on the effects adds its severity exactly when the
    directories differ and the tree has an effect.
   */
  lemma CheckoutVerdictExact(cs: seq<Constraint>, a: string, b: string, found: Analysis, o: Overlay, rules: Rules)
    requires (forall c | c in cs :: FromCompiler(c)) && IsLockOnlyTarget(cs)
    ensures RunVerdict(cs, CheckedOut(a, b, found, o, rules), Untimed(None))
         == WorstOf(CheckoutContributions(cs, a, b, found, o, rules))
  {
    var ctx, vs := CheckedOut(a, b, found, o, rules), CheckoutContributions(cs, a, b, found, o, rules);
    forall i | 0 <= i < |cs| ensures Asks(ResultOf(cs[i], ctx, Untimed(None))) == vs[i] {
      assert cs[i] in cs;
      CheckoutAsks(cs[i], a, b, found, o, rules);
    }
    VerdictOfRun(cs, ctx, vs);
  }
}
