/** Allow rules only relax: they touch template results alone, and only from VIOLATED to SATISFIED. */
module AllowLists {
  import opened Values
  import opened Vocabulary
  import opened States
  import opened Paths
  import opened Operators
  import opened Evaluator
  import opened ShortCircuit
  import opened Compiler

  /** `wide` is `narrow` with rules added to either list; states and delta are the same. */
  predicate Widens(narrow: Context, wide: Context) {
    && narrow.delta == wide.delta && narrow.baseline == wide.baseline && narrow.candidate == wide.candidate
    && (forall r | r in narrow.apiAllow :: r in wide.apiAllow)
    && (forall r | r in narrow.effectAllow :: r in wide.effectAllow)
  }

  // ---- filters ----

  lemma FilterEmptiness<T>(s: seq<T>, keep: T -> bool)
    ensures Filter(s, keep) == [] <==> forall x | x in s :: !keep(x)
  {
    FilterMembers(s, keep);
    if Filter(s, keep) != [] {
      assert Filter(s, keep)[0] in Filter(s, keep);
    }
  }

  /** Filtering by a stronger test first or last is the same. */
  lemma {:induction false} FilterAgain<T>(s: seq<T>, weak: T -> bool, strong: T -> bool, other: T -> bool)
    requires forall x | x in s :: strong(x) ==> weak(x)
    ensures Filter(Filter(s, strong), other) == Filter(Filter(Filter(s, weak), other), strong)
  {
    if s != [] {
      FilterAgain(s[1..], weak, strong, other);
      FilterHead(s, strong);
      FilterHead(s, weak);
      FilterPrepend(s[0], Filter(s[1..], strong), other);
      FilterPrepend(s[0], Filter(s[1..], weak), other);
      FilterPrepend(s[0], Filter(Filter(s[1..], weak), other), strong);
    }
  }

  lemma FilterHead<T>(s: seq<T>, keep: T -> bool)
    requires s != []
    ensures Filter(s, keep) == if keep(s[0]) then [s[0]] + Filter(s[1..], keep) else Filter(s[1..], keep)
  {
  }

  lemma FilterPrepend<T>(x: T, s: seq<T>, keep: T -> bool)
    ensures Filter([x] + s, keep) == if keep(x) then [x] + Filter(s, keep) else Filter(s, keep)
  {
    assert ([x] + s)[1..] == s;
  }

  // ---- API surface comparison under rules ----

  predicate SameDumps(a: seq<ApiEntry>, b: seq<ApiEntry>) {
    |a| == |b| && forall i | 0 <= i < |a| :: Canonical(DumpApi(a[i])) == Canonical(DumpApi(b[i]))
  }

  lemma CanonicalSurface(a: seq<ApiEntry>, b: seq<ApiEntry>)
    ensures Canonical(Seq(MapSeq(DumpApi, a))) == Canonical(Seq(MapSeq(DumpApi, b))) <==> SameDumps(a, b)
  {
    var x, y := Canonical(Seq(MapSeq(DumpApi, a))), Canonical(Seq(MapSeq(DumpApi, b)));
    assert |x.parts| == |a| && |y.parts| == |b|;
    assert forall i | 0 <= i < |a| :: x.parts[i] == Canonical(DumpApi(a[i]));
    assert forall i | 0 <= i < |b| :: y.parts[i] == Canonical(DumpApi(b[i]));
    if x == y {
      assert forall i | 0 <= i < |a| :: x.parts[i] == y.parts[i];
    }
    if SameDumps(a, b) {
      assert x.parts == y.parts;
    }
  }

  lemma DumpDeterminesName(a: ApiEntry, b: ApiEntry)
    requires Canonical(DumpApi(a)) == Canonical(DumpApi(b))
    ensures a.fqn == b.fqn
  {
    assert Canonical(DumpApi(a)).parts[1].parts[1] == CStr(a.fqn);
    assert Canonical(DumpApi(b)).parts[1].parts[1] == CStr(b.fqn);
  }

  lemma {:induction false} FilterKeepsDumps(a: seq<ApiEntry>, b: seq<ApiEntry>, rules: seq<ApiAllowRule>)
    requires SameDumps(a, b)
    ensures SameDumps(Filter(a, KeepEntry(rules)), Filter(b, KeepEntry(rules)))
  {
    if a != [] {
      DumpDeterminesName(a[0], b[0]);
      FilterKeepsDumps(a[1..], b[1..], rules);
      FilterHead(a, KeepEntry(rules));
      FilterHead(b, KeepEntry(rules));
    }
  }

  lemma MoreRulesAllowMore(fqn: string, narrow: seq<ApiAllowRule>, wide: seq<ApiAllowRule>)
    requires forall r | r in narrow :: r in wide
    ensures ApiAllowed(fqn, narrow) ==> ApiAllowed(fqn, wide)
  {
  }

  function Surface(s: CodeState, rules: seq<ApiAllowRule>): seq<ApiEntry> {
    Filter(Filter(s.apiSurface, KeepEntry(rules)), IsPublicEntry)
  }

  /** Public surfaces that agree under some rules agree under more. */
  lemma SurfacesStayEqual(b: CodeState, c: CodeState, narrow: seq<ApiAllowRule>, wide: seq<ApiAllowRule>)
    requires forall r | r in narrow :: r in wide
    requires SameDumps(Surface(b, narrow), Surface(c, narrow))
    ensures SameDumps(Surface(b, wide), Surface(c, wide))
  {
    forall e: ApiEntry ensures KeepEntry(wide)(e) ==> KeepEntry(narrow)(e) {
      MoreRulesAllowMore(e.fqn, narrow, wide);
    }
    FilterAgain(b.apiSurface, KeepEntry(narrow), KeepEntry(wide), IsPublicEntry);
    FilterAgain(c.apiSurface, KeepEntry(narrow), KeepEntry(wide), IsPublicEntry);
    FilterKeepsDumps(Surface(b, narrow), Surface(c, narrow), wide);
  }

  // ---- template results under rules ----

  predicate Relaxes(narrow: Result, wide: Result) {
    narrow == wide || (narrow.status.Violated? && wide.status.Satisfied?)
  }

  predicate Relaxed(c: Constraint, narrow: Eval, wide: Eval) {
    narrow == wide || (narrow == Done(FromOutcome(c, Fails)) && wide == Done(FromOutcome(c, Holds)))
  }

  lemma PublicSurfaceResult(c: Constraint, ctx: Context)
    requires IsUnchangedApiTemplate(c)
    ensures EvalBaselineAt(c, StateView(c, ctx.baseline, ctx), StateView(c, ctx.candidate, ctx))
         == FromOutcome(c, Decide(SameDumps(Surface(ctx.candidate, ctx.apiAllow), Surface(ctx.baseline, ctx.apiAllow))))
  {
    var b, v := StateView(c, ctx.baseline, ctx), StateView(c, ctx.candidate, ctx);
    StatePathResolves(b, c.target);
    StatePathResolves(v, c.target);
    CanonicalSurface(Surface(ctx.candidate, ctx.apiAllow), Surface(ctx.baseline, ctx.apiAllow));
  }

  lemma UnchangedApiRelaxes(c: Constraint, narrow: Context, wide: Context)
    requires Widens(narrow, wide) && IsUnchangedApiTemplate(c)
    ensures Relaxed(c,
              Done(EvalBaselineAt(c, StateView(c, narrow.baseline, narrow), StateView(c, narrow.candidate, narrow))),
              Done(EvalBaselineAt(c, StateView(c, wide.baseline, wide), StateView(c, wide.candidate, wide))))
  {
    PublicSurfaceResult(c, narrow);
    PublicSurfaceResult(c, wide);
    if SameDumps(Surface(narrow.candidate, narrow.apiAllow), Surface(narrow.baseline, narrow.apiAllow)) {
      SurfacesStayEqual(narrow.candidate, narrow.baseline, narrow.apiAllow, wide.apiAllow);
    }
  }

  lemma EqualsEmpty(c: Constraint, d: CodeStateDelta, items: seq<Value>)
    requires c.target.Dotted? && c.operator.Equals? && c.expected == Seq([])
    requires Resolve(NDelta(d), c.target) == Some(Seq(items))
    ensures EvalPureAt(c, NDelta(d)) == Done(FromOutcome(c, Decide(items == [])))
  {
    assert Canonical(Seq([])).parts == [];
    assert |Canonical(Seq(items)).parts| == |items|;
  }

  lemma RemovedApiRelaxes(c: Constraint, narrow: Context, wide: Context)
    requires Widens(narrow, wide) && IsRemovedApiTemplate(c) && c.expected == Seq([])
    ensures Relaxed(c, EvalPureAt(c, NDelta(DeltaView(c, narrow))), EvalPureAt(c, NDelta(DeltaView(c, wide))))
  {
    var removed := narrow.delta.apiSurfaceDelta.removed;
    var n, w := Filter(removed, KeepRecord(narrow.apiAllow)), Filter(removed, KeepRecord(wide.apiAllow));
    DeltaPathResolves(DeltaView(c, narrow), c.target);
    DeltaPathResolves(DeltaView(c, wide), c.target);
    EqualsEmpty(c, DeltaView(c, narrow), Filter(n, IsPublicRecord));
    EqualsEmpty(c, DeltaView(c, wide), Filter(w, IsPublicRecord));
    FilterMembers(removed, KeepRecord(narrow.apiAllow));
    FilterMembers(removed, KeepRecord(wide.apiAllow));
    FilterEmptiness(n, IsPublicRecord);
    FilterEmptiness(w, IsPublicRecord);
  }

  lemma NewEffectsRelaxes(c: Constraint, narrow: Context, wide: Context)
    requires Widens(narrow, wide) && IsNewEffectsTemplate(c) && c.expected == Seq([])
    ensures Relaxed(c, EvalPureAt(c, NDelta(DeltaView(c, narrow))), EvalPureAt(c, NDelta(DeltaView(c, wide))))
  {
    var added := narrow.delta.effectChanges.added;
    DeltaPathResolves(DeltaView(c, narrow), c.target);
    DeltaPathResolves(DeltaView(c, wide), c.target);
    EqualsEmpty(c, DeltaView(c, narrow), Filter(added, KeepEffect(narrow.effectAllow)));
    EqualsEmpty(c, DeltaView(c, wide), Filter(added, KeepEffect(wide.effectAllow)));
    FilterEmptiness(added, KeepEffect(narrow.effectAllow));
    FilterEmptiness(added, KeepEffect(wide.effectAllow));
  }

  /** A constraint as compilation produces it, as far as allow rules are concerned. */
  ghost predicate UserOrTemplate(c: Constraint) {
    c.source.FromUser? || exists k :: c in Templates(k)
  }

  lemma EmptyTemplates(c: Constraint)
    requires UserOrTemplate(c) && (IsRemovedApiTemplate(c) || IsNewEffectsTemplate(c))
    ensures c.expected == Seq([])
  {
    var k :| c in Templates(k);
  }

  lemma DeltaEvalRelaxes(c: Constraint, narrow: Context, wide: Context)
    requires Widens(narrow, wide) && UserOrTemplate(c) && c.target.Dotted?
    ensures Relaxed(c,
              EvalDelta(c, DeltaView(c, narrow), StateView(c, narrow.baseline, narrow),
                        StateView(c, narrow.candidate, narrow)),
              EvalDelta(c, DeltaView(c, wide), StateView(c, wide.baseline, wide), StateView(c, wide.candidate, wide)))
  {
    if IsUnchangedApiTemplate(c) {
      UnchangedApiRelaxes(c, narrow, wide);
    } else if IsRemovedApiTemplate(c) {
      EmptyTemplates(c);
      RemovedApiRelaxes(c, narrow, wide);
    } else if IsNewEffectsTemplate(c) {
      EmptyTemplates(c);
      NewEffectsRelaxes(c, narrow, wide);
    }
  }

  lemma EvaluateRelaxes(c: Constraint, narrow: Context, wide: Context, mode: Mode)
    requires Widens(narrow, wide) && UserOrTemplate(c)
    ensures Relaxed(c, Evaluate(c, narrow, mode), Evaluate(c, wide, mode))
  {
    if c.kind.DeltaKind? && c.target.Dotted? {
      DeltaEvalRelaxes(c, narrow, wide);
    }
  }

  lemma UserUnaffected(c: Constraint, narrow: Context, wide: Context, mode: Mode)
    requires Widens(narrow, wide) && c.source.FromUser?
    ensures Evaluate(c, narrow, mode) == Evaluate(c, wide, mode)
  {
  }

  /** Under more rules each result is the same, or a violated template result becomes satisfied. */
  lemma ResultRelaxes(c: Constraint, narrow: Context, wide: Context, mode: Mode)
    requires Widens(narrow, wide) && UserOrTemplate(c)
    ensures Relaxes(ResultOf(c, narrow, mode), ResultOf(c, wide, mode))
    ensures c.source.FromUser? ==> ResultOf(c, narrow, mode) == ResultOf(c, wide, mode)
  {
    EvaluateRelaxes(c, narrow, wide, mode);
    if c.source.FromUser? { UserUnaffected(c, narrow, wide, mode); }
  }

  /** Adding allow rules never worsens the verdict of a run. */
  lemma AllowRulesOnlyRelax(cs: seq<Constraint>, narrow: Context, wide: Context, mode: Mode)
    requires Widens(narrow, wide) && forall c | c in cs :: UserOrTemplate(c)
    ensures Rank(RunVerdict(cs, wide, mode)) <= Rank(RunVerdict(cs, narrow, mode))
  {
    var before, after := AllResults(cs, narrow, mode), AllResults(cs, wide, mode);
    forall i | 0 <= i < |cs| ensures Relaxes(before[i], after[i]) {
      ResultRelaxes(cs[i], narrow, wide, mode);
    }
    VerdictMonotone(after, before);
    VerdictPreserved(cs, narrow, mode);
    VerdictPreserved(cs, wide, mode);
  }
}
