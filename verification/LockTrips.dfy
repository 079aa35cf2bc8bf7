/**
  What the short-circuit slice is: user locks preserve or deny, so none of them trips on an unchanged
  state, and no positive change requirement is one of them.
 */
module LockTrips {
  import opened Values
  import opened Vocabulary
  import opened States
  import opened Ordering
  import opened Paths
  import opened Operators
  import opened Compiler
  import opened Evaluator
  import opened DeltaLaws
  import opened CompileSoundness
  import opened ShortCircuit
  import opened Doctor
  import opened VacuousPass

  function EntryKeys(entries: seq<Entry>): seq<string> {
    seq(|entries|, i requires 0 <= i < |entries| => entries[i].key)
  }

  /** A mapping lists its keys in order. */
  predicate InKeyOrder(v: Value) { v.Map? ==> NamesAscend(EntryKeys(v.entries)) }

  predicate AllEmpty(entries: seq<Entry>) { forall e | e in entries :: IsEmptyCollection(e.value) }

  ghost function KeysIn(entries: seq<Entry>): set<string> { set e | e in entries :: e.key }

  lemma EntryKeysIn(entries: seq<Entry>, k: string)
    ensures k in EntryKeys(entries) <==> k in KeysIn(entries)
  {
    if k in KeysIn(entries) {
      var e :| e in entries && e.key == k;
      var i :| 0 <= i < |entries| && entries[i] == e;
      assert EntryKeys(entries)[i] == k;
    }
  }

  lemma KeysAreSorted(entries: seq<Entry>)
    requires NamesAscend(EntryKeys(entries))
    ensures EntryKeys(entries) == SortedNames(KeysIn(entries))
  {
    forall k ensures k in EntryKeys(entries) <==> k in KeysIn(entries) { EntryKeysIn(entries, k); }
    AscendingNamesSorted(EntryKeys(entries), KeysIn(entries));
  }

  /** A mapping of empty collections is determined by its keys. */
  lemma EmptyMappingUnique(a: seq<Entry>, b: seq<Entry>)
    requires AllEmpty(a) && AllEmpty(b) && KeysIn(a) == KeysIn(b)
    requires NamesAscend(EntryKeys(a)) && NamesAscend(EntryKeys(b))
    ensures a == b
  {
    KeysAreSorted(a);
    KeysAreSorted(b);
    assert |a| == |EntryKeys(a)| == |EntryKeys(b)| == |b|;
    forall i | 0 <= i < |a| ensures a[i] == b[i] {
      assert EntryKeys(a)[i] == EntryKeys(b)[i];
      assert a[i] in a && b[i] in b;
    }
  }

  lemma TestNamesAscend()
    ensures NamesAscend(["new_cases", "new_files", "removed_cases"])
  {
    TailsOrdered("new_", "cases", "files");
    assert "new_" + "cases" == "new_cases" && "new_" + "files" == "new_files";
  }

  lemma {:induction false} TailsOrdered(p: string, a: string, b: string)
    requires StrLe(a, b)
    ensures StrLe(p + a, p + b)
  {
    if p == [] {
      assert p + a == a && p + b == b;
    } else {
      TailsOrdered(p[1..], a, b);
      assert (p + a)[1..] == p[1..] + a && (p + b)[1..] == p[1..] + b;
    }
  }

  /** The value of a lock record path on the empty delta. */
  function ZeroEntries(p: Shape): seq<Entry>
    requires LockRecordKeys(p).Some?
  {
    match p
    case One(ApiSurfaceDelta) => [Entry("added", Seq([])), Entry("changed", Seq([])), Entry("removed", Seq([]))]
    case One(TestSurfaceDelta) => [Entry("new_cases", Seq([])), Entry("new_files", Seq([])),
                                   Entry("removed_cases", Seq([]))]
    case _ => [Entry("added", Seq([])), Entry("removed", Seq([]))]
  }

  lemma ZeroEntriesAscend(p: Shape)
    requires LockRecordKeys(p).Some?
    ensures NamesAscend(EntryKeys(ZeroEntries(p)))
  {
    var ks := EntryKeys(ZeroEntries(p));
    if p.a.TestSurfaceDelta? {
      TestNamesAscend();
      assert ks == ["new_cases", "new_files", "removed_cases"];
    } else {
      assert ks == if p.a.ApiSurfaceDelta? then ["added", "changed", "removed"] else ["added", "removed"];
    }
  }

  lemma ZeroEntriesKeys(p: Shape)
    requires LockRecordKeys(p).Some?
    ensures AllEmpty(ZeroEntries(p)) && KeysIn(ZeroEntries(p)) == LockRecordKeys(p).value
  {
    forall k ensures k in KeysIn(ZeroEntries(p)) <==> k in LockRecordKeys(p).value {
      EntryKeysIn(ZeroEntries(p), k);
    }
  }

  lemma ZeroEntriesValue(p: Shape)
    requires LockRecordKeys(p).Some?
    ensures DeltaValue(EmptyDelta(), p) == Some(Map(ZeroEntries(p)))
  {
    assert Strings([]) == Seq([]);
  }

  /** The full zero record equals what the empty delta shows. */
  lemma RecordLockHolds(c: Constraint)
    requires LockRecordKeys(ShapeOf(c.target)).Some? && IsEmptyEqualsLock(c) && InKeyOrder(c.expected)
    ensures DeltaValue(EmptyDelta(), ShapeOf(c.target)) == Some(c.expected)
  {
    var p := ShapeOf(c.target);
    ZeroEntriesAscend(p);
    ZeroEntriesKeys(p);
    ZeroEntriesValue(p);
    EmptyMappingUnique(ZeroEntries(p), c.expected.entries);
  }

  // ---- locks on an unchanged state ----

  /** Locks whose path names a root field of the delta. */
  lemma RootLockHolds(c: Constraint)
    requires WellTyped(c) && c.kind.DeltaKind? && (IsEmptyEqualsLock(c) || IsDenyLock(c)) && InKeyOrder(c.expected)
    requires c.target.Dotted? && c.target.rest == []
    ensures EvalPureAt(c, NDelta(EmptyDelta())) == Done(FromOutcome(c, Holds))
  {
    var p := ShapeOf(c.target);
    DeltaPathResolves(EmptyDelta(), c.target);
    if LockRecordKeys(p).Some? {
      RecordLockHolds(c);
    } else {
      assert DeltaValue(EmptyDelta(), p) == Some(Seq([]));
      ItemsOfNothing();
    }
  }

  lemma LeafLockIsLockOnly(c: Constraint, s: CodeState)
    requires WellTyped(c) && IsUserLock(c) && c.kind.DeltaKind? && c.target.Dotted?
    requires IsBaselineOperator(c.operator) || c.target.rest != []
    ensures IsLockOnly(c) && !c.target.head.tag.CoverageDelta?
    ensures !LockHolds(c, s) ==>
              ShapeOf(c.target) == One(Coverage) && NeedsCollection(c.operator) && s.coverage.None?
  {
  }

  lemma UserLockIsDelta(c: Constraint)
    requires WellTyped(c) && IsUserLock(c) && !c.kind.RepairKind?
    ensures c.kind.DeltaKind? && c.target.Dotted?
    ensures IsBaselineOperator(c.operator) || IsEmptyEqualsLock(c) || IsDenyLock(c)
  {
  }

  /**
    On an unchanged state a compiled constraint trips the short-circuit if and only if it is an
    evaluated user lock that reads a null coverage, whatever dimensions were extracted.
   */
  lemma LockStaysQuiet(c: Constraint, s: CodeState, apiAllow: seq<ApiAllowRule>, effectAllow: seq<EffectAllowRule>,
                       extracted: Option<set<Dimension>>)
    requires FromCompiler(c) && InKeyOrder(c.expected)
    ensures Triggers(ResultOf(c, Unchanging(s, apiAllow, effectAllow), Untimed(extracted)))
       <==> TripsOnNull(c, Unchanging(s, apiAllow, effectAllow), Untimed(extracted))
  {
    var ctx, mode := Unchanging(s, apiAllow, effectAllow), Untimed(extracted);
    CompiledIsChecked(c);
    CompiledNeverBlamed(c, ctx, mode);
    AuthoringIsUnknown(c, ctx, mode);
    if IsUserLock(c) && IsEvaluated(c, mode) && !ReadsNullCoverage(c, ctx) {
      UserLockIsDelta(c);
      if IsBaselineOperator(c.operator) || c.target.rest != [] {
        LeafLockIsLockOnly(c, s);
        LockOnlyExact(c, s, apiAllow, effectAllow, mode);
      } else {
        ViewOfNothing(c, ctx);
        RootLockHolds(c);
      }
    } else if !IsEvaluated(c, mode) {
      NotEvaluatedIsQuiet(c, ctx, mode);
    }
  }

  /** An evaluated user lock on a coverage that is not there. */
  predicate TripsOnNull(c: Constraint, ctx: Context, mode: Mode) {
    IsUserLock(c) && IsEvaluated(c, mode) && ReadsNullCoverage(c, ctx)
  }

  lemma NotEvaluatedIsQuiet(c: Constraint, ctx: Context, mode: Mode)
    requires !IsEvaluated(c, mode)
    ensures !ResultOf(c, ctx, mode).status.Violated?
  {
  }

  /**
    So the run of an unchanged state is cut short exactly by a lock on a null coverage: when there is
    none, every constraint reports its own result.
   */
  lemma UnchangedRunsToTheEnd(cs: seq<Constraint>, s: CodeState,
                              apiAllow: seq<ApiAllowRule>, effectAllow: seq<EffectAllowRule>,
                              extracted: Option<set<Dimension>>)
    requires forall c | c in cs :: FromCompiler(c) && InKeyOrder(c.expected)
    ensures var ctx, mode := Unchanging(s, apiAllow, effectAllow), Untimed(extracted);
      && (QuietBefore(cs, ctx, mode, |cs|) <==> forall i | 0 <= i < |cs| :: !TripsOnNull(cs[i], ctx, mode))
      && (QuietBefore(cs, ctx, mode, |cs|) ==> ReportedResults(cs, ctx, mode) == AllResults(cs, ctx, mode))
  {
    var ctx, mode := Unchanging(s, apiAllow, effectAllow), Untimed(extracted);
    forall i | 0 <= i < |cs| ensures Triggers(ResultOf(cs[i], ctx, mode)) <==> TripsOnNull(cs[i], ctx, mode) {
      LockStaysQuiet(cs[i], s, apiAllow, effectAllow, extracted);
    }
    VerdictPreserved(cs, ctx, mode);
  }

  /** A positive change requirement, a template or a soft constraint never stops a run. */
  lemma OnlyLocksStop(r: Result)
    ensures IsPositiveAddition(r.constraint) ==> !Triggers(r)
    ensures r.constraint.source.FromTemplate? || !r.constraint.severity.Hard? ==> !Triggers(r)
    ensures Triggers(r) ==> ForcesFail(r)
  {
  }
}
