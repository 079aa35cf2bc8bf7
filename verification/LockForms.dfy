/**
  Which constraints stop a run: the hard user constraints that keep the baseline or deny additions, by
  operator, path and literal; and what a run reports once one of them has tripped.
 */
module LockForms {
  import opened Values
  import opened Vocabulary
  import opened DeltaLaws
  import opened Paths
  import opened Evaluator
  import opened LockTrips

  /** The list paths of the schema that a lock may guard: all but decorators and renames. */
  predicate GuardsList(p: Shape) {
    && DeltaCategory(p).Some? && IsCollectionCategory(DeltaCategory(p).value)
    && !p.a.DecoratorsDelta? && !p.a.Renames?
  }

  /** The record paths whose every member is such a list. */
  predicate GuardsRecord(p: Shape) {
    p == One(ApiSurfaceDelta) || p == One(EffectChanges) || p == One(ImportsDelta) || p == One(TestSurfaceDelta)
  }

  /** The constraint asks that nothing changes against the baseline, or that nothing unlisted appears. */
  predicate KeepsOrDenies(c: Constraint) {
    var p := ShapeOf(c.target);
    match c.operator
    case EqualsBaseline => true
    case SupersetOfBaseline => true
    case NoNewItems => true
    case NoRemovedItems => true
    case Unchanged => true
    case Equals =>
      c.kind.DeltaKind? && ((GuardsList(p) && c.expected == Seq([]))
                            || (GuardsRecord(p) && Some(c.expected) == DeltaValue(EmptyDelta(), p)))
    case ExcludesAll => c.kind.DeltaKind? && GuardsList(p)
    case SubsetOf => c.kind.DeltaKind? && GuardsList(p)
    case _ => false
  }

  lemma GuardedLists(p: Shape)
    ensures IsLockCollection(p) <==> GuardsList(p)
    ensures LockRecordKeys(p).Some? <==> GuardsRecord(p)
    ensures !(GuardsList(p) && GuardsRecord(p))
  {
  }

  /** The record a lock must expect is the one the empty delta shows. */
  lemma RecordLockExactly(c: Constraint)
    requires c.kind.DeltaKind? && c.operator.Equals? && GuardsRecord(ShapeOf(c.target)) && InKeyOrder(c.expected)
    ensures IsEmptyEqualsLock(c) <==> Some(c.expected) == DeltaValue(EmptyDelta(), ShapeOf(c.target))
  {
    var p := ShapeOf(c.target);
    GuardedLists(p);
    if IsEmptyEqualsLock(c) {
      RecordLockHolds(c);
    }
    if Some(c.expected) == DeltaValue(EmptyDelta(), p) {
      ZeroEntriesValue(p);
      ZeroEntriesKeys(p);
    }
  }

  /** The user locks are exactly the hard user constraints of these forms. */
  lemma UserLocksExactly(c: Constraint)
    requires InKeyOrder(c.expected)
    ensures IsUserLock(c) <==> c.source.FromUser? && c.severity.Hard? && KeepsOrDenies(c)
  {
    GuardedLists(ShapeOf(c.target));
    if c.kind.DeltaKind? && c.operator.Equals? && GuardsRecord(ShapeOf(c.target)) { RecordLockExactly(c); }
  }

  /** A result on which a run stops: a lock that is violated, or that its author must repair. */
  predicate Trips(r: Result) {
    && r.constraint.source.FromUser? && r.constraint.severity.Hard? && KeepsOrDenies(r.constraint)
    && (r.status == Violated || (r.status == Unknown && r.cause == Authoring))
  }

  /** From the first tripped lock on everything is skipped, and nothing is skipped for it before. */
  lemma StopsExactly(cs: seq<Constraint>, ctx: Context, mode: Mode, i: nat)
    requires i < |cs| && forall c | c in cs :: InKeyOrder(c.expected)
    ensures Reported(cs, ctx, mode, i)
         == if exists k | 0 <= k < i :: Trips(ResultOf(cs[k], ctx, mode)) then ShortCircuitSkip(cs[i])
            else ResultOf(cs[i], ctx, mode)
    ensures ShortCircuitSkip(cs[i]).status == Skipped && ShortCircuitSkip(cs[i]).error == EHardLockShortCircuit
  {
    forall k | 0 <= k < i ensures Triggers(ResultOf(cs[k], ctx, mode)) <==> Trips(ResultOf(cs[k], ctx, mode)) {
      assert cs[k] in cs;
      UserLocksExactly(cs[k]);
    }
  }
}
