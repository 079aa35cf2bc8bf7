/**
  Advisory D4's claim for the run it is about: the Python state is unchanged, the git overlay may
  report touched files, lines and renames, and the target is lock-only. The verdict is determined
  by the literals, the severities and the policies of the target.
 */
module VacuousPass {
  import opened Values
  import opened Vocabulary
  import opened States
  import opened Deltas
  import opened DeltaLaws
  import opened Paths
  import opened Compiler
  import opened Evaluator
  import opened ShortCircuit
  import opened CompileSoundness
  import opened Reads
  import opened Doctor

  function Quiet(s: CodeState, rules: Rules): Context { Unchanging(s, rules.apiAllow, rules.effectAllow) }

  /** The context of a run over one state with a git overlay. */
  function Overlaid(s: CodeState, o: Overlay, rules: Rules): Context {
    Context(OverlayDelta(EmptyDelta(), o), s, s, rules.apiAllow, rules.effectAllow)
  }

  /** It is what a run builds when both revisions extract to the same state. */
  lemma OverlaidIsTheRun(s: CodeState, o: Overlay, rules: Rules)
    ensures Context(OverlayDelta(ComputeDelta(s, s), o), s, s, rules.apiAllow, rules.effectAllow)
         == Overlaid(s, o, rules)
  {
    UnchangedIsEmpty(s);
  }

  predicate IsOverlayTag(t: Tag) { t.FilesTouched? || t.LocDelta? || t.Renames? }

  // ---- results under an overlay ----

  lemma OverlayView(c: Constraint, s: CodeState, o: Overlay, rules: Rules)
    ensures DeltaView(c, Overlaid(s, o, rules)) == OverlayDelta(EmptyDelta(), o)
    ensures DeltaView(c, Quiet(s, rules)) == EmptyDelta()
    ensures StateView(c, s, Overlaid(s, o, rules)) == StateView(c, s, Quiet(s, rules))
  {
  }

  /** A constraint that reads no overlay field has the result it has without the overlay. */
  lemma OverlayInvisible(c: Constraint, s: CodeState, o: Overlay, rules: Rules, mode: Mode)
    requires c.target.Dotted? ==> !IsOverlayTag(c.target.head.tag)
    ensures ResultOf(c, Overlaid(s, o, rules), mode) == ResultOf(c, Quiet(s, rules), mode)
  {
    SameReads(c, Overlaid(s, o, rules), Quiet(s, rules), mode);
  }

  /** The line count a `loc_delta` leaf reads. */
  function Lines(t: Target, o: Overlay): int {
    if t.Dotted? && t.rest != [] && t.rest[0].tag.Added? then o.locDelta.added else o.locDelta.removed
  }

  predicate ReadsLines(t: Target) { t.Dotted? && t.head.tag.LocDelta? }

  /** Where a lock-only constraint holds under an overlay: line counts are compared, the rest is quiet. */
  predicate HoldsUnder(c: Constraint, s: CodeState, o: Overlay) {
    if ReadsLines(c.target) then ScalarHolds(c, Lines(c.target, o)) else LockHolds(c, s)
  }

  lemma LinesValue(c: Constraint, s: CodeState, o: Overlay, rules: Rules)
    requires c.target.Dotted?
    requires ShapeOf(c.target) == Two(LocDelta, Added) || ShapeOf(c.target) == Two(LocDelta, Removed)
    ensures Resolve(NDelta(DeltaView(c, Overlaid(s, o, rules))), c.target) == Some(Num(Lines(c.target, o) as real))
  {
    OverlayView(c, s, o, rules);
    DeltaPathResolves(OverlayDelta(EmptyDelta(), o), c.target);
  }

  /** An overlay decides touched files, lines and renames, and leaves every other path as it is. */
  lemma OverlayReads(d: CodeStateDelta, o: Overlay, t: Target)
    requires t.Dotted? && DeltaCategory(ShapeOf(t)).Some?
    ensures Resolve(NDelta(OverlayDelta(d, o)), t) ==
              match ShapeOf(t)
              case One(FilesTouched) => Some(Num(o.filesTouched as real))
              case One(Renames) => Some(Seq(MapSeq(DumpRename, o.renames)))
              case One(LocDelta) =>
                Some(PairRecord("added", Num(o.locDelta.added as real), "removed", Num(o.locDelta.removed as real)))
              case Two(LocDelta, Added) => Some(Num(o.locDelta.added as real))
              case Two(LocDelta, Removed) => Some(Num(o.locDelta.removed as real))
              case _ => Resolve(NDelta(d), t)
  {
    DeltaPathResolves(d, t);
    DeltaPathResolves(OverlayDelta(d, o), t);
  }

  /** A lock-only constraint reads an overlay field only as a line count. */
  lemma LockOnlyOverlay(c: Constraint)
    requires Checked(c) && IsLockOnly(c) && c.target.Dotted? && IsOverlayTag(c.target.head.tag)
    ensures ShapeOf(c.target) == Two(LocDelta, Added) || ShapeOf(c.target) == Two(LocDelta, Removed)
    ensures IsPureOperator(c.operator) && !IsCollectionOperator(c.operator) && ExpectedFits(c.operator, c.expected)
  {
  }

  lemma OverlaidLockExact(c: Constraint, s: CodeState, o: Overlay, rules: Rules, mode: Mode)
    requires Checked(c) && IsLockOnly(c) && IsEvaluated(c, mode)
    ensures ResultOf(c, Overlaid(s, o, rules), mode).status == Satisfied <==> HoldsUnder(c, s, o)
    ensures !IsCoverageTag(c.target.head.tag) && !HoldsUnder(c, s, o) ==>
              ResultOf(c, Overlaid(s, o, rules), mode).status == Violated
  {
    if IsOverlayTag(c.target.head.tag) {
      LockOnlyOverlay(c);
      LinesValue(c, s, o, rules);
      ScalarOutcome(c, Lines(c.target, o));
    } else {
      OverlayInvisible(c, s, o, rules, mode);
      LockOnlyExact(c, s, rules.apiAllow, rules.effectAllow, mode);
    }
  }

  /** An absent coverage delta leaves the constraint unknown. */
  lemma CoverageDeltaUnknown(c: Constraint, s: CodeState, o: Overlay, rules: Rules, mode: Mode)
    requires Checked(c) && IsLockOnly(c) && IsEvaluated(c, mode) && c.target.head.tag.CoverageDelta?
    ensures ResultOf(c, Overlaid(s, o, rules), mode).status == Unknown
    ensures !ResultOf(c, Overlaid(s, o, rules), mode).cause.Authoring?
  {
    OverlayInvisible(c, s, o, rules, mode);
    ViewOfNothing(c, Quiet(s, rules));
    DeltaPathResolves(EmptyDelta(), c.target);
    EmptyLeaf(ShapeOf(c.target));
  }

  // ---- what a constraint contributes to the verdict ----

  function BySeverity(c: Constraint): VerdictResult {
    match c.severity case Hard => Fail case Soft => Repair case Info => Pass
  }

  function ByPolicy(c: Constraint): VerdictResult {
    if c.unknownPolicy.OnUnknownFail? then Fail else if c.unknownPolicy.OnUnknownRepair? then Repair else Pass
  }

  /** Read off the constraint, the coverage of the state and the line counts. */
  function Contribution(c: Constraint, s: CodeState, o: Overlay, rules: Rules): VerdictResult {
    if !IsEvaluated(c, Untimed(None)) then Pass
    else if ReadsNullCoverage(c, Overlaid(s, o, rules)) then Fail
    else if !Participates(c) || HoldsUnder(c, s, o) then Pass
    else if c.target.head.tag.CoverageDelta? then ByPolicy(c)
    else BySeverity(c)
  }

  /** The verdict a result asks for on its own. */
  function Asks(r: Result): VerdictResult {
    if ForcesFail(r) then Fail else if ForcesRepair(r) then Repair else Pass
  }

  lemma NotEvaluatedAsksNothing(c: Constraint, ctx: Context)
    requires FromCompiler(c) && !IsEvaluated(c, Untimed(None))
    ensures Asks(ResultOf(c, ctx, Untimed(None))) == Pass
  {
    CompiledIsChecked(c);
  }

  lemma BystanderAsks(c: Constraint, ctx: Context)
    requires FromCompiler(c) && IsEvaluated(c, Untimed(None)) && !Participates(c)
    ensures Asks(ResultOf(c, ctx, Untimed(None))) == if ReadsNullCoverage(c, ctx) then Fail else Pass
  {
    CompiledNeverBlamed(c, ctx, Untimed(None));
    AuthoringIsUnknown(c, ctx, Untimed(None));
  }

  lemma AuthoringIsUnknown(c: Constraint, ctx: Context, mode: Mode)
    ensures ResultOf(c, ctx, mode).cause.Authoring? ==> ResultOf(c, ctx, mode).status.Unknown?
  {
  }

  /** A coverage lock that does not hold reads a null coverage. */
  lemma CoverageLock(c: Constraint, s: CodeState, o: Overlay, rules: Rules)
    requires Checked(c) && IsLockOnly(c) && c.target.Dotted? && c.target.head.tag.Coverage? && !LockHolds(c, s)
    ensures ReadsNullCoverage(c, Overlaid(s, o, rules))
  {
  }

  lemma ContributionExact(c: Constraint, s: CodeState, o: Overlay, rules: Rules)
    requires FromCompiler(c) && (Participates(c) ==> IsLockOnly(c))
    ensures Asks(ResultOf(c, Overlaid(s, o, rules), Untimed(None))) == Contribution(c, s, o, rules)
  {
    var ctx, mode := Overlaid(s, o, rules), Untimed(None);
    if !IsEvaluated(c, mode) {
      NotEvaluatedAsksNothing(c, ctx);
    } else if !Participates(c) {
      BystanderAsks(c, ctx);
    } else {
      CompiledIsChecked(c);
      CompiledNeverBlamed(c, ctx, mode);
      AuthoringIsUnknown(c, ctx, mode);
      if !ReadsNullCoverage(c, ctx) {
        OverlaidLockExact(c, s, o, rules, mode);
        if c.target.head.tag.CoverageDelta? {
          CoverageDeltaUnknown(c, s, o, rules, mode);
        } else if c.target.head.tag.Coverage? && !LockHolds(c, s) {
          CoverageLock(c, s, o, rules);
        }
      }
    }
  }

  /** The worst of some verdicts; PASS when there is none. */
  function WorstOf(vs: seq<VerdictResult>): VerdictResult {
    if Fail in vs then Fail else if Repair in vs then Repair else Pass
  }

  /** The verdict is the worst that any result asks for. */
  lemma VerdictByAsking(rs: seq<Result>, vs: seq<VerdictResult>)
    requires |vs| == |rs| && forall i | 0 <= i < |rs| :: Asks(rs[i]) == vs[i]
    ensures VerdictOf(rs) == WorstOf(vs)
  {
    if Fail in vs {
      var i :| 0 <= i < |vs| && vs[i] == Fail;
      assert ForcesFail(rs[i]);
    } else {
      forall i | 0 <= i < |rs| ensures !ForcesFail(rs[i]) { assert vs[i] in vs; }
      if Repair in vs {
        var i :| 0 <= i < |vs| && vs[i] == Repair;
        assert ForcesRepair(rs[i]);
      } else {
        forall i | 0 <= i < |rs| ensures !ForcesRepair(rs[i]) { assert vs[i] in vs; }
      }
    }
  }

  /** The verdict of a run is the worst that its constraints' own results ask for. */
  lemma VerdictOfRun(cs: seq<Constraint>, ctx: Context, vs: seq<VerdictResult>)
    requires |vs| == |cs| && forall i | 0 <= i < |cs| :: Asks(ResultOf(cs[i], ctx, Untimed(None))) == vs[i]
    ensures RunVerdict(cs, ctx, Untimed(None)) == WorstOf(vs)
  {
    VerdictPreserved(cs, ctx, Untimed(None));
    VerdictByAsking(AllResults(cs, ctx, Untimed(None)), vs);
  }

  function Contributions(cs: seq<Constraint>, s: CodeState, o: Overlay, rules: Rules): seq<VerdictResult> {
    seq(|cs|, i requires 0 <= i < |cs| => Contribution(cs[i], s, o, rules))
  }

  /**
    The verdict of every lock-only target on an unchanged state, under any overlay: FAIL when some
    constraint contributes it, else REPAIR when some constraint contributes it, else PASS. So the
    vacuous-PASS claim holds exactly when every contribution is PASS.
   */
  lemma LockOnlyVerdictExact(cs: seq<Constraint>, s: CodeState, o: Overlay, rules: Rules)
    requires (forall c | c in cs :: FromCompiler(c)) && IsLockOnlyTarget(cs)
    ensures RunVerdict(cs, Overlaid(s, o, rules), Untimed(None)) == WorstOf(Contributions(cs, s, o, rules))
  {
    var ctx, vs := Overlaid(s, o, rules), Contributions(cs, s, o, rules);
    forall i | 0 <= i < |cs| ensures Asks(ResultOf(cs[i], ctx, Untimed(None))) == vs[i] {
      assert cs[i] in cs;
      ContributionExact(cs[i], s, o, rules);
    }
    VerdictOfRun(cs, ctx, vs);
  }

  // ---- the gap the overlay opens ----

  function AddedLinesTarget(): Target { Leaf(LocDelta, "loc_delta", Added, "added") }

  function AddedLinesLock(): Constraint { UserDelta(AddedLinesTarget(), LessThanOrEqual, Num(0.0)) }

  lemma AddedLinesLockCompiles()
    ensures FromCompiler(AddedLinesLock()) && IsLockOnlyTarget([AddedLinesLock()])
  {
    var c := AddedLinesLock();
    assert Accepts(c) && CompileUser(c) == c;
    assert c in [c] && Participates(c);
  }

  lemma AddedLinesContribution(s: CodeState, o: Overlay, rules: Rules)
    ensures Contribution(AddedLinesLock(), s, o, rules) == if o.locDelta.added > 0 then Fail else Pass
  {
    assert IsEvaluated(AddedLinesLock(), Untimed(None));
  }

  /** `loc_delta.added <= 0` compiles and is classed lock-only, and a diff without Python violates it
      exactly when it adds a line. */
  lemma AddedLinesGap(s: CodeState, o: Overlay, rules: Rules)
    ensures FromCompiler(AddedLinesLock()) && IsLockOnlyTarget([AddedLinesLock()])
    ensures RunVerdict([AddedLinesLock()], Overlaid(s, o, rules), Untimed(None))
         == if o.locDelta.added > 0 then Fail else Pass
  {
    AddedLinesLockCompiles();
    AddedLinesContribution(s, o, rules);
    LockOnlyVerdictExact([AddedLinesLock()], s, o, rules);
    assert Contributions([AddedLinesLock()], s, o, rules) == [Contribution(AddedLinesLock(), s, o, rules)];
  }
}
