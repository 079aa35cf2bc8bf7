/** The hard-lock short-circuit hides later results and never changes the verdict. */
module ShortCircuit {
  import opened Vocabulary
  import opened Evaluator

  ghost function ReportedResults(cs: seq<Constraint>, ctx: Context, mode: Mode): seq<Result> {
    seq(|cs|, i requires 0 <= i < |cs| => Reported(cs, ctx, mode, i))
  }

  /** The verdict of a run as the evaluator computes it. */
  ghost function RunVerdict(cs: seq<Constraint>, ctx: Context, mode: Mode): VerdictResult {
    VerdictOf(ReportedResults(cs, ctx, mode))
  }

  lemma TriggerForcesFail(r: Result)
    requires Triggers(r)
    ensures ForcesFail(r)
  {
  }

  lemma {:induction false} FirstTrigger(cs: seq<Constraint>, ctx: Context, mode: Mode, n: nat) returns (k: nat)
    requires n <= |cs| && !QuietBefore(cs, ctx, mode, n)
    ensures k < n && QuietBefore(cs, ctx, mode, k) && Triggers(ResultOf(cs[k], ctx, mode))
    decreases n
  {
    if QuietBefore(cs, ctx, mode, n - 1) {
      k := n - 1;
    } else {
      k := FirstTrigger(cs, ctx, mode, n - 1);
    }
  }

  /**
    The run's verdict is that of evaluating every constraint. Either no lock trips and the results
    are the same, or the first tripped lock, at `k`, makes both verdicts FAIL, the results agree up
    to and including `k`, and everything after `k` is reported as skipped.
   */
  lemma VerdictPreserved(cs: seq<Constraint>, ctx: Context, mode: Mode)
    ensures RunVerdict(cs, ctx, mode) == VerdictOf(AllResults(cs, ctx, mode))
    ensures QuietBefore(cs, ctx, mode, |cs|) ==> ReportedResults(cs, ctx, mode) == AllResults(cs, ctx, mode)
    ensures !QuietBefore(cs, ctx, mode, |cs|) ==>
              RunVerdict(cs, ctx, mode) == Fail
              && exists k :: IsFirstTrigger(cs, ctx, mode, k)
  {
    var reported, all := ReportedResults(cs, ctx, mode), AllResults(cs, ctx, mode);
    if QuietBefore(cs, ctx, mode, |cs|) {
      assert reported == all;
    } else {
      var k := FirstTrigger(cs, ctx, mode, |cs|);
      TriggerForcesFail(all[k]);
      assert reported[k] == all[k];
      assert IsFirstTrigger(cs, ctx, mode, k);
    }
  }

  ghost predicate IsFirstTrigger(cs: seq<Constraint>, ctx: Context, mode: Mode, k: nat) {
    && k < |cs|
    && Triggers(ResultOf(cs[k], ctx, mode))
    && (forall i | 0 <= i <= k :: ReportedResults(cs, ctx, mode)[i] == AllResults(cs, ctx, mode)[i])
    && (forall i | k < i < |cs| :: ReportedResults(cs, ctx, mode)[i] == ShortCircuitSkip(cs[i]))
  }

  /** Verdicts compare result by result: if no result got more severe, neither did the verdict. */
  lemma VerdictMonotone(better: seq<Result>, worse: seq<Result>)
    requires |better| == |worse|
    requires forall i | 0 <= i < |better| :: ForcesFail(better[i]) ==> ForcesFail(worse[i])
    requires forall i | 0 <= i < |better| :: ForcesRepair(better[i]) ==> ForcesRepair(worse[i]) || ForcesFail(worse[i])
    ensures Rank(VerdictOf(better)) <= Rank(VerdictOf(worse))
  {
  }
}
