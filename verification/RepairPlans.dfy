/** `emit_repair_plan` and the JSON summary: they re-derive from the results what the verdict folded. */
module RepairPlans {
  import opened Values
  import opened Vocabulary
  import opened Evaluator

  datatype Category = FixRequired | Suggested | Informational | Unresolved

  /** An instruction: the result it came from and its category. */
  datatype Instruction = Instruction(result: Result, category: Category)

  datatype RepairPlan = RepairPlan(result: VerdictResult, instructions: seq<Instruction>)

  /** `_category_or_none`. */
  function CategoryOf(r: Result): Option<Category> {
    match r.status
    case Satisfied => None
    case Violated =>
      (match r.constraint.severity
       case Hard => Some(FixRequired)
       case Soft => Some(Suggested)
       case Info => Some(Informational))
    case Unknown =>
      if r.cause.Authoring? then Some(FixRequired)
      else (match r.constraint.unknownPolicy
            case OnUnknownFail => Some(FixRequired)
            case OnUnknownRepair => Some(Suggested)
            case OnUnknownWarn => Some(Unresolved)
            case OnUnknownIgnore => None)
    case Skipped => if r.error.EHardLockShortCircuit? then None else Some(Unresolved)
  }

  function Instructions(rs: seq<Result>): seq<Instruction>
  {
    if rs == [] then []
    else
      (match CategoryOf(rs[0]) case Some(c) => [Instruction(rs[0], c)] case None => [])
      + Instructions(rs[1..])
  }

  function Emit(v: Verdict): RepairPlan { RepairPlan(v.result, Instructions(v.results)) }

  /** The instructions are the categorised results, in result order. */
  lemma {:induction false} InstructionMembers(rs: seq<Result>)
    ensures forall i :: i in Instructions(rs) <==> i.result in rs && CategoryOf(i.result) == Some(i.category)
  {
    if rs != [] { InstructionMembers(rs[1..]); }
  }

  predicate Has(plan: RepairPlan, c: Category) { exists i | i in plan.instructions :: i.category == c }

  lemma HasFromResults(rs: seq<Result>, result: VerdictResult, c: Category)
    ensures Has(RepairPlan(result, Instructions(rs)), c) <==> exists i :: 0 <= i < |rs| && CategoryOf(rs[i]) == Some(c)
  {
    InstructionMembers(rs);
    if i :| 0 <= i < |rs| && CategoryOf(rs[i]) == Some(c) {
      assert Instruction(rs[i], c) in Instructions(rs);
    }
    if Has(RepairPlan(result, Instructions(rs)), c) {
      var x :| x in Instructions(rs) && x.category == c;
      var i :| 0 <= i < |rs| && rs[i] == x.result;
    }
  }

  /** Verdict and plan agree on every result sequence, though neither is computed from the other. */
  lemma VerdictMatchesPlan(rs: seq<Result>)
    ensures var plan := Emit(Verdict(VerdictOf(rs), rs));
            && (plan.result == Fail <==> Has(plan, FixRequired))
            && (plan.result == Repair <==> !Has(plan, FixRequired) && Has(plan, Suggested))
  {
    var v := VerdictOf(rs);
    HasFromResults(rs, v, FixRequired);
    HasFromResults(rs, v, Suggested);
    assert forall i | 0 <= i < |rs| :: ForcesFail(rs[i]) <==> CategoryOf(rs[i]) == Some(FixRequired);
    assert forall i | 0 <= i < |rs| && !ForcesFail(rs[i]) ::
      ForcesRepair(rs[i]) <==> CategoryOf(rs[i]) == Some(Suggested);
    assert forall i | 0 <= i < |rs| && ForcesFail(rs[i]) :: CategoryOf(rs[i]) != Some(Suggested);
  }

  // ---- the summary ----

  function CountInstructions(xs: seq<Instruction>, c: Category): nat
  {
    if xs == [] then 0 else (if xs[0].category == c then 1 else 0) + CountInstructions(xs[1..], c)
  }

  /** Unresolved instructions that are not skips. */
  function CountUnresolved(xs: seq<Instruction>): nat
  {
    if xs == [] then 0
    else (if xs[0].category.Unresolved? && !xs[0].result.status.Skipped? then 1 else 0) + CountUnresolved(xs[1..])
  }

  function CountStatus(rs: seq<Result>, s: Status): nat
  {
    if rs == [] then 0 else (if rs[0].status == s then 1 else 0) + CountStatus(rs[1..], s)
  }

  datatype Summary = Summary(fixRequired: nat, suggested: nat, info: nat, unresolved: nat, satisfied: nat, skipped: nat)

  /** `_summary`. */
  function Summarize(v: Verdict, plan: RepairPlan): Summary {
    Summary(
      CountInstructions(plan.instructions, FixRequired), CountInstructions(plan.instructions, Suggested),
      CountInstructions(plan.instructions, Informational), CountUnresolved(plan.instructions),
      CountStatus(v.results, Satisfied), CountStatus(v.results, Skipped))
  }

  /** Unknown results the summary does not mention: not an authoring error, and the policy is to ignore. */
  function CountIgnored(rs: seq<Result>): nat
  {
    if rs == [] then 0
    else (if rs[0].status.Unknown? && !rs[0].cause.Authoring?
          && rs[0].constraint.unknownPolicy.OnUnknownIgnore? then 1 else 0)
         + CountIgnored(rs[1..])
  }

  /** Conservation: the summary counts and the ignored unknowns account for every result once. */
  lemma {:induction false} SummaryAddsUp(rs: seq<Result>, result: VerdictResult)
    ensures var v := Verdict(result, rs);
            var s := Summarize(v, Emit(v));
            s.fixRequired + s.suggested + s.info + s.unresolved + s.satisfied + s.skipped + CountIgnored(rs) == |rs|
  {
    if rs != [] {
      SummaryAddsUp(rs[1..], result);
      var rest := Instructions(rs[1..]);
      var head := CategoryOf(rs[0]);
      if head.Some? {
        assert Instructions(rs) == [Instruction(rs[0], head.value)] + rest;
        assert Instructions(rs)[1..] == rest;
      } else {
        assert Instructions(rs) == rest;
      }
    }
  }

  // ---- each count of the summary ----

  /** Hard violations, and unknowns that are the author's fault or that the policy fails. */
  predicate MustFix(r: Result) {
    || (r.status.Violated? && r.constraint.severity.Hard?)
    || (r.status.Unknown? && (r.cause.Authoring? || r.constraint.unknownPolicy.OnUnknownFail?))
  }

  /** Soft violations, and unknowns that the policy wants repaired. */
  predicate ShouldFix(r: Result) {
    || (r.status.Violated? && r.constraint.severity.Soft?)
    || (r.status.Unknown? && !r.cause.Authoring? && r.constraint.unknownPolicy.OnUnknownRepair?)
  }

  predicate IsNote(r: Result) { r.status.Violated? && r.constraint.severity.Info? }

  predicate IsOpen(r: Result) { r.status.Unknown? && !r.cause.Authoring? && r.constraint.unknownPolicy.OnUnknownWarn? }

  predicate IsSatisfied(r: Result) { r.status.Satisfied? }

  predicate IsSkip(r: Result) { r.status.Skipped? }

  /** What the first result adds to the counts. */
  lemma InstructionsCons(rs: seq<Result>, c: Category)
    requires rs != []
    ensures CountInstructions(Instructions(rs), c)
         == (if CategoryOf(rs[0]) == Some(c) then 1 else 0) + CountInstructions(Instructions(rs[1..]), c)
    ensures CountUnresolved(Instructions(rs))
         == (if CategoryOf(rs[0]) == Some(Unresolved) && !rs[0].status.Skipped? then 1 else 0)
            + CountUnresolved(Instructions(rs[1..]))
  {
    var rest := Instructions(rs[1..]);
    if CategoryOf(rs[0]).Some? {
      assert Instructions(rs) == [Instruction(rs[0], CategoryOf(rs[0]).value)] + rest;
      assert Instructions(rs)[1..] == rest;
    } else {
      assert Instructions(rs) == rest;
    }
  }

  lemma {:induction false} CountOf(rs: seq<Result>, c: Category, p: Result -> bool)
    requires forall r: Result :: p(r) <==> CategoryOf(r) == Some(c)
    ensures CountInstructions(Instructions(rs), c) == |Filter(rs, p)|
  {
    if rs != [] {
      CountOf(rs[1..], c, p);
      InstructionsCons(rs, c);
    }
  }

  lemma {:induction false} CountOpen(rs: seq<Result>)
    ensures CountUnresolved(Instructions(rs)) == |Filter(rs, IsOpen)|
  {
    if rs != [] {
      CountOpen(rs[1..]);
      InstructionsCons(rs, Unresolved);
    }
  }

  lemma {:induction false} CountStatuses(rs: seq<Result>)
    ensures CountStatus(rs, Satisfied) == |Filter(rs, IsSatisfied)|
    ensures CountStatus(rs, Skipped) == |Filter(rs, IsSkip)|
  {
    if rs != [] { CountStatuses(rs[1..]); }
  }

  /** Each count is the number of results of its kind, read off status, severity, cause and policy. */
  lemma SummaryCounts(rs: seq<Result>, result: VerdictResult)
    ensures Summarize(Verdict(result, rs), Emit(Verdict(result, rs)))
         == Summary(|Filter(rs, MustFix)|, |Filter(rs, ShouldFix)|, |Filter(rs, IsNote)|, |Filter(rs, IsOpen)|,
                    |Filter(rs, IsSatisfied)|, |Filter(rs, IsSkip)|)
  {
    CountOf(rs, FixRequired, MustFix);
    CountOf(rs, Suggested, ShouldFix);
    CountOf(rs, Informational, IsNote);
    CountOpen(rs);
    CountStatuses(rs);
  }
}
