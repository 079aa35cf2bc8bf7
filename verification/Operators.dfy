/** Operator evaluation: equality on canonical forms, record matching, collection and numeric operators. */
module Operators {
  import opened Values
  import opened Vocabulary

  /** What an operator decides, or a type mismatch it reports. */
  datatype Outcome = Holds | Fails | Mismatch

  function Decide(b: bool): Outcome { if b then Holds else Fails }

  // ---- record matching ----

  predicate LooksLikePairs(c: Canon) {
    c.CTuple? && c.parts != [] && forall p | p in c.parts :: p.CTuple? && |p.parts| == 2
  }

  /** `dict(pairs)`: a later pair replaces an earlier one. */
  function DictOf(pairs: seq<Canon>): map<Canon, Canon>
    requires forall p | p in pairs :: p.CTuple? && |p.parts| == 2
  {
    if pairs == [] then map[]
    else
      var last := pairs[|pairs| - 1];
      DictOf(pairs[..|pairs| - 1])[last.parts[0] := last.parts[1]]
  }

  /** `mapping_view`: a record seen as a dictionary, with `from_` readable as `from`. */
  function View(c: Canon): Option<map<Canon, Canon>> {
    if LooksLikePairs(c) then
      var m := DictOf(c.parts);
      if CStr("from_") in m && CStr("from") !in m then Some(m[CStr("from") := m[CStr("from_")]]) else Some(m)
    else None
  }

  /** `match_item`: an expected record matches when each of its keys agrees; other items must be equal. */
  predicate MatchItem(expected: Canon, observed: Canon) {
    var e, o := View(expected), View(observed);
    if e.Some? && o.Some? then
      forall k | k in e.value :: k in o.value && o.value[k] == e.value[k]
    else expected == observed
  }

  /** `_matched_pairs` as the source runs it: nested loops collecting the matches. */
  method MatchedPairs(expected: seq<Canon>, observed: seq<Canon>) returns (pairs: set<(Canon, Canon)>)
    ensures pairs == set e, o | e in expected && o in observed && MatchItem(e, o) :: (e, o)
  {
    pairs := {};
    for i := 0 to |expected|
      invariant pairs == set e, o | e in expected[..i] && o in observed && MatchItem(e, o) :: (e, o)
    {
      var before := pairs;
      for j := 0 to |observed|
        invariant pairs == before + set o | o in observed[..j] && MatchItem(expected[i], o) :: (expected[i], o)
      {
        if MatchItem(expected[i], observed[j]) {
          pairs := pairs + {(expected[i], observed[j])};
        }
      }
      assert observed[..|observed|] == observed;
    }
    assert expected[..|expected|] == expected;
  }

  // ---- operators ----

  function Tolerance(t: Option<real>): real {
    if t.Some? then t.value else 0.0
  }

  function NumericCompare(op: Operator, observed: Value, expected: Value, tolerance: Option<real>): Outcome
    requires IsNumericOperator(op)
  {
    if !IsNumber(observed) || !IsNumber(expected) then Mismatch
    else
      var o, e, tol := observed.n, expected.n, Tolerance(tolerance);
      match op
      case LessThan => Decide(o < e + tol)
      case LessThanOrEqual => Decide(o <= e + tol)
      case GreaterThan => Decide(o > e - tol)
      case _ => Decide(o >= e - tol)
  }

  /** `_within_range`: a two-item list of numbers; anything else mismatches. */
  function WithinRange(observed: Value, expected: Value, tolerance: Option<real>): Outcome {
    if IsNumber(observed) && expected.Seq? && |expected.items| == 2
       && IsNumber(expected.items[0]) && IsNumber(expected.items[1]) then
      var tol := Tolerance(tolerance);
      Decide(expected.items[0].n - tol <= observed.n <= expected.items[1].n + tol)
    else Mismatch
  }

  /** Every expected item matches some observed one: nothing is missing. */
  predicate Covers(os: set<Canon>, es: set<Canon>) {
    forall e | e in es :: exists o | o in os :: MatchItem(e, o)
  }

  /** Some expected item matches some observed one: something is common. */
  predicate Meets(os: set<Canon>, es: set<Canon>) {
    exists e | e in es :: exists o | o in os :: MatchItem(e, o)
  }

  /** Every observed item is matched by an expected one: nothing is extra. */
  predicate CoveredBy(os: set<Canon>, es: set<Canon>) {
    forall o | o in os :: exists e | e in es :: MatchItem(e, o)
  }

  function CollectionCompare(op: Operator, observed: Value, expected: Value): Outcome
    requires IsExpectedCollectionOperator(op)
  {
    match (CollectionItems(observed), CollectionItems(expected))
    case (Some(os), Some(es)) =>
      (match op
       case IncludesAny => Decide(Meets(os, es))
       case ExcludesAll => Decide(!Meets(os, es))
       case SubsetOf => Decide(CoveredBy(os, es))
       case _ => Decide(Covers(os, es)))
    case _ => Mismatch
  }

  function EvalPure(op: Operator, observed: Value, expected: Value, tolerance: Option<real>): Outcome
    requires IsPureOperator(op)
  {
    if op.Equals? then Decide(Canonical(observed) == Canonical(expected))
    else if op.NotEquals? then Decide(Canonical(observed) != Canonical(expected))
    else if IsExpectedCollectionOperator(op) then CollectionCompare(op, observed, expected)
    else if op.WithinRange? then WithinRange(observed, expected, tolerance)
    else NumericCompare(op, observed, expected, tolerance)
  }

  function EvalBaseline(op: Operator, baseline: Value, candidate: Value): Outcome
    requires IsBaselineOperator(op)
  {
    if op.EqualsBaseline? || op.Unchanged? then Decide(Canonical(candidate) == Canonical(baseline))
    else if op.NotEqualsBaseline? || op.HasChanged? then Decide(Canonical(candidate) != Canonical(baseline))
    else match (CollectionItems(baseline), CollectionItems(candidate))
      case (Some(bs), Some(cs)) => if op.NoNewItems? then Decide(cs <= bs) else Decide(bs <= cs)
      case _ => Mismatch
  }
}
