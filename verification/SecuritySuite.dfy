/** The suite-level security policy: suppression, severities, denied rules and the global count. */
module SecuritySuite {
  import opened Values
  import opened Ordering
  import opened SensorDelta

  /** Dates are day numbers. */
  datatype Suppression = Suppression(canonicalId: string, identity: seq<string>, expires: int)

  datatype Scanner = Scanner(requireSameRuleset: bool, requireSameSensorVersion: bool, requireSameAdvisoryDb: bool)

  datatype AddedPolicy = AddedPolicy(severityNotIn: Option<set<Severity>>, maxCount: Option<int>)

  datatype Policy = Policy(
    suppressions: seq<Suppression>, scanner: Option<Scanner>,
    denyAdded: Option<set<string>>, added: Option<AddedPolicy>
  )

  /** The digest of identity components. */
  type Digest = seq<string> -> string

  datatype SensorResult = SensorResult(
    sensorId: string, status: Status, added: seq<Finding>, removed: seq<Finding>, suppressed: seq<Finding>,
    reason: Option<Reason>, provenanceChanged: bool, unchangedCount: nat
  )

  datatype Suite = Suite(status: Status, asOf: int, sensors: seq<SensorResult>, globalCountViolated: bool)

  // ---- reading the policy ----

  function SuppressionsOf(policy: Option<Policy>): seq<Suppression> {
    if policy.Some? then policy.value.suppressions else []
  }

  /** `_validate_suppressions`, on one of them. */
  predicate IsGenuine(s: Suppression, digest: Digest) {
    s.identity != [] && s.canonicalId == s.identity[0] + ":" + digest(s.identity)
  }

  /** `_active_suppression_ids`. */
  function ActiveIds(suppressions: seq<Suppression>, asOf: int): set<string> {
    set s | s in suppressions && s.expires >= asOf :: s.canonicalId
  }

  /** `_drift_fields_for_scanner`. */
  function DriftFields(policy: Option<Policy>): set<DriftField> {
    if policy.None? || policy.value.scanner.None? then DefaultDriftFields
    else
      var scanner := policy.value.scanner.value;
      {AdapterVersion, IdentityAlgorithm}
      + (if scanner.requireSameRuleset then {RulesetHash} else {})
      + (if scanner.requireSameSensorVersion then {SensorVersion} else {})
      + (if scanner.requireSameAdvisoryDb then {AdvisoryDbHash} else {})
  }

  /** `_effective_fail_severities`: an empty list falls back to the default. */
  function FailSeverities(policy: Option<Policy>): set<Severity> {
    if policy.Some? && policy.value.added.Some? && policy.value.added.value.severityNotIn.Some?
       && policy.value.added.value.severityNotIn.value != {}
    then policy.value.added.value.severityNotIn.value
    else {Critical, High, Medium, Low}
  }

  function Denied(policy: Option<Policy>): set<string> {
    if policy.Some? && policy.value.denyAdded.Some? then policy.value.denyAdded.value else {}
  }

  function MaxCount(policy: Option<Policy>): Option<int> {
    if policy.Some? && policy.value.added.Some? then policy.value.added.value.maxCount else None
  }

  /** One finding that the policy rejects. */
  predicate Offends(policy: Option<Policy>, f: Finding) {
    f.severity in FailSeverities(policy) || (f.detail.Sast? && f.detail.ruleId in Denied(policy))
  }

  /** `_status_for_added`. */
  function StatusFor(policy: Option<Policy>, added: seq<Finding>): Status {
    if (exists f :: f in added && f.severity in FailSeverities(policy))
       || (Denied(policy) != {} && exists f :: f in added && f.detail.Sast? && f.detail.ruleId in Denied(policy))
    then Fail else Pass
  }

  /** `_violates_global_count_policy`. */
  predicate ExceedsCount(policy: Option<Policy>, total: nat) {
    MaxCount(policy).Some? && total > MaxCount(policy).value
  }

  // ---- suppression ----

  function IsActive(active: set<string>): Finding -> bool { (f: Finding) => f.canonicalId in active }

  function IsInactive(active: set<string>): Finding -> bool { (f: Finding) => f.canonicalId !in active }

  function Suppressed(fs: seq<Finding>, active: set<string>): (r: seq<Finding>)
    ensures forall f :: f in r <==> f in fs && f.canonicalId in active
  {
    FilterMembers(fs, IsActive(active));
    Filter(fs, IsActive(active))
  }

  function Unsuppressed(fs: seq<Finding>, active: set<string>): (r: seq<Finding>)
    ensures forall f :: f in r <==> f in fs && f.canonicalId !in active
  {
    FilterMembers(fs, IsInactive(active));
    Filter(fs, IsInactive(active))
  }

  function ResultFor(policy: Option<Policy>, active: set<string>, d: PerSensor): SensorResult {
    if d.status == Unknown then
      SensorResult(d.sensorId, Unknown, [], d.removed, [], d.reason, d.provenanceChanged, d.unchangedCount)
    else
      var added := Unsuppressed(d.added, active);
      SensorResult(d.sensorId, StatusFor(policy, added), added, d.removed, Suppressed(d.added, active),
                   d.reason, d.provenanceChanged, d.unchangedCount)
  }

  function TotalAdded(rs: seq<SensorResult>): nat {
    if rs == [] then 0 else TotalAdded(rs[..|rs| - 1]) + |rs[|rs| - 1].added|
  }

  function ResultsFor(policy: Option<Policy>, active: set<string>, deltas: map<string, PerSensor>,
                      ids: seq<string>): seq<SensorResult>
    requires forall id | id in ids :: id in deltas
  {
    seq(|ids|, i requires 0 <= i < |ids| => ResultFor(policy, active, deltas[ids[i]]))
  }

  predicate HasStatus(rs: seq<SensorResult>, status: Status) {
    exists i :: 0 <= i < |rs| && rs[i].status == status
  }

  /** The status a run owes: unknown if some sensor is, else fail if some sensor fails or too many
      findings were added over all sensors, else pass. */
  function SuiteStatus(policy: Option<Policy>, rs: seq<SensorResult>): Status {
    if HasStatus(rs, Unknown) then Unknown
    else if HasStatus(rs, Fail) || ExceedsCount(policy, TotalAdded(rs)) then Fail
    else Pass
  }

  function SuiteFor(policy: Option<Policy>, active: set<string>, asOf: int, deltas: map<string, PerSensor>): Suite {
    var rs := ResultsFor(policy, active, deltas, SortedNames(deltas.Keys));
    Suite(SuiteStatus(policy, rs), asOf, rs, ExceedsCount(policy, TotalAdded(rs)))
  }

  /** The states the delta compares. */
  function DeltasFor(policy: Option<Policy>, baseline: SensorState, candidate: SensorState): map<string, PerSensor> {
    Deltas(WithoutAdvisory(baseline), WithoutAdvisory(candidate), DriftFields(policy))
  }

  predicate AllGenuine(policy: Option<Policy>, digest: Digest) {
    forall s | s in SuppressionsOf(policy) :: IsGenuine(s, digest)
  }

  /** What `evaluate_security_detail` owes: a rejection, or the suite of the per-sensor deltas. */
  function Evaluation(policy: Option<Policy>, digest: Digest, baseline: SensorState, candidate: SensorState,
                      asOf: int): Outcome<Suite> {
    if !AllGenuine(policy, digest) then Err(BadSuppression)
    else if HasLlm(baseline) || HasLlm(candidate) then Err(LlmFinding)
    else if IsMixed(baseline) || IsMixed(candidate) then Err(MixedAdvisory)
    else Ok(SuiteFor(policy, ActiveIds(SuppressionsOf(policy), asOf), asOf, DeltasFor(policy, baseline, candidate)))
  }

  // ---- the code ----

  /** The body of the loop over sensors. */
  method JudgeSensor(policy: Option<Policy>, active: set<string>, id: string, d: PerSensor) returns (r: SensorResult)
    requires d.sensorId == id
    ensures r == ResultFor(policy, active, d)
  {
    if d.status == Unknown {
      return SensorResult(id, Unknown, [], d.removed, [], d.reason, d.provenanceChanged, d.unchangedCount);
    }
    var suppressed := Suppressed(d.added, active);
    var added := Unsuppressed(d.added, active);
    r := SensorResult(id, StatusFor(policy, added), added, d.removed, suppressed, d.reason, d.provenanceChanged,
                      d.unchangedCount);
  }

  function Statuses(rs: seq<SensorResult>): seq<Status> {
    seq(|rs|, i requires 0 <= i < |rs| => rs[i].status)
  }

  lemma Append(rs: seq<SensorResult>, r: SensorResult)
    ensures TotalAdded(rs + [r]) == TotalAdded(rs) + |r.added|
    ensures Statuses(rs + [r]) == Statuses(rs) + [r.status]
  {
    assert (rs + [r])[..|rs|] == rs;
  }

  /** The loop over sensors: statuses, results and the total of added findings. */
  method JudgeSensors(policy: Option<Policy>, active: set<string>, deltas: map<string, PerSensor>, ids: seq<string>)
    returns (statuses: seq<Status>, sensors: seq<SensorResult>, total: nat)
    requires forall id | id in ids :: id in deltas && deltas[id].sensorId == id
    ensures sensors == ResultsFor(policy, active, deltas, ids)
    ensures statuses == Statuses(sensors)
    ensures total == TotalAdded(sensors)
  {
    ghost var owed := ResultsFor(policy, active, deltas, ids);
    statuses, sensors, total := [], [], 0;
    for i := 0 to |ids|
      invariant sensors == owed[..i]
      invariant statuses == Statuses(sensors)
      invariant total == TotalAdded(sensors)
    {
      var r := JudgeSensor(policy, active, ids[i], deltas[ids[i]]);
      Append(sensors, r);
      assert owed[..i + 1] == owed[..i] + [owed[i]];
      statuses := statuses + [r.status];
      sensors := sensors + [r];
      total := total + |r.added|;
    }
    assert owed[..|ids|] == owed;
  }

  lemma AggregateIsSuiteStatus(policy: Option<Policy>, rs: seq<SensorResult>)
    ensures AggregateStatus(Statuses(rs) + (if ExceedsCount(policy, TotalAdded(rs)) then [Fail] else []))
         == SuiteStatus(policy, rs)
  {
    HasStatusIn(rs, Unknown);
    HasStatusIn(rs, Fail);
  }

  lemma HasStatusIn(rs: seq<SensorResult>, status: Status)
    ensures status in Statuses(rs) <==> HasStatus(rs, status)
  {
    if HasStatus(rs, status) {
      var i :| 0 <= i < |rs| && rs[i].status == status;
      assert Statuses(rs)[i] == status;
    }
  }

  method ValidateSuppressions(suppressions: seq<Suppression>, digest: Digest) returns (ok: bool)
    ensures ok <==> forall s | s in suppressions :: IsGenuine(s, digest)
  {
    for i := 0 to |suppressions|
      invariant forall j | 0 <= j < i :: IsGenuine(suppressions[j], digest)
    {
      if !IsGenuine(suppressions[i], digest) {
        return false;
      }
    }
    return true;
  }

  /** `evaluate_security_detail`. */
  method EvaluateSecurityDetail(policy: Option<Policy>, digest: Digest, baseline: SensorState, candidate: SensorState,
                                asOf: int)
    returns (r: Outcome<Suite>)
    ensures r == Evaluation(policy, digest, baseline, candidate, asOf)
  {
    var genuine := ValidateSuppressions(SuppressionsOf(policy), digest);
    if !genuine {
      return Err(BadSuppression);
    }
    var active := ActiveIds(SuppressionsOf(policy), asOf);
    var delta := ComputeSecurityDelta(baseline, candidate, DriftFields(policy));
    if delta.Err? {
      return Err(delta.rejection);
    }
    forall id | id in delta.value ensures delta.value[id].sensorId == id {
      SensorIdKept(policy, baseline, candidate, id);
    }
    var suite := JudgeSuite(policy, active, asOf, delta.value);
    return Ok(suite);
  }

  /** The loop over the sensors of a delta, and the global count. */
  method JudgeSuite(policy: Option<Policy>, active: set<string>, asOf: int,
                    deltas: map<string, PerSensor>)
    returns (suite: Suite)
    requires forall id | id in deltas :: deltas[id].sensorId == id
    ensures suite == SuiteFor(policy, active, asOf, deltas)
  {
    var statuses, sensors, total := JudgeSensors(policy, active, deltas, SortedNames(deltas.Keys));
    AggregateIsSuiteStatus(policy, sensors);
    if ExceedsCount(policy, total) {
      statuses := statuses + [Fail];
    } else {
      assert statuses + [] == statuses;
    }
    return Suite(AggregateStatus(statuses), asOf, sensors, ExceedsCount(policy, total));
  }

  lemma SensorIdKept(policy: Option<Policy>, baseline: SensorState, candidate: SensorState, id: string)
    requires id in DeltasFor(policy, baseline, candidate)
    ensures DeltasFor(policy, baseline, candidate)[id].sensorId == id
  {
    DeltaValidates(WithoutAdvisory(baseline), WithoutAdvisory(candidate), DriftFields(policy), id);
  }

  // ---- when the suite passes ----

  /** A sensor's delta is known, and every finding it adds is suppressed or allowed. */
  ghost predicate IsClean(policy: Option<Policy>, active: set<string>, d: PerSensor) {
    d.status != Unknown && forall f | f in d.added && f.canonicalId !in active :: !Offends(policy, f)
  }

  lemma CleanPasses(policy: Option<Policy>, active: set<string>, d: PerSensor)
    ensures ResultFor(policy, active, d).status == Pass <==> IsClean(policy, active, d)
  {
  }

  /** The suite passes exactly when every sensor is clean and the findings left do not exceed the count. */
  lemma PassExactly(policy: Option<Policy>, active: set<string>, asOf: int, deltas: map<string, PerSensor>)
    ensures SuiteFor(policy, active, asOf, deltas).status == Pass <==>
              ((forall id | id in deltas :: IsClean(policy, active, deltas[id]))
               && !ExceedsCount(policy, TotalAdded(ResultsFor(policy, active, deltas, SortedNames(deltas.Keys)))))
  {
    var ids := SortedNames(deltas.Keys);
    AllPass(ResultsFor(policy, active, deltas, ids));
    CleanResults(policy, active, deltas, ids);
    assert forall id :: id in deltas <==> id in ids;
  }

  lemma CleanResults(policy: Option<Policy>, active: set<string>, deltas: map<string, PerSensor>, ids: seq<string>)
    requires forall id | id in ids :: id in deltas
    ensures AllPassed(ResultsFor(policy, active, deltas, ids))
       <==> forall id | id in ids :: IsClean(policy, active, deltas[id])
  {
    var rs := ResultsFor(policy, active, deltas, ids);
    forall i | 0 <= i < |ids| ensures rs[i].status == Pass <==> IsClean(policy, active, deltas[ids[i]]) {
      CleanPasses(policy, active, deltas[ids[i]]);
    }
    if AllPassed(rs) {
      forall id | id in ids ensures IsClean(policy, active, deltas[id]) {
        var i :| 0 <= i < |ids| && ids[i] == id;
        assert rs[i].status == Pass;
      }
    }
  }

  ghost predicate AllPassed(rs: seq<SensorResult>) {
    forall i | 0 <= i < |rs| :: rs[i].status == Pass
  }

  lemma AllPass(rs: seq<SensorResult>)
    ensures !HasStatus(rs, Unknown) && !HasStatus(rs, Fail) <==> AllPassed(rs)
  {
  }

  // ---- suppression partitions ----

  /** A sensor's added and suppressed findings partition what its delta added. */
  lemma SuppressionPartitions(policy: Option<Policy>, active: set<string>, baseline: SensorState,
                              candidate: SensorState, id: string)
    requires id in DeltasFor(policy, baseline, candidate)
    ensures var d := DeltasFor(policy, baseline, candidate)[id]; var r := ResultFor(policy, active, d);
      && multiset(r.added) + multiset(r.suppressed) == multiset(d.added)
      && (forall f | f in r.added :: f.canonicalId !in active)
      && (forall f | f in r.suppressed :: f.canonicalId in active)
  {
    DeltaValidates(WithoutAdvisory(baseline), WithoutAdvisory(candidate), DriftFields(policy), id);
    FilterSplits(DeltasFor(policy, baseline, candidate)[id].added, IsInactive(active), IsActive(active));
  }

  // ---- monotonicity ----

  /** Policies that differ at most in their suppressions. */
  predicate SameRules(p: Option<Policy>, q: Option<Policy>) {
    && DriftFields(p) == DriftFields(q) && FailSeverities(p) == FailSeverities(q)
    && Denied(p) == Denied(q) && MaxCount(p) == MaxCount(q)
  }

  lemma MoreSuppressedNotWorse(p: Option<Policy>, q: Option<Policy>, fewer: set<string>, more: set<string>,
                               d: PerSensor)
    requires SameRules(p, q) && fewer <= more
    ensures Severeness(ResultFor(q, more, d).status) <= Severeness(ResultFor(p, fewer, d).status)
    ensures ResultFor(q, more, d).status == Unknown <==> ResultFor(p, fewer, d).status == Unknown
    ensures |ResultFor(q, more, d).added| <= |ResultFor(p, fewer, d).added|
  {
    FilterCount(d.added, IsInactive(more), IsInactive(fewer));
  }

  /** One run's results are pointwise no worse than another's. */
  ghost predicate NoWorse(better: seq<SensorResult>, worse: seq<SensorResult>) {
    |better| == |worse| && forall i | 0 <= i < |better| ::
      && Severeness(better[i].status) <= Severeness(worse[i].status)
      && |better[i].added| <= |worse[i].added|
  }

  lemma {:induction false} TotalNoWorse(better: seq<SensorResult>, worse: seq<SensorResult>)
    requires NoWorse(better, worse)
    ensures TotalAdded(better) <= TotalAdded(worse)
  {
    if better != [] { TotalNoWorse(better[..|better| - 1], worse[..|worse| - 1]); }
  }

  lemma StatusNoWorse(p: Option<Policy>, q: Option<Policy>, better: seq<SensorResult>, worse: seq<SensorResult>)
    requires MaxCount(p) == MaxCount(q) && NoWorse(better, worse)
    ensures Severeness(SuiteStatus(q, better)) <= Severeness(SuiteStatus(p, worse))
  {
    TotalNoWorse(better, worse);
    if HasStatus(better, Unknown) {
      var i :| 0 <= i < |better| && better[i].status == Unknown;
      assert worse[i].status == Unknown;
    } else if HasStatus(better, Fail) {
      var i :| 0 <= i < |better| && better[i].status == Fail;
      assert worse[i].status != Pass;
    }
  }

  lemma ResultsNoWorse(p: Option<Policy>, q: Option<Policy>, fewer: set<string>, more: set<string>,
                       deltas: map<string, PerSensor>, ids: seq<string>)
    requires SameRules(p, q) && fewer <= more && forall id | id in ids :: id in deltas
    ensures NoWorse(ResultsFor(q, more, deltas, ids), ResultsFor(p, fewer, deltas, ids))
  {
    forall i | 0 <= i < |ids|
      ensures Severeness(ResultFor(q, more, deltas[ids[i]]).status)
           <= Severeness(ResultFor(p, fewer, deltas[ids[i]]).status)
      ensures |ResultFor(q, more, deltas[ids[i]]).added| <= |ResultFor(p, fewer, deltas[ids[i]]).added|
    {
      MoreSuppressedNotWorse(p, q, fewer, more, deltas[ids[i]]);
    }
  }

  lemma SuiteNoWorse(p: Option<Policy>, q: Option<Policy>, fewer: set<string>, more: set<string>,
                     deltas: map<string, PerSensor>, later: int, earlier: int)
    requires SameRules(p, q) && fewer <= more
    ensures Severeness(SuiteFor(q, more, earlier, deltas).status)
         <= Severeness(SuiteFor(p, fewer, later, deltas).status)
  {
    var ids := SortedNames(deltas.Keys);
    ResultsNoWorse(p, q, fewer, more, deltas, ids);
    StatusNoWorse(p, q, ResultsFor(q, more, deltas, ids), ResultsFor(p, fewer, deltas, ids));
  }

  /** Adding genuine suppressions, or asking as of an earlier day, never raises the status. */
  lemma SuppressingNeverRaises(p: Option<Policy>, q: Option<Policy>, digest: Digest,
                               baseline: SensorState, candidate: SensorState, later: int, earlier: int)
    requires SameRules(p, q) && earlier <= later
    requires forall s | s in SuppressionsOf(p) :: s in SuppressionsOf(q)
    requires AllGenuine(q, digest)
    ensures var before, after := Evaluation(p, digest, baseline, candidate, later),
                                 Evaluation(q, digest, baseline, candidate, earlier);
      && (before.Ok? <==> after.Ok?)
      && (before.Ok? ==> Severeness(after.value.status) <= Severeness(before.value.status))
  {
    MoreActive(SuppressionsOf(p), SuppressionsOf(q), later, earlier);
    assert AllGenuine(p, digest);
    if IsComparable(baseline) && IsComparable(candidate) {
      SuiteNoWorse(p, q, ActiveIds(SuppressionsOf(p), later), ActiveIds(SuppressionsOf(q), earlier),
                   DeltasFor(p, baseline, candidate), later, earlier);
    }
  }

  lemma MoreActive(fewer: seq<Suppression>, more: seq<Suppression>, later: int, earlier: int)
    requires earlier <= later && forall s | s in fewer :: s in more
    ensures ActiveIds(fewer, later) <= ActiveIds(more, earlier)
  {
  }

  // ---- isolation of advisory sensors ----

  /** Adding silent advisory sensors to either state changes nothing at all. */
  lemma AdvisersChangeNothing(policy: Option<Policy>, digest: Digest, baseline: SensorState, candidate: SensorState,
                              asOf: int, toBaseline: map<string, Provenance>, toCandidate: map<string, Provenance>)
    requires AreSilentAdvisers(baseline, toBaseline) && AreSilentAdvisers(candidate, toCandidate)
    ensures Evaluation(policy, digest, baseline.(provenance := baseline.provenance + toBaseline),
                       candidate.(provenance := candidate.provenance + toCandidate), asOf)
         == Evaluation(policy, digest, baseline, candidate, asOf)
  {
    AdvisersVanish(baseline, toBaseline);
    AdvisersVanish(candidate, toCandidate);
  }

  // ---- drift ----

  lemma FewerFieldsNotWorse(b: SensorState, c: SensorState, fewer: set<DriftField>, more: set<DriftField>, id: string)
    requires fewer <= more
    ensures DeltaOf(b, c, more, id).status != Unknown ==> DeltaOf(b, c, fewer, id) == DeltaOf(b, c, more, id)
  {
  }

  /** Watching fewer provenance fields never raises the status, though it may reveal findings. */
  lemma LooserDriftNeverRaises(policy: Option<Policy>, active: set<string>, asOf: int, b: SensorState, c: SensorState,
                               fewer: set<DriftField>, more: set<DriftField>)
    requires fewer <= more
    ensures Severeness(SuiteFor(policy, active, asOf, Deltas(b, c, fewer)).status)
         <= Severeness(SuiteFor(policy, active, asOf, Deltas(b, c, more)).status)
  {
    var strict, loose := Deltas(b, c, more), Deltas(b, c, fewer);
    assert strict.Keys == loose.Keys;
    var ids := SortedNames(strict.Keys);
    if !HasStatus(ResultsFor(policy, active, strict, ids), Unknown) {
      NothingUnknown(policy, active, b, c, fewer, more, ids);
    }
    UnknownOrSame(policy, active, asOf, strict, loose);
  }

  lemma UnknownOrSame(policy: Option<Policy>, active: set<string>, asOf: int,
                      strict: map<string, PerSensor>, loose: map<string, PerSensor>)
    requires strict.Keys == loose.Keys
    requires var ids := SortedNames(strict.Keys);
      HasStatus(ResultsFor(policy, active, strict, ids), Unknown)
      || ResultsFor(policy, active, loose, ids) == ResultsFor(policy, active, strict, ids)
    ensures Severeness(SuiteFor(policy, active, asOf, loose).status)
         <= Severeness(SuiteFor(policy, active, asOf, strict).status)
  {
  }

  lemma NothingUnknown(policy: Option<Policy>, active: set<string>, b: SensorState, c: SensorState,
                       fewer: set<DriftField>, more: set<DriftField>, ids: seq<string>)
    requires fewer <= more
    requires forall id | id in ids :: id in Deltas(b, c, more)
    requires !HasStatus(ResultsFor(policy, active, Deltas(b, c, more), ids), Unknown)
    ensures ResultsFor(policy, active, Deltas(b, c, fewer), ids) == ResultsFor(policy, active, Deltas(b, c, more), ids)
  {
    forall i | 0 <= i < |ids|
      ensures ResultsFor(policy, active, Deltas(b, c, fewer), ids)[i]
           == ResultsFor(policy, active, Deltas(b, c, more), ids)[i]
    {
      assert ResultsFor(policy, active, Deltas(b, c, more), ids)[i].status != Unknown;
      FewerFieldsNotWorse(b, c, fewer, more, ids[i]);
    }
  }
}
