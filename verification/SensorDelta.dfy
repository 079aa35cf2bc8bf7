/** The security sensor delta: findings compared by canonical id, sensor by sensor. */
module SensorDelta {
  import opened Values
  import opened Ordering

  datatype Severity = Critical | High | Medium | Low | Info

  datatype Detail = Sast(ruleId: string) | Sca | Llm

  datatype Finding = Finding(sensorId: string, canonicalId: string, severity: Severity, detail: Detail)

  datatype RunStatus = Complete | Errored | TimedOut | Skipped

  datatype Provenance = Provenance(
    sensorVersion: string, adapterVersion: string, identityAlgorithm: string,
    rulesetHash: Option<string>, advisoryDbHash: Option<string>,
    nonReproducible: bool, status: RunStatus, errorMessage: Option<string>
  )

  datatype SensorState = SensorState(provenance: map<string, Provenance>, findings: seq<Finding>)

  datatype Status = Pass | Fail | Unknown

  function Severeness(s: Status): nat {
    match s case Pass => 0 case Fail => 1 case Unknown => 2
  }

  /** `aggregate_status`: the most severe status, or pass. */
  function AggregateStatus(statuses: seq<Status>): (r: Status)
    ensures forall s | s in statuses :: Severeness(s) <= Severeness(r)
    ensures r == Pass || r in statuses
  {
    if Unknown in statuses then Unknown else if Fail in statuses then Fail else Pass
  }

  // ---- drift ----

  datatype DriftField = RulesetHash | AdvisoryDbHash | AdapterVersion | IdentityAlgorithm | SensorVersion

  const DefaultDriftFields := {RulesetHash, AdvisoryDbHash, AdapterVersion, IdentityAlgorithm}

  function FieldOfProvenance(p: Provenance, field: DriftField): Option<string> {
    match field
    case RulesetHash => p.rulesetHash
    case AdvisoryDbHash => p.advisoryDbHash
    case AdapterVersion => Some(p.adapterVersion)
    case IdentityAlgorithm => Some(p.identityAlgorithm)
    case SensorVersion => Some(p.sensorVersion)
  }

  datatype Reason = OneSided | Changed(fields: set<DriftField>) | Incomplete(message: string)

  predicate Differs(b: Provenance, c: Provenance, field: DriftField) {
    FieldOfProvenance(b, field) != FieldOfProvenance(c, field)
  }

  /** `_provenance_drift_reason`. */
  function DriftReason(b: Option<Provenance>, c: Option<Provenance>, fields: set<DriftField>): (r: Option<Reason>)
    ensures r.None? <==> b.Some? && c.Some? && forall x | x in fields :: !Differs(b.value, c.value, x)
  {
    if b.None? || c.None? then Some(OneSided)
    else
      var changed := set x | x in fields && Differs(b.value, c.value, x);
      assert forall x | x in fields :: Differs(b.value, c.value, x) <==> x in changed;
      if changed == {} then None else Some(Changed(changed))
  }

  function OrElse(message: Option<string>, otherwise: string): string {
    if message.Some? && message.value != "" then message.value else otherwise
  }

  // ---- one sensor ----

  datatype PerSensor = PerSensor(
    sensorId: string, status: Status, added: seq<Finding>, removed: seq<Finding>,
    unchangedCount: nat, provenanceChanged: bool, reason: Option<Reason>
  )

  /** `_findings_for_sensor`. */
  function FindingsFor(findings: seq<Finding>, id: string): (r: seq<Finding>)
    ensures forall f :: f in r <==> f in findings && f.sensorId == id
  {
    if findings == [] then []
    else
      FindingsFor(findings[..|findings| - 1], id)
      + (if findings[|findings| - 1].sensorId == id then [findings[|findings| - 1]] else [])
  }

  /** Findings by canonical id. */
  function ById(findings: seq<Finding>): (m: map<string, Finding>)
    ensures forall k :: k in m <==> exists f :: f in findings && f.canonicalId == k
    ensures forall k | k in m :: m[k] in findings && m[k].canonicalId == k
  {
    if findings == [] then map[]
    else
      var init, last := findings[..|findings| - 1], findings[|findings| - 1];
      assert findings == init + [last];
      ById(init)[last.canonicalId := last]
  }

  function At(m: map<string, Finding>, ids: seq<string>): (r: seq<Finding>)
    requires forall k | k in ids :: k in m
    ensures |r| == |ids| && forall i | 0 <= i < |ids| :: r[i] == m[ids[i]]
  {
    if ids == [] then [] else [m[ids[0]]] + At(m, ids[1..])
  }

  function Difference(m: map<string, Finding>, other: map<string, Finding>): seq<Finding> {
    At(m, SortedNames(m.Keys - other.Keys))
  }

  predicate IsFailing(f: Finding) { f.severity != Info }

  function Lookup(m: map<string, Provenance>, id: string): Option<Provenance> {
    if id in m then Some(m[id]) else None
  }

  /** The delta of a sensor that completed on both sides. */
  function Compared(id: string, added: seq<Finding>, removed: seq<Finding>, kept: nat): PerSensor {
    PerSensor(id, if exists f :: f in added && IsFailing(f) then Fail else Pass, added, removed, kept, false, None)
  }

  /** `_per_sensor_delta`. */
  function PerSensorDelta(id: string, b: Option<Provenance>, c: Option<Provenance>,
                          baseline: seq<Finding>, candidate: seq<Finding>, fields: set<DriftField>): PerSensor
  {
    var drift := DriftReason(b, c, fields);
    if drift.Some? then PerSensor(id, Unknown, [], [], 0, true, drift)
    else if b.value.status != Complete || c.value.status != Complete then
      PerSensor(id, Unknown, [], [], 0, false,
                Some(Incomplete(OrElse(c.value.errorMessage, OrElse(b.value.errorMessage, "sensor did not complete")))))
    else
      var before, after := ById(baseline), ById(candidate);
      Compared(id, Difference(after, before), Difference(before, after), |before.Keys * after.Keys|)
  }

  // ---- the whole delta ----

  datatype Rejection = BadSuppression | LlmFinding | MixedAdvisory

  datatype Outcome<+T> = Ok(value: T) | Err(rejection: Rejection)

  predicate HasLlm(s: SensorState) {
    exists f :: f in s.findings && f.detail.Llm?
  }

  function Advisory(s: SensorState): set<string> {
    set id | id in s.provenance && s.provenance[id].nonReproducible
  }

  /** A finding on an advisory sensor; LLM findings have been rejected before this is asked. */
  predicate IsMixed(s: SensorState) {
    exists f :: f in s.findings && f.sensorId in Advisory(s) && !f.detail.Llm?
  }

  function Keep(findings: seq<Finding>, without: set<string>): seq<Finding> {
    if findings == [] then []
    else
      Keep(findings[..|findings| - 1], without)
      + (if findings[|findings| - 1].sensorId in without then [] else [findings[|findings| - 1]])
  }

  /** `_without_advisory_data`, for a state that is not mixed. */
  function WithoutAdvisory(s: SensorState): SensorState {
    if Advisory(s) == {} then s
    else SensorState(s.provenance - Advisory(s), Keep(s.findings, Advisory(s)))
  }

  /** The delta of one sensor, between states without advisory data. */
  function DeltaOf(b: SensorState, c: SensorState, fields: set<DriftField>, id: string): PerSensor {
    PerSensorDelta(id, Lookup(b.provenance, id), Lookup(c.provenance, id),
                   FindingsFor(b.findings, id), FindingsFor(c.findings, id), fields)
  }

  function SensorIds(b: SensorState, c: SensorState): seq<string> {
    SortedNames(b.provenance.Keys + c.provenance.Keys)
  }

  function Deltas(b: SensorState, c: SensorState, fields: set<DriftField>): map<string, PerSensor> {
    map id | id in b.provenance.Keys + c.provenance.Keys :: DeltaOf(b, c, fields, id)
  }

  predicate IsComparable(s: SensorState) { !HasLlm(s) && !IsMixed(s) }

  /** `compute_security_delta`. */
  method ComputeSecurityDelta(baseline: SensorState, candidate: SensorState, fields: set<DriftField>)
    returns (r: Outcome<map<string, PerSensor>>)
    ensures r.Ok? <==> IsComparable(baseline) && IsComparable(candidate)
    ensures r.Ok? ==> r.value == Deltas(WithoutAdvisory(baseline), WithoutAdvisory(candidate), fields)
    ensures r.Err? ==> r.rejection == if HasLlm(baseline) || HasLlm(candidate) then LlmFinding else MixedAdvisory
  {
    if HasLlm(baseline) || HasLlm(candidate) {
      return Err(LlmFinding);
    }
    if IsMixed(baseline) || IsMixed(candidate) {
      return Err(MixedAdvisory);
    }
    var b, c := WithoutAdvisory(baseline), WithoutAdvisory(candidate);
    var deltas := BuildDeltas(b, c, fields, SensorIds(b, c));
    return Ok(deltas);
  }

  /** The loop that fills the per-sensor deltas. */
  method BuildDeltas(b: SensorState, c: SensorState, fields: set<DriftField>, ids: seq<string>)
    returns (deltas: map<string, PerSensor>)
    ensures deltas == map id | id in ids :: DeltaOf(b, c, fields, id)
  {
    deltas := map[];
    for i := 0 to |ids|
      invariant deltas == map id | id in ids[..i] :: DeltaOf(b, c, fields, id)
    {
      var d := DeltaOf(b, c, fields, ids[i]);
      assert ids[..i + 1] == ids[..i] + [ids[i]];
      deltas := deltas[ids[i] := d];
    }
    assert ids[..|ids|] == ids;
  }

  // ---- laws ----

  lemma AtMembers(m: map<string, Finding>, ids: seq<string>, f: Finding)
    requires forall k | k in ids :: k in m && m[k].canonicalId == k
    ensures f in At(m, ids) <==> f.canonicalId in ids && m[f.canonicalId] == f
  {
    if f.canonicalId in ids && m[f.canonicalId] == f {
      var i :| 0 <= i < |ids| && ids[i] == f.canonicalId;
      assert At(m, ids)[i] == f;
    }
  }

  lemma DifferenceMembers(m: map<string, Finding>, other: map<string, Finding>, f: Finding)
    requires forall k | k in m :: m[k].canonicalId == k
    ensures f in Difference(m, other) <==>
              (f.canonicalId in m && m[f.canonicalId] == f && f.canonicalId !in other)
  {
    AtMembers(m, SortedNames(m.Keys - other.Keys), f);
  }

  lemma DifferenceOwned(candidate: seq<Finding>, baseline: seq<Finding>, id: string)
    requires forall f | f in candidate :: f.sensorId == id
    ensures forall f | f in Difference(ById(candidate), ById(baseline)) :: f.sensorId == id
  {
    forall f | f in Difference(ById(candidate), ById(baseline)) ensures f.sensorId == id {
      DifferenceMembers(ById(candidate), ById(baseline), f);
    }
  }

  /** What `PerSensorDelta` validates, and that an unknown delta is empty. */
  ghost predicate IsValidDelta(d: PerSensor, id: string) {
    && d.sensorId == id
    && (d.provenanceChanged ==> d.status == Unknown)
    && (forall f | f in d.added :: f.sensorId == id)
    && (forall f | f in d.removed :: f.sensorId == id)
    && (d.status == Unknown <==> d.reason.Some?)
    && (d.status == Pass ==> forall f | f in d.added :: !IsFailing(f))
    && (d.status == Fail ==> exists f :: f in d.added && IsFailing(f))
    && (d.status == Unknown ==> d.added == [] && d.removed == [])
  }

  lemma ComparedIsValid(id: string, added: seq<Finding>, removed: seq<Finding>, kept: nat)
    requires forall f | f in added :: f.sensorId == id
    requires forall f | f in removed :: f.sensorId == id
    ensures IsValidDelta(Compared(id, added, removed, kept), id)
  {
  }

  /** Every delta is valid, so building one never raises. */
  lemma DeltaValidates(b: SensorState, c: SensorState, fields: set<DriftField>, id: string)
    ensures IsValidDelta(DeltaOf(b, c, fields, id), id)
  {
    var before, after := FindingsFor(b.findings, id), FindingsFor(c.findings, id);
    DifferenceOwned(after, before, id);
    DifferenceOwned(before, after, id);
    ComparedIsValid(id, Difference(ById(after), ById(before)), Difference(ById(before), ById(after)),
                    |ById(before).Keys * ById(after).Keys|);
  }

  /** Ids are unique in a sensor state. */
  predicate UniqueIds(findings: seq<Finding>) {
    forall i, j | 0 <= i < j < |findings| :: findings[i].canonicalId != findings[j].canonicalId
  }

  /** A sensor of the state reports a canonical id. */
  ghost predicate Reports(s: SensorState, id: string, canonicalId: string) {
    exists g :: g in s.findings && g.sensorId == id && g.canonicalId == canonicalId
  }

  /** On a sensor without drift, a finding is added exactly when only the candidate reports its id,
      and removed exactly when only the baseline does. */
  lemma DeltaByIdentity(b: SensorState, c: SensorState, fields: set<DriftField>, id: string, f: Finding)
    requires UniqueIds(b.findings) && UniqueIds(c.findings)
    ensures DeltaOf(b, c, fields, id).status != Unknown ==>
              (f in DeltaOf(b, c, fields, id).added <==>
                f in c.findings && f.sensorId == id && !Reports(b, id, f.canonicalId))
    ensures DeltaOf(b, c, fields, id).status != Unknown ==>
              (f in DeltaOf(b, c, fields, id).removed <==>
                f in b.findings && f.sensorId == id && !Reports(c, id, f.canonicalId))
  {
    if DeltaOf(b, c, fields, id).status != Unknown {
      var before, after := ById(FindingsFor(b.findings, id)), ById(FindingsFor(c.findings, id));
      KnownIsCompared(b, c, fields, id);
      DifferenceMembers(after, before, f);
      DifferenceMembers(before, after, f);
      HeldUnderId(b.findings, id, f);
      HeldUnderId(c.findings, id, f);
    }
  }

  lemma HeldUnderId(findings: seq<Finding>, id: string, f: Finding)
    requires UniqueIds(findings)
    ensures var m := ById(FindingsFor(findings, id));
      (f.canonicalId in m && m[f.canonicalId] == f) <==> f in findings && f.sensorId == id
    ensures f.canonicalId in ById(FindingsFor(findings, id)) <==>
              exists g :: g in findings && g.sensorId == id && g.canonicalId == f.canonicalId
  {
    var own := FindingsFor(findings, id);
    if f in findings && f.sensorId == id {
      assert f in own;
      var g := ById(own)[f.canonicalId];
      assert g in findings && g.canonicalId == f.canonicalId;
      var i :| 0 <= i < |findings| && findings[i] == f;
      var j :| 0 <= j < |findings| && findings[j] == g;
      assert i == j;
    }
    if exists g :: g in findings && g.sensorId == id && g.canonicalId == f.canonicalId {
      var g :| g in findings && g.sensorId == id && g.canonicalId == f.canonicalId;
      assert g in own;
    }
  }

  lemma {:induction false} ByIdSize(findings: seq<Finding>)
    requires UniqueIds(findings)
    ensures |ById(findings)| == |findings|
  {
    if findings != [] {
      var init, last := findings[..|findings| - 1], findings[|findings| - 1];
      ByIdSize(init);
      assert last.canonicalId !in ById(init);
      assert ById(findings).Keys == ById(init).Keys + {last.canonicalId};
      assert |ById(findings).Keys| == |ById(findings)| && |ById(init).Keys| == |ById(init)|;
    }
  }

  lemma {:induction false} FindingsForUnique(findings: seq<Finding>, id: string)
    requires UniqueIds(findings)
    ensures UniqueIds(FindingsFor(findings, id))
  {
    if findings != [] {
      FindingsForUnique(findings[..|findings| - 1], id);
    }
  }

  lemma DifferenceSize(m: map<string, Finding>, other: map<string, Finding>)
    ensures |Difference(m, other)| + |m.Keys * other.Keys| == |m|
  {
    var only, both := m.Keys - other.Keys, m.Keys * other.Keys;
    assert m.Keys == only + both && only !! both;
    assert |m.Keys| == |m|;
  }

  lemma MapsConserve(before: map<string, Finding>, after: map<string, Finding>)
    ensures |Difference(after, before)| + |before.Keys * after.Keys| == |after|
    ensures |Difference(before, after)| + |before.Keys * after.Keys| == |before|
  {
    DifferenceSize(before, after);
    DifferenceSize(after, before);
    assert before.Keys * after.Keys == after.Keys * before.Keys;
  }

  lemma KnownIsCompared(b: SensorState, c: SensorState, fields: set<DriftField>, id: string)
    requires DeltaOf(b, c, fields, id).status != Unknown
    ensures var before, after := ById(FindingsFor(b.findings, id)), ById(FindingsFor(c.findings, id));
      DeltaOf(b, c, fields, id)
      == Compared(id, Difference(after, before), Difference(before, after), |before.Keys * after.Keys|)
  {
  }

  lemma OwnSize(findings: seq<Finding>, id: string)
    requires UniqueIds(findings)
    ensures |ById(FindingsFor(findings, id))| == |FindingsFor(findings, id)|
  {
    FindingsForUnique(findings, id);
    ByIdSize(FindingsFor(findings, id));
  }

  /** Conservation on a sensor without drift: what is added or unchanged is what the candidate reports,
      and what is removed or unchanged is what the baseline reported. */
  lemma DeltaConserves(b: SensorState, c: SensorState, fields: set<DriftField>, id: string)
    requires UniqueIds(b.findings) && UniqueIds(c.findings)
    ensures var d := DeltaOf(b, c, fields, id);
      d.status != Unknown ==>
        && |d.added| + d.unchangedCount == |FindingsFor(c.findings, id)|
        && |d.removed| + d.unchangedCount == |FindingsFor(b.findings, id)|
  {
    if DeltaOf(b, c, fields, id).status != Unknown {
      KnownIsCompared(b, c, fields, id);
      OwnSize(b.findings, id);
      OwnSize(c.findings, id);
      MapsConserve(ById(FindingsFor(b.findings, id)), ById(FindingsFor(c.findings, id)));
    }
  }

  // ---- advisory isolation ----

  lemma {:induction false} KeepIgnoresUnused(findings: seq<Finding>, s: set<string>, t: set<string>)
    requires forall f | f in findings :: f.sensorId in s <==> f.sensorId in t
    ensures Keep(findings, s) == Keep(findings, t)
  {
    if findings != [] {
      KeepIgnoresUnused(findings[..|findings| - 1], s, t);
    }
  }

  lemma {:induction false} KeepAll(findings: seq<Finding>)
    ensures Keep(findings, {}) == findings
  {
    if findings != [] { KeepAll(findings[..|findings| - 1]); }
  }

  /** Sensors that are advisory, new to the state, and without findings in it. */
  ghost predicate AreSilentAdvisers(s: SensorState, extra: map<string, Provenance>) {
    && (forall id | id in extra :: extra[id].nonReproducible && id !in s.provenance)
    && (forall f | f in s.findings :: f.sensorId !in extra)
  }

  /** Adding silent advisory sensors leaves what the delta sees unchanged. */
  lemma AdvisersVanish(s: SensorState, extra: map<string, Provenance>)
    requires AreSilentAdvisers(s, extra)
    ensures var t := s.(provenance := s.provenance + extra);
      WithoutAdvisory(t) == WithoutAdvisory(s) && (IsComparable(t) <==> IsComparable(s)) && (HasLlm(t) <==> HasLlm(s))
  {
    var t := s.(provenance := s.provenance + extra);
    assert Advisory(t) == Advisory(s) + extra.Keys;
    assert t.provenance - Advisory(t) == s.provenance - Advisory(s);
    KeepIgnoresUnused(s.findings, Advisory(s), Advisory(t));
    KeepAll(s.findings);
    if Advisory(s) == {} { assert s.provenance - {} == s.provenance; }
    assert IsMixed(t) <==> IsMixed(s);
  }
}
