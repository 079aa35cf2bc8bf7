/**
  The outcome of the security suite read off the two sensor states and the policy itself: which
  sensors cannot be compared, which added findings count, and what the policy makes of them.
 */
module SecurityVerdicts {
  import opened Values
  import opened Ordering
  import opened SensorDelta
  import opened SecuritySuite

  // ---- the policy ----

  function SuppressionsIn(policy: Option<Policy>): seq<Suppression> {
    match policy
    case Some(p) => p.suppressions
    case None => []
  }

  /** The suppression does not carry the id of its identity components. */
  predicate HasForeignId(s: Suppression, digest: Digest) {
    s.identity == [] || s.canonicalId != s.identity[0] + ":" + digest(s.identity)
  }

  predicate IsForged(policy: Option<Policy>, digest: Digest) {
    exists i :: 0 <= i < |SuppressionsIn(policy)| && HasForeignId(SuppressionsIn(policy)[i], digest)
  }

  /** Some suppression of the finding runs at least until the day asked about. */
  predicate Excused(policy: Option<Policy>, asOf: int, canonicalId: string) {
    exists i :: 0 <= i < |SuppressionsIn(policy)|
      && SuppressionsIn(policy)[i].canonicalId == canonicalId && asOf <= SuppressionsIn(policy)[i].expires
  }

  /** The severities the policy lists, or everything above informational when it lists none. */
  predicate IsSevere(policy: Option<Policy>, severity: Severity) {
    match policy
    case Some(Policy(_, _, _, Some(AddedPolicy(Some(listed), _)))) =>
      if listed == {} then severity != Info else severity in listed
    case _ => severity != Info
  }

  /** A rule that may not add findings. */
  predicate IsDenied(policy: Option<Policy>, detail: Detail) {
    match policy
    case Some(Policy(_, _, Some(rules), _)) => detail.Sast? && detail.ruleId in rules
    case _ => false
  }

  predicate IsTooMany(policy: Option<Policy>, n: nat) {
    match policy
    case Some(Policy(_, _, _, Some(AddedPolicy(_, Some(max))))) => n > max
    case _ => false
  }

  /** Provenance that the policy does not let compare; versions of adapter and identity always count. */
  predicate Drifts(policy: Option<Policy>, b: Provenance, c: Provenance) {
    || b.adapterVersion != c.adapterVersion
    || b.identityAlgorithm != c.identityAlgorithm
    || match policy
       case Some(Policy(_, Some(Scanner(ruleset, version, advisories)), _, _)) =>
         || (ruleset && b.rulesetHash != c.rulesetHash)
         || (version && b.sensorVersion != c.sensorVersion)
         || (advisories && b.advisoryDbHash != c.advisoryDbHash)
       case _ => b.rulesetHash != c.rulesetHash || b.advisoryDbHash != c.advisoryDbHash
  }

  lemma DriftsExactly(policy: Option<Policy>, b: Provenance, c: Provenance)
    ensures Drifts(policy, b, c) <==> exists x :: x in DriftFields(policy) && Differs(b, c, x)
  {
    var fields := DriftFields(policy);
    assert AdapterVersion in fields && IdentityAlgorithm in fields;
    if b.adapterVersion != c.adapterVersion { assert Differs(b, c, AdapterVersion); }
    if b.identityAlgorithm != c.identityAlgorithm { assert Differs(b, c, IdentityAlgorithm); }
    if RulesetHash in fields && b.rulesetHash != c.rulesetHash { assert Differs(b, c, RulesetHash); }
    if SensorVersion in fields && b.sensorVersion != c.sensorVersion { assert Differs(b, c, SensorVersion); }
    if AdvisoryDbHash in fields && b.advisoryDbHash != c.advisoryDbHash { assert Differs(b, c, AdvisoryDbHash); }
  }

  lemma OffendsExactly(policy: Option<Policy>, f: Finding)
    ensures Offends(policy, f) <==> IsSevere(policy, f.severity) || IsDenied(policy, f.detail)
  {
  }

  lemma ExcusedExactly(policy: Option<Policy>, asOf: int, canonicalId: string)
    ensures canonicalId in ActiveIds(SuppressionsOf(policy), asOf) <==> Excused(policy, asOf, canonicalId)
  {
    var ss := SuppressionsIn(policy);
    if canonicalId in ActiveIds(SuppressionsOf(policy), asOf) {
      var s :| s in ss && s.expires >= asOf && s.canonicalId == canonicalId;
      var i :| 0 <= i < |ss| && ss[i] == s;
      assert ss[i].canonicalId == canonicalId;
    }
  }

  lemma ForgedExactly(policy: Option<Policy>, digest: Digest)
    ensures AllGenuine(policy, digest) <==> !IsForged(policy, digest)
  {
    var ss := SuppressionsIn(policy);
    if !AllGenuine(policy, digest) {
      var s :| s in ss && !IsGenuine(s, digest);
      var i :| 0 <= i < |ss| && ss[i] == s;
      assert HasForeignId(ss[i], digest);
    }
    if IsForged(policy, digest) {
      var i :| 0 <= i < |ss| && HasForeignId(ss[i], digest);
      assert ss[i] in SuppressionsOf(policy) && !IsGenuine(ss[i], digest);
    }
  }

  // ---- sensors that take part ----

  /** The state has the sensor, and its results can be reproduced. */
  predicate TakesPart(s: SensorState, id: string) { id in s.provenance && !s.provenance[id].nonReproducible }

  lemma {:induction false} KeepMembers(findings: seq<Finding>, without: set<string>, f: Finding)
    ensures f in Keep(findings, without) <==> f in findings && f.sensorId !in without
  {
    if findings != [] {
      KeepMembers(findings[..|findings| - 1], without, f);
      assert findings == findings[..|findings| - 1] + [findings[|findings| - 1]];
    }
  }

  /** Leaving advisory sensors out keeps the others with their findings. */
  lemma PartOf(s: SensorState, id: string)
    ensures id in WithoutAdvisory(s).provenance <==> TakesPart(s, id)
    ensures TakesPart(s, id) ==> WithoutAdvisory(s).provenance[id] == s.provenance[id]
    ensures TakesPart(s, id) ==>
              forall f: Finding | f.sensorId == id :: f in WithoutAdvisory(s).findings <==> f in s.findings
  {
    assert id in s.provenance && !TakesPart(s, id) ==> id in Advisory(s);
    if TakesPart(s, id) {
      forall f: Finding | f.sensorId == id ensures f in WithoutAdvisory(s).findings <==> f in s.findings {
        KeepMembers(s.findings, Advisory(s), f);
      }
    }
  }

  lemma {:induction false} KeepUnique(findings: seq<Finding>, without: set<string>)
    requires UniqueIds(findings)
    ensures UniqueIds(Keep(findings, without))
  {
    if findings != [] {
      var init, last := findings[..|findings| - 1], findings[|findings| - 1];
      KeepUnique(init, without);
      forall f | f in Keep(init, without) ensures f.canonicalId != last.canonicalId {
        KeepMembers(init, without, f);
      }
    }
  }

  lemma PartUnique(s: SensorState)
    requires UniqueIds(s.findings)
    ensures UniqueIds(WithoutAdvisory(s).findings)
  {
    KeepUnique(s.findings, Advisory(s));
  }

  /** A sensor whose two runs cannot be compared. */
  predicate IsUncertain(policy: Option<Policy>, b: SensorState, c: SensorState, id: string) {
    || (TakesPart(b, id) && !TakesPart(c, id))
    || (TakesPart(c, id) && !TakesPart(b, id))
    || (TakesPart(b, id) && TakesPart(c, id)
        && (|| Drifts(policy, b.provenance[id], c.provenance[id])
            || b.provenance[id].status != Complete || c.provenance[id].status != Complete))
  }

  /** A finding that counts against the candidate: new on a compared sensor, and not excused. */
  ghost predicate Counts(policy: Option<Policy>, asOf: int, b: SensorState, c: SensorState, f: Finding) {
    && f in c.findings && TakesPart(b, f.sensorId) && TakesPart(c, f.sensorId)
    && !Reports(b, f.sensorId, f.canonicalId) && !Excused(policy, asOf, f.canonicalId)
  }

  lemma UnknownExactly(policy: Option<Policy>, b: SensorState, c: SensorState, id: string)
    requires id in DeltasFor(policy, b, c)
    ensures DeltasFor(policy, b, c)[id].status == Unknown <==> IsUncertain(policy, b, c, id)
  {
    PartOf(b, id);
    PartOf(c, id);
    if TakesPart(b, id) && TakesPart(c, id) { DriftsExactly(policy, b.provenance[id], c.provenance[id]); }
  }

  lemma ReportsAlike(s: SensorState, id: string, canonicalId: string)
    requires TakesPart(s, id)
    ensures Reports(WithoutAdvisory(s), id, canonicalId) <==> Reports(s, id, canonicalId)
  {
    PartOf(s, id);
  }

  /** What a known sensor leaves after suppression is what counts of it. */
  lemma AddedExactly(policy: Option<Policy>, asOf: int, b: SensorState, c: SensorState, id: string, f: Finding)
    requires UniqueIds(b.findings) && UniqueIds(c.findings)
    requires id in DeltasFor(policy, b, c) && DeltasFor(policy, b, c)[id].status != Unknown
    ensures f in DeltasFor(policy, b, c)[id].added && f.canonicalId !in ActiveIds(SuppressionsOf(policy), asOf)
       <==> f.sensorId == id && Counts(policy, asOf, b, c, f)
  {
    UnknownExactly(policy, b, c, id);
    PartUnique(b);
    PartUnique(c);
    PartOf(b, id);
    PartOf(c, id);
    DeltaByIdentity(WithoutAdvisory(b), WithoutAdvisory(c), DriftFields(policy), id, f);
    ReportsAlike(b, id, f.canonicalId);
    ExcusedExactly(policy, asOf, f.canonicalId);
  }

  // ---- counting ----

  lemma {:induction false} UniqueSize(fs: seq<Finding>)
    requires UniqueIds(fs)
    ensures |set f | f in fs| == |fs|
  {
    if fs != [] {
      var init, last := fs[..|fs| - 1], fs[|fs| - 1];
      UniqueSize(init);
      assert fs == init + [last];
      assert last !in init;
      assert (set f | f in fs) == (set f | f in init) + {last};
    }
  }

  lemma {:induction false} FilterUnique(fs: seq<Finding>, keep: Finding -> bool)
    requires UniqueIds(fs)
    ensures UniqueIds(Filter(fs, keep))
  {
    if fs != [] {
      FilterUnique(fs[1..], keep);
      FilterMembers(fs[1..], keep);
      assert forall f | f in fs[1..] :: f.canonicalId != fs[0].canonicalId;
    }
  }

  lemma AtUnique(m: map<string, Finding>, ids: seq<string>)
    requires forall k | k in m :: m[k].canonicalId == k
    requires (forall id | id in ids :: id in m) && forall i, j | 0 <= i < j < |ids| :: ids[i] != ids[j]
    ensures UniqueIds(At(m, ids))
  {
    var r := At(m, ids);
    forall i, j | 0 <= i < j < |r| ensures r[i].canonicalId != r[j].canonicalId {
      assert ids[i] in ids && ids[j] in ids;
    }
  }

  lemma DifferenceUnique(m: map<string, Finding>, other: map<string, Finding>)
    requires forall k | k in m :: m[k].canonicalId == k
    ensures UniqueIds(Difference(m, other))
  {
    var ids := SortedNames(m.Keys - other.Keys);
    SortedNamesAscend(m.Keys - other.Keys);
    AtUnique(m, ids);
  }

  lemma AddedUnique(b: SensorState, c: SensorState, fields: set<DriftField>, id: string)
    ensures UniqueIds(DeltaOf(b, c, fields, id).added)
  {
    DeltaValidates(b, c, fields, id);
    if DeltaOf(b, c, fields, id).status != Unknown {
      KnownIsCompared(b, c, fields, id);
      DifferenceUnique(ById(FindingsFor(c.findings, id)), ById(FindingsFor(b.findings, id)));
    }
  }

  function OnSensors(all: set<Finding>, ids: seq<string>): set<Finding> { set f | f in all && f.sensorId in ids }

  /** A known sensor delta whose findings left after suppression are the sensor's share of a set. */
  ghost predicate Shares(d: PerSensor, active: set<string>, all: set<Finding>, id: string) {
    && d.status != Unknown && UniqueIds(d.added)
    && forall f :: f in d.added && f.canonicalId !in active <==> f.sensorId == id && f in all
  }

  lemma ShareSize(policy: Option<Policy>, active: set<string>, d: PerSensor, all: set<Finding>, id: string)
    requires Shares(d, active, all, id)
    ensures |ResultFor(policy, active, d).added| == |OnSensors(all, [id])|
  {
    var added := Unsuppressed(d.added, active);
    FilterUnique(d.added, IsInactive(active));
    UniqueSize(added);
    assert (set f | f in added) == OnSensors(all, [id]);
  }

  lemma OnSensorsSplit(all: set<Finding>, init: seq<string>, last: string)
    requires last !in init
    ensures |OnSensors(all, init + [last])| == |OnSensors(all, init)| + |OnSensors(all, [last])|
  {
    assert OnSensors(all, init + [last]) == OnSensors(all, init) + OnSensors(all, [last]);
    assert OnSensors(all, init) !! OnSensors(all, [last]);
  }

  /** The total over the sensors is the size of the set they share. */
  lemma {:induction false} TotalShared(policy: Option<Policy>, active: set<string>, deltas: map<string, PerSensor>,
                                       ids: seq<string>, all: set<Finding>)
    requires forall id | id in ids :: id in deltas && Shares(deltas[id], active, all, id)
    requires forall i, j | 0 <= i < j < |ids| :: ids[i] != ids[j]
    ensures TotalAdded(ResultsFor(policy, active, deltas, ids)) == |OnSensors(all, ids)|
  {
    if ids == [] {
      assert OnSensors(all, ids) == {};
    } else {
      var init, last := ids[..|ids| - 1], ids[|ids| - 1];
      assert ids == init + [last];
      TotalShared(policy, active, deltas, init, all);
      ShareSize(policy, active, deltas[last], all, last);
      OnSensorsSplit(all, init, last);
      Append(ResultsFor(policy, active, deltas, init), ResultFor(policy, active, deltas[last]));
      assert ResultsFor(policy, active, deltas, ids)
        == ResultsFor(policy, active, deltas, init) + [ResultFor(policy, active, deltas[last])];
    }
  }

  lemma UnknownAmong(policy: Option<Policy>, active: set<string>, deltas: map<string, PerSensor>, ids: seq<string>)
    requires forall x :: x in ids <==> x in deltas
    ensures HasStatus(ResultsFor(policy, active, deltas, ids), Unknown)
       <==> exists id :: id in deltas && deltas[id].status == Unknown
  {
    var rs := ResultsFor(policy, active, deltas, ids);
    forall i | 0 <= i < |ids|
      ensures ids[i] in deltas && (rs[i].status == Unknown <==> deltas[ids[i]].status == Unknown)
    {
      assert ids[i] in ids;
    }
    if id :| id in deltas && deltas[id].status == Unknown {
      var i :| 0 <= i < |ids| && ids[i] == id;
      assert rs[i].status == Unknown;
    }
  }

  /** The results hold an unknown one exactly when some sensor delta is unknown. */
  lemma UnknownResults(policy: Option<Policy>, active: set<string>, deltas: map<string, PerSensor>)
    ensures HasStatus(ResultsFor(policy, active, deltas, SortedNames(deltas.Keys)), Unknown)
       <==> exists id :: id in deltas && deltas[id].status == Unknown
  {
    var ids := ListNames(deltas.Keys);
    UnknownAmong(policy, active, deltas, ids);
  }

  // ---- the outcome ----

  ghost predicate SomeUncertain(policy: Option<Policy>, b: SensorState, c: SensorState) {
    exists id :: IsUncertain(policy, b, c, id)
  }

  /** A finding that counts and that the policy rejects by its severity or its rule. */
  ghost predicate SomeOffence(policy: Option<Policy>, asOf: int, b: SensorState, c: SensorState) {
    exists f :: Counts(policy, asOf, b, c, f) && (IsSevere(policy, f.severity) || IsDenied(policy, f.detail))
  }

  /** All the findings that count. */
  ghost function AllCounted(policy: Option<Policy>, asOf: int, b: SensorState, c: SensorState): set<Finding> {
    set f | f in c.findings && Counts(policy, asOf, b, c, f)
  }

  lemma SensorsCompared(policy: Option<Policy>, b: SensorState, c: SensorState, id: string)
    ensures id in DeltasFor(policy, b, c) <==> TakesPart(b, id) || TakesPart(c, id)
  {
    PartOf(b, id);
    PartOf(c, id);
  }

  lemma UncertainExactly(policy: Option<Policy>, b: SensorState, c: SensorState)
    ensures SomeUncertain(policy, b, c)
       <==> exists id :: id in DeltasFor(policy, b, c) && DeltasFor(policy, b, c)[id].status == Unknown
  {
    if id :| IsUncertain(policy, b, c, id) {
      SensorsCompared(policy, b, c, id);
      UnknownExactly(policy, b, c, id);
    }
    if id :| id in DeltasFor(policy, b, c) && DeltasFor(policy, b, c)[id].status == Unknown {
      UnknownExactly(policy, b, c, id);
    }
  }

  lemma OffenceExactly(policy: Option<Policy>, asOf: int, b: SensorState, c: SensorState)
    requires UniqueIds(b.findings) && UniqueIds(c.findings) && !SomeUncertain(policy, b, c)
    ensures (forall id | id in DeltasFor(policy, b, c) ::
               IsClean(policy, ActiveIds(SuppressionsOf(policy), asOf), DeltasFor(policy, b, c)[id]))
       <==> !SomeOffence(policy, asOf, b, c)
  {
    var deltas, active := DeltasFor(policy, b, c), ActiveIds(SuppressionsOf(policy), asOf);
    UncertainExactly(policy, b, c);
    if id :| id in deltas && !IsClean(policy, active, deltas[id]) {
      var f :| f in deltas[id].added && f.canonicalId !in active && Offends(policy, f);
      AddedExactly(policy, asOf, b, c, id, f);
      OffendsExactly(policy, f);
    }
    if SomeOffence(policy, asOf, b, c) {
      var f :| Counts(policy, asOf, b, c, f) && (IsSevere(policy, f.severity) || IsDenied(policy, f.detail));
      SensorsCompared(policy, b, c, f.sensorId);
      AddedExactly(policy, asOf, b, c, f.sensorId, f);
      OffendsExactly(policy, f);
      assert !IsClean(policy, active, deltas[f.sensorId]);
    }
  }

  lemma SensorShares(policy: Option<Policy>, asOf: int, b: SensorState, c: SensorState, id: string)
    requires UniqueIds(b.findings) && UniqueIds(c.findings) && id in DeltasFor(policy, b, c)
    requires DeltasFor(policy, b, c)[id].status != Unknown
    ensures Shares(DeltasFor(policy, b, c)[id], ActiveIds(SuppressionsOf(policy), asOf),
                   AllCounted(policy, asOf, b, c), id)
  {
    AddedUnique(WithoutAdvisory(b), WithoutAdvisory(c), DriftFields(policy), id);
    forall f ensures f in DeltasFor(policy, b, c)[id].added && f.canonicalId !in ActiveIds(SuppressionsOf(policy), asOf)
                <==> f.sensorId == id && f in AllCounted(policy, asOf, b, c)
    {
      AddedExactly(policy, asOf, b, c, id, f);
    }
  }

  lemma AllShare(policy: Option<Policy>, asOf: int, b: SensorState, c: SensorState, deltas: map<string, PerSensor>,
                 all: set<Finding>)
    requires UniqueIds(b.findings) && UniqueIds(c.findings) && !SomeUncertain(policy, b, c)
    requires deltas == DeltasFor(policy, b, c) && all == AllCounted(policy, asOf, b, c)
    ensures forall id | id in deltas :: Shares(deltas[id], ActiveIds(SuppressionsOf(policy), asOf), all, id)
    ensures forall f | f in all :: f.sensorId in deltas
  {
    UncertainExactly(policy, b, c);
    forall id | id in deltas ensures Shares(deltas[id], ActiveIds(SuppressionsOf(policy), asOf), all, id) {
      SensorShares(policy, asOf, b, c, id);
    }
    forall f | f in all ensures f.sensorId in deltas { SensorsCompared(policy, b, c, f.sensorId); }
  }

  /** The sorted names of a set, as any list of them without repeats. */
  lemma ListNames(s: set<string>) returns (ids: seq<string>)
    ensures ids == SortedNames(s) && (forall x :: x in ids <==> x in s)
    ensures forall i, j | 0 <= i < j < |ids| :: ids[i] != ids[j]
  {
    ids := SortedNames(s);
    SortedNamesAscend(s);
  }

  lemma CountOnAll(policy: Option<Policy>, active: set<string>, deltas: map<string, PerSensor>, ids: seq<string>,
                   all: set<Finding>)
    requires forall id | id in deltas :: Shares(deltas[id], active, all, id)
    requires (forall f | f in all :: f.sensorId in deltas) && forall x :: x in ids <==> x in deltas
    requires forall i, j | 0 <= i < j < |ids| :: ids[i] != ids[j]
    ensures TotalAdded(ResultsFor(policy, active, deltas, ids)) == |all|
  {
    TotalShared(policy, active, deltas, ids, all);
    assert OnSensors(all, ids) == all;
  }

  lemma SharedCount(policy: Option<Policy>, active: set<string>, deltas: map<string, PerSensor>, all: set<Finding>)
    requires forall id | id in deltas :: Shares(deltas[id], active, all, id)
    requires forall f | f in all :: f.sensorId in deltas
    ensures TotalAdded(ResultsFor(policy, active, deltas, SortedNames(deltas.Keys))) == |all|
  {
    var ids := ListNames(deltas.Keys);
    CountOnAll(policy, active, deltas, ids, all);
  }

  lemma CountExactly(policy: Option<Policy>, asOf: int, b: SensorState, c: SensorState,
                     deltas: map<string, PerSensor>)
    requires UniqueIds(b.findings) && UniqueIds(c.findings) && !SomeUncertain(policy, b, c)
    requires deltas == DeltasFor(policy, b, c)
    ensures TotalAdded(ResultsFor(policy, ActiveIds(SuppressionsOf(policy), asOf), deltas, SortedNames(deltas.Keys)))
         == |AllCounted(policy, asOf, b, c)|
  {
    AllShare(policy, asOf, b, c, deltas, AllCounted(policy, asOf, b, c));
    SharedCount(policy, ActiveIds(SuppressionsOf(policy), asOf), deltas, AllCounted(policy, asOf, b, c));
  }

  lemma UnknownSuite(policy: Option<Policy>, asOf: int, b: SensorState, c: SensorState)
    ensures SuiteFor(policy, ActiveIds(SuppressionsOf(policy), asOf), asOf, DeltasFor(policy, b, c)).status == Unknown
       <==> SomeUncertain(policy, b, c)
  {
    UncertainExactly(policy, b, c);
    UnknownResults(policy, ActiveIds(SuppressionsOf(policy), asOf), DeltasFor(policy, b, c));
  }

  predicate ReportsLlm(s: SensorState) { exists i :: 0 <= i < |s.findings| && s.findings[i].detail.Llm? }

  /** A finding of a sensor whose results cannot be reproduced. */
  predicate ReportsAdvisory(s: SensorState) {
    exists i :: 0 <= i < |s.findings| && s.findings[i].sensorId in s.provenance
                && s.provenance[s.findings[i].sensorId].nonReproducible
  }

  lemma ComparableExactly(s: SensorState)
    ensures HasLlm(s) <==> ReportsLlm(s)
    ensures IsComparable(s) <==> !ReportsLlm(s) && !ReportsAdvisory(s)
  {
    if f :| f in s.findings && f.detail.Llm? {
      var i :| 0 <= i < |s.findings| && s.findings[i] == f;
      assert s.findings[i].detail.Llm?;
    }
    if f :| f in s.findings && f.sensorId in Advisory(s) {
      var i :| 0 <= i < |s.findings| && s.findings[i] == f;
      assert s.provenance[s.findings[i].sensorId].nonReproducible;
    }
    if i :| 0 <= i < |s.findings| && s.findings[i].sensorId in s.provenance
            && s.provenance[s.findings[i].sensorId].nonReproducible {
      assert s.findings[i] in s.findings && s.findings[i].sensorId in Advisory(s);
    }
  }

  /** Which rejection the inputs call for, if any. */
  function RejectionOf(policy: Option<Policy>, digest: Digest, b: SensorState, c: SensorState): Option<Rejection> {
    if IsForged(policy, digest) then Some(BadSuppression)
    else if ReportsLlm(b) || ReportsLlm(c) then Some(LlmFinding)
    else if ReportsAdvisory(b) || ReportsAdvisory(c) then Some(MixedAdvisory)
    else None
  }

  function StatusBy(uncertain: bool, offence: bool): Status {
    if uncertain then Unknown else if offence then Fail else Pass
  }

  lemma TooManyExactly(policy: Option<Policy>, n: nat)
    ensures ExceedsCount(policy, n) <==> IsTooMany(policy, n)
  {
  }

  /** A counted finding is severe or denied, or too many count. */
  ghost predicate IsRejectable(policy: Option<Policy>, asOf: int, b: SensorState, c: SensorState) {
    SomeOffence(policy, asOf, b, c) || IsTooMany(policy, |AllCounted(policy, asOf, b, c)|)
  }

  lemma KnownSuite(policy: Option<Policy>, asOf: int, b: SensorState, c: SensorState)
    requires UniqueIds(b.findings) && UniqueIds(c.findings) && !SomeUncertain(policy, b, c)
    ensures SuiteFor(policy, ActiveIds(SuppressionsOf(policy), asOf), asOf, DeltasFor(policy, b, c)).status == Pass
       <==> !IsRejectable(policy, asOf, b, c)
  {
    var deltas := DeltasFor(policy, b, c);
    OffenceExactly(policy, asOf, b, c);
    CountExactly(policy, asOf, b, c, deltas);
    TooManyExactly(policy, |AllCounted(policy, asOf, b, c)|);
    PassExactly(policy, ActiveIds(SuppressionsOf(policy), asOf), asOf, deltas);
  }

  lemma SuiteByInputs(policy: Option<Policy>, asOf: int, b: SensorState, c: SensorState)
    requires UniqueIds(b.findings) && UniqueIds(c.findings)
    ensures SuiteFor(policy, ActiveIds(SuppressionsOf(policy), asOf), asOf, DeltasFor(policy, b, c)).status
         == StatusBy(SomeUncertain(policy, b, c), IsRejectable(policy, asOf, b, c))
  {
    UnknownSuite(policy, asOf, b, c);
    if !SomeUncertain(policy, b, c) { KnownSuite(policy, asOf, b, c); }
  }

  /**
    The suite's outcome from the inputs alone: rejected for a forged suppression, an LLM finding or a
    finding of an advisory sensor, in that order; otherwise unknown if some sensor is uncertain, failed
    if a counted finding is severe or denied or too many count, and passed if not.
   */
  lemma SuiteStatusExactly(policy: Option<Policy>, digest: Digest, b: SensorState, c: SensorState, asOf: int)
    requires UniqueIds(b.findings) && UniqueIds(c.findings)
    ensures var r, rejected := Evaluation(policy, digest, b, c, asOf), RejectionOf(policy, digest, b, c);
      if rejected.Some? then r == Err(rejected.value)
      else r.Ok? && r.value.status == StatusBy(SomeUncertain(policy, b, c), IsRejectable(policy, asOf, b, c))
  {
    ForgedExactly(policy, digest);
    ComparableExactly(b);
    ComparableExactly(c);
    SuiteByInputs(policy, asOf, b, c);
  }
}
