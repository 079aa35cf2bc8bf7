/**
  The repair plan's JSON form: what the CLI writes, what `deserialize_repair_plan` reads back, and
  the fixed point the two reach.
 */
module RepairJson {
  import opened Values
  import opened Vocabulary
  import opened Ordering
  import RepairPlans

  /** Python values that evidence can hold; `PCanonical` is a mapping canonicalised by the evaluator. */
  datatype Py =
    | PNull | PBool(b: bool) | PNum(n: real) | PStr(s: string)
    | PTuple(parts: seq<Py>) | PList(items: seq<Py>)
    | PDict(dict: map<string, Py>) | PCanonical(pairs: seq<Pair>)

  datatype Pair = Pair(key: string, value: Py)

  datatype Json =
    | JNull | JBool(b: bool) | JNum(n: real) | JStr(s: string)
    | JList(elements: seq<Json>) | JObject(members: map<string, Json>)

  // ---- values ----

  /** `{key: f(value) for key, value in pairs}`: a later pair replaces an earlier one. */
  function MembersOf(pairs: seq<Pair>): map<string, Json>
  {
    if pairs == [] then map[]
    else
      var last := pairs[|pairs| - 1];
      MembersOf(pairs[..|pairs| - 1])[last.key := ToJson(last.value)]
  }

  /** `_json_canonical_value`. */
  function ToJson(v: Py): Json
  {
    match v
    case PNull => JNull
    case PBool(b) => JBool(b)
    case PNum(n) => JNum(n)
    case PStr(s) => JStr(s)
    case PTuple(xs) => JList(seq(|xs|, i requires 0 <= i < |xs| => ToJson(xs[i])))
    case PList(xs) => JList(seq(|xs|, i requires 0 <= i < |xs| => ToJson(xs[i])))
    case PDict(m) => JObject(map k | k in m :: ToJson(m[k]))
    case PCanonical(ps) => JObject(MembersOf(ps))
  }

  /** `_restore_json`: lists come back as tuples and objects as plain dictionaries. */
  function Restore(j: Json): Py
  {
    match j
    case JNull => PNull
    case JBool(b) => PBool(b)
    case JNum(n) => PNum(n)
    case JStr(s) => PStr(s)
    case JList(xs) => PTuple(seq(|xs|, i requires 0 <= i < |xs| => Restore(xs[i])))
    case JObject(m) => PDict(map k | k in m :: Restore(m[k]))
  }

  /** Values `Restore` can produce: tuples and dictionaries all the way down. */
  predicate IsRestored(v: Py)
  {
    match v
    case PTuple(xs) => forall i | 0 <= i < |xs| :: IsRestored(xs[i])
    case PDict(m) => forall k | k in m :: IsRestored(m[k])
    case PList(_) => false
    case PCanonical(_) => false
    case _ => true
  }

  lemma {:induction false} JsonSurvives(j: Json)
    ensures ToJson(Restore(j)) == j
    ensures IsRestored(Restore(j))
  {
    match j
    case JList(xs) =>
      forall i | 0 <= i < |xs| ensures ToJson(Restore(xs[i])) == xs[i] && IsRestored(Restore(xs[i])) {
        JsonSurvives(xs[i]);
      }
      assert ToJson(Restore(j)).elements == xs;
    case JObject(m) =>
      forall k | k in m ensures ToJson(Restore(m[k])) == m[k] && IsRestored(Restore(m[k])) { JsonSurvives(m[k]); }
      assert ToJson(Restore(j)).members == m;
    case _ =>
  }

  lemma {:induction false} RestoredSurvives(v: Py)
    requires IsRestored(v)
    ensures Restore(ToJson(v)) == v
  {
    match v
    case PTuple(xs) =>
      forall i | 0 <= i < |xs| ensures Restore(ToJson(xs[i])) == xs[i] { RestoredSurvives(xs[i]); }
      assert Restore(ToJson(v)).parts == xs;
    case PDict(m) =>
      forall k | k in m ensures Restore(ToJson(m[k])) == m[k] { RestoredSurvives(m[k]); }
      assert Restore(ToJson(v)).dict == m;
    case _ =>
  }

  function ListToJson(xs: seq<Py>): Json { JList(seq(|xs|, i requires 0 <= i < |xs| => ToJson(xs[i]))) }

  // ---- instructions ----

  datatype Instruction = Instruction(
    constraintId: string, source: Source, kind: Kind, target: string, operator: Operator, severity: Severity,
    unknownPolicy: UnknownPolicy, status: Status, errorCode: Option<string>, cause: Option<Cause>, repairCode: string,
    category: RepairPlans.Category, message: string, observed: Py, expected: Py,
    added: seq<Py>, removed: seq<Py>, missing: seq<Py>, extra: seq<Py>, extraEvidence: seq<Pair>)

  datatype Plan = Plan(result: VerdictResult, instructions: seq<Instruction>)

  /** The `unknown_cause` member: absent or null, a cause, or something that is not a cause. */
  datatype CauseMember = CauseNull | CauseValue(cause: Cause) | CauseInvalid

  /**
    A serialised instruction. `None` is a missing member; an enum member is also `None` when its
    text is not one of the enum's values.
   */
  datatype InstructionPayload = InstructionPayload(
    constraintId: Option<Json>, source: Option<Source>, kind: Option<Kind>,
    target: Option<Json>, operator: Option<Operator>,
    severity: Option<Severity>, unknownPolicy: Option<UnknownPolicy>, status: Option<Status>, errorCode: Option<Json>,
    cause: CauseMember, repairCode: Option<Json>, category: Option<RepairPlans.Category>, message: Option<Json>,
    observed: Option<Json>, expected: Option<Json>, added: Option<Json>, removed: Option<Json>, missing: Option<Json>,
    extra: Option<Json>, extraEvidence: Option<Json>)

  datatype PlanPayload = PlanPayload(result: VerdictResult, instructions: seq<InstructionPayload>)

  /** `_serialize_repair_instruction`. */
  function Serialize(i: Instruction): InstructionPayload {
    InstructionPayload(
      Some(JStr(i.constraintId)), Some(i.source), Some(i.kind), Some(JStr(i.target)), Some(i.operator),
      Some(i.severity), Some(i.unknownPolicy), Some(i.status),
      Some(if i.errorCode.Some? then JStr(i.errorCode.value) else JNull),
      (if i.cause.Some? then CauseValue(i.cause.value) else CauseNull), Some(JStr(i.repairCode)), Some(i.category),
      Some(JStr(i.message)), Some(ToJson(i.observed)), Some(ToJson(i.expected)),
      Some(ListToJson(i.added)), Some(ListToJson(i.removed)), Some(ListToJson(i.missing)), Some(ListToJson(i.extra)),
      Some(JObject(MembersOf(i.extraEvidence))))
  }

  function SerializePlan(p: Plan): PlanPayload {
    PlanPayload(p.result, seq(|p.instructions|, k requires 0 <= k < |p.instructions| => Serialize(p.instructions[k])))
  }

  function PairsAt(names: seq<string>, m: map<string, Json>): seq<Pair>
    requires forall n | n in names :: n in m
  {
    if names == [] then []
    else
      var n := names[|names| - 1];
      PairsAt(names[..|names| - 1], m) + [Pair(n, Restore(m[n]))]
  }

  /** `_extra_evidence`: the object's members in ascending key order. */
  function SortedPairs(m: map<string, Json>): seq<Pair> { PairsAt(SortedNames(m.Keys), m) }

  predicate IsText(m: Option<Json>) { m.Some? && m.value.JStr? }
  predicate IsList(m: Option<Json>) { m.Some? && m.value.JList? }

  /** A missing optional member reads as null. */
  function Optional(m: Option<Json>): Json { if m.Some? then m.value else JNull }

  /** What `_deserialize_instruction` accepts; anything else raises. */
  predicate Readable(p: InstructionPayload) {
    && IsText(p.constraintId) && IsText(p.target) && IsText(p.repairCode) && IsText(p.message)
    && p.source.Some? && p.kind.Some? && p.operator.Some? && p.severity.Some? && p.unknownPolicy.Some?
    && p.status.Some? && p.category.Some?
    && (Optional(p.errorCode).JNull? || IsText(p.errorCode)) && !p.cause.CauseInvalid?
    && IsList(p.added) && IsList(p.removed) && IsList(p.missing) && IsList(p.extra)
    && p.extraEvidence.Some? && p.extraEvidence.value.JObject?
  }

  function RestoreList(j: Json): seq<Py>
    requires j.JList?
  {
    seq(|j.elements|, i requires 0 <= i < |j.elements| => Restore(j.elements[i]))
  }

  function Deserialize(p: InstructionPayload): Instruction
    requires Readable(p)
  {
    Instruction(
      p.constraintId.value.s, p.source.value, p.kind.value, p.target.value.s, p.operator.value, p.severity.value,
      p.unknownPolicy.value, p.status.value,
      (if Optional(p.errorCode).JNull? then None else Some(p.errorCode.value.s)),
      (if p.cause.CauseValue? then Some(p.cause.cause) else None),
      p.repairCode.value.s, p.category.value, p.message.value.s,
      Restore(Optional(p.observed)), Restore(Optional(p.expected)),
      RestoreList(p.added.value), RestoreList(p.removed.value), RestoreList(p.missing.value),
      RestoreList(p.extra.value),
      SortedPairs(p.extraEvidence.value.members))
  }

  /** `deserialize_repair_plan`; `None` is a ValueError. */
  function DeserializePlan(p: PlanPayload): Option<Plan> {
    if forall k | 0 <= k < |p.instructions| :: Readable(p.instructions[k]) then
      Some(Plan(p.result,
                seq(|p.instructions|, k requires 0 <= k < |p.instructions| => Deserialize(p.instructions[k]))))
    else None
  }

  // ---- evidence pairs ----

  lemma {:induction false} PairsRestoreMembers(names: seq<string>, m: map<string, Json>)
    requires forall n | n in names :: n in m
    ensures MembersOf(PairsAt(names, m)) == map k | k in names :: m[k]
  {
    if names != [] {
      var init, last := names[..|names| - 1], names[|names| - 1];
      assert names == init + [last];
      PairsRestoreMembers(init, m);
      JsonSurvives(m[last]);
      var ps := PairsAt(init, m);
      assert (ps + [Pair(last, Restore(m[last]))])[..|ps|] == ps;
    }
  }

  lemma SortedPairsSurvive(m: map<string, Json>)
    ensures MembersOf(SortedPairs(m)) == m
  {
    PairsRestoreMembers(SortedNames(m.Keys), m);
  }

  // ---- the fixed point ----

  lemma ListSurvives(xs: seq<Py>)
    ensures ListToJson(RestoreList(ListToJson(xs))) == ListToJson(xs)
  {
    var j := ListToJson(xs);
    forall i | 0 <= i < |xs| ensures ToJson(Restore(j.elements[i])) == j.elements[i] { JsonSurvives(j.elements[i]); }
    assert ListToJson(RestoreList(j)).elements == j.elements;
  }

  /** Whatever evidence an instruction carries, its JSON is read back and written again unchanged. */
  lemma InstructionFixedPoint(i: Instruction)
    ensures Readable(Serialize(i)) && Serialize(Deserialize(Serialize(i))) == Serialize(i)
  {
    JsonSurvives(ToJson(i.observed));
    JsonSurvives(ToJson(i.expected));
    ListSurvives(i.added);
    ListSurvives(i.removed);
    ListSurvives(i.missing);
    ListSurvives(i.extra);
    SortedPairsSurvive(MembersOf(i.extraEvidence));
  }

  lemma PlanFixedPoint(p: Plan)
    ensures DeserializePlan(SerializePlan(p)).Some?
    ensures SerializePlan(DeserializePlan(SerializePlan(p)).value) == SerializePlan(p)
  {
    var s := SerializePlan(p);
    forall k | 0 <= k < |p.instructions|
      ensures Readable(s.instructions[k]) && Serialize(Deserialize(s.instructions[k])) == s.instructions[k]
    {
      InstructionFixedPoint(p.instructions[k]);
    }
    assert SerializePlan(DeserializePlan(s).value).instructions == s.instructions;
  }

  // ---- identity on restored plans ----

  predicate AllRestored(xs: seq<Py>) { forall i | 0 <= i < |xs| :: IsRestored(xs[i]) }

  /** Evidence pairs in strictly ascending key order, with restored values. */
  predicate SortedEvidence(ps: seq<Pair>) {
    (forall i | 0 <= i < |ps| :: IsRestored(ps[i].value)) && NamesAscend(PairKeys(ps))
  }

  function PairKeys(ps: seq<Pair>): seq<string> { seq(|ps|, i requires 0 <= i < |ps| => ps[i].key) }

  /** The members of pairs with distinct keys. */
  lemma {:induction false} MembersOfDistinct(ps: seq<Pair>)
    requires forall i, j | 0 <= i < j < |ps| :: ps[i].key != ps[j].key
    ensures forall i | 0 <= i < |ps| :: ps[i].key in MembersOf(ps) && MembersOf(ps)[ps[i].key] == ToJson(ps[i].value)
    ensures forall k | k in MembersOf(ps) :: k in PairKeys(ps)
  {
    if ps != [] {
      var init := ps[..|ps| - 1];
      MembersOfDistinct(init);
      assert PairKeys(ps) == PairKeys(init) + [ps[|ps| - 1].key];
    }
  }

  lemma {:induction false} PairsAtKeys(ps: seq<Pair>, m: map<string, Json>)
    requires forall i | 0 <= i < |ps| :: ps[i].key in m && Restore(m[ps[i].key]) == ps[i].value
    ensures PairsAt(PairKeys(ps), m) == ps
  {
    if ps != [] {
      var init := ps[..|ps| - 1];
      PairsAtKeys(init, m);
      assert PairKeys(ps)[..|ps| - 1] == PairKeys(init);
    }
  }

  lemma {:induction false} PairsAtForm(names: seq<string>, m: map<string, Json>)
    requires forall n | n in names :: n in m
    ensures PairKeys(PairsAt(names, m)) == names
    ensures forall i | 0 <= i < |PairsAt(names, m)| :: IsRestored(PairsAt(names, m)[i].value)
  {
    if names != [] {
      var init, last := names[..|names| - 1], names[|names| - 1];
      PairsAtForm(init, m);
      JsonSurvives(m[last]);
      assert names == init + [last];
    }
  }

  lemma SortedPairsAreEvidence(m: map<string, Json>)
    ensures SortedEvidence(SortedPairs(m))
  {
    SortedNamesAscend(m.Keys);
    PairsAtForm(SortedNames(m.Keys), m);
  }

  lemma EvidenceIsSortedPairs(ps: seq<Pair>)
    requires SortedEvidence(ps)
    ensures SortedPairs(MembersOf(ps)) == ps
  {
    var m := MembersOf(ps);
    forall i, j | 0 <= i < j < |ps| ensures ps[i].key != ps[j].key {
      assert PairKeys(ps)[i] != PairKeys(ps)[j];
    }
    MembersOfDistinct(ps);
    AscendingNamesSorted(PairKeys(ps), m.Keys);
    forall i | 0 <= i < |ps| ensures Restore(m[ps[i].key]) == ps[i].value {
      RestoredSurvives(ps[i].value);
    }
    PairsAtKeys(ps, m);
  }

  /** Evidence survives as it is exactly when it is sorted and restored. */
  lemma EvidenceExactly(ps: seq<Pair>)
    ensures SortedPairs(MembersOf(ps)) == ps <==> SortedEvidence(ps)
  {
    SortedPairsAreEvidence(MembersOf(ps));
    if SortedEvidence(ps) { EvidenceIsSortedPairs(ps); }
  }

  predicate InstructionRestored(i: Instruction) {
    && IsRestored(i.observed) && IsRestored(i.expected)
    && AllRestored(i.added) && AllRestored(i.removed) && AllRestored(i.missing) && AllRestored(i.extra)
    && SortedEvidence(i.extraEvidence)
  }

  lemma RestoredListSurvives(xs: seq<Py>)
    ensures AllRestored(xs) <==> RestoreList(ListToJson(xs)) == xs
  {
    var back := RestoreList(ListToJson(xs));
    forall i | 0 <= i < |xs| ensures IsRestored(back[i]) && (IsRestored(xs[i]) ==> back[i] == xs[i]) {
      JsonSurvives(ToJson(xs[i]));
      if IsRestored(xs[i]) { RestoredSurvives(xs[i]); }
    }
    if AllRestored(xs) { assert back == xs; }
  }

  lemma RestoredExactly(v: Py)
    ensures IsRestored(v) <==> Restore(ToJson(v)) == v
  {
    JsonSurvives(ToJson(v));
    if IsRestored(v) { RestoredSurvives(v); }
  }

  /** Reading back is the identity on exactly the instructions already in restored form. */
  lemma InstructionIdentity(i: Instruction)
    ensures Readable(Serialize(i)) && (Deserialize(Serialize(i)) == i <==> InstructionRestored(i))
  {
    RestoredExactly(i.observed);
    RestoredExactly(i.expected);
    RestoredListSurvives(i.added);
    RestoredListSurvives(i.removed);
    RestoredListSurvives(i.missing);
    RestoredListSurvives(i.extra);
    EvidenceExactly(i.extraEvidence);
  }

  lemma PlanIdentity(p: Plan)
    ensures DeserializePlan(SerializePlan(p)) == Some(p)
       <==> forall k | 0 <= k < |p.instructions| :: InstructionRestored(p.instructions[k])
  {
    PlanFixedPoint(p);
    var back := DeserializePlan(SerializePlan(p)).value;
    forall k | 0 <= k < |p.instructions|
      ensures back.instructions[k] == p.instructions[k] <==> InstructionRestored(p.instructions[k])
    {
      InstructionIdentity(p.instructions[k]);
    }
    if forall k | 0 <= k < |p.instructions| :: InstructionRestored(p.instructions[k]) {
      assert back.instructions == p.instructions;
    }
  }
}
