/**
  The SSP delta engine: findings are deduplicated, grouped, sorted by span and numbered, and two
  scans are compared by the digest of (group, ordinal). The comparison is a count difference per
  group, so moving code without changing it yields nothing.
 */
module SspDelta {
  import opened Values
  import opened Ordering
  import opened Deltas
  import opened DeltaLaws

  datatype Span = Span(startLine: int, startCol: int, endLine: int, endCol: int)

  datatype Group = Group(ruleId: string, modulePath: string, qualifiedName: string, normalizedText: string)

  datatype Severity = Critical | High | Medium | Low | Info

  datatype Sast = Sast(group: Group, span: Option<Span>, severity: Severity)

  datatype Sca = Sca(packageName: string, installedVersion: string, advisoryId: string, severity: Severity)

  // ---- ordinals ----

  /** The first finding of each (group, span) is kept; findings without a span are all kept. */
  predicate Kept(fs: seq<Sast>, i: nat)
    requires i < |fs|
  {
    fs[i].span.None? || forall j | 0 <= j < i :: fs[j].group != fs[i].group || fs[j].span != fs[i].span
  }

  /** The naturals below n that satisfy p, in order. */
  function Select(p: nat -> bool, n: nat): seq<nat> {
    if n == 0 then [] else Select(p, n - 1) + (if p(n - 1) then [n - 1] else [])
  }

  function KeptIn(fs: seq<Sast>, g: Group): nat -> bool {
    (i: nat) => i < |fs| && Kept(fs, i) && fs[i].group == g
  }

  /** The kept findings of a group among the first n, by position. */
  function GroupIndices(fs: seq<Sast>, g: Group, n: nat): seq<nat>
    requires n <= |fs|
  {
    Select(KeptIn(fs, g), n)
  }

  function Tuple(fs: seq<Sast>, i: nat): (int, int, int, int, nat)
    requires i < |fs|
  {
    match fs[i].span
    case Some(s) => (s.startLine, s.startCol, s.endLine, s.endCol, i)
    case None => (0, 0, 0, 0, i)
  }

  /** `_span_sort_key` order. */
  predicate SpanLe(fs: seq<Sast>, i: nat, j: nat)
    requires i < |fs| && j < |fs|
  {
    var a, b := Tuple(fs, i), Tuple(fs, j);
    if a.0 != b.0 then a.0 < b.0
    else if a.1 != b.1 then a.1 < b.1
    else if a.2 != b.2 then a.2 < b.2
    else if a.3 != b.3 then a.3 < b.3
    else a.4 <= b.4
  }

  predicate InRange(s: seq<nat>, n: nat) { forall k | 0 <= k < |s| :: s[k] < n }

  predicate NoRepeats(s: seq<nat>) { forall j, k | 0 <= j < k < |s| :: s[j] != s[k] }

  function InsertIndex(fs: seq<Sast>, x: nat, s: seq<nat>): (r: seq<nat>)
    requires x < |fs| && InRange(s, |fs|)
    ensures |r| == |s| + 1 && (forall y :: y in r <==> y == x || y in s) && InRange(r, |fs|)
  {
    if s == [] then [x]
    else if SpanLe(fs, s[|s| - 1], x) then s + [x]
    else InsertIndex(fs, x, s[..|s| - 1]) + [s[|s| - 1]]
  }

  /** A group's indices in span order. */
  function SortIndices(fs: seq<Sast>, s: seq<nat>): (r: seq<nat>)
    requires InRange(s, |fs|)
    ensures |r| == |s| && (forall y :: y in r <==> y in s) && InRange(r, |fs|)
  {
    if s == [] then []
    else
      assert s == s[..|s| - 1] + [s[|s| - 1]];
      InsertIndex(fs, s[|s| - 1], SortIndices(fs, s[..|s| - 1]))
  }

  lemma {:induction false} InsertKeepsDistinct(fs: seq<Sast>, x: nat, s: seq<nat>)
    requires x < |fs| && InRange(s, |fs|) && NoRepeats(s) && x !in s
    ensures NoRepeats(InsertIndex(fs, x, s))
  {
    if s != [] && !SpanLe(fs, s[|s| - 1], x) {
      var init, last := s[..|s| - 1], s[|s| - 1];
      InsertKeepsDistinct(fs, x, init);
      assert last !in init;
      var t := InsertIndex(fs, x, init);
      assert forall j | 0 <= j < |t| :: t[j] in t && t[j] != last;
    }
  }

  lemma {:induction false} SortKeepsDistinct(fs: seq<Sast>, s: seq<nat>)
    requires InRange(s, |fs|) && NoRepeats(s)
    ensures NoRepeats(SortIndices(fs, s))
  {
    if s != [] {
      var init, last := s[..|s| - 1], s[|s| - 1];
      SortKeepsDistinct(fs, init);
      assert last !in init;
      InsertKeepsDistinct(fs, last, SortIndices(fs, init));
    }
  }

  // ---- span order ----

  lemma SpanTotal(fs: seq<Sast>, i: nat, j: nat)
    requires i < |fs| && j < |fs|
    ensures SpanLe(fs, i, j) || SpanLe(fs, j, i)
    ensures SpanLe(fs, i, j) && SpanLe(fs, j, i) ==> i == j
  {
  }

  lemma SpanTransitive(fs: seq<Sast>, i: nat, j: nat, k: nat)
    requires i < |fs| && j < |fs| && k < |fs| && SpanLe(fs, i, j) && SpanLe(fs, j, k)
    ensures SpanLe(fs, i, k)
  {
  }

  predicate InSpanOrder(fs: seq<Sast>, s: seq<nat>)
    requires InRange(s, |fs|)
  {
    forall j, k | 0 <= j < k < |s| :: SpanLe(fs, s[j], s[k])
  }

  lemma {:induction false} InsertInOrder(fs: seq<Sast>, x: nat, s: seq<nat>)
    requires x < |fs| && InRange(s, |fs|) && InSpanOrder(fs, s)
    ensures InSpanOrder(fs, InsertIndex(fs, x, s))
  {
    if s != [] {
      var init, last := s[..|s| - 1], s[|s| - 1];
      SpanTotal(fs, last, x);
      if SpanLe(fs, last, x) {
        forall j | 0 <= j < |s| ensures SpanLe(fs, s[j], x) {
          if j < |s| - 1 { SpanTransitive(fs, s[j], last, x); }
        }
      } else {
        InsertInOrder(fs, x, init);
        var t := InsertIndex(fs, x, init);
        forall j | 0 <= j < |t| ensures SpanLe(fs, t[j], last) {
          var k := InsertedIsOld(fs, x, init, t[j]);
          assert t[j] != x ==> s[k] == t[j];
        }
      }
    }
  }

  lemma InsertedIsOld(fs: seq<Sast>, x: nat, s: seq<nat>, y: nat) returns (k: nat)
    requires x < |fs| && InRange(s, |fs|) && y in InsertIndex(fs, x, s)
    ensures y == x || (k < |s| && s[k] == y)
  {
    k := 0;
    if y != x { k :| 0 <= k < |s| && s[k] == y; }
  }

  lemma {:induction false} SortInOrder(fs: seq<Sast>, s: seq<nat>)
    requires InRange(s, |fs|)
    ensures InSpanOrder(fs, SortIndices(fs, s))
  {
    if s != [] {
      SortInOrder(fs, s[..|s| - 1]);
      InsertInOrder(fs, s[|s| - 1], SortIndices(fs, s[..|s| - 1]));
    }
  }

  lemma {:induction false} SelectMembers(p: nat -> bool, n: nat)
    ensures InRange(Select(p, n), n) && NoRepeats(Select(p, n))
    ensures forall i: nat :: i in Select(p, n) <==> i < n && p(i)
  {
    if n > 0 { SelectMembers(p, n - 1); }
  }

  lemma GroupMembers(fs: seq<Sast>, g: Group, n: nat)
    requires n <= |fs|
    ensures InRange(GroupIndices(fs, g, n), n) && NoRepeats(GroupIndices(fs, g, n))
    ensures forall i: nat :: i in GroupIndices(fs, g, n) <==> i < n && Kept(fs, i) && fs[i].group == g
  {
    SelectMembers(KeptIn(fs, g), n);
  }

  /** The kept findings of a group, in the order their ordinals count. */
  function SortedGroup(fs: seq<Sast>, g: Group): seq<nat> {
    GroupMembers(fs, g, |fs|);
    SortIndices(fs, GroupIndices(fs, g, |fs|))
  }

  /** How many deduplicated findings a group has. */
  function GroupCount(fs: seq<Sast>, g: Group): nat { |GroupIndices(fs, g, |fs|)| }

  function PositionOf(s: seq<nat>, x: nat): nat
  {
    if s == [] || s[0] == x then 0 else 1 + PositionOf(s[1..], x)
  }

  /** The ordinal of a kept finding: its place in its group. */
  function OrdinalOf(fs: seq<Sast>, i: nat): nat
    requires i < |fs|
  {
    PositionOf(SortedGroup(fs, fs[i].group), i)
  }

  lemma {:induction false} PositionAt(s: seq<nat>, k: nat)
    requires k < |s| && NoRepeats(s)
    ensures PositionOf(s, s[k]) == k
  {
    if k > 0 {
      assert s[1..][k - 1] == s[k];
      PositionAt(s[1..], k - 1);
    }
  }

  lemma {:induction false} PositionBound(s: seq<nat>, x: nat)
    requires x in s
    ensures PositionOf(s, x) < |s| && s[PositionOf(s, x)] == x
  {
    if s[0] != x { PositionBound(s[1..], x); }
  }

  lemma SortedGroupFacts(fs: seq<Sast>, g: Group)
    ensures |SortedGroup(fs, g)| == GroupCount(fs, g) && NoRepeats(SortedGroup(fs, g))
    ensures InRange(SortedGroup(fs, g), |fs|)
    ensures forall i: nat :: i in SortedGroup(fs, g) <==> i < |fs| && Kept(fs, i) && fs[i].group == g
  {
    GroupMembers(fs, g, |fs|);
    SortKeepsDistinct(fs, GroupIndices(fs, g, |fs|));
  }

  /** In every group the ordinals are exactly 0, 1, ..., count - 1, one for each kept finding. */
  lemma OrdinalsAreDense(fs: seq<Sast>, g: Group)
    ensures forall i | 0 <= i < |fs| && Kept(fs, i) && fs[i].group == g ::
              OrdinalOf(fs, i) < GroupCount(fs, g) && SortedGroup(fs, g)[OrdinalOf(fs, i)] == i
    ensures forall o | 0 <= o < GroupCount(fs, g) ::
              var i := SortedGroup(fs, g)[o]; i < |fs| && Kept(fs, i) && fs[i].group == g && OrdinalOf(fs, i) == o
  {
    var s := SortedGroup(fs, g);
    SortedGroupFacts(fs, g);
    forall i | 0 <= i < |fs| && Kept(fs, i) && fs[i].group == g
      ensures OrdinalOf(fs, i) < GroupCount(fs, g) && s[OrdinalOf(fs, i)] == i
    {
      PositionBound(s, i);
    }
    forall o | 0 <= o < GroupCount(fs, g)
      ensures s[o] < |fs| && Kept(fs, s[o]) && fs[s[o]].group == g && OrdinalOf(fs, s[o]) == o
    {
      assert s[o] in s;
      PositionAt(s, o);
    }
  }

  /** Where a finding stands: at its span, or before all code when it has none. */
  function Place(f: Sast): Span { if f.span.Some? then f.span.value else Span(0, 0, 0, 0) }

  /** The first of start line, start column, end line and end column that differs decides. */
  predicate StartsBefore(a: Span, b: Span) {
    || a.startLine < b.startLine
    || (a.startLine == b.startLine && a.startCol < b.startCol)
    || (a.startLine == b.startLine && a.startCol == b.startCol && a.endLine < b.endLine)
    || (a.startLine == b.startLine && a.startCol == b.startCol && a.endLine == b.endLine && a.endCol < b.endCol)
  }

  /** Ordinals follow the spans: the earlier finding of a group has the smaller one, and of two at one
      place the one reported first. */
  lemma OrdinalsFollowSpans(fs: seq<Sast>, i: nat, j: nat)
    requires i < |fs| && j < |fs| && Kept(fs, i) && Kept(fs, j) && fs[i].group == fs[j].group
    ensures OrdinalOf(fs, i) < OrdinalOf(fs, j)
       <==> StartsBefore(Place(fs[i]), Place(fs[j])) || (Place(fs[i]) == Place(fs[j]) && i < j)
  {
    OrdinalsInOrder(fs, i, j);
  }

  lemma OrdinalsInOrder(fs: seq<Sast>, i: nat, j: nat)
    requires i < |fs| && j < |fs| && Kept(fs, i) && Kept(fs, j) && fs[i].group == fs[j].group
    ensures OrdinalOf(fs, i) < OrdinalOf(fs, j) <==> i != j && SpanLe(fs, i, j)
  {
    var g := fs[i].group;
    var s := SortedGroup(fs, g);
    SortedGroupFacts(fs, g);
    OrdinalsAreDense(fs, g);
    SortedGroupInOrder(fs, g);
    SpanTotal(fs, i, j);
    OrderOfPlaces(fs, s, OrdinalOf(fs, i), OrdinalOf(fs, j));
  }

  lemma SortedGroupInOrder(fs: seq<Sast>, g: Group)
    ensures InRange(SortedGroup(fs, g), |fs|) && InSpanOrder(fs, SortedGroup(fs, g))
  {
    GroupMembers(fs, g, |fs|);
    SortInOrder(fs, GroupIndices(fs, g, |fs|));
  }

  lemma OrderOfPlaces(fs: seq<Sast>, s: seq<nat>, a: nat, b: nat)
    requires InRange(s, |fs|) && InSpanOrder(fs, s) && NoRepeats(s) && a < |s| && b < |s|
    ensures a < b <==> s[a] != s[b] && SpanLe(fs, s[a], s[b])
  {
    SpanTotal(fs, s[a], s[b]);
  }

  // ---- the ordinal pass as the source runs it ----

  /** The (group, span) pairs of the first n findings. */
  function SeenPairs(fs: seq<Sast>, n: nat): set<(Group, Span)>
    requires n <= |fs|
  {
    if n == 0 then {}
    else SeenPairs(fs, n - 1) + (if fs[n - 1].span.Some? then {(fs[n - 1].group, fs[n - 1].span.value)} else {})
  }

  lemma {:induction false} SeenPairsMember(fs: seq<Sast>, n: nat, g: Group, s: Span)
    requires n <= |fs|
    ensures (g, s) in SeenPairs(fs, n) <==> exists j :: 0 <= j < n && fs[j].group == g && fs[j].span == Some(s)
  {
    if n > 0 { SeenPairsMember(fs, n - 1, g, s); }
  }

  lemma SeenDecides(fs: seq<Sast>, n: nat)
    requires n < |fs|
    ensures Kept(fs, n) <==> fs[n].span.None? || (fs[n].group, fs[n].span.value) !in SeenPairs(fs, n)
  {
    if fs[n].span.Some? { SeenPairsMember(fs, n, fs[n].group, fs[n].span.value); }
  }

  function MembersOf(grouped: map<Group, seq<nat>>, g: Group): seq<nat> {
    if g in grouped then grouped[g] else []
  }

  /** The groups of the first n findings. */
  function Grouped(fs: seq<Sast>, n: nat): map<Group, seq<nat>>
    requires n <= |fs|
  {
    if n == 0 then map[]
    else
      var before, g := Grouped(fs, n - 1), fs[n - 1].group;
      if Kept(fs, n - 1) then before[g := MembersOf(before, g) + [n - 1]] else before
  }

  lemma {:induction false} GroupedExact(fs: seq<Sast>, n: nat, g: Group)
    requires n <= |fs|
    ensures MembersOf(Grouped(fs, n), g) == GroupIndices(fs, g, n)
  {
    if n > 0 {
      GroupedExact(fs, n - 1, g);
      assert KeptIn(fs, g)(n - 1) <==> Kept(fs, n - 1) && fs[n - 1].group == g;
    }
  }

  /** The dedup and grouping loops. */
  method GroupKept(fs: seq<Sast>) returns (grouped: map<Group, seq<nat>>)
    ensures grouped == Grouped(fs, |fs|)
  {
    var seen: set<(Group, Span)> := {};
    grouped := map[];
    for n := 0 to |fs|
      invariant grouped == Grouped(fs, n)
      invariant seen == SeenPairs(fs, n)
    {
      var g, span := fs[n].group, fs[n].span;
      SeenDecides(fs, n);
      if span.None? || (g, span.value) !in seen {
        grouped := grouped[g := MembersOf(grouped, g) + [n]];
      }
      if span.Some? {
        seen := seen + {(g, span.value)};
      }
    }
  }

  /** The numbering loop of one group. */
  method Enumerate(group: seq<nat>, before: map<nat, nat>) returns (ordinals: map<nat, nat>)
    requires NoRepeats(group)
    ensures forall i :: i in ordinals <==> i in before || i in group
    ensures forall k | 0 <= k < |group| :: ordinals[group[k]] == k
    ensures forall i | i in before && i !in group :: ordinals[i] == before[i]
  {
    ordinals := before;
    for o := 0 to |group|
      invariant forall i :: i in ordinals <==> i in before || i in group[..o]
      invariant forall k | 0 <= k < o :: group[k] in group[..o] && ordinals[group[k]] == k
      invariant forall i | i in before && i !in group :: ordinals[i] == before[i]
    {
      assert group[..o + 1] == group[..o] + [group[o]];
      ordinals := ordinals[group[o] := o];
    }
    assert group[..|group|] == group;
  }

  /** The group of each kept position, and its ordinal. */
  function GroupAt(fs: seq<Sast>): nat -> Option<Group> {
    (i: nat) => if i < |fs| && Kept(fs, i) then Some(fs[i].group) else None
  }

  function OrdinalAt(fs: seq<Sast>): nat -> nat {
    (i: nat) => if i < |fs| then OrdinalOf(fs, i) else 0
  }

  /** Exactly the positions of these groups are numbered, each with its ordinal. */
  ghost predicate Numbered(group: nat -> Option<Group>, ordinal: nat -> nat, groups: set<Group>,
                           ordinals: map<nat, nat>) {
    && (forall i: nat :: i in ordinals <==> group(i).Some? && group(i).value in groups)
    && (forall i | i in ordinals :: ordinals[i] == ordinal(i))
  }

  /** s lists a group's positions in the order of their ordinals. */
  ghost predicate Lists(s: seq<nat>, group: nat -> Option<Group>, ordinal: nat -> nat, g: Group) {
    && NoRepeats(s)
    && (forall i: nat :: i in s <==> group(i) == Some(g))
    && (forall k | 0 <= k < |s| :: ordinal(s[k]) == k)
  }

  lemma SortedGroupLists(fs: seq<Sast>, g: Group)
    ensures Lists(SortedGroup(fs, g), GroupAt(fs), OrdinalAt(fs), g)
  {
    SortedGroupFacts(fs, g);
    OrdinalsAreDense(fs, g);
  }

  method NumberGroup(ghost group: nat -> Option<Group>, ghost ordinal: nat -> nat, ghost groups: set<Group>,
                     ghost g: Group, s: seq<nat>, before: map<nat, nat>) returns (ordinals: map<nat, nat>)
    requires Numbered(group, ordinal, groups, before) && Lists(s, group, ordinal, g)
    ensures Numbered(group, ordinal, groups + {g}, ordinals)
  {
    ordinals := Enumerate(s, before);
    forall i | i in ordinals ensures ordinals[i] == ordinal(i) {
      if i in s {
        var k :| 0 <= k < |s| && s[k] == i;
      }
    }
  }

  /** The loop over sorted groups, in any order. */
  method NumberGroups(ghost group: nat -> Option<Group>, ghost ordinal: nat -> nat, lists: map<Group, seq<nat>>)
    returns (ordinals: map<nat, nat>)
    requires forall g | g in lists :: Lists(lists[g], group, ordinal, g)
    ensures Numbered(group, ordinal, lists.Keys, ordinals)
  {
    ordinals := map[];
    var todo := lists.Keys;
    while todo != {}
      invariant todo <= lists.Keys
      invariant Numbered(group, ordinal, lists.Keys - todo, ordinals)
      decreases |todo|
    {
      var g :| g in todo;
      ordinals := NumberGroup(group, ordinal, lists.Keys - todo, g, lists[g], ordinals);
      assert lists.Keys - (todo - {g}) == lists.Keys - todo + {g};
      todo := todo - {g};
    }
    assert lists.Keys - {} == lists.Keys;
  }

  lemma GroupedIsSorted(fs: seq<Sast>, g: Group)
    requires g in Grouped(fs, |fs|)
    ensures InRange(Grouped(fs, |fs|)[g], |fs|)
    ensures SortIndices(fs, Grouped(fs, |fs|)[g]) == SortedGroup(fs, g)
  {
    GroupedExact(fs, |fs|, g);
    GroupMembers(fs, g, |fs|);
  }

  function SortAll(fs: seq<Sast>, grouped: map<Group, seq<nat>>): map<Group, seq<nat>>
    requires forall g | g in grouped :: InRange(grouped[g], |fs|)
  {
    map g | g in grouped :: SortIndices(fs, grouped[g])
  }

  /** Every kept finding has its ordinal, and nothing else does. */
  ghost predicate IsAssignment(fs: seq<Sast>, ordinals: map<nat, nat>) {
    && (forall i: nat :: i in ordinals <==> i < |fs| && Kept(fs, i))
    && (forall i: nat | i in ordinals :: ordinals[i] == OrdinalOf(fs, i))
  }

  lemma NumberedIsAssignment(fs: seq<Sast>, ordinals: map<nat, nat>)
    requires Numbered(GroupAt(fs), OrdinalAt(fs), Grouped(fs, |fs|).Keys, ordinals)
    ensures IsAssignment(fs, ordinals)
  {
    forall i: nat ensures i in ordinals <==> i < |fs| && Kept(fs, i) {
      if i < |fs| && Kept(fs, i) {
        GroupedExact(fs, |fs|, fs[i].group);
        GroupMembers(fs, fs[i].group, |fs|);
      }
      assert i in ordinals <==> GroupAt(fs)(i).Some? && GroupAt(fs)(i).value in Grouped(fs, |fs|).Keys;
    }
    forall i: nat | i in ordinals ensures ordinals[i] == OrdinalOf(fs, i) {
      assert ordinals[i] == OrdinalAt(fs)(i);
    }
  }

  /** Within a group the ordinals are in span order. */
  ghost predicate FollowsSpans(fs: seq<Sast>, ordinals: map<nat, nat>) {
    forall i: nat, j: nat | i in ordinals && j in ordinals && i < |fs| && j < |fs| && fs[i].group == fs[j].group ::
      ordinals[i] < ordinals[j]
      <==> StartsBefore(Place(fs[i]), Place(fs[j])) || (Place(fs[i]) == Place(fs[j]) && i < j)
  }

  lemma AssignmentFollowsSpans(fs: seq<Sast>, ordinals: map<nat, nat>)
    requires IsAssignment(fs, ordinals)
    ensures FollowsSpans(fs, ordinals)
  {
    forall i: nat, j: nat | i in ordinals && j in ordinals && i < |fs| && j < |fs| && fs[i].group == fs[j].group
      ensures ordinals[i] < ordinals[j]
        <==> StartsBefore(Place(fs[i]), Place(fs[j])) || (Place(fs[i]) == Place(fs[j]) && i < j)
    {
      assert Kept(fs, i) && Kept(fs, j);
      OrdinalsFollowSpans(fs, i, j);
    }
  }

  /** `assign_sast_ordinals`: every kept finding gets its ordinal, and nothing else does. */
  method AssignOrdinals(fs: seq<Sast>) returns (ordinals: map<nat, nat>)
    ensures IsAssignment(fs, ordinals) && FollowsSpans(fs, ordinals)
  {
    var grouped := GroupKept(fs);
    forall g | g in grouped ensures InRange(grouped[g], |fs|) { GroupedIsSorted(fs, g); }
    var lists := SortAll(fs, grouped);
    forall g | g in lists ensures Lists(lists[g], GroupAt(fs), OrdinalAt(fs), g) {
      GroupedIsSorted(fs, g);
      SortedGroupLists(fs, g);
    }
    ordinals := NumberGroups(GroupAt(fs), OrdinalAt(fs), lists);
    NumberedIsAssignment(fs, ordinals);
    AssignmentFollowsSpans(fs, ordinals);
  }

  // ---- the delta ----

  /** What a fingerprint digests: the five SAST components or the three SCA ones. */
  datatype Identity =
    | SastId(group: Group, ordinal: nat)
    | ScaId(packageName: string, installedVersion: string, advisoryId: string)

  datatype Finding = SastFinding(sast: Sast) | ScaFinding(sca: Sca)

  datatype Identified = Identified(id: Identity, finding: Finding)

  ghost predicate Injective(digest: Identity -> string) {
    forall a, b :: digest(a) == digest(b) ==> a == b
  }

  /** The positions of the kept findings, in order. */
  function KeptIndices(fs: seq<Sast>): (r: seq<nat>)
    ensures forall i: nat :: i in r <==> i < |fs| && Kept(fs, i)
  {
    var p := (i: nat) => i < |fs| && Kept(fs, i);
    SelectMembers(p, |fs|);
    Select(p, |fs|)
  }

  function IdentifySasts(fs: seq<Sast>): seq<Identified> {
    var kept := KeptIndices(fs);
    seq(|kept|, j requires 0 <= j < |kept| => assert kept[j] in kept; IdentifySast(fs, kept[j]))
  }

  function IdentifySast(fs: seq<Sast>, i: nat): Identified
    requires i < |fs|
  {
    Identified(SastId(fs[i].group, OrdinalOf(fs, i)), SastFinding(fs[i]))
  }

  function IdentifySca(f: Sca): Identified {
    Identified(ScaId(f.packageName, f.installedVersion, f.advisoryId), ScaFinding(f))
  }

  /** A sensor's output, with its findings by kind. */
  datatype Scan = Scan(sensorId: string, failed: bool, errorMessage: Option<string>, sasts: seq<Sast>, scas: seq<Sca>)

  /** `_fingerprinted_findings`: SAST findings with their ordinals, then SCA findings. */
  function Identify(scan: Scan): seq<Identified> {
    IdentifySasts(scan.sasts) + MapSeq(IdentifySca, scan.scas)
  }

  function FingerprintOf(digest: Identity -> string): Identified -> Key {
    (x: Identified) => [digest(x.id)]
  }

  /** Findings by fingerprint; the first of each is kept. */
  function ByFingerprint(scan: Scan, digest: Identity -> string): map<Key, Identified> {
    IndexBy(Identify(scan), FingerprintOf(digest))
  }

  datatype Status = StatusPass | StatusFail | StatusUnknown

  datatype Delta = Delta(status: Status, added: seq<Identified>, removed: seq<Identified>, unchangedCount: nat,
                         error: Option<string>)

  function SeverityOf(x: Identified): Severity {
    match x.finding
    case SastFinding(f) => f.severity
    case ScaFinding(f) => f.severity
  }

  /** `compute_delta`; `None` is the sensor-id error. */
  function ComputeSspDelta(baseline: Scan, candidate: Scan, digest: Identity -> string): Option<Delta> {
    if baseline.sensorId != candidate.sensorId then None
    else if baseline.failed || candidate.failed then
      Some(Delta(StatusUnknown, [], [], 0,
                 if candidate.errorMessage.Some? && candidate.errorMessage.value != "" then candidate.errorMessage
                 else baseline.errorMessage))
    else
      var base, cand := ByFingerprint(baseline, digest), ByFingerprint(candidate, digest);
      var added := EntriesAt(AddedKeys(base, cand), cand);
      var removed := EntriesAt(AddedKeys(cand, base), base);
      Some(Delta(if exists x | x in added :: SeverityOf(x) != Info then StatusFail else StatusPass,
                 added, removed, |base.Keys * cand.Keys|, None))
  }

  // ---- fingerprints are (group, ordinal) pairs ----

  lemma SastIsListed(fs: seq<Sast>, i: nat)
    requires i < |fs| && Kept(fs, i)
    ensures IdentifySast(fs, i) in IdentifySasts(fs)
  {
    var kept := KeptIndices(fs);
    var j :| 0 <= j < |kept| && kept[j] == i;
    assert IdentifySasts(fs)[j] == IdentifySast(fs, i);
  }

  lemma ListedIsSast(fs: seq<Sast>, x: Identified) returns (i: nat)
    requires x in IdentifySasts(fs)
    ensures i < |fs| && Kept(fs, i) && x == IdentifySast(fs, i)
  {
    var kept := KeptIndices(fs);
    var j :| 0 <= j < |kept| && IdentifySasts(fs)[j] == x;
    i := kept[j];
    assert i in kept;
  }

  lemma DistinctFingerprints(digest: Identity -> string, a: Identity, b: Identity)
    requires Injective(digest) && [digest(a)] == [digest(b)]
    ensures a == b
  {
    assert [digest(a)][0] == [digest(b)][0];
  }

  lemma CountedIsFingerprinted(scan: Scan, digest: Identity -> string, g: Group, o: nat)
    requires o < GroupCount(scan.sasts, g)
    ensures [digest(SastId(g, o))] in ByFingerprint(scan, digest)
  {
    var fs, xs, key := scan.sasts, Identify(scan), FingerprintOf(digest);
    OrdinalsAreDense(fs, g);
    var i := SortedGroup(fs, g)[o];
    SastIsListed(fs, i);
    var x := IdentifySast(fs, i);
    assert x in xs;
    var k :| 0 <= k < |xs| && xs[k] == x;
    assert key(xs[k]) == [digest(SastId(g, o))];
    IndexKeys(xs, key);
  }

  lemma FingerprintedIsCounted(scan: Scan, digest: Identity -> string, g: Group, o: nat)
    requires Injective(digest) && [digest(SastId(g, o))] in ByFingerprint(scan, digest)
    ensures o < GroupCount(scan.sasts, g)
  {
    var fs, xs, key := scan.sasts, Identify(scan), FingerprintOf(digest);
    IndexKeys(xs, key);
    var k :| 0 <= k < |xs| && key(xs[k]) == [digest(SastId(g, o))];
    DistinctFingerprints(digest, xs[k].id, SastId(g, o));
    SastEntry(scan, k);
    var i := ListedIsSast(fs, xs[k]);
    OrdinalsAreDense(fs, g);
  }

  lemma SastEntry(scan: Scan, k: nat)
    requires k < |Identify(scan)| && Identify(scan)[k].id.SastId?
    ensures Identify(scan)[k] in IdentifySasts(scan.sasts)
  {
    var sasts := IdentifySasts(scan.sasts);
    assert k >= |sasts| ==> Identify(scan)[k] == IdentifySca(scan.scas[k - |sasts|]);
  }

  /** A SAST fingerprint is present exactly when its ordinal is below its group's count. */
  lemma SastFingerprints(scan: Scan, digest: Identity -> string, g: Group, o: nat)
    requires Injective(digest)
    ensures [digest(SastId(g, o))] in ByFingerprint(scan, digest) <==> o < GroupCount(scan.sasts, g)
  {
    if o < GroupCount(scan.sasts, g) {
      CountedIsFingerprinted(scan, digest, g, o);
    } else if [digest(SastId(g, o))] in ByFingerprint(scan, digest) {
      FingerprintedIsCounted(scan, digest, g, o);
    }
  }

  predicate InGroup(x: Identified, g: Group) { x.id.SastId? && x.id.group == g }

  /** The keys of a fingerprint index that belong to a group. */
  ghost function GroupKeys(m: map<Key, Identified>, keys: set<Key>, g: Group): set<Key>
    requires keys <= m.Keys
  {
    set k | k in keys && InGroup(m[k], g)
  }

  ghost function Fingerprints(digest: Identity -> string, g: Group, lo: nat, hi: nat): set<Key> {
    set o: nat | lo <= o < hi :: [digest(SastId(g, o))]
  }

  lemma {:induction false} FingerprintCount(digest: Identity -> string, g: Group, lo: nat, hi: nat)
    requires Injective(digest)
    ensures |Fingerprints(digest, g, lo, hi)| == if lo <= hi then hi - lo else 0
    decreases hi
  {
    if lo < hi {
      FingerprintCount(digest, g, lo, hi - 1);
      var last: Key := [digest(SastId(g, hi - 1))];
      var rest := Fingerprints(digest, g, lo, hi - 1);
      forall o: nat | lo <= o < hi - 1 ensures [digest(SastId(g, o))] != last {
        if [digest(SastId(g, o))] == last { DistinctFingerprints(digest, SastId(g, o), SastId(g, hi - 1)); }
      }
      assert Fingerprints(digest, g, lo, hi) == rest + {last};
    } else {
      assert Fingerprints(digest, g, lo, hi) == {};
    }
  }

  /** A group's fingerprints in a scan are its ordinals 0 to count - 1. */
  lemma GroupFingerprints(scan: Scan, digest: Identity -> string, g: Group)
    requires Injective(digest)
    ensures GroupKeys(ByFingerprint(scan, digest), ByFingerprint(scan, digest).Keys, g)
         == Fingerprints(digest, g, 0, GroupCount(scan.sasts, g))
  {
    var m := ByFingerprint(scan, digest);
    IndexKeys(Identify(scan), FingerprintOf(digest));
    forall k ensures k in GroupKeys(m, m.Keys, g) <==> k in Fingerprints(digest, g, 0, GroupCount(scan.sasts, g)) {
      if k in GroupKeys(m, m.Keys, g) {
        assert FingerprintOf(digest)(m[k]) == k;
        SastFingerprints(scan, digest, g, m[k].id.ordinal);
      }
      if k in Fingerprints(digest, g, 0, GroupCount(scan.sasts, g)) {
        var o: nat :| o < GroupCount(scan.sasts, g) && k == [digest(SastId(g, o))];
        SastFingerprints(scan, digest, g, o);
        assert FingerprintOf(digest)(m[k]) == k;
        DistinctFingerprints(digest, m[k].id, SastId(g, o));
      }
    }
  }

  // ---- counting the delta per group ----

  function CountGroup(xs: seq<Identified>, g: Group): nat
  {
    if xs == [] then 0 else CountGroup(xs[..|xs| - 1], g) + (if InGroup(xs[|xs| - 1], g) then 1 else 0)
  }

  lemma {:induction false} CountEntries(keys: seq<Key>, s: set<Key>, m: map<Key, Identified>, g: Group)
    requires Distinct(keys) && (forall k :: k in keys <==> k in s) && s <= m.Keys
    ensures CountGroup(EntriesAt(keys, m), g) == |GroupKeys(m, s, g)|
  {
    if keys == [] {
      assert GroupKeys(m, s, g) == {};
    } else {
      var init, last := keys[..|keys| - 1], keys[|keys| - 1];
      assert keys == init + [last];
      assert last !in init;
      CountEntries(init, s - {last}, m, g);
      var xs := EntriesAt(keys, m);
      assert xs[..|xs| - 1] == EntriesAt(init, m);
      if InGroup(m[last], g) {
        assert GroupKeys(m, s, g) == GroupKeys(m, s - {last}, g) + {last};
      } else {
        assert GroupKeys(m, s, g) == GroupKeys(m, s - {last}, g);
      }
    }
  }

  function Excess(a: nat, b: nat): nat { if a > b then a - b else 0 }

  /** The first `a` fingerprints split into those below `b` and the rest. */
  lemma SplitFingerprints(digest: Identity -> string, g: Group, a: nat, b: nat)
    requires Injective(digest)
    ensures Fingerprints(digest, g, 0, a) * Fingerprints(digest, g, 0, b) == Fingerprints(digest, g, 0, Min(a, b))
    ensures Fingerprints(digest, g, 0, a) - Fingerprints(digest, g, 0, b) == Fingerprints(digest, g, Min(a, b), a)
  {
    forall o: nat, p: nat | [digest(SastId(g, o))] == [digest(SastId(g, p))] ensures o == p {
      DistinctFingerprints(digest, SastId(g, o), SastId(g, p));
    }
  }

  function Min(a: nat, b: nat): nat { if a < b then a else b }

  /** Which of one scan's group fingerprints the other scan has. */
  lemma SharedFingerprints(here: Scan, there: Scan, digest: Identity -> string, g: Group)
    requires Injective(digest)
    ensures var h, t := ByFingerprint(here, digest), ByFingerprint(there, digest);
            var a, b := GroupCount(here.sasts, g), GroupCount(there.sasts, g);
            && GroupKeys(h, h.Keys - t.Keys, g) == Fingerprints(digest, g, Min(a, b), a)
            && GroupKeys(h, h.Keys * t.Keys, g) == Fingerprints(digest, g, 0, Min(a, b))
  {
    var h, t := ByFingerprint(here, digest), ByFingerprint(there, digest);
    var a, b := GroupCount(here.sasts, g), GroupCount(there.sasts, g);
    GroupFingerprints(here, digest, g);
    SplitFingerprints(digest, g, a, b);
    forall k | k in Fingerprints(digest, g, 0, a) ensures k in t <==> k in Fingerprints(digest, g, 0, b) {
      var o: nat :| o < a && k == [digest(SastId(g, o))];
      SastFingerprints(there, digest, g, o);
      if o < b { assert k in Fingerprints(digest, g, 0, b); }
      if k in Fingerprints(digest, g, 0, b) {
        var p: nat :| p < b && k == [digest(SastId(g, p))];
        DistinctFingerprints(digest, SastId(g, o), SastId(g, p));
      }
    }
  }

  lemma OneSidedCount(here: Scan, there: Scan, digest: Identity -> string, g: Group)
    requires Injective(digest)
    ensures var h, t := ByFingerprint(here, digest), ByFingerprint(there, digest);
            var a, b := GroupCount(here.sasts, g), GroupCount(there.sasts, g);
            && CountGroup(EntriesAt(AddedKeys(t, h), h), g) == Excess(a, b)
            && |GroupKeys(h, h.Keys * t.Keys, g)| == Min(a, b)
  {
    var h, t := ByFingerprint(here, digest), ByFingerprint(there, digest);
    var a, b := GroupCount(here.sasts, g), GroupCount(there.sasts, g);
    SharedFingerprints(here, there, digest, g);
    SortedSetAscends(h.Keys - t.Keys);
    CountEntries(AddedKeys(t, h), h.Keys - t.Keys, h, g);
    FingerprintCount(digest, g, Min(a, b), a);
    FingerprintCount(digest, g, 0, Min(a, b));
  }

  /**
    Under an injective digest, in every group with b baseline and c candidate findings after
    deduplication, exactly max(0, c - b) are added, max(0, b - c) removed and min(b, c) unchanged.
   */
  lemma DeltaCountsPerGroup(baseline: Scan, candidate: Scan, digest: Identity -> string, g: Group)
    requires Injective(digest) && baseline.sensorId == candidate.sensorId && !baseline.failed && !candidate.failed
    ensures var d := ComputeSspDelta(baseline, candidate, digest).value;
            var b, c := GroupCount(baseline.sasts, g), GroupCount(candidate.sasts, g);
            var base, cand := ByFingerprint(baseline, digest), ByFingerprint(candidate, digest);
            && CountGroup(d.added, g) == Excess(c, b)
            && CountGroup(d.removed, g) == Excess(b, c)
            && |GroupKeys(base, base.Keys * cand.Keys, g)| == Min(b, c)
            && d.unchangedCount == |base.Keys * cand.Keys|
  {
    OneSidedCount(candidate, baseline, digest, g);
    OneSidedCount(baseline, candidate, digest, g);
  }

  // ---- moved code ----

  ghost predicate StrictlyMonotone(shift: Span -> Span) {
    forall a, b :: StartsBefore(a, b) ==> StartsBefore(shift(a), shift(b))
  }

  function Moved(f: Sast, shift: Span -> Span): Sast {
    f.(span := if f.span.Some? then Some(shift(f.span.value)) else None)
  }

  function MovedAll(fs: seq<Sast>, shift: Span -> Span): seq<Sast> {
    seq(|fs|, i requires 0 <= i < |fs| => Moved(fs[i], shift))
  }

  lemma MoveKeeps(fs: seq<Sast>, shift: Span -> Span, i: nat)
    requires i < |fs| && StrictlyMonotone(shift)
    ensures Kept(MovedAll(fs, shift), i) <==> Kept(fs, i)
  {
    var ms := MovedAll(fs, shift);
    forall j | 0 <= j < i
      ensures ms[j].group == fs[j].group && (ms[j].span == ms[i].span <==> fs[j].span == fs[i].span)
    {
      if fs[j].span.Some? && fs[i].span.Some? {
        var a, b := fs[j].span.value, fs[i].span.value;
        assert a == b || StartsBefore(a, b) || StartsBefore(b, a);
      }
    }
  }

  lemma {:induction false} MoveKeepsGroup(fs: seq<Sast>, shift: Span -> Span, g: Group, n: nat)
    requires n <= |fs| && StrictlyMonotone(shift)
    ensures GroupIndices(MovedAll(fs, shift), g, n) == GroupIndices(fs, g, n)
  {
    if n > 0 {
      MoveKeeps(fs, shift, n - 1);
      MoveKeepsGroup(fs, shift, g, n - 1);
    }
  }

  ghost function ScaIds(scan: Scan): set<Identity> { set f | f in scan.scas :: IdentifySca(f).id }

  /** The scans have the same findings, counted per group, and the same advisories. */
  ghost predicate SameFindings(a: Scan, b: Scan) {
    (forall g :: GroupCount(a.sasts, g) == GroupCount(b.sasts, g)) && ScaIds(a) == ScaIds(b)
  }

  /** An SCA fingerprint is present exactly when the scan reports its advisory. */
  lemma ScaFingerprints(scan: Scan, digest: Identity -> string, id: Identity)
    requires Injective(digest) && id.ScaId?
    ensures [digest(id)] in ByFingerprint(scan, digest) <==> id in ScaIds(scan)
  {
    var xs, key, m := Identify(scan), FingerprintOf(digest), |IdentifySasts(scan.sasts)|;
    IndexKeys(xs, key);
    if [digest(id)] in ByFingerprint(scan, digest) {
      var k :| 0 <= k < |xs| && key(xs[k]) == [digest(id)];
      DistinctFingerprints(digest, xs[k].id, id);
      ScaEntry(scan, k);
    }
    if id in ScaIds(scan) {
      var f :| f in scan.scas && IdentifySca(f).id == id;
      var j :| 0 <= j < |scan.scas| && scan.scas[j] == f;
      assert xs[m + j] == IdentifySca(f);
      assert key(xs[m + j]) == [digest(id)];
    }
  }

  lemma ScaEntry(scan: Scan, k: nat)
    requires k < |Identify(scan)| && Identify(scan)[k].id.ScaId?
    ensures Identify(scan)[k].id in ScaIds(scan)
  {
    var m := |IdentifySasts(scan.sasts)|;
    assert m <= k;
    assert Identify(scan)[k] == IdentifySca(scan.scas[k - m]);
  }

  /** A fingerprint's presence depends only on the group counts and the advisories. */
  lemma SameFingerprints(from: Scan, to: Scan, digest: Identity -> string)
    requires Injective(digest) && SameFindings(from, to)
    ensures ByFingerprint(from, digest).Keys <= ByFingerprint(to, digest).Keys
  {
    var xs, key := Identify(from), FingerprintOf(digest);
    IndexKeys(xs, key);
    forall k | k in ByFingerprint(from, digest) ensures k in ByFingerprint(to, digest) {
      var i :| 0 <= i < |xs| && key(xs[i]) == k;
      if xs[i].id.SastId? {
        SastFingerprints(from, digest, xs[i].id.group, xs[i].id.ordinal);
        SastFingerprints(to, digest, xs[i].id.group, xs[i].id.ordinal);
      } else {
        ScaFingerprints(from, digest, xs[i].id);
        ScaFingerprints(to, digest, xs[i].id);
      }
    }
  }

  lemma {:induction false} NoEntries(keys: seq<Key>, m: map<Key, Identified>)
    requires forall k | k in keys :: k in m
    ensures |EntriesAt(keys, m)| == |keys|
  {
    if keys != [] { NoEntries(keys[..|keys| - 1], m); }
  }

  /** Nothing is added or removed exactly when both scans have the same fingerprints. */
  lemma EmptyByKeys(baseline: Scan, candidate: Scan, digest: Identity -> string)
    requires baseline.sensorId == candidate.sensorId && !baseline.failed && !candidate.failed
    ensures var d := ComputeSspDelta(baseline, candidate, digest).value;
      d.added == [] && d.removed == []
      <==> ByFingerprint(baseline, digest).Keys == ByFingerprint(candidate, digest).Keys
  {
    var base, cand := ByFingerprint(baseline, digest), ByFingerprint(candidate, digest);
    NoEntries(AddedKeys(base, cand), cand);
    NoEntries(AddedKeys(cand, base), base);
    assert cand.Keys - base.Keys == {} && base.Keys - cand.Keys == {} <==> base.Keys == cand.Keys;
  }

  lemma SameKeysSameFindings(baseline: Scan, candidate: Scan, digest: Identity -> string)
    requires Injective(digest) && ByFingerprint(baseline, digest).Keys == ByFingerprint(candidate, digest).Keys
    ensures SameFindings(baseline, candidate)
  {
    forall g ensures GroupCount(baseline.sasts, g) == GroupCount(candidate.sasts, g) {
      SastFingerprints(baseline, digest, g, GroupCount(candidate.sasts, g));
      SastFingerprints(candidate, digest, g, GroupCount(candidate.sasts, g));
      SastFingerprints(baseline, digest, g, GroupCount(baseline.sasts, g));
      SastFingerprints(candidate, digest, g, GroupCount(baseline.sasts, g));
    }
    forall id ensures id in ScaIds(baseline) <==> id in ScaIds(candidate) {
      if id.ScaId? {
        ScaFingerprints(baseline, digest, id);
        ScaFingerprints(candidate, digest, id);
      }
    }
  }

  /** The delta is empty if and only if the scans have the same findings, counted per group. */
  lemma DeltaEmptyExactly(baseline: Scan, candidate: Scan, digest: Identity -> string)
    requires Injective(digest) && baseline.sensorId == candidate.sensorId && !baseline.failed && !candidate.failed
    ensures var d := ComputeSspDelta(baseline, candidate, digest).value;
      d.added == [] && d.removed == [] <==> SameFindings(baseline, candidate)
  {
    EmptyByKeys(baseline, candidate, digest);
    if SameFindings(baseline, candidate) {
      SameFingerprints(baseline, candidate, digest);
      SameFingerprints(candidate, baseline, digest);
    }
    if ByFingerprint(baseline, digest).Keys == ByFingerprint(candidate, digest).Keys {
      SameKeysSameFindings(baseline, candidate, digest);
    }
  }

  /** Shifting every span, order preserved, leaves nothing added or removed. */
  lemma MovedCodeHasNoDelta(scan: Scan, shift: Span -> Span, digest: Identity -> string)
    requires Injective(digest) && StrictlyMonotone(shift) && !scan.failed
    ensures var d := ComputeSspDelta(scan, scan.(sasts := MovedAll(scan.sasts, shift)), digest).value;
            d.added == [] && d.removed == [] && d.status == StatusPass
  {
    var moved := scan.(sasts := MovedAll(scan.sasts, shift));
    forall g ensures GroupCount(scan.sasts, g) == GroupCount(moved.sasts, g) {
      MoveKeepsGroup(scan.sasts, shift, g, |scan.sasts|);
    }
    assert SameFindings(scan, moved);
    DeltaEmptyExactly(scan, moved, digest);
  }
}
