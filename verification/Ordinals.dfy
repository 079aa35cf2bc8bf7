/**
  The ordinal allocator of the Codex Security adapter: explicit ordinals are reserved in a first
  pass over the payload, and a second pass gives each remaining finding the next free one.
 */
module Ordinals {
  import opened Values

  datatype Group = Group(
    findingClass: string, modulePath: string, qualifiedName: string,
    anchorKind: string, expectedProperty: string
  )

  /** The ordinal entry of a payload item, when it has one: an integer or something else. */
  datatype OrdinalField = Integer(n: int) | NotInteger

  /** A payload item. Required texts that are missing or not strings are None; `details` is None when
      severity, message or span do not validate. */
  datatype Item =
    | NotObject
    | Object(findingClass: Option<string>, modulePath: Option<string>, qualifiedName: Option<string>,
             anchorKind: Option<string>, expectedProperty: Option<Option<string>>,
             ordinal: Option<OrdinalField>, details: Option<string>)

  datatype Raw = Raw(group: Group, ordinal: nat, details: string)

  datatype Problem = NotAnObject | MissingText | Invalid | Duplicate | Internal

  datatype Outcome<+T> = Ok(value: T) | Err(problem: Problem)

  function Posix(path: string): string {
    seq(|path|, i requires 0 <= i < |path| => if path[i] == '\\' then '/' else path[i])
  }

  /** `_group_from_mapping`. */
  function GroupFromMapping(p: Item): Option<Group>
    requires p.Object?
  {
    var expected := if p.expectedProperty.None? then Some("") else p.expectedProperty.value;
    if p.findingClass.None? || p.modulePath.None? || p.qualifiedName.None? || p.anchorKind.None?
       || expected.None? then None
    else Some(Group(p.findingClass.value, Posix(p.modulePath.value), p.qualifiedName.value,
                    p.anchorKind.value, expected.value))
  }

  /** `RawLLMFinding.model_validate` on an item with the given ordinal. */
  function Validate(p: Item, ordinal: OrdinalField): Option<Raw>
    requires p.Object?
  {
    match GroupFromMapping(p)
    case None => None
    case Some(g) =>
      if g.findingClass == "" || g.modulePath == "" || g.qualifiedName == "" then None
      else if g.anchorKind != "presence" && g.anchorKind != "absence" then None
      else if g.anchorKind == "absence" && g.expectedProperty == "" then None
      else if g.anchorKind == "presence" && g.expectedProperty != "" then None
      else if ordinal.NotInteger? || ordinal.n < 0 || p.details.None? then None
      else Some(Raw(g, ordinal.n, p.details.value))
  }

  // ---- what the allocation should be ----

  predicate IsExplicit(p: Item) { p.Object? && p.ordinal.Some? }

  /** The finding an explicit item denotes on its own. */
  function Stated(p: Item): Option<Raw> {
    if IsExplicit(p) then Validate(p, p.ordinal.value) else None
  }

  predicate Reserves(p: Item, g: Group) { Stated(p).Some? && Stated(p).value.group == g }

  /** The ordinals of a group stated anywhere in the payload. */
  ghost function Reserved(items: seq<Item>, g: Group): set<nat> {
    set i | 0 <= i < |items| && Reserves(items[i], g) :: Stated(items[i]).value.ordinal
  }

  predicate IsImplicitIn(p: Item, g: Group) {
    p.Object? && p.ordinal.None? && GroupFromMapping(p) == Some(g)
  }

  ghost function ImplicitCount(items: seq<Item>, g: Group): nat {
    if items == [] then 0
    else ImplicitCount(items[..|items| - 1], g) + (if IsImplicitIn(items[|items| - 1], g) then 1 else 0)
  }

  /** How many naturals below n are not reserved. */
  ghost function FreeBelow(reserved: set<nat>, n: nat): nat {
    if n == 0 then 0 else FreeBelow(reserved, n - 1) + (if n - 1 in reserved then 0 else 1)
  }

  /** n is free, and exactly k smaller naturals are free: the k-th free natural, from zero. */
  ghost predicate IsKthFree(reserved: set<nat>, k: nat, n: nat) {
    n !in reserved && FreeBelow(reserved, n) == k
  }

  /** The finding the allocator owes position i. */
  ghost predicate IsAllocated(items: seq<Item>, i: nat, raw: Raw)
    requires i < |items|
  {
    && items[i].Object?
    && Validate(items[i], Integer(raw.ordinal)) == Some(raw)
    && if items[i].ordinal.Some? then items[i].ordinal == Some(Integer(raw.ordinal))
       else IsKthFree(Reserved(items, raw.group), ImplicitCount(items[..i], raw.group), raw.ordinal)
  }

  /** Each item validates on its own, an implicit one with any ordinal. */
  predicate IsValid(p: Item) {
    p.Object? && Validate(p, if p.ordinal.Some? then p.ordinal.value else Integer(0)).Some?
  }

  ghost predicate NoneRepeated(items: seq<Item>) {
    forall i, j | 0 <= i < j < |items| && Stated(items[i]).Some? && Stated(items[j]).Some? ::
      Stated(items[i]).value.group == Stated(items[j]).value.group ==>
        Stated(items[i]).value.ordinal != Stated(items[j]).value.ordinal
  }

  /** The payloads the adapter accepts. */
  ghost predicate IsAcceptable(items: seq<Item>) {
    (forall i | 0 <= i < |items| :: IsValid(items[i])) && NoneRepeated(items)
  }

  // ---- counting free ordinals ----

  lemma {:induction false} FreeBelowGrows(reserved: set<nat>, m: nat, n: nat)
    requires m <= n
    ensures FreeBelow(reserved, m) <= FreeBelow(reserved, n)
    ensures m < n && m !in reserved ==> FreeBelow(reserved, m) < FreeBelow(reserved, n)
  {
    if m < n { FreeBelowGrows(reserved, m, n - 1); }
  }

  /** There is at most one k-th free natural, and a later k gives a larger one. */
  lemma KthFreeOrder(reserved: set<nat>, k: nat, m: nat, l: nat, n: nat)
    requires IsKthFree(reserved, k, m) && IsKthFree(reserved, l, n)
    ensures k < l <==> m < n
    ensures k == l <==> m == n
  {
    if m <= n { FreeBelowGrows(reserved, m, n); } else { FreeBelowGrows(reserved, n, m); }
  }

  /** `_next_free_ordinal`: the search ends at the first free ordinal from the start. */
  method NextFreeOrdinal(start: nat, reserved: set<nat>) returns (ordinal: nat)
    ensures start <= ordinal && ordinal !in reserved
    ensures forall m | start <= m < ordinal :: m in reserved
  {
    ordinal := start;
    while ordinal in reserved
      invariant start <= ordinal
      invariant forall m | start <= m < ordinal :: m in reserved
      decreases set m | m in reserved && m >= ordinal
    {
      ghost var ahead := set m | m in reserved && m >= ordinal;
      assert ordinal in ahead;
      ordinal := ordinal + 1;
    }
  }

  lemma {:induction false} SkippingReserved(reserved: set<nat>, start: nat, ordinal: nat)
    requires start <= ordinal && forall m | start <= m < ordinal :: m in reserved
    ensures FreeBelow(reserved, ordinal) == FreeBelow(reserved, start)
  {
    if start < ordinal { SkippingReserved(reserved, start, ordinal - 1); }
  }

  // ---- the two passes ----

  function Get(seen: map<Group, set<nat>>, g: Group): set<nat> {
    if g in seen then seen[g] else {}
  }

  function Start(next: map<Group, nat>, g: Group): nat {
    if g in next then next[g] else 0
  }

  lemma ReservedAppend(items: seq<Item>, p: Item, g: Group)
    ensures Reserved(items + [p], g)
         == Reserved(items, g) + (if Reserves(p, g) then {Stated(p).value.ordinal} else {})
  {
    var all := items + [p];
    assert all[|items|] == p;
    forall n | n in Reserved(items, g) ensures n in Reserved(all, g) {
      var i :| 0 <= i < |items| && Reserves(items[i], g) && Stated(items[i]).value.ordinal == n;
      assert all[i] == items[i];
    }
  }

  ghost predicate HoldsReserved(seen: map<Group, set<nat>>, items: seq<Item>) {
    forall g :: Get(seen, g) == Reserved(items, g)
  }

  lemma ReservedStep(seen: map<Group, set<nat>>, items: seq<Item>, p: Item)
    requires HoldsReserved(seen, items)
    ensures Stated(p).None? ==> HoldsReserved(seen, items + [p])
    ensures Stated(p).Some? ==>
              var g := Stated(p).value.group;
              HoldsReserved(seen[g := Get(seen, g) + {Stated(p).value.ordinal}], items + [p])
  {
    forall g { ReservedAppend(items, p, g); }
  }

  /** `_reserve_explicit_ordinals`: fails exactly when a stated ordinal is invalid or repeated. */
  method ReserveExplicitOrdinals(items: seq<Item>) returns (r: Outcome<map<Group, set<nat>>>)
    ensures r.Ok? <==> NoneRepeated(items) && forall i | 0 <= i < |items| && IsExplicit(items[i]) :: IsValid(items[i])
    ensures r.Ok? ==> HoldsReserved(r.value, items)
    ensures r.Err? ==> r.problem in {Invalid, Duplicate}
  {
    var seen: map<Group, set<nat>> := map[];
    for i := 0 to |items|
      invariant HoldsReserved(seen, items[..i])
      invariant NoneRepeated(items[..i])
      invariant forall j | 0 <= j < i && IsExplicit(items[j]) :: IsValid(items[j])
    {
      var p := items[i];
      assert items[..i + 1] == items[..i] + [p];
      ReservedStep(seen, items[..i], p);
      if IsExplicit(p) {
        var raw := Validate(p, p.ordinal.value);
        if raw.None? {
          return Err(Invalid);
        }
        var taken := Get(seen, raw.value.group);
        if raw.value.ordinal in taken {
          assert raw.value.ordinal in Reserved(items[..i], raw.value.group);
          return Err(Duplicate);
        }
        seen := seen[raw.value.group := taken + {raw.value.ordinal}];
      }
    }
    assert items[..|items|] == items;
    return Ok(seen);
  }

  /** What the second pass knows of a group after a prefix: the reserved ordinals are seen, those it
      added lie below the group's cursor, and the cursor has passed one free ordinal per implicit item. */
  ghost predicate GroupState(items: seq<Item>, done: nat, seen: map<Group, set<nat>>, next: map<Group, nat>, g: Group)
    requires done <= |items|
  {
    && Reserved(items, g) <= Get(seen, g)
    && (forall n | n in Get(seen, g) && n >= Start(next, g) :: n in Reserved(items, g))
    && FreeBelow(Reserved(items, g), Start(next, g)) == ImplicitCount(items[..done], g)
  }

  lemma ImplicitStep(items: seq<Item>, i: nat, g: Group)
    requires i < |items|
    ensures ImplicitCount(items[..i + 1], g)
         == ImplicitCount(items[..i], g) + (if IsImplicitIn(items[i], g) then 1 else 0)
  {
    assert items[..i + 1][..i] == items[..i];
  }

  /** The first ordinal from the cursor that is not seen is the next free one. */
  lemma FirstUnseenIsKthFree(items: seq<Item>, i: nat, seen: map<Group, set<nat>>, next: map<Group, nat>, g: Group,
                             n: nat)
    requires i < |items| && GroupState(items, i, seen, next, g) && IsImplicitIn(items[i], g)
    requires Start(next, g) <= n && n !in Get(seen, g)
    requires forall m | Start(next, g) <= m < n :: m in Get(seen, g)
    ensures IsKthFree(Reserved(items, g), ImplicitCount(items[..i], g), n)
    ensures GroupState(items, i + 1, seen[g := Get(seen, g) + {n}], next[g := n + 1], g)
  {
    SkippingReserved(Reserved(items, g), Start(next, g), n);
    ImplicitStep(items, i, g);
  }

  lemma OthersKeepState(items: seq<Item>, i: nat, seen: map<Group, set<nat>>, next: map<Group, nat>,
                        seen': map<Group, set<nat>>, next': map<Group, nat>, g: Group)
    requires i < |items| && GroupState(items, i, seen, next, g) && !IsImplicitIn(items[i], g)
    requires Get(seen', g) == Get(seen, g) && Start(next', g) == Start(next, g)
    ensures GroupState(items, i + 1, seen', next', g)
  {
    ImplicitStep(items, i, g);
  }

  ghost predicate State(items: seq<Item>, done: nat, seen: map<Group, set<nat>>, next: map<Group, nat>)
    requires done <= |items|
  {
    forall g :: GroupState(items, done, seen, next, g)
  }

  lemma StateStarts(items: seq<Item>, seen: map<Group, set<nat>>)
    requires HoldsReserved(seen, items)
    ensures State(items, 0, seen, map[])
  {
    forall g ensures GroupState(items, 0, seen, map[], g) {
      assert FreeBelow(Reserved(items, g), 0) == 0;
    }
  }

  lemma ImplicitKeepsState(items: seq<Item>, i: nat, seen: map<Group, set<nat>>, next: map<Group, nat>, g: Group,
                           n: nat)
    requires i < |items| && State(items, i, seen, next) && IsImplicitIn(items[i], g)
    requires Start(next, g) <= n && n !in Get(seen, g)
    requires forall m | Start(next, g) <= m < n :: m in Get(seen, g)
    ensures IsKthFree(Reserved(items, g), ImplicitCount(items[..i], g), n)
    ensures State(items, i + 1, seen[g := Get(seen, g) + {n}], next[g := n + 1])
  {
    var seen', next' := seen[g := Get(seen, g) + {n}], next[g := n + 1];
    assert GroupState(items, i, seen, next, g);
    FirstUnseenIsKthFree(items, i, seen, next, g, n);
    var done := i + 1;
    forall h ensures GroupState(items, done, seen', next', h) {
      assert GroupState(items, i, seen, next, h);
      if h != g { OthersKeepState(items, i, seen, next, seen', next', h); }
    }
  }

  /** An explicit finding was reserved in the first pass. */
  lemma ExplicitKeepsState(items: seq<Item>, i: nat, seen: map<Group, set<nat>>, next: map<Group, nat>, raw: Raw)
    requires i < |items| && State(items, i, seen, next) && Stated(items[i]) == Some(raw)
    ensures raw.ordinal in Get(seen, raw.group)
    ensures State(items, i + 1, seen[raw.group := Get(seen, raw.group)], next)
  {
    var seen' := seen[raw.group := Get(seen, raw.group)];
    assert GroupState(items, i, seen, next, raw.group);
    assert Reserves(items[i], raw.group) && raw.ordinal in Reserved(items, raw.group);
    var done := i + 1;
    forall h ensures GroupState(items, done, seen', next, h) {
      assert GroupState(items, i, seen, next, h);
      OthersKeepState(items, i, seen, next, seen', next, h);
    }
  }

  /**
    `_raw_findings`: accepts exactly the acceptable payloads, and then gives every position the finding
    it is owed. The internal reservation error cannot occur.
   */
  method RawFindings(items: seq<Item>) returns (r: Outcome<seq<Raw>>)
    ensures r.Ok? <==> IsAcceptable(items)
    ensures r.Ok? ==> |r.value| == |items| && forall i | 0 <= i < |items| :: IsAllocated(items, i, r.value[i])
    ensures r != Err(Internal)
  {
    var reserved := ReserveExplicitOrdinals(items);
    if reserved.Err? {
      return Err(reserved.problem);
    }
    var seen := reserved.value;
    var next: map<Group, nat> := map[];
    var raws: seq<Raw> := [];
    StateStarts(items, seen);
    for i := 0 to |items|
      invariant |raws| == i
      invariant forall j | 0 <= j < i :: IsValid(items[j]) && IsAllocated(items, j, raws[j])
      invariant State(items, i, seen, next)
    {
      var p := items[i];
      if p.NotObject? {
        return Err(NotAnObject);
      }
      if p.ordinal.None? {
        var group := GroupFromMapping(p);
        if group.None? {
          return Err(MissingText);
        }
        var n := NextFreeOrdinal(Start(next, group.value), Get(seen, group.value));
        var raw := Validate(p, Integer(n));
        if raw.None? {
          return Err(Invalid);
        }
        ImplicitKeepsState(items, i, seen, next, group.value, n);
        next := next[group.value := n + 1];
        seen := seen[group.value := Get(seen, group.value) + {n}];
        raws := raws + [raw.value];
      } else {
        var raw := Validate(p, p.ordinal.value);
        if raw.None? {
          return Err(Invalid);
        }
        ExplicitKeepsState(items, i, seen, next, raw.value);
        seen := seen[raw.value.group := Get(seen, raw.value.group)];
        if raw.value.ordinal !in seen[raw.value.group] {
          return Err(Internal);
        }
        raws := raws + [raw.value];
      }
    }
    return Ok(raws);
  }

  // ---- the allocation is injective ----

  lemma {:induction false} ImplicitCountGrows(items: seq<Item>, i: nat, j: nat, g: Group)
    requires i < j <= |items| && IsImplicitIn(items[i], g)
    ensures ImplicitCount(items[..i], g) < ImplicitCount(items[..j], g)
  {
    ImplicitStep(items, j - 1, g);
    if i < j - 1 { ImplicitCountGrows(items, i, j - 1, g); }
  }

  /** No two findings of an accepted payload share both group and ordinal. */
  lemma OrdinalsDistinct(items: seq<Item>, raws: seq<Raw>, i: nat, j: nat)
    requires IsAcceptable(items) && |raws| == |items| && i < j < |items|
    requires forall k | 0 <= k < |items| :: IsAllocated(items, k, raws[k])
    ensures raws[i].group == raws[j].group ==> raws[i].ordinal != raws[j].ordinal
  {
    var g := raws[i].group;
    assert IsAllocated(items, i, raws[i]) && IsAllocated(items, j, raws[j]);
    if raws[j].group == g && items[i].ordinal.None? && items[j].ordinal.None? {
      ImplicitCountGrows(items, i, j, g);
      KthFreeOrder(Reserved(items, g), ImplicitCount(items[..i], g), raws[i].ordinal,
                   ImplicitCount(items[..j], g), raws[j].ordinal);
    }
  }

  /** Implicit findings of one group keep the payload's order. */
  lemma ImplicitInOrder(items: seq<Item>, raws: seq<Raw>, i: nat, j: nat)
    requires |raws| == |items| && i < j < |items| && raws[i].group == raws[j].group
    requires items[i].Object? && items[i].ordinal.None? && items[j].Object? && items[j].ordinal.None?
    requires IsAllocated(items, i, raws[i]) && IsAllocated(items, j, raws[j])
    ensures raws[i].ordinal < raws[j].ordinal
  {
    ImplicitCountGrows(items, i, j, raws[i].group);
    KthFreeOrder(Reserved(items, raws[i].group), ImplicitCount(items[..i], raws[i].group), raws[i].ordinal,
                 ImplicitCount(items[..j], raws[i].group), raws[j].ordinal);
  }

  // ---- what an item must say ----

  predicate IsText(o: Option<string>) { o.Some? && o.value != "" }

  /** An expected property, missing or empty when there is none. */
  function ExpectedText(p: Item): Option<string>
    requires p.Object?
  {
    match p.expectedProperty
    case None => Some("")
    case Some(text) => text
  }

  /**
    An item is valid exactly when it names a class, a module and a symbol, is anchored to a presence
    without an expected property or to an absence with one, states no ordinal or one that is a
    natural number, and has valid details.
   */
  lemma ValidExactly(p: Item)
    ensures IsValid(p) <==>
              (&& p.Object? && IsText(p.findingClass) && IsText(p.modulePath) && IsText(p.qualifiedName)
               && ((p.anchorKind == Some("presence") && ExpectedText(p) == Some(""))
                   || (p.anchorKind == Some("absence") && IsText(ExpectedText(p))))
               && (p.ordinal.None? || (p.ordinal.value.Integer? && p.ordinal.value.n >= 0)) && p.details.Some?)
  {
    if p.Object? && p.modulePath.Some? { assert |Posix(p.modulePath.value)| == |p.modulePath.value|; }
  }

  /** The finding says of its group what the item states. */
  predicate StatesGroup(p: Item, g: Group)
    requires p.Object?
  {
    && p.findingClass == Some(g.findingClass) && p.qualifiedName == Some(g.qualifiedName)
    && p.anchorKind == Some(g.anchorKind) && ExpectedText(p) == Some(g.expectedProperty)
  }

  /** A path with its backslashes turned. */
  predicate IsTurned(path: string, turned: string) {
    |turned| == |path|
    && forall i | 0 <= i < |path| :: turned[i] == if path[i] == '\\' then '/' else path[i]
  }

  /** The finding of a valid item: its group as stated, with the module path in forward slashes. */
  lemma FindingOf(p: Item, n: nat)
    requires IsValid(p)
    ensures Validate(p, Integer(n)).Some?
    ensures Validate(p, Integer(n)).value.ordinal == n && p.details == Some(Validate(p, Integer(n)).value.details)
    ensures StatesGroup(p, Validate(p, Integer(n)).value.group)
    ensures IsTurned(p.modulePath.value, Validate(p, Integer(n)).value.group.modulePath)
  {
  }
}
