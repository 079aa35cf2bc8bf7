/**
  The lock-file dependency closure: a worklist over (name, requested extras) edges that collects
  the packages with an active variant reachable from a set of roots.
 */
module LockClosure {
  import opened Values

  datatype Edge = Edge(name: string, extras: set<string>)

  /** A listed dependency: the edge it stands for, and whether its marker holds here. */
  datatype Dependency = Dependency(edge: Edge, allowed: bool)

  /** One package table of the lock; names and extras are normalised, nested groups are flattened. */
  datatype Package = Package(
    name: Option<string>,
    active: bool,
    dependencies: seq<Dependency>,
    development: seq<Dependency>,
    groups: seq<Dependency>,
    optional: map<string, seq<Dependency>>
  )

  /** Locked variants by name. */
  type Lock = map<string, seq<Package>>

  /** `_dependency_edges_from_object`. */
  function EdgesOf(listed: seq<Dependency>): set<Edge> {
    set d | d in listed && d.allowed :: d.edge
  }

  /** `_optional_dependency_edges`. */
  function OptionalEdges(p: Package, extras: set<string>): set<Edge> {
    set x, e | x in extras && x in p.optional && e in EdgesOf(p.optional[x]) :: e
  }

  function ActiveOf(variants: seq<Package>): (r: seq<Package>)
    ensures forall p :: p in r <==> p in variants && p.active
  {
    if variants == [] then []
    else if variants[0].active then [variants[0]] + ActiveOf(variants[1..])
    else ActiveOf(variants[1..])
  }

  function ActiveVariants(lock: Lock, name: string): seq<Package> {
    if name in lock then ActiveOf(lock[name]) else []
  }

  /** What following an edge into one variant leads to. */
  function VariantEdges(p: Package, extras: set<string>): set<Edge> {
    EdgesOf(p.dependencies) + OptionalEdges(p, extras)
  }

  function Next(lock: Lock, e: Edge): set<Edge> {
    set p, d | p in ActiveVariants(lock, e.name) && d in VariantEdges(p, e.extras) :: d
  }

  predicate HasActive(lock: Lock, name: string) { ActiveVariants(lock, name) != [] }

  // ---- reachability, over any edge relation ----

  type Steps = Edge -> set<Edge>

  ghost predicate IsPath(next: Steps, roots: set<Edge>, p: seq<Edge>) {
    && p != [] && p[0] in roots
    && forall i | 0 < i < |p| :: p[i] in next(p[i - 1])
  }

  ghost predicate Reachable(next: Steps, roots: set<Edge>, e: Edge) {
    exists p :: IsPath(next, roots, p) && p[|p| - 1] == e
  }

  lemma RootReachable(next: Steps, roots: set<Edge>, e: Edge)
    requires e in roots
    ensures Reachable(next, roots, e)
  {
    assert IsPath(next, roots, [e]);
  }

  lemma StepReachable(next: Steps, roots: set<Edge>, e: Edge, d: Edge)
    requires Reachable(next, roots, e) && d in next(e)
    ensures Reachable(next, roots, d)
  {
    var p :| IsPath(next, roots, p) && p[|p| - 1] == e;
    var q := p + [d];
    assert IsPath(next, roots, q) && q[|q| - 1] == d;
  }

  /** A set that holds the roots and is closed under edges holds everything reachable. */
  lemma {:induction false} ClosedHoldsPath(next: Steps, roots: set<Edge>, s: set<Edge>, p: seq<Edge>)
    requires roots <= s && (forall e | e in s :: next(e) <= s) && IsPath(next, roots, p)
    ensures p[|p| - 1] in s
  {
    if |p| > 1 {
      var init := p[..|p| - 1];
      assert IsPath(next, roots, init);
      ClosedHoldsPath(next, roots, s, init);
      assert p[|p| - 1] in next(init[|init| - 1]);
    }
  }

  ghost function Seen(processed: set<Edge>, stack: seq<Edge>): set<Edge> {
    processed + set e | e in stack
  }

  /** The roots and everything a processed edge leads to have been seen. */
  ghost predicate Progress(next: Steps, roots: set<Edge>, processed: set<Edge>, seen: set<Edge>) {
    roots <= seen && forall e | e in processed :: next(e) <= seen
  }

  lemma ProgressStep(next: Steps, roots: set<Edge>, processed: set<Edge>, seen: set<Edge>, edge: Edge)
    requires Progress(next, roots, processed, seen)
    ensures Progress(next, roots, processed + {edge}, seen + next(edge))
  {
  }

  ghost predicate AllReachable(next: Steps, roots: set<Edge>, seen: set<Edge>) {
    forall e | e in seen :: Reachable(next, roots, e)
  }

  lemma ReachStep(next: Steps, roots: set<Edge>, seen: set<Edge>, edge: Edge)
    requires AllReachable(next, roots, seen) && edge in seen
    ensures AllReachable(next, roots, seen + next(edge))
  {
    forall d | d in next(edge) ensures Reachable(next, roots, d) {
      StepReachable(next, roots, edge, d);
    }
  }

  /** What the walk keeps: seen edges are reachable, and lead only to seen edges once processed. */
  ghost predicate Walked(next: Steps, roots: set<Edge>, processed: set<Edge>, stack: seq<Edge>) {
    var seen := Seen(processed, stack);
    Progress(next, roots, processed, seen) && AllReachable(next, roots, seen)
  }

  lemma WalkStarts(next: Steps, roots: set<Edge>, stack: seq<Edge>)
    requires forall e :: e in stack <==> e in roots
    ensures Walked(next, roots, {}, stack)
  {
    assert Seen({}, stack) == roots;
    forall e | e in roots ensures Reachable(next, roots, e) { RootReachable(next, roots, e); }
  }

  lemma WalkStep(next: Steps, roots: set<Edge>, processed: set<Edge>, rest: seq<Edge>, edge: Edge,
                 pushed: seq<Edge>)
    requires Walked(next, roots, processed, rest + [edge])
    requires forall e :: e in pushed <==> e in rest || (e in next(edge) && e !in processed + {edge})
    ensures Walked(next, roots, processed + {edge}, pushed)
  {
    var seen := Seen(processed, rest + [edge]);
    ProgressStep(next, roots, processed, seen, edge);
    ReachStep(next, roots, seen, edge);
    assert Seen(processed + {edge}, pushed) == seen + next(edge);
  }

  lemma WalkSkip(next: Steps, roots: set<Edge>, processed: set<Edge>, rest: seq<Edge>, edge: Edge)
    requires Walked(next, roots, processed, rest + [edge]) && edge in processed
    ensures Walked(next, roots, processed, rest)
  {
    assert Seen(processed, rest + [edge]) == Seen(processed, rest);
  }

  /** When everything seen has been processed, the processed edges are the reachable ones. */
  lemma ProcessedIsReachable(next: Steps, roots: set<Edge>, processed: set<Edge>)
    requires Progress(next, roots, processed, processed) && AllReachable(next, roots, processed)
    ensures forall e :: e in processed <==> Reachable(next, roots, e)
  {
    forall e | Reachable(next, roots, e) ensures e in processed {
      var p :| IsPath(next, roots, p) && p[|p| - 1] == e;
      ClosedHoldsPath(next, roots, processed, p);
    }
  }

  // ---- the worklist ----

  /** Every edge the lock or the roots mention: the finite universe the walk stays in. */
  ghost function Universe(lock: Lock, roots: set<Edge>): set<Edge> {
    roots + (set n, p, e | n in lock && p in lock[n] && e in VariantEdges(p, p.optional.Keys) :: e)
  }

  lemma NextInUniverse(lock: Lock, roots: set<Edge>, e: Edge)
    ensures Next(lock, e) <= Universe(lock, roots)
  {
    forall d | d in Next(lock, e) ensures d in Universe(lock, roots) {
      var p :| p in ActiveVariants(lock, e.name) && d in VariantEdges(p, e.extras);
      assert d in VariantEdges(p, p.optional.Keys);
    }
  }

  /** Push the unprocessed edges of a set, in any order. */
  method PushAll(edges: set<Edge>, processed: set<Edge>, stack: seq<Edge>) returns (r: seq<Edge>)
    ensures forall e :: e in r <==> e in stack || (e in edges && e !in processed)
  {
    r := stack;
    var todo := edges;
    while todo != {}
      invariant todo <= edges
      invariant forall e :: e in r <==> e in stack || (e in edges && e !in todo && e !in processed)
      decreases |todo|
    {
      var e :| e in todo;
      todo := todo - {e};
      if e !in processed {
        r := r + [e];
      }
    }
  }

  /** The edges the first k variants lead to. */
  ghost function EdgesUpTo(variants: seq<Package>, k: nat, extras: set<string>): set<Edge>
    requires k <= |variants|
  {
    set p, d | p in variants[..k] && d in VariantEdges(p, extras) :: d
  }

  lemma EdgesUpToNext(variants: seq<Package>, k: nat, extras: set<string>)
    requires k < |variants|
    ensures EdgesUpTo(variants, k + 1, extras)
         == EdgesUpTo(variants, k, extras) + VariantEdges(variants[k], extras)
  {
    assert variants[..k + 1] == variants[..k] + [variants[k]];
  }

  /** The inner loops: push every unprocessed edge the active variants of a name lead to. */
  method PushNext(lock: Lock, edge: Edge, processed: set<Edge>, stack: seq<Edge>) returns (r: seq<Edge>)
    ensures forall e :: e in r <==> e in stack || (e in Next(lock, edge) && e !in processed)
  {
    var variants := ActiveVariants(lock, edge.name);
    r := stack;
    for i := 0 to |variants|
      invariant forall e ::
        e in r <==> e in stack || (e !in processed && e in EdgesUpTo(variants, i, edge.extras))
    {
      EdgesUpToNext(variants, i, edge.extras);
      r := PushAll(EdgesOf(variants[i].dependencies), processed, r);
      r := PushAll(OptionalEdges(variants[i], edge.extras), processed, r);
    }
    assert variants[..|variants|] == variants;
  }

  ghost function Follow(lock: Lock): Steps {
    (e: Edge) => Next(lock, e)
  }

  /** Names with an active variant that some reachable edge asks for. */
  ghost predicate InClosure(lock: Lock, roots: set<Edge>, name: string) {
    HasActive(lock, name) && exists e :: Reachable(Follow(lock), roots, e) && e.name == name
  }

  ghost predicate Asked(processed: set<Edge>, n: string) {
    exists e :: e in processed && e.name == n
  }

  /** The names a set of processed edges has included. */
  ghost predicate Included(active: string -> bool, processed: set<Edge>, included: set<string>) {
    forall n :: n in included <==> active(n) && Asked(processed, n)
  }

  lemma IncludedStep(active: string -> bool, processed: set<Edge>, included: set<string>, edge: Edge)
    requires Included(active, processed, included)
    ensures Included(active, processed + {edge},
                     if active(edge.name) then included + {edge.name} else included)
  {
    forall n ensures Asked(processed + {edge}, n) <==> Asked(processed, n) || n == edge.name {
      if n == edge.name { assert edge in processed + {edge}; }
      if Asked(processed, n) {
        var e :| e in processed && e.name == n;
        assert e in processed + {edge};
      }
    }
  }

  /** Reachable edges stay in the universe. */
  lemma ReachableInUniverse(lock: Lock, roots: set<Edge>, e: Edge)
    requires Reachable(Follow(lock), roots, e)
    ensures e in Universe(lock, roots)
  {
    var p :| IsPath(Follow(lock), roots, p) && p[|p| - 1] == e;
    if |p| > 1 { NextInUniverse(lock, roots, p[|p| - 2]); }
  }

  /** What the walk keeps, for a lock. */
  ghost predicate Consistent(lock: Lock, roots: set<Edge>, processed: set<Edge>, stack: seq<Edge>,
                             included: set<string>) {
    && Walked(Follow(lock), roots, processed, stack)
    && Included((n: string) => HasActive(lock, n), processed, included)
  }

  lemma ClosureExact(lock: Lock, roots: set<Edge>, processed: set<Edge>, included: set<string>)
    requires Consistent(lock, roots, processed, [], included)
    ensures forall n :: n in included <==> InClosure(lock, roots, n)
  {
    assert Seen(processed, []) == processed;
    ProcessedIsReachable(Follow(lock), roots, processed);
  }

  /** Process one edge popped off the stack. */
  method ProcessEdge(lock: Lock, ghost roots: set<Edge>, processed: set<Edge>, rest: seq<Edge>,
                     edge: Edge, included: set<string>)
    returns (stack: seq<Edge>, nowIncluded: set<string>)
    requires Consistent(lock, roots, processed, rest + [edge], included) && edge !in processed
    ensures Consistent(lock, roots, processed + {edge}, stack, nowIncluded)
  {
    stack := PushNext(lock, edge, processed + {edge}, rest);
    WalkStep(Follow(lock), roots, processed, rest, edge, stack);
    IncludedStep((n: string) => HasActive(lock, n), processed, included, edge);
    nowIncluded := if ActiveVariants(lock, edge.name) != [] then included + {edge.name} else included;
  }

  /** `_dependency_closure`: it ends, and returns exactly the names in the closure of the roots. */
  method DependencyClosure(roots: set<Edge>, lock: Lock) returns (included: set<string>)
    ensures forall n :: n in included <==> InClosure(lock, roots, n)
  {
    included := {};
    var processed: set<Edge> := {};
    var stack := PushAll(roots, {}, []);
    WalkStarts(Follow(lock), roots, stack);
    while stack != []
      invariant Consistent(lock, roots, processed, stack, included)
      decreases Universe(lock, roots) - processed, |stack|
    {
      var edge := stack[|stack| - 1];
      var rest := stack[..|stack| - 1];
      assert stack == rest + [edge];
      if edge in processed {
        WalkSkip(Follow(lock), roots, processed, rest, edge);
        stack := rest;
      } else {
        ReachableInUniverse(lock, roots, edge);
        stack, included := ProcessEdge(lock, roots, processed, rest, edge, included);
        processed := processed + {edge};
      }
    }
    ClosureExact(lock, roots, processed, included);
  }

  // ---- excluded packages ----

  function Named(packages: seq<Package>, name: string): seq<Package> {
    if packages == [] then []
    else
      (if packages[0].name == Some(name) then [packages[0]] else []) + Named(packages[1..], name)
  }

  lemma {:induction false} NamedAppend(packages: seq<Package>, p: Package, name: string)
    ensures Named(packages + [p], name)
         == Named(packages, name) + (if p.name == Some(name) then [p] else [])
  {
    if packages != [] {
      assert (packages + [p])[1..] == packages[1..] + [p];
      NamedAppend(packages[1..], p, name);
    }
  }

  /** The lock that a package list denotes: the variants of each non-empty name, in order. */
  ghost predicate IsLockOf(lock: Lock, packages: seq<Package>) {
    && (forall n :: n in lock <==> n != "" && Named(packages, n) != [])
    && (forall n | n in lock :: lock[n] == Named(packages, n))
  }

  /** `_lock_packages_by_name`. */
  method LockPackagesByName(packages: seq<Package>) returns (lock: Lock)
    ensures IsLockOf(lock, packages)
  {
    lock := map[];
    for i := 0 to |packages|
      invariant IsLockOf(lock, packages[..i])
    {
      var p := packages[i];
      assert packages[..i + 1] == packages[..i] + [p];
      forall n
        ensures Named(packages[..i + 1], n) == Named(packages[..i], n) + (if p.name == Some(n) then [p] else [])
      {
        NamedAppend(packages[..i], p, n);
      }
      if p.name.Some? && p.name.value != "" {
        var listed := if p.name.value in lock then lock[p.name.value] else [];
        lock := lock[p.name.value := listed + [p]];
      }
    }
    assert packages[..|packages|] == packages;
  }

  /** Packages whose listed dependencies count as roots: all of them when no project is known. */
  predicate IsRootPackage(p: Package, project: Option<string>) {
    project.None? || p.name.None? || p.name == project
  }

  ghost function DefaultRoots(packages: seq<Package>, project: Option<string>): set<Edge> {
    set p, e | p in packages && IsRootPackage(p, project) && e in EdgesOf(p.dependencies) :: e
  }

  /** Development, group and optional edges of a package. */
  function OtherEdges(p: Package): set<Edge> {
    EdgesOf(p.development) + EdgesOf(p.groups) + OptionalEdges(p, p.optional.Keys)
  }

  ghost function OtherRoots(packages: seq<Package>, project: Option<string>): set<Edge> {
    set p, e | p in packages && IsRootPackage(p, project) && e in OtherEdges(p) :: e
  }

  method CollectRoots(packages: seq<Package>, project: Option<string>)
    returns (standard: set<Edge>, other: set<Edge>)
    ensures standard == DefaultRoots(packages, project) && other == OtherRoots(packages, project)
  {
    standard, other := {}, {};
    for i := 0 to |packages|
      invariant standard == DefaultRoots(packages[..i], project)
      invariant other == OtherRoots(packages[..i], project)
    {
      assert packages[..i + 1] == packages[..i] + [packages[i]];
      if IsRootPackage(packages[i], project) {
        standard := standard + EdgesOf(packages[i].dependencies);
        other := other + OtherEdges(packages[i]);
      }
    }
    assert packages[..|packages|] == packages;
  }

  /** The packages a `uv.lock` pins only for development, groups, extras or other projects. */
  ghost predicate IsExcluded(packages: seq<Package>, lock: Lock, project: Option<string>, n: string) {
    && !InClosure(lock, DefaultRoots(packages, project), n)
    && (if project.Some? then n in lock && n != project.value
        else InClosure(lock, OtherRoots(packages, project), n))
  }

  /** `_excluded_lock_package_names`: never a package that the default dependencies reach. */
  method ExcludedLockPackageNames(packages: seq<Package>, isUvLock: bool, project: Option<string>)
    returns (excluded: set<string>, lock: Lock)
    ensures IsLockOf(lock, packages)
    ensures forall n :: n in excluded <==> isUvLock && IsExcluded(packages, lock, project, n)
    ensures forall n | InClosure(lock, DefaultRoots(packages, project), n) :: n !in excluded
  {
    lock := LockPackagesByName(packages);
    if !isUvLock {
      return {}, lock;
    }
    var standard, other := CollectRoots(packages, project);
    var reached := DependencyClosure(standard, lock);
    if project.Some? {
      return lock.Keys - reached - {project.value}, lock;
    }
    var reachedOther := DependencyClosure(other, lock);
    excluded := reachedOther - reached;
  }
}
