/**
  What the dependency closure depends on: the extras that are asked for, the markers that hold and
  the active variants, and nothing else in the lock.
 */
module LockLaws {
  import opened Values
  import opened LockClosure

  // ---- what an edge leads to ----

  ghost predicate Lists(ds: seq<Dependency>, d: Edge) {
    exists i :: 0 <= i < |ds| && ds[i].allowed && ds[i].edge == d
  }

  /** A variant leads to its dependencies, and to those of the extras that the edge asks for. */
  ghost predicate VariantLeads(p: Package, extras: set<string>, d: Edge) {
    Lists(p.dependencies, d) || exists x :: x in extras && x in p.optional && Lists(p.optional[x], d)
  }

  /** Following an edge leads through the active variants of its name. */
  ghost predicate Leads(lock: Lock, e: Edge, d: Edge) {
    e.name in lock && exists p :: p in lock[e.name] && p.active && VariantLeads(p, e.extras, d)
  }

  lemma ListsEdges(ds: seq<Dependency>, d: Edge)
    ensures d in EdgesOf(ds) <==> Lists(ds, d)
  {
    if d in EdgesOf(ds) {
      var x :| x in ds && x.allowed && x.edge == d;
      var i :| 0 <= i < |ds| && ds[i] == x;
      assert ds[i].allowed && ds[i].edge == d;
    }
  }

  lemma VariantEdgesExactly(p: Package, extras: set<string>, d: Edge)
    ensures d in VariantEdges(p, extras) <==> VariantLeads(p, extras, d)
  {
    ListsEdges(p.dependencies, d);
    forall x | x in p.optional ensures d in EdgesOf(p.optional[x]) <==> Lists(p.optional[x], d) {
      ListsEdges(p.optional[x], d);
    }
  }

  lemma NextExactly(lock: Lock, e: Edge, d: Edge)
    ensures d in Next(lock, e) <==> Leads(lock, e, d)
  {
    forall p: Package ensures d in VariantEdges(p, e.extras) <==> VariantLeads(p, e.extras, d) {
      VariantEdgesExactly(p, e.extras, d);
    }
  }

  // ---- locks that lead alike ----

  ghost predicate ActiveName(lock: Lock, n: string) { n in lock && exists p :: p in lock[n] && p.active }

  lemma ActiveExactly(lock: Lock, n: string)
    ensures HasActive(lock, n) <==> ActiveName(lock, n)
  {
    if HasActive(lock, n) { assert ActiveVariants(lock, n)[0] in ActiveVariants(lock, n); }
  }

  /** From every edge that the roots reach, the other lock leads to the same edges. */
  ghost predicate LeadAlike(lock: Lock, other: Lock, roots: set<Edge>) {
    forall e, d | Reachable(Follow(lock), roots, e) :: Leads(lock, e, d) <==> Leads(other, e, d)
  }

  lemma {:induction false} PathAlike(lock: Lock, other: Lock, roots: set<Edge>, p: seq<Edge>)
    requires LeadAlike(lock, other, roots) && p != []
    ensures IsPath(Follow(lock), roots, p) <==> IsPath(Follow(other), roots, p)
  {
    if |p| > 1 {
      var init, last := p[..|p| - 1], p[|p| - 1];
      PathAlike(lock, other, roots, init);
      PathExtends(Follow(lock), roots, p);
      PathExtends(Follow(other), roots, p);
      if IsPath(Follow(lock), roots, init) {
        assert Reachable(Follow(lock), roots, init[|init| - 1]);
        NextExactly(lock, init[|init| - 1], last);
        NextExactly(other, init[|init| - 1], last);
      }
    }
  }

  lemma PathExtends(next: Steps, roots: set<Edge>, p: seq<Edge>)
    requires |p| > 1
    ensures IsPath(next, roots, p)
       <==> IsPath(next, roots, p[..|p| - 1]) && p[|p| - 1] in next(p[|p| - 2])
  {
    var init := p[..|p| - 1];
    assert forall i | 0 <= i < |init| :: init[i] == p[i];
    assert p[|p| - 1 - 1] == p[|p| - 2];
  }

  lemma ReachAlike(lock: Lock, other: Lock, roots: set<Edge>, e: Edge)
    requires LeadAlike(lock, other, roots)
    ensures Reachable(Follow(lock), roots, e) <==> Reachable(Follow(other), roots, e)
  {
    forall p: seq<Edge> | p != []
      ensures IsPath(Follow(lock), roots, p) <==> IsPath(Follow(other), roots, p)
    {
      PathAlike(lock, other, roots, p);
    }
  }

  /** Locks that lead alike from what is reached, with the same active names, have the same closure. */
  lemma SameClosure(lock: Lock, other: Lock, roots: set<Edge>, n: string)
    requires LeadAlike(lock, other, roots) && (ActiveName(lock, n) <==> ActiveName(other, n))
    ensures InClosure(lock, roots, n) <==> InClosure(other, roots, n)
  {
    ActiveExactly(lock, n);
    ActiveExactly(other, n);
    forall e ensures Reachable(Follow(lock), roots, e) <==> Reachable(Follow(other), roots, e) {
      ReachAlike(lock, other, roots, e);
    }
  }

  // ---- editing every variant ----

  /** The lock with each variant rewritten. */
  function Edited(lock: Lock, edit: Package -> Package): Lock {
    map n | n in lock :: MapSeq(edit, lock[n])
  }

  lemma EditedMember(lock: Lock, edit: Package -> Package, n: string, q: Package)
    requires n in lock
    ensures q in Edited(lock, edit)[n] <==> exists p :: p in lock[n] && q == edit(p)
  {
    var ps := MapSeq(edit, lock[n]);
    if q in ps {
      var i :| 0 <= i < |ps| && ps[i] == q;
      assert lock[n][i] in lock[n];
    }
    if p :| p in lock[n] && q == edit(p) {
      var i :| 0 <= i < |lock[n]| && lock[n][i] == p;
      assert ps[i] == q;
    }
  }

  /** The edit keeps which variants are active, and where the active ones lead under these extras. */
  ghost predicate Harmless(lock: Lock, edit: Package -> Package, e: Edge) {
    e.name in lock ==> forall p | p in lock[e.name] ::
      (edit(p).active <==> p.active)
      && (p.active ==> forall d :: VariantLeads(edit(p), e.extras, d) <==> VariantLeads(p, e.extras, d))
  }

  lemma HarmlessLeads(lock: Lock, edit: Package -> Package, e: Edge, d: Edge)
    requires Harmless(lock, edit, e)
    ensures Leads(lock, e, d) <==> Leads(Edited(lock, edit), e, d)
  {
    if e.name in lock {
      forall q ensures q in Edited(lock, edit)[e.name] <==> exists p :: p in lock[e.name] && q == edit(p) {
        EditedMember(lock, edit, e.name, q);
      }
      if Leads(lock, e, d) {
        var p :| p in lock[e.name] && p.active && VariantLeads(p, e.extras, d);
        assert edit(p) in Edited(lock, edit)[e.name];
      }
      if Leads(Edited(lock, edit), e, d) {
        var q :| q in Edited(lock, edit)[e.name] && q.active && VariantLeads(q, e.extras, d);
        var p :| p in lock[e.name] && q == edit(p);
      }
    }
  }

  lemma EditedActive(lock: Lock, edit: Package -> Package, n: string)
    requires forall p: Package :: edit(p).active <==> p.active
    ensures ActiveName(Edited(lock, edit), n) <==> ActiveName(lock, n)
  {
    if n in lock {
      forall q ensures q in Edited(lock, edit)[n] <==> exists p :: p in lock[n] && q == edit(p) {
        EditedMember(lock, edit, n, q);
      }
      if p :| p in lock[n] && p.active {
        assert edit(p) in Edited(lock, edit)[n];
      }
    }
  }

  lemma EditKeepsClosure(lock: Lock, edit: Package -> Package, roots: set<Edge>, n: string)
    requires forall p: Package :: edit(p).active <==> p.active
    requires forall e | Reachable(Follow(lock), roots, e) :: Harmless(lock, edit, e)
    ensures InClosure(lock, roots, n) <==> InClosure(Edited(lock, edit), roots, n)
  {
    forall e, d | Reachable(Follow(lock), roots, e)
      ensures Leads(lock, e, d) <==> Leads(Edited(lock, edit), e, d)
    {
      HarmlessLeads(lock, edit, e, d);
    }
    EditedActive(lock, edit, n);
    SameClosure(lock, Edited(lock, edit), roots, n);
  }

  // ---- extras that nobody asks for ----

  /** Drop one extra of one package. */
  function DropExtra(name: string, extra: string): Package -> Package {
    (p: Package) => if p.name == Some(name) then p.(optional := p.optional - {extra}) else p
  }

  /** Variants are filed under their own name, as reading the lock ensures. */
  ghost predicate IsFiled(lock: Lock) {
    forall n, p | n in lock && p in lock[n] :: p.name == Some(n)
  }

  /** An extra that no reached edge to its package asks for can be deleted. */
  lemma UnrequestedExtra(lock: Lock, roots: set<Edge>, name: string, extra: string, n: string)
    requires IsFiled(lock)
    requires forall e | Reachable(Follow(lock), roots, e) && e.name == name :: extra !in e.extras
    ensures InClosure(lock, roots, n) <==> InClosure(Edited(lock, DropExtra(name, extra)), roots, n)
  {
    forall e | Reachable(Follow(lock), roots, e) ensures Harmless(lock, DropExtra(name, extra), e) {
      if e.name in lock {
        forall p, d | p in lock[e.name]
          ensures VariantLeads(DropExtra(name, extra)(p), e.extras, d) <==> VariantLeads(p, e.extras, d)
        {
          DroppedLeads(p, name, extra, e, d);
        }
      }
    }
    EditKeepsClosure(lock, DropExtra(name, extra), roots, n);
  }

  lemma DroppedLeads(p: Package, name: string, extra: string, e: Edge, d: Edge)
    requires p.name == Some(name) ==> extra !in e.extras
    ensures VariantLeads(DropExtra(name, extra)(p), e.extras, d) <==> VariantLeads(p, e.extras, d)
  {
    var q := DropExtra(name, extra)(p);
    assert q.dependencies == p.dependencies;
    forall x | x in e.extras ensures x in q.optional <==> x in p.optional {
    }
    forall x | x in e.extras && x in p.optional ensures q.optional[x] == p.optional[x] {
    }
  }

  function DropExtras(): Package -> Package { (p: Package) => p.(optional := map[]) }

  /** Neither a root nor anything the lock lists asks for an extra. */
  ghost predicate NothingAskedFor(lock: Lock, roots: set<Edge>) {
    && (forall e | e in roots :: e.extras == {})
    && (forall n, p, x | n in lock && p in lock[n] && x in p.dependencies :: x.edge.extras == {})
  }

  lemma {:induction false} ReachedWithoutExtras(lock: Lock, roots: set<Edge>, p: seq<Edge>)
    requires NothingAskedFor(lock, roots) && IsPath(Follow(lock), roots, p)
    ensures p[|p| - 1].extras == {}
  {
    if |p| > 1 {
      var init, last := p[..|p| - 1], p[|p| - 1];
      PathExtends(Follow(lock), roots, p);
      ReachedWithoutExtras(lock, roots, init);
      NextExactly(lock, p[|p| - 2], last);
      var v :| v in lock[p[|p| - 2].name] && v.active && VariantLeads(v, {}, last);
      var i :| 0 <= i < |v.dependencies| && v.dependencies[i].allowed && v.dependencies[i].edge == last;
      assert v.dependencies[i] in v.dependencies;
    }
  }

  /** When nobody asks for an extra, the lock could list none. */
  lemma NoExtras(lock: Lock, roots: set<Edge>, n: string)
    requires NothingAskedFor(lock, roots)
    ensures InClosure(lock, roots, n) <==> InClosure(Edited(lock, DropExtras()), roots, n)
  {
    forall e | Reachable(Follow(lock), roots, e) ensures Harmless(lock, DropExtras(), e) {
      var p :| IsPath(Follow(lock), roots, p) && p[|p| - 1] == e;
      ReachedWithoutExtras(lock, roots, p);
    }
    EditKeepsClosure(lock, DropExtras(), roots, n);
  }

  // ---- dependencies that do not apply ----

  predicate Applies(d: Dependency) { d.allowed }

  function DropOthers(): Package -> Package {
    (p: Package) => p.(dependencies := Filter(p.dependencies, Applies),
                       optional := map x | x in p.optional :: Filter(p.optional[x], Applies))
  }

  lemma FilteredLists(ds: seq<Dependency>, d: Edge)
    ensures Lists(Filter(ds, Applies), d) <==> Lists(ds, d)
  {
    var fs := Filter(ds, Applies);
    FilterMembers(ds, Applies);
    if Lists(ds, d) {
      var i :| 0 <= i < |ds| && ds[i].allowed && ds[i].edge == d;
      assert ds[i] in fs;
    }
    if Lists(fs, d) {
      var i :| 0 <= i < |fs| && fs[i].allowed && fs[i].edge == d;
      assert fs[i] in ds;
    }
  }

  /** Dependencies whose marker does not hold can be deleted. */
  lemma MarkersDecide(lock: Lock, roots: set<Edge>, n: string)
    ensures InClosure(lock, roots, n) <==> InClosure(Edited(lock, DropOthers()), roots, n)
  {
    forall e | Reachable(Follow(lock), roots, e) ensures Harmless(lock, DropOthers(), e) {
      forall p: Package, d ensures VariantLeads(DropOthers()(p), e.extras, d) <==> VariantLeads(p, e.extras, d) {
        FilteredLists(p.dependencies, d);
        forall x | x in p.optional ensures Lists(Filter(p.optional[x], Applies), d) <==> Lists(p.optional[x], d) {
          FilteredLists(p.optional[x], d);
        }
      }
    }
    EditKeepsClosure(lock, DropOthers(), roots, n);
  }

  predicate IsActive(p: Package) { p.active }

  /** The lock without its inactive variants. */
  function ActiveOnly(lock: Lock): Lock { map n | n in lock :: Filter(lock[n], IsActive) }

  lemma ActiveLeads(lock: Lock, e: Edge, d: Edge)
    ensures Leads(lock, e, d) <==> Leads(ActiveOnly(lock), e, d)
  {
    if e.name in lock { FilterMembers(lock[e.name], IsActive); }
  }

  /** Inactive variants can be deleted. */
  lemma InactiveIgnored(lock: Lock, roots: set<Edge>, n: string)
    ensures InClosure(lock, roots, n) <==> InClosure(ActiveOnly(lock), roots, n)
  {
    forall e, d ensures Leads(lock, e, d) <==> Leads(ActiveOnly(lock), e, d) { ActiveLeads(lock, e, d); }
    if n in lock { FilterMembers(lock[n], IsActive); }
    SameClosure(lock, ActiveOnly(lock), roots, n);
  }

  // ---- asking for one more extra ----

  /** The edges an extra of a package adds. */
  ghost predicate InGroup(lock: Lock, name: string, extra: string, d: Edge) {
    name in lock && exists p :: p in lock[name] && p.active && extra in p.optional && Lists(p.optional[extra], d)
  }

  lemma ExtraLeads(lock: Lock, name: string, extras: set<string>, extra: string, d: Edge)
    ensures Leads(lock, Edge(name, extras + {extra}), d)
       <==> Leads(lock, Edge(name, extras), d) || InGroup(lock, name, extra, d)
  {
  }

  /** What is reached from two sets of roots is reached from one of them. */
  lemma {:induction false} ReachUnion(next: Steps, a: set<Edge>, b: set<Edge>, e: Edge)
    ensures Reachable(next, a + b, e) <==> Reachable(next, a, e) || Reachable(next, b, e)
  {
    if Reachable(next, a + b, e) {
      var p :| IsPath(next, a + b, p) && p[|p| - 1] == e;
      assert IsPath(next, a, p) || IsPath(next, b, p);
    }
    if Reachable(next, a, e) {
      var p :| IsPath(next, a, p) && p[|p| - 1] == e;
      assert IsPath(next, a + b, p);
    }
    if Reachable(next, b, e) {
      var p :| IsPath(next, b, p) && p[|p| - 1] == e;
      assert IsPath(next, a + b, p);
    }
  }

  /** What one root reaches is itself and what the edges it leads to reach. */
  lemma ReachFromOne(next: Steps, r: Edge, e: Edge)
    ensures Reachable(next, {r}, e) <==> e == r || Reachable(next, next(r), e)
  {
    if e == r { RootReachable(next, {r}, r); }
    if Reachable(next, {r}, e) && e != r {
      var p :| IsPath(next, {r}, p) && p[|p| - 1] == e;
      var q := p[1..];
      assert q[0] == p[1] && p[1] in next(p[0]);
      assert forall i | 0 < i < |q| :: q[i] == p[i + 1] && q[i - 1] == p[i];
      assert IsPath(next, next(r), q);
    }
    if Reachable(next, next(r), e) {
      var q :| IsPath(next, next(r), q) && q[|q| - 1] == e;
      var p := [r] + q;
      assert forall i | 0 < i < |p| :: p[i] == q[i - 1];
      assert IsPath(next, {r}, p);
    }
  }

  /** Asking a root for one more extra adds exactly what the extra's dependencies reach. */
  lemma RequestedExtra(lock: Lock, roots: set<Edge>, name: string, extras: set<string>, extra: string,
                       group: set<Edge>, n: string)
    requires forall d :: d in group <==> InGroup(lock, name, extra, d)
    ensures InClosure(lock, roots + {Edge(name, extras + {extra})}, n)
       <==> InClosure(lock, roots + {Edge(name, extras)}, n) || InClosure(lock, group, n)
  {
    var next, more, less := Follow(lock), Edge(name, extras + {extra}), Edge(name, extras);
    assert next(more) == next(less) + group by {
      forall d ensures d in next(more) <==> d in next(less) || d in group {
        NextExactly(lock, more, d);
        NextExactly(lock, less, d);
        ExtraLeads(lock, name, extras, extra, d);
      }
    }
    forall e ensures Reachable(next, roots + {more}, e) <==>
                       Reachable(next, roots, e) || e == more || Reachable(next, next(less), e)
                       || Reachable(next, group, e)
    {
      ReachUnion(next, roots, {more}, e);
      ReachFromOne(next, more, e);
      ReachUnion(next, next(less), group, e);
    }
    forall e ensures Reachable(next, roots + {less}, e) <==>
                       Reachable(next, roots, e) || e == less || Reachable(next, next(less), e)
    {
      ReachUnion(next, roots, {less}, e);
      ReachFromOne(next, less, e);
    }
    SplitClosure(lock, roots + {more}, roots + {less}, group, n, more, less);
  }

  /** Two root sets that reach the same edges, but for one edge of the same name and a third set's. */
  lemma SplitClosure(lock: Lock, a: set<Edge>, b: set<Edge>, c: set<Edge>, n: string, x: Edge, y: Edge)
    requires x.name == y.name && Reachable(Follow(lock), a, x) && Reachable(Follow(lock), b, y)
    requires forall e | e != x && e != y ::
      Reachable(Follow(lock), a, e) <==> Reachable(Follow(lock), b, e) || Reachable(Follow(lock), c, e)
    ensures InClosure(lock, a, n) <==> InClosure(lock, b, n) || InClosure(lock, c, n)
  {
  }

  // ---- the roots ----

  /** Not a package of another project, as far as the names are known. */
  predicate BelongsTo(p: Package, project: Option<string>) {
    project.Some? && p.name.Some? ==> p.name.value == project.value
  }

  /** Default roots: what the known project's packages depend on, or all packages' when none is known. */
  lemma DefaultRootsExactly(packages: seq<Package>, project: Option<string>, e: Edge)
    ensures e in DefaultRoots(packages, project)
       <==> exists p | p in packages && BelongsTo(p, project) :: Lists(p.dependencies, e)
  {
    forall p | p in packages ensures e in EdgesOf(p.dependencies) <==> Lists(p.dependencies, e) {
      ListsEdges(p.dependencies, e);
    }
  }

  /** The other roots: development, group and every optional dependency of the same packages. */
  lemma OtherRootsExactly(packages: seq<Package>, project: Option<string>, e: Edge)
    ensures e in OtherRoots(packages, project)
       <==> exists p | p in packages && BelongsTo(p, project) :: ListsOther(p, e)
  {
    forall p | p in packages ensures e in OtherEdges(p) <==> ListsOther(p, e) { OtherExactly(p, e); }
  }

  ghost predicate ListsOther(p: Package, e: Edge) {
    Lists(p.development, e) || Lists(p.groups, e) || exists x :: x in p.optional && Lists(p.optional[x], e)
  }

  lemma OtherExactly(p: Package, e: Edge)
    ensures e in OtherEdges(p) <==> ListsOther(p, e)
  {
    ListsEdges(p.development, e);
    ListsEdges(p.groups, e);
    forall x | x in p.optional ensures e in EdgesOf(p.optional[x]) <==> Lists(p.optional[x], e) {
      ListsEdges(p.optional[x], e);
    }
  }

  lemma {:induction false} NamedAre(packages: seq<Package>, name: string, p: Package)
    ensures p in Named(packages, name) <==> p in packages && p.name == Some(name)
  {
    if packages != [] { NamedAre(packages[1..], name, p); }
  }

  /** A lock read from a list of packages has the variants of each non-empty name under it, and no others. */
  lemma ReadLockExactly(lock: Lock, packages: seq<Package>, n: string, p: Package)
    requires IsLockOf(lock, packages)
    ensures n in lock && p in lock[n] <==> n != "" && p in packages && p.name == Some(n)
  {
    NamedAre(packages, n, p);
  }

  /** A lock read from a list of packages files each under its own name. */
  lemma ReadLockIsFiled(lock: Lock, packages: seq<Package>)
    requires IsLockOf(lock, packages)
    ensures IsFiled(lock)
  {
    forall n, p | n in lock && p in lock[n] ensures p.name == Some(n) { NamedAre(packages, n, p); }
  }
}
