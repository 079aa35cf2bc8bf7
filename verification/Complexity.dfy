/**
  The cyclomatic and cognitive counters over a Python syntax tree. Both stop at nested definitions;
  cognitive cost is affine in the nesting level at which code is visited.
 */
module Complexity {
  import opened States
  import opened Ordering
  import opened Deltas
  import opened DeltaLaws
  import opened Sorting
  import opened Syntax

  // ---- cyclomatic ----

  function Cyc(n: Node): nat
    decreases n, 1
  {
    match n
    case Function(_) => 0
    case Class(_) => 0
    case If(_, t, b, e) => 1 + Cyc(t) + CycAll(b) + CycAll(e)
    case For(t, i, b, e) => 1 + Cyc(t) + Cyc(i) + CycAll(b) + CycAll(e)
    case While(t, b, e) => 1 + Cyc(t) + CycAll(b) + CycAll(e)
    case Handler(t, b) => 1 + (if t.Some? then Cyc(t.value) else 0) + CycAll(b)
    case IfExp(t, a, b) => 1 + Cyc(t) + Cyc(a) + Cyc(b)
    case Match(_, cases) => CycAll(cases)
    case Case(_, g, b) => 1 + (if g.Some? then Cyc(g.value) else 0) + CycAll(b)
    case BoolOp(vs) => (if |vs| > 0 then |vs| - 1 else 0) + CycAll(vs)
    case Comp(es, gs) => CycAll(es) + CycAll(gs)
    case Generator(t, i, ifs) => |ifs| + Cyc(t) + Cyc(i) + CycAll(ifs)
    case Assert(t, m) => 1 + Cyc(t) + (if m.Some? then Cyc(m.value) else 0)
    case Other(cs) => CycAll(cs)
  }

  function CycAll(ns: seq<Node>): nat
    decreases ns, 0
  {
    if ns == [] then 0 else Cyc(ns[0]) + CycAll(ns[1..])
  }

  lemma {:induction false} CycAppend(a: seq<Node>, b: seq<Node>)
    ensures CycAll(a + b) == CycAll(a) + CycAll(b)
  {
    if a == [] {
      assert a + b == b;
    } else {
      assert (a + b)[1..] == a[1..] + b;
      CycAppend(a[1..], b);
    }
  }

  /** Every point of the count belongs to one visited node. */
  lemma {:induction false} CycPoints(n: Node)
    ensures Cyc(n) == SumIn(n, Points)
    decreases n, 1
  {
    SumInNode(n, Points);
    match n
    case Function(_) =>
    case Class(_) =>
    case If(_, t, b, e) => CycPoints(t); CycPointsAll(b); CycPointsAll(e);
    case For(t, i, b, e) => CycPoints(t); CycPoints(i); CycPointsAll(b); CycPointsAll(e);
    case While(t, b, e) => CycPoints(t); CycPointsAll(b); CycPointsAll(e);
    case Handler(t, b) => if t.Some? { CycPoints(t.value); } CycPointsAll(b);
    case IfExp(t, a, b) => CycPoints(t); CycPoints(a); CycPoints(b);
    case Match(_, cases) => CycPointsAll(cases);
    case Case(_, g, b) => if g.Some? { CycPoints(g.value); } CycPointsAll(b);
    case BoolOp(vs) => CycPointsAll(vs);
    case Comp(es, gs) => CycPointsAll(es); CycPointsAll(gs);
    case Generator(t, i, ifs) => CycPoints(t); CycPoints(i); CycPointsAll(ifs);
    case Assert(t, m) => CycPoints(t); if m.Some? { CycPoints(m.value); }
    case Other(cs) => CycPointsAll(cs);
  }

  lemma {:induction false} CycPointsAll(ns: seq<Node>)
    ensures CycAll(ns) == SumInAll(ns, Points)
    decreases ns, 0
  {
    if ns != [] {
      SumInCons(ns, Points);
      CycPoints(ns[0]);
      CycPointsAll(ns[1..]);
    }
  }

  /** `_CyclomaticCounter`: the count so far, updated in place by the visit. */
  class CyclomaticCounter {
    var value: nat

    constructor ()
      ensures value == 1
    {
      value := 1;
    }

    method CountBody(body: seq<Node>) returns (r: nat)
      modifies this
      ensures r == value == old(value) + CycAll(body)
      ensures r == old(value) + PointsAmong(VisitedAll(body))
    {
      CycPointsAll(body);
      PointsSplit(VisitedAll(body));
      VisitAll(body);
      r := value;
    }

    method VisitAll(ns: seq<Node>)
      modifies this
      ensures value == old(value) + CycAll(ns)
      decreases ns, 0
    {
      for i := 0 to |ns|
        invariant value == old(value) + CycAll(ns[..i])
      {
        assert ns[..i + 1] == ns[..i] + [ns[i]];
        CycAppend(ns[..i], [ns[i]]);
        Visit(ns[i]);
      }
      assert ns[..|ns|] == ns;
    }

    method Visit(n: Node)
      modifies this
      ensures value == old(value) + Cyc(n)
      decreases n, 1
    {
      match n {
        case Function(_) =>
        case Class(_) =>
        case If(_, t, b, e) => value := value + 1; Visit(t); VisitAll(b); VisitAll(e);
        case For(t, i, b, e) => value := value + 1; Visit(t); Visit(i); VisitAll(b); VisitAll(e);
        case While(t, b, e) => value := value + 1; Visit(t); VisitAll(b); VisitAll(e);
        case Handler(t, b) => value := value + 1; if t.Some? { Visit(t.value); } VisitAll(b);
        case IfExp(t, a, b) => value := value + 1; Visit(t); Visit(a); Visit(b);
        case Match(_, cases) => VisitAll(cases);
        case Case(_, g, b) => value := value + 1; if g.Some? { Visit(g.value); } VisitAll(b);
        case BoolOp(vs) => value := value + (if |vs| > 0 then |vs| - 1 else 0); VisitAll(vs);
        case Comp(es, gs) => VisitAll(es); VisitAll(gs);
        case Generator(t, i, ifs) => value := value + |ifs|; Visit(t); Visit(i); VisitAll(ifs);
        case Assert(t, m) => value := value + 1; Visit(t); if m.Some? { Visit(m.value); }
        case Other(cs) => VisitAll(cs);
      }
    }
  }

  // ---- cognitive ----

  /** An `elif`: an else branch that is one `if` in its parent's column. */
  predicate IsElif(col: int, orelse: seq<Node>) {
    |orelse| == 1 && orelse[0].If? && orelse[0].col == col
  }

  function Cog(n: Node, nesting: nat): nat
    decreases n, 2
  {
    match n
    case Function(_) => 0
    case Class(_) => 0
    case If(col, t, b, e) =>
      1 + nesting + Cog(t, nesting) + CogAll(b, nesting + 1)
      + (if IsElif(col, e) then Cog(e[0], nesting) else CogAll(e, nesting + 1))
    case For(t, i, b, e) =>
      1 + nesting + Cog(t, nesting) + Cog(i, nesting) + CogAll(b, nesting + 1) + CogAll(e, nesting + 1)
    case While(t, b, e) => 1 + nesting + Cog(t, nesting) + CogAll(b, nesting + 1) + CogAll(e, nesting + 1)
    case Handler(t, b) => 1 + nesting + (if t.Some? then Cog(t.value, nesting) else 0) + CogAll(b, nesting + 1)
    case IfExp(t, a, b) => 1 + nesting + Cog(t, nesting) + Cog(a, nesting + 1) + Cog(b, nesting + 1)
    case Match(_, cases) => CogAll(cases, nesting)
    case Case(_, g, b) => 1 + nesting + (if g.Some? then Cog(g.value, nesting) else 0) + CogAll(b, nesting + 1)
    case BoolOp(vs) => 1 + CogAll(vs, nesting)
    case Comp(es, gs) => CogGenerators(gs, nesting) + CogAll(es, nesting + |gs|)
    case Generator(t, i, ifs) => Cog(t, nesting) + Cog(i, nesting) + CogAll(ifs, nesting)
    case Assert(t, m) => Cog(t, nesting) + (if m.Some? then Cog(m.value, nesting) else 0)
    case Other(cs) => CogAll(cs, nesting)
  }

  function CogAll(ns: seq<Node>, nesting: nat): nat
    decreases ns, 0
  {
    if ns == [] then 0 else Cog(ns[0], nesting) + CogAll(ns[1..], nesting)
  }

  /** One comprehension clause at its own level; each `if` after the first costs one. */
  function CogClause(g: Node, nesting: nat): nat
    decreases g, 1
  {
    match g
    case Generator(t, i, ifs) =>
      1 + nesting + Cog(t, nesting) + Cog(i, nesting) + (if |ifs| > 0 then |ifs| - 1 else 0) + CogAll(ifs, nesting + 1)
    case _ => 0
  }

  /** Clauses of one comprehension, each one level deeper than the last. */
  function CogGenerators(gs: seq<Node>, nesting: nat): nat
    decreases gs, 0
  {
    if gs == [] then 0 else CogClause(gs[0], nesting) + CogGenerators(gs[1..], nesting + 1)
  }

  /** How many visited nodes carry the nesting bonus. */
  function Bearing(n: Node): nat
    decreases n, 2
  {
    match n
    case Function(_) => 0
    case Class(_) => 0
    case If(_, t, b, e) => 1 + Bearing(t) + BearingAll(b) + BearingAll(e)
    case For(t, i, b, e) => 1 + Bearing(t) + Bearing(i) + BearingAll(b) + BearingAll(e)
    case While(t, b, e) => 1 + Bearing(t) + BearingAll(b) + BearingAll(e)
    case Handler(t, b) => 1 + (if t.Some? then Bearing(t.value) else 0) + BearingAll(b)
    case IfExp(t, a, b) => 1 + Bearing(t) + Bearing(a) + Bearing(b)
    case Match(_, cases) => BearingAll(cases)
    case Case(_, g, b) => 1 + (if g.Some? then Bearing(g.value) else 0) + BearingAll(b)
    case BoolOp(vs) => BearingAll(vs)
    case Comp(es, gs) => BearingClauses(gs) + BearingAll(es)
    case Generator(t, i, ifs) => Bearing(t) + Bearing(i) + BearingAll(ifs)
    case Assert(t, m) => Bearing(t) + (if m.Some? then Bearing(m.value) else 0)
    case Other(cs) => BearingAll(cs)
  }

  function BearingAll(ns: seq<Node>): nat
    decreases ns, 0
  {
    if ns == [] then 0 else Bearing(ns[0]) + BearingAll(ns[1..])
  }

  function BearingClauses(gs: seq<Node>): nat
    decreases gs, 0
  {
    if gs == [] then 0 else (if gs[0].Generator? then 1 + Bearing(gs[0]) else 0) + BearingClauses(gs[1..])
  }

  lemma {:induction false} CogAppend(a: seq<Node>, b: seq<Node>, nesting: nat)
    ensures CogAll(a + b, nesting) == CogAll(a, nesting) + CogAll(b, nesting)
  {
    if a == [] {
      assert a + b == b;
    } else {
      assert (a + b)[1..] == a[1..] + b;
      CogAppend(a[1..], b, nesting);
    }
  }

  // ---- cognitive cost is affine in nesting ----

  /** One level deeper costs exactly one per bearing node. */
  lemma {:induction false} OneDeeper(n: Node, nesting: nat)
    ensures Cog(n, nesting + 1) == Cog(n, nesting) + Bearing(n)
    decreases n, 2
  {
    match n
    case Function(_) =>
    case Class(_) =>
    case If(_, _, _, _) => IfDeeper(n, nesting);
    case For(_, _, _, _) => LoopDeeper(n, nesting);
    case While(_, _, _) => LoopDeeper(n, nesting);
    case Handler(_, _) => BranchDeeper(n, nesting);
    case IfExp(_, _, _) => ChoiceDeeper(n, nesting);
    case Match(_, cases) => AllDeeper(cases, nesting);
    case Case(_, _, _) => BranchDeeper(n, nesting);
    case BoolOp(vs) => AllDeeper(vs, nesting);
    case Comp(_, _) => CompDeeper(n, nesting);
    case Generator(t, i, ifs) => OneDeeper(t, nesting); OneDeeper(i, nesting); AllDeeper(ifs, nesting);
    case Assert(t, m) => OneDeeper(t, nesting); if m.Some? { OneDeeper(m.value, nesting); }
    case Other(cs) => AllDeeper(cs, nesting);
  }

  lemma {:induction false} IfDeeper(n: Node, nesting: nat)
    requires n.If?
    ensures Cog(n, nesting + 1) == Cog(n, nesting) + Bearing(n)
    decreases n, 1
  {
    OneDeeper(n.test, nesting);
    AllDeeper(n.body, nesting + 1);
    if IsElif(n.col, n.orelse) {
      OneDeeper(n.orelse[0], nesting);
      assert BearingAll(n.orelse) == Bearing(n.orelse[0]) + BearingAll(n.orelse[1..]);
    } else {
      AllDeeper(n.orelse, nesting + 1);
    }
  }

  lemma {:induction false} LoopDeeper(n: Node, nesting: nat)
    requires n.For? || n.While?
    ensures Cog(n, nesting + 1) == Cog(n, nesting) + Bearing(n)
    decreases n, 1
  {
    if n.For? {
      OneDeeper(n.target, nesting);
      OneDeeper(n.iter, nesting);
    } else {
      OneDeeper(n.test, nesting);
    }
    AllDeeper(n.body, nesting + 1);
    AllDeeper(n.orelse, nesting + 1);
  }

  lemma {:induction false} BranchDeeper(n: Node, nesting: nat)
    requires n.Handler? || n.Case?
    ensures Cog(n, nesting + 1) == Cog(n, nesting) + Bearing(n)
    decreases n, 1
  {
    var head := if n.Handler? then n.exceptionType else n.guard;
    if head.Some? { OneDeeper(head.value, nesting); }
    AllDeeper(n.body, nesting + 1);
  }

  lemma {:induction false} ChoiceDeeper(n: Node, nesting: nat)
    requires n.IfExp?
    ensures Cog(n, nesting + 1) == Cog(n, nesting) + Bearing(n)
    decreases n, 1
  {
    OneDeeper(n.test, nesting);
    OneDeeper(n.whenTrue, nesting + 1);
    OneDeeper(n.whenFalse, nesting + 1);
  }

  lemma {:induction false} CompDeeper(n: Node, nesting: nat)
    requires n.Comp?
    ensures Cog(n, nesting + 1) == Cog(n, nesting) + Bearing(n)
    decreases n, 1
  {
    ClausesDeeper(n.generators, nesting);
    AllDeeper(n.elements, nesting + |n.generators|);
  }

  lemma {:induction false} AllDeeper(ns: seq<Node>, nesting: nat)
    ensures CogAll(ns, nesting + 1) == CogAll(ns, nesting) + BearingAll(ns)
    decreases ns, 0
  {
    if ns != [] {
      OneDeeper(ns[0], nesting);
      AllDeeper(ns[1..], nesting);
    }
  }

  lemma {:induction false} ClausesDeeper(gs: seq<Node>, nesting: nat)
    ensures CogGenerators(gs, nesting + 1) == CogGenerators(gs, nesting) + BearingClauses(gs)
    decreases gs, 0
  {
    if gs != [] {
      ClauseDeeper(gs[0], nesting);
      ClausesDeeper(gs[1..], nesting + 1);
    }
  }

  lemma {:induction false} ClauseDeeper(g: Node, nesting: nat)
    ensures CogClause(g, nesting + 1) == CogClause(g, nesting) + (if g.Generator? then 1 + Bearing(g) else 0)
    decreases g, 1
  {
    if g.Generator? {
      OneDeeper(g.target, nesting);
      OneDeeper(g.iter, nesting);
      AllDeeper(g.ifs, nesting + 1);
    }
  }

  /** Every bearing node costs at least one point. */
  lemma {:induction false} BearingCosts(n: Node, nesting: nat)
    ensures Bearing(n) <= Cog(n, nesting)
    decreases n, 2
  {
    match n
    case Function(_) =>
    case Class(_) =>
    case If(_, _, _, _) => IfCosts(n, nesting);
    case For(_, _, _, _) => LoopCosts(n, nesting);
    case While(_, _, _) => LoopCosts(n, nesting);
    case Handler(_, _) => BranchCosts(n, nesting);
    case Case(_, _, _) => BranchCosts(n, nesting);
    case IfExp(t, a, b) => BearingCosts(t, nesting); BearingCosts(a, nesting + 1); BearingCosts(b, nesting + 1);
    case Match(_, cases) => AllCost(cases, nesting);
    case BoolOp(vs) => AllCost(vs, nesting);
    case Comp(es, gs) => ClausesCost(gs, nesting); AllCost(es, nesting + |gs|);
    case Generator(t, i, ifs) => BearingCosts(t, nesting); BearingCosts(i, nesting); AllCost(ifs, nesting);
    case Assert(t, m) => BearingCosts(t, nesting); if m.Some? { BearingCosts(m.value, nesting); }
    case Other(cs) => AllCost(cs, nesting);
  }

  lemma {:induction false} IfCosts(n: Node, nesting: nat)
    requires n.If?
    ensures Bearing(n) <= Cog(n, nesting)
    decreases n, 1
  {
    BearingCosts(n.test, nesting);
    AllCost(n.body, nesting + 1);
    if IsElif(n.col, n.orelse) {
      BearingCosts(n.orelse[0], nesting);
      assert BearingAll(n.orelse) == Bearing(n.orelse[0]) + BearingAll(n.orelse[1..]);
    } else {
      AllCost(n.orelse, nesting + 1);
    }
  }

  lemma {:induction false} LoopCosts(n: Node, nesting: nat)
    requires n.For? || n.While?
    ensures Bearing(n) <= Cog(n, nesting)
    decreases n, 1
  {
    if n.For? {
      BearingCosts(n.target, nesting);
      BearingCosts(n.iter, nesting);
    } else {
      BearingCosts(n.test, nesting);
    }
    AllCost(n.body, nesting + 1);
    AllCost(n.orelse, nesting + 1);
  }

  lemma {:induction false} BranchCosts(n: Node, nesting: nat)
    requires n.Handler? || n.Case?
    ensures Bearing(n) <= Cog(n, nesting)
    decreases n, 1
  {
    var head := if n.Handler? then n.exceptionType else n.guard;
    if head.Some? { BearingCosts(head.value, nesting); }
    AllCost(n.body, nesting + 1);
  }

  lemma {:induction false} AllCost(ns: seq<Node>, nesting: nat)
    ensures BearingAll(ns) <= CogAll(ns, nesting)
    decreases ns, 0
  {
    if ns != [] {
      BearingCosts(ns[0], nesting);
      AllCost(ns[1..], nesting);
    }
  }

  lemma {:induction false} ClausesCost(gs: seq<Node>, nesting: nat)
    ensures BearingClauses(gs) <= CogGenerators(gs, nesting)
    decreases gs, 0
  {
    if gs != [] {
      ClauseCosts(gs[0], nesting);
      ClausesCost(gs[1..], nesting + 1);
    }
  }

  lemma {:induction false} ClauseCosts(g: Node, nesting: nat)
    ensures (if g.Generator? then 1 + Bearing(g) else 0) <= CogClause(g, nesting)
    decreases g, 1
  {
    if g.Generator? {
      BearingCosts(g.target, nesting);
      BearingCosts(g.iter, nesting);
      AllCost(g.ifs, nesting + 1);
    }
  }

  /** At any nesting level a block costs its flat cost plus the level times its bearing nodes. */
  lemma {:induction false} CognitiveIsAffine(ns: seq<Node>, nesting: nat)
    ensures CogAll(ns, nesting) == CogAll(ns, 0) + nesting * BearingAll(ns)
  {
    if nesting > 0 {
      CognitiveIsAffine(ns, nesting - 1);
      AllDeeper(ns, nesting - 1);
      assert nesting * BearingAll(ns) == (nesting - 1) * BearingAll(ns) + BearingAll(ns);
    }
  }

  /** `_CognitiveCounter`. */
  class CognitiveCounter {
    var value: nat

    constructor ()
      ensures value == 0
    {
      value := 0;
    }

    method CountBody(body: seq<Node>) returns (r: nat)
      modifies this
      ensures r == value == old(value) + CogAll(body, 0)
    {
      VisitAll(body, 0);
      r := value;
    }

    method VisitAll(ns: seq<Node>, nesting: nat)
      modifies this
      ensures value == old(value) + CogAll(ns, nesting)
      decreases ns, 0
    {
      for i := 0 to |ns|
        invariant value == old(value) + CogAll(ns[..i], nesting)
      {
        assert ns[..i + 1] == ns[..i] + [ns[i]];
        CogAppend(ns[..i], [ns[i]], nesting);
        Visit(ns[i], nesting);
      }
      assert ns[..|ns|] == ns;
    }

    method Visit(n: Node, nesting: nat)
      modifies this
      ensures value == old(value) + Cog(n, nesting)
      decreases n, 2
    {
      match n {
        case Function(_) =>
        case Class(_) =>
        case If(_, _, _, _) => VisitIf(n, nesting);
        case For(_, _, _, _) => VisitLoop(n, nesting);
        case While(_, _, _) => VisitLoop(n, nesting);
        case Handler(_, _) => VisitBranch(n, nesting);
        case IfExp(_, _, _) => VisitBranch(n, nesting);
        case Case(_, _, _) => VisitBranch(n, nesting);
        case Match(_, cases) => VisitAll(cases, nesting);
        case BoolOp(vs) => value := value + 1; VisitAll(vs, nesting);
        case Comp(es, gs) => VisitClauses(gs, nesting); VisitAll(es, nesting + |gs|);
        case Generator(t, i, ifs) => Visit(t, nesting); Visit(i, nesting); VisitAll(ifs, nesting);
        case Assert(t, m) => Visit(t, nesting); if m.Some? { Visit(m.value, nesting); }
        case Other(cs) => VisitAll(cs, nesting);
      }
    }

    /** The visitors of exception handlers, conditional expressions and match cases. */
    method VisitBranch(n: Node, nesting: nat)
      requires n.Handler? || n.IfExp? || n.Case?
      modifies this
      ensures value == old(value) + Cog(n, nesting)
      decreases n, 1
    {
      value := value + 1 + nesting;
      match n {
        case Handler(t, b) => if t.Some? { Visit(t.value, nesting); } VisitAll(b, nesting + 1);
        case IfExp(t, a, b) => Visit(t, nesting); Visit(a, nesting + 1); Visit(b, nesting + 1);
        case Case(_, g, b) => if g.Some? { Visit(g.value, nesting); } VisitAll(b, nesting + 1);
      }
    }

    /** `_visit_If` with `_visit_if_orelse`: an `elif` stays at its parent's level. */
    method VisitIf(n: Node, nesting: nat)
      requires n.If?
      modifies this
      ensures value == old(value) + Cog(n, nesting)
      decreases n, 1
    {
      value := value + 1 + nesting;
      Visit(n.test, nesting);
      VisitAll(n.body, nesting + 1);
      if IsElif(n.col, n.orelse) {
        Visit(n.orelse[0], nesting);
      } else {
        VisitAll(n.orelse, nesting + 1);
      }
    }

    /** `_visit_For` and `_visit_While`. */
    method VisitLoop(n: Node, nesting: nat)
      requires n.For? || n.While?
      modifies this
      ensures value == old(value) + Cog(n, nesting)
      decreases n, 1
    {
      value := value + 1 + nesting;
      if n.For? {
        Visit(n.target, nesting);
        Visit(n.iter, nesting);
      } else {
        Visit(n.test, nesting);
      }
      VisitAll(n.body, nesting + 1);
      VisitAll(n.orelse, nesting + 1);
    }

    /** The clause loop of `_visit_comprehension_expr`, one level deeper per clause. */
    method VisitClauses(gs: seq<Node>, nesting: nat)
      modifies this
      ensures value == old(value) + CogGenerators(gs, nesting)
      decreases gs, 0
    {
      for k := 0 to |gs|
        invariant value + CogGenerators(gs[k..], nesting + k) == old(value) + CogGenerators(gs, nesting)
      {
        assert gs[k..][1..] == gs[k + 1..];
        match gs[k] {
          case Generator(t, i, ifs) =>
            value := value + 1 + nesting + k;
            Visit(t, nesting + k);
            Visit(i, nesting + k);
            VisitConditions(ifs, nesting + k + 1);
          case _ =>
        }
      }
    }

    method VisitConditions(ifs: seq<Node>, nesting: nat)
      modifies this
      ensures value == old(value) + (if |ifs| > 0 then |ifs| - 1 else 0) + CogAll(ifs, nesting)
      decreases ifs, 0
    {
      for j := 0 to |ifs|
        invariant value == old(value) + (if j > 0 then j - 1 else 0) + CogAll(ifs[..j], nesting)
      {
        assert ifs[..j + 1] == ifs[..j] + [ifs[j]];
        CogAppend(ifs[..j], [ifs[j]], nesting);
        if j > 0 {
          value := value + 1;
        }
        Visit(ifs[j], nesting);
      }
      assert ifs[..|ifs|] == ifs;
    }
  }

  // ---- entries ----

  /** `_stable_entries` before sorting: the first entry of each function name. */
  function FirstOfEach(entries: seq<ComplexityEntry>): seq<ComplexityEntry>
  {
    if entries == [] then []
    else
      var init, last := entries[..|entries| - 1], entries[|entries| - 1];
      FirstOfEach(init) + (if Seen(init, last.fqn) then [] else [last])
  }

  /** Some entry has the name. */
  predicate Seen(entries: seq<ComplexityEntry>, name: string) { exists e | e in entries :: e.fqn == name }

  function StableEntries(entries: seq<ComplexityEntry>): seq<ComplexityEntry> {
    SortByKey(FirstOfEach(entries), ComplexityKey)
  }

  /** `_stable_entries`: one pass with the names seen so far, then a sort by name. */
  method BuildStableEntries(entries: seq<ComplexityEntry>) returns (r: seq<ComplexityEntry>)
    ensures r == StableEntries(entries)
    ensures Ascends(r, ComplexityKey) && UniqueNames(r)
    ensures forall e :: e in r <==> IsFirst(entries, ComplexityKey, e)
  {
    var seen: set<string> := {};
    var unique := [];
    for i := 0 to |entries|
      invariant unique == FirstOfEach(entries[..i])
      invariant forall n :: n in seen <==> exists e | e in entries[..i] :: e.fqn == n
    {
      var entry := entries[i];
      assert entries[..i + 1][..i] == entries[..i];
      assert entries[..i + 1] == entries[..i] + [entry];
      if entry.fqn !in seen {
        seen := seen + {entry.fqn};
        unique := unique + [entry];
      }
    }
    assert entries[..|entries|] == entries;
    StableEntriesContract(entries, CyclomaticOf);
    return SortByKey(unique, ComplexityKey);
  }

  lemma TotalAppend(s: seq<ComplexityEntry>, x: ComplexityEntry, f: ComplexityEntry -> int)
    ensures Total(s + [x], f) == Total(s, f) + f(x)
  {
    assert (s + [x])[..|s|] == s;
  }

  lemma {:induction false} InsertTotal(x: ComplexityEntry, s: seq<ComplexityEntry>, f: ComplexityEntry -> int)
    ensures Total(InsertByKey(x, s, ComplexityKey), f) == Total(s, f) + f(x)
  {
    TotalAppend(s, x, f);
    if s == [] {
      assert s + [x] == [x];
    } else if !KeyLe(ComplexityKey(s[|s| - 1]), ComplexityKey(x)) {
      var init, last := s[..|s| - 1], s[|s| - 1];
      InsertTotal(x, init, f);
      TotalAppend(InsertByKey(x, init, ComplexityKey), last, f);
    }
  }

  lemma {:induction false} SortTotal(s: seq<ComplexityEntry>, f: ComplexityEntry -> int)
    ensures Total(SortByKey(s, ComplexityKey), f) == Total(s, f)
  {
    if s != [] {
      SortTotal(s[..|s| - 1], f);
      InsertTotal(s[|s| - 1], SortByKey(s[..|s| - 1], ComplexityKey), f);
    }
  }

  lemma {:induction false} InsertUnique(x: ComplexityEntry, s: seq<ComplexityEntry>)
    requires UniqueNames(s) && forall y | y in s :: y.fqn != x.fqn
    ensures UniqueNames(InsertByKey(x, s, ComplexityKey))
  {
    if s != [] && !KeyLe(ComplexityKey(s[|s| - 1]), ComplexityKey(x)) {
      var init, last := s[..|s| - 1], s[|s| - 1];
      InsertUnique(x, init);
      var t := InsertByKey(x, init, ComplexityKey);
      forall i | 0 <= i < |t| ensures t[i].fqn != last.fqn {
        InsertHolds(x, init, ComplexityKey, t[i]);
      }
    }
  }

  lemma {:induction false} SortUnique(s: seq<ComplexityEntry>)
    requires UniqueNames(s)
    ensures UniqueNames(SortByKey(s, ComplexityKey))
  {
    if s != [] {
      var init := s[..|s| - 1];
      SortUnique(init);
      forall y | y in SortByKey(init, ComplexityKey) ensures y in init { SortHolds(init, ComplexityKey, y); }
      InsertUnique(s[|s| - 1], SortByKey(init, ComplexityKey));
    }
  }

  lemma {:induction false} FirstOfEachFrom(entries: seq<ComplexityEntry>, e: ComplexityEntry)
    requires e in FirstOfEach(entries)
    ensures e in entries
  {
    var init, last := entries[..|entries| - 1], entries[|entries| - 1];
    if e in FirstOfEach(init) { FirstOfEachFrom(init, e); }
  }

  lemma UniqueAppend(s: seq<ComplexityEntry>, x: ComplexityEntry)
    requires UniqueNames(s) && forall y | y in s :: y.fqn != x.fqn
    ensures UniqueNames(s + [x])
  {
  }

  lemma {:induction false} FirstOfEachUnique(entries: seq<ComplexityEntry>)
    ensures UniqueNames(FirstOfEach(entries))
  {
    if entries != [] {
      var init, last := entries[..|entries| - 1], entries[|entries| - 1];
      FirstOfEachUnique(init);
      if !Seen(init, last.fqn) {
        forall y | y in FirstOfEach(init) ensures y.fqn != last.fqn { FirstOfEachFrom(init, y); }
        UniqueAppend(FirstOfEach(init), last);
      }
    }
  }

  lemma LastIsNew(entries: seq<ComplexityEntry>)
    requires UniqueNames(entries) && entries != []
    ensures !Seen(entries[..|entries| - 1], entries[|entries| - 1].fqn)
  {
    var init := entries[..|entries| - 1];
    forall e | e in init ensures e.fqn != entries[|entries| - 1].fqn {
      var i :| 0 <= i < |init| && init[i] == e;
    }
  }

  lemma {:induction false} NothingRepeated(entries: seq<ComplexityEntry>)
    requires UniqueNames(entries)
    ensures FirstOfEach(entries) == entries
  {
    if entries != [] {
      var init, last := entries[..|entries| - 1], entries[|entries| - 1];
      NothingRepeated(init);
      LastIsNew(entries);
      assert entries == init + [last];
    }
  }

  // ---- totals over the first entries ----

  /** The total of what the extractor emits for a list of definitions. */
  function FirstTotal(entries: seq<ComplexityEntry>, f: ComplexityEntry -> int): int { Total(FirstOfEach(entries), f) }

  lemma StableTotal(entries: seq<ComplexityEntry>, f: ComplexityEntry -> int)
    ensures Total(StableEntries(entries), f) == FirstTotal(entries, f)
  {
    SortTotal(FirstOfEach(entries), f);
  }

  /** A definition counts unless its name was seen before. */
  lemma FirstTotalAppend(init: seq<ComplexityEntry>, last: ComplexityEntry, f: ComplexityEntry -> int)
    ensures FirstTotal(init + [last], f) == FirstTotal(init, f) + (if Seen(init, last.fqn) then 0 else f(last))
  {
    var all := init + [last];
    assert all[..|all| - 1] == init && all[|all| - 1] == last;
    assert FirstOfEach(all) == if Seen(init, last.fqn) then FirstOfEach(init) else FirstOfEach(init) + [last];
    TotalAppend(FirstOfEach(init), last, f);
  }

  lemma SeenAfter(entries: seq<ComplexityEntry>, j: nat, x: ComplexityEntry, name: string)
    requires j < |entries| && entries[j].fqn == x.fqn
    ensures Seen(entries[j := x], name) <==> Seen(entries, name)
  {
    if Seen(entries, name) {
      var e :| e in entries && e.fqn == name;
      var i :| 0 <= i < |entries| && entries[i] == e;
      assert entries[j := x][i] in entries[j := x];
    }
    if Seen(entries[j := x], name) {
      var e :| e in entries[j := x] && e.fqn == name;
      var i :| 0 <= i < |entries| && entries[j := x][i] == e;
      assert entries[i] in entries;
    }
  }

  /** Replacing a definition by one of the same name counts exactly when it is the first of that name. */
  lemma {:induction false} FirstTotalReplace(
    entries: seq<ComplexityEntry>, j: nat, x: ComplexityEntry, f: ComplexityEntry -> int)
    requires j < |entries| && entries[j].fqn == x.fqn
    ensures FirstTotal(entries[j := x], f)
         == FirstTotal(entries, f) + (if Seen(entries[..j], x.fqn) then 0 else f(x) - f(entries[j]))
  {
    var init, last := entries[..|entries| - 1], entries[|entries| - 1];
    assert entries == init + [last];
    FirstTotalAppend(init, last, f);
    if j == |entries| - 1 {
      assert entries[j := x] == init + [x];
      FirstTotalAppend(init, x, f);
    } else {
      assert entries[j := x] == init[j := x] + [last];
      assert init[..j] == entries[..j];
      FirstTotalAppend(init[j := x], last, f);
      FirstTotalReplace(init, j, x, f);
      SeenAfter(init, j, x, last.fqn);
    }
  }

  lemma SeenConcat(a: seq<ComplexityEntry>, b: seq<ComplexityEntry>, name: string)
    ensures Seen(a + b, name) <==> Seen(a, name) || Seen(b, name)
  {
  }

  lemma SeenAround(a: seq<ComplexityEntry>, x: ComplexityEntry, b: seq<ComplexityEntry>, name: string)
    requires name != x.fqn
    ensures Seen(a + [x] + b, name) <==> Seen(a + b, name)
  {
    SeenConcat(a + [x], b, name);
    SeenConcat(a, [x], name);
    SeenConcat(a, b, name);
  }

  /** A definition with a new name counts wherever it is put. */
  lemma {:induction false} FirstTotalInsert(
    a: seq<ComplexityEntry>, x: ComplexityEntry, b: seq<ComplexityEntry>, f: ComplexityEntry -> int)
    requires !Seen(a + b, x.fqn)
    ensures FirstTotal(a + [x] + b, f) == FirstTotal(a + b, f) + f(x)
  {
    if b == [] {
      assert a + [x] + b == a + [x] && a + b == a;
      FirstTotalAppend(a, x, f);
    } else {
      var init, last := b[..|b| - 1], b[|b| - 1];
      NotSeenBefore(a, b, x.fqn);
      FirstTotalInsert(a, x, init, f);
      assert a + [x] + b == (a + [x] + init) + [last] by { assert b == init + [last]; }
      assert a + b == (a + init) + [last] by { assert b == init + [last]; }
      FirstTotalAppend(a + [x] + init, last, f);
      FirstTotalAppend(a + init, last, f);
      SeenAround(a, x, init, last.fqn);
    }
  }

  lemma NotSeenBefore(a: seq<ComplexityEntry>, b: seq<ComplexityEntry>, name: string)
    requires b != [] && !Seen(a + b, name)
    ensures !Seen(a + b[..|b| - 1], name) && b[|b| - 1].fqn != name
  {
    SeenConcat(a, b, name);
    SeenConcat(a, b[..|b| - 1], name);
    assert b[|b| - 1] in b;
  }

  /** What survives is the first entry of each name. */
  lemma {:induction false} FirstOfEachMembers(entries: seq<ComplexityEntry>, e: ComplexityEntry)
    ensures e in FirstOfEach(entries) <==> IsFirst(entries, ComplexityKey, e)
  {
    if entries != [] {
      var init, last := entries[..|entries| - 1], entries[|entries| - 1];
      FirstOfEachMembers(init, e);
      FirstExtends(init, last, e);
      assert entries == init + [last];
    }
  }

  lemma FirstExtends(init: seq<ComplexityEntry>, last: ComplexityEntry, e: ComplexityEntry)
    ensures IsFirst(init + [last], ComplexityKey, e)
       <==> IsFirst(init, ComplexityKey, e) || (e == last && !Seen(init, last.fqn))
  {
    var all := init + [last];
    assert forall i | 0 <= i < |init| :: all[i] == init[i];
    assert all[|init|] == last;
    forall x, y: ComplexityEntry ensures ComplexityKey(x) == ComplexityKey(y) <==> x.fqn == y.fqn {
      assert [x.fqn][0] == x.fqn && [y.fqn][0] == y.fqn;
    }
    if IsFirst(init, ComplexityKey, e) {
      var i :| 0 <= i < |init| && init[i] == e && forall j | 0 <= j < i :: ComplexityKey(init[j]) != ComplexityKey(e);
      assert all[i] == e && forall j | 0 <= j < i :: all[j] == init[j];
    } else if e == last && !Seen(init, last.fqn) {
      forall j | 0 <= j < |init| ensures ComplexityKey(all[j]) != ComplexityKey(e) {
        assert init[j] in init;
      }
    }
    if IsFirst(all, ComplexityKey, e) {
      var i :| 0 <= i < |all| && all[i] == e && forall j | 0 <= j < i :: ComplexityKey(all[j]) != ComplexityKey(e);
      if i < |init| {
        assert init[i] == e && forall j | 0 <= j < i :: init[j] == all[j];
      }
    }
  }

  /**
    The extractor's contract: the entries ascend by name, their names are unique, they are exactly the
    first entries of each name, and without repeats nothing is lost.
   */
  lemma StableEntriesContract(entries: seq<ComplexityEntry>, f: ComplexityEntry -> int)
    ensures Ascends(StableEntries(entries), ComplexityKey) && UniqueNames(StableEntries(entries))
    ensures forall e :: e in StableEntries(entries) <==> IsFirst(entries, ComplexityKey, e)
    ensures UniqueNames(entries) ==> Total(StableEntries(entries), f) == Total(entries, f)
  {
    FirstOfEachUnique(entries);
    SortUnique(FirstOfEach(entries));
    StableTotal(entries, f);
    if UniqueNames(entries) { NothingRepeated(entries); }
    SortAscends(FirstOfEach(entries), ComplexityKey);
    forall e ensures e in StableEntries(entries) <==> IsFirst(entries, ComplexityKey, e) {
      SortHolds(FirstOfEach(entries), ComplexityKey, e);
      FirstOfEachMembers(entries, e);
    }
  }
}
