/**
  The two counters against one traversal: what they charge for besides nesting is a matter of which
  nodes they visit, so each can be read off the other.
 */
module CountedNodes {
  import opened Syntax
  import opened Complexity

  // ---- bearing nodes ----

  lemma {:induction false} BearingPoints(n: Node)
    requires SumIn(n, Misplaced) == 0
    ensures Bearing(n) == SumIn(n, Branches) + SumIn(n, Clauses)
    decreases n, 1
  {
    SumInNode(n, Misplaced);
    SumInNode(n, Branches);
    SumInNode(n, Clauses);
    match n
    case Function(_) =>
    case Class(_) =>
    case If(_, t, b, e) => BearingPoints(t); BearingPointsAll(b); BearingPointsAll(e);
    case For(t, i, b, e) => BearingPoints(t); BearingPoints(i); BearingPointsAll(b); BearingPointsAll(e);
    case While(t, b, e) => BearingPoints(t); BearingPointsAll(b); BearingPointsAll(e);
    case Handler(t, b) => if t.Some? { BearingPoints(t.value); } BearingPointsAll(b);
    case IfExp(t, a, b) => BearingPoints(t); BearingPoints(a); BearingPoints(b);
    case Match(_, cases) => BearingPointsAll(cases);
    case Case(_, g, b) => if g.Some? { BearingPoints(g.value); } BearingPointsAll(b);
    case BoolOp(vs) => BearingPointsAll(vs);
    case Comp(es, gs) => BearingPointsAll(es); BearingPointsClauses(gs);
    case Generator(t, i, ifs) => BearingPoints(t); BearingPoints(i); BearingPointsAll(ifs);
    case Assert(t, m) => BearingPoints(t); if m.Some? { BearingPoints(m.value); }
    case Other(cs) => BearingPointsAll(cs);
  }

  lemma {:induction false} BearingPointsAll(ns: seq<Node>)
    requires SumInAll(ns, Misplaced) == 0
    ensures BearingAll(ns) == SumInAll(ns, Branches) + SumInAll(ns, Clauses)
    decreases ns, 0
  {
    if ns != [] {
      SumInCons(ns, Misplaced);
      SumInCons(ns, Branches);
      SumInCons(ns, Clauses);
      BearingPoints(ns[0]);
      BearingPointsAll(ns[1..]);
    }
  }

  lemma {:induction false} BearingPointsClauses(gs: seq<Node>)
    requires SumInAll(gs, Misplaced) == 0 && Sum(gs, NotAClause) == 0
    ensures BearingClauses(gs) == |gs| + SumInAll(gs, Branches) + SumInAll(gs, Clauses)
    decreases gs, 0
  {
    if gs != [] {
      SumInCons(gs, Misplaced);
      SumInCons(gs, Branches);
      SumInCons(gs, Clauses);
      BearingPoints(gs[0]);
      BearingPointsClauses(gs[1..]);
    }
  }

  // ---- cognitive cost ----

  /** The summed levels at which the bearing nodes stand, `nesting` at the outermost. */
  function Levels(n: Node, nesting: nat): nat
    decreases n, 2
  {
    match n
    case Function(_) => 0
    case Class(_) => 0
    case If(col, t, b, e) =>
      nesting + Levels(t, nesting) + LevelsAll(b, nesting + 1)
      + LevelsAll(e, if IsElif(col, e) then nesting else nesting + 1)
    case For(t, i, b, e) =>
      nesting + Levels(t, nesting) + Levels(i, nesting) + LevelsAll(b, nesting + 1) + LevelsAll(e, nesting + 1)
    case While(t, b, e) => nesting + Levels(t, nesting) + LevelsAll(b, nesting + 1) + LevelsAll(e, nesting + 1)
    case Handler(t, b) => nesting + (if t.Some? then Levels(t.value, nesting) else 0) + LevelsAll(b, nesting + 1)
    case IfExp(t, a, b) => nesting + Levels(t, nesting) + Levels(a, nesting + 1) + Levels(b, nesting + 1)
    case Match(_, cases) => LevelsAll(cases, nesting)
    case Case(_, g, b) => nesting + (if g.Some? then Levels(g.value, nesting) else 0) + LevelsAll(b, nesting + 1)
    case BoolOp(vs) => LevelsAll(vs, nesting)
    case Comp(es, gs) => LevelsClauses(gs, nesting) + LevelsAll(es, nesting + |gs|)
    case Generator(t, i, ifs) => Levels(t, nesting) + Levels(i, nesting) + LevelsAll(ifs, nesting)
    case Assert(t, m) => Levels(t, nesting) + (if m.Some? then Levels(m.value, nesting) else 0)
    case Other(cs) => LevelsAll(cs, nesting)
  }

  function LevelsAll(ns: seq<Node>, nesting: nat): nat
    decreases ns, 0
  {
    if ns == [] then 0 else Levels(ns[0], nesting) + LevelsAll(ns[1..], nesting)
  }

  /** A clause stands one level below the one before it, and its conditions one level below it. */
  function LevelsClauses(gs: seq<Node>, nesting: nat): nat
    decreases gs, 0
  {
    if gs == [] then 0
    else
      (match gs[0]
       case Generator(t, i, ifs) => nesting + Levels(t, nesting) + Levels(i, nesting) + LevelsAll(ifs, nesting + 1)
       case _ => 0)
      + LevelsClauses(gs[1..], nesting + 1)
  }

  /** What is charged regardless of nesting. */
  function Flat(n: Node): nat { Branches(n) + Clauses(n) + BoolOps(n) + ExtraConditions(n) }

  lemma {:induction false} CogPoints(n: Node, nesting: nat)
    requires SumIn(n, Misplaced) == 0
    ensures Cog(n, nesting) == Levels(n, nesting) + SumIn(n, Flat)
    decreases n, 2
  {
    SumInNode(n, Misplaced);
    SumInNode(n, Flat);
    match n
    case Function(_) =>
    case Class(_) =>
    case If(_, _, _, _) => CogIf(n, nesting);
    case For(_, _, _, _) => CogLoop(n, nesting);
    case While(_, _, _) => CogLoop(n, nesting);
    case Handler(_, _) => CogBranch(n, nesting);
    case IfExp(t, a, b) => CogPoints(t, nesting); CogPoints(a, nesting + 1); CogPoints(b, nesting + 1);
    case Match(_, cases) => CogPointsAll(cases, nesting);
    case Case(_, _, _) => CogBranch(n, nesting);
    case BoolOp(vs) => CogPointsAll(vs, nesting);
    case Comp(_, _) => CogComprehension(n, nesting);
    case Generator(_, _, _) => CogComprehension(n, nesting);
    case Assert(t, m) => CogPoints(t, nesting); if m.Some? { CogPoints(m.value, nesting); }
    case Other(cs) => CogPointsAll(cs, nesting);
  }

  lemma {:induction false} CogComprehension(n: Node, nesting: nat)
    requires (n.Comp? || n.Generator?) && SumIn(n, Misplaced) == 0
    ensures Cog(n, nesting) == Levels(n, nesting) + SumIn(n, Flat)
    decreases n, 1
  {
    SumInNode(n, Misplaced);
    SumInNode(n, Flat);
    if n.Comp? {
      CogPointsAll(n.elements, nesting + |n.generators|);
      CogPointsClauses(n.generators, nesting);
    } else {
      CogPoints(n.target, nesting);
      CogPoints(n.iter, nesting);
      CogPointsAll(n.ifs, nesting);
    }
  }

  lemma {:induction false} CogIf(n: Node, nesting: nat)
    requires n.If? && SumIn(n, Misplaced) == 0
    ensures Cog(n, nesting) == Levels(n, nesting) + SumIn(n, Flat)
    decreases n, 1
  {
    SumInNode(n, Misplaced);
    SumInNode(n, Flat);
    CogPoints(n.test, nesting);
    CogPointsAll(n.body, nesting + 1);
    if IsElif(n.col, n.orelse) {
      CogPointsAll(n.orelse, nesting);
      assert CogAll(n.orelse, nesting) == Cog(n.orelse[0], nesting) + CogAll(n.orelse[1..], nesting);
    } else {
      CogPointsAll(n.orelse, nesting + 1);
    }
  }

  lemma {:induction false} CogLoop(n: Node, nesting: nat)
    requires (n.For? || n.While?) && SumIn(n, Misplaced) == 0
    ensures Cog(n, nesting) == Levels(n, nesting) + SumIn(n, Flat)
    decreases n, 1
  {
    SumInNode(n, Misplaced);
    SumInNode(n, Flat);
    if n.For? {
      CogPoints(n.target, nesting);
      CogPoints(n.iter, nesting);
    } else {
      CogPoints(n.test, nesting);
    }
    CogPointsAll(n.body, nesting + 1);
    CogPointsAll(n.orelse, nesting + 1);
  }

  lemma {:induction false} CogBranch(n: Node, nesting: nat)
    requires (n.Handler? || n.Case?) && SumIn(n, Misplaced) == 0
    ensures Cog(n, nesting) == Levels(n, nesting) + SumIn(n, Flat)
    decreases n, 1
  {
    SumInNode(n, Misplaced);
    SumInNode(n, Flat);
    var head := if n.Handler? then n.exceptionType else n.guard;
    if head.Some? { CogPoints(head.value, nesting); }
    CogPointsAll(n.body, nesting + 1);
  }

  lemma {:induction false} CogPointsAll(ns: seq<Node>, nesting: nat)
    requires SumInAll(ns, Misplaced) == 0
    ensures CogAll(ns, nesting) == LevelsAll(ns, nesting) + SumInAll(ns, Flat)
    decreases ns, 0
  {
    if ns != [] {
      SumInCons(ns, Misplaced);
      SumInCons(ns, Flat);
      CogPoints(ns[0], nesting);
      CogPointsAll(ns[1..], nesting);
    }
  }

  /** A comprehension is charged for its clauses and their later conditions, the clauses for the rest. */
  lemma {:induction false} CogPointsClauses(gs: seq<Node>, nesting: nat)
    requires SumInAll(gs, Misplaced) == 0 && Sum(gs, NotAClause) == 0
    ensures CogGenerators(gs, nesting)
         == LevelsClauses(gs, nesting) + |gs| + Sum(gs, LaterConditions) + SumInAll(gs, Flat)
    decreases gs, 0
  {
    if gs != [] {
      SumInCons(gs, Misplaced);
      SumInCons(gs, Flat);
      CogPointsClause(gs[0], nesting);
      CogPointsClauses(gs[1..], nesting + 1);
    }
  }

  lemma {:induction false} CogPointsClause(g: Node, nesting: nat)
    requires g.Generator? && SumIn(g, Misplaced) == 0
    ensures CogClause(g, nesting)
         == 1 + nesting + Levels(g.target, nesting) + Levels(g.iter, nesting) + LevelsAll(g.ifs, nesting + 1)
            + LaterConditions(g) + SumIn(g, Flat)
    decreases g, 1
  {
    SumInNode(g, Misplaced);
    SumInNode(g, Flat);
    CogPoints(g.target, nesting);
    CogPoints(g.iter, nesting);
    CogPointsAll(g.ifs, nesting + 1);
  }

  lemma {:induction false} FlatSplit(ns: seq<Node>)
    ensures Sum(ns, Flat) == Sum(ns, Branches) + Sum(ns, Clauses) + Sum(ns, BoolOps) + Sum(ns, ExtraConditions)
  {
    if ns != [] { FlatSplit(ns[1..]); }
  }

  /**
    One traversal decides both counts of a block: the cyclomatic cost is its bearing nodes without the
    comprehension clauses, with their conditions, the extra operands and the assertions; the cognitive
    cost is its bearing nodes, their levels, its boolean operators and the later conditions.
   */
  lemma CountersAgree(ns: seq<Node>, nesting: nat)
    requires HasOnlyClauses(ns)
    ensures var vs := VisitedAll(ns);
      && BearingAll(ns) == Sum(vs, Branches) + Sum(vs, Clauses)
      && CycAll(ns) == BearingAll(ns) - Sum(vs, Clauses) + Sum(vs, Conditions) + Sum(vs, ExtraOperands)
                       + Sum(vs, Assertions)
      && CogAll(ns, nesting) == BearingAll(ns) + LevelsAll(ns, nesting) + Sum(vs, BoolOps) + Sum(vs, ExtraConditions)
  {
    var vs := VisitedAll(ns);
    CycPointsAll(ns);
    PointsSplit(vs);
    BearingPointsAll(ns);
    CogPointsAll(ns, nesting);
    FlatSplit(vs);
  }

  /** An `if` alone in the else branch stays at its parent's level when it is in its parent's column, and is
      one level deeper, as any other else branch, when it is not. */
  lemma ElifExactly(col: int, test: Node, body: seq<Node>, orelse: seq<Node>, nesting: nat)
    ensures var rest := Cog(If(col, test, body, orelse), nesting)
                        - (1 + nesting + Cog(test, nesting) + CogAll(body, nesting + 1));
      && (|orelse| == 1 && orelse[0].If? && orelse[0].col == col ==> rest == Cog(orelse[0], nesting))
      && (|orelse| == 1 && orelse[0].If? && orelse[0].col != col ==> rest == Cog(orelse[0], nesting + 1))
      && (|orelse| != 1 || !orelse[0].If? ==> rest == CogAll(orelse, nesting + 1))
  {
    if |orelse| == 1 {
      assert orelse[1..] == [];
      assert CogAll(orelse, nesting + 1) == Cog(orelse[0], nesting + 1) + CogAll(orelse[1..], nesting + 1);
    }
  }
}
