/**
  Python syntax trees as the complexity counters see them, and one traversal that both share: it does
  not enter definitions, and it skips the subject of a match and the patterns of its cases.
 */
module Syntax {
  import opened Values

  /** Syntax nodes by the way the counters treat them; `Other` is any node visited through its children. */
  datatype Node =
    | Function(children: seq<Node>)
    | Class(children: seq<Node>)
    | If(col: int, test: Node, body: seq<Node>, orelse: seq<Node>)
    | For(target: Node, iter: Node, body: seq<Node>, orelse: seq<Node>)
    | While(test: Node, body: seq<Node>, orelse: seq<Node>)
    | Handler(exceptionType: Option<Node>, body: seq<Node>)
    | IfExp(test: Node, whenTrue: Node, whenFalse: Node)
    | Match(subject: Node, cases: seq<Node>)
    | Case(pattern: Node, guard: Option<Node>, body: seq<Node>)
    | BoolOp(values: seq<Node>)
    | Comp(elements: seq<Node>, generators: seq<Node>)
    | Generator(target: Node, iter: Node, ifs: seq<Node>)
    | Assert(test: Node, msg: Option<Node>)
    | Other(children: seq<Node>)

  // ---- the nodes a counter visits ----

  /** A node before what is visited below it, in up to four parts. */
  function Preorder(n: Node, a: seq<Node>, b: seq<Node>, c: seq<Node>, d: seq<Node>): seq<Node> {
    [n] + a + b + c + d
  }

  /** The node and everything visited below it; a definition is not visited at all. */
  function Visited(n: Node): seq<Node>
    decreases n, 1
  {
    match n
    case Function(_) => []
    case Class(_) => []
    case If(_, t, b, e) => Preorder(n, Visited(t), VisitedAll(b), VisitedAll(e), [])
    case For(t, i, b, e) => Preorder(n, Visited(t), Visited(i), VisitedAll(b), VisitedAll(e))
    case While(t, b, e) => Preorder(n, Visited(t), VisitedAll(b), VisitedAll(e), [])
    case Handler(t, b) => Preorder(n, VisitedOption(t), VisitedAll(b), [], [])
    case IfExp(t, a, b) => Preorder(n, Visited(t), Visited(a), Visited(b), [])
    case Match(_, cases) => Preorder(n, VisitedAll(cases), [], [], [])
    case Case(_, g, b) => Preorder(n, VisitedOption(g), VisitedAll(b), [], [])
    case BoolOp(vs) => Preorder(n, VisitedAll(vs), [], [], [])
    case Comp(es, gs) => Preorder(n, VisitedAll(es), VisitedAll(gs), [], [])
    case Generator(t, i, ifs) => Preorder(n, Visited(t), Visited(i), VisitedAll(ifs), [])
    case Assert(t, m) => Preorder(n, Visited(t), VisitedOption(m), [], [])
    case Other(cs) => Preorder(n, VisitedAll(cs), [], [], [])
  }

  function VisitedAll(ns: seq<Node>): seq<Node>
    decreases ns, 0
  {
    if ns == [] then [] else Visited(ns[0]) + VisitedAll(ns[1..])
  }

  function VisitedOption(o: Option<Node>): seq<Node>
    decreases o, 0
  {
    match o
    case Some(n) => Visited(n)
    case None => []
  }

  // ---- sums over nodes ----

  function Sum(ns: seq<Node>, f: Node -> nat): nat {
    if ns == [] then 0 else f(ns[0]) + Sum(ns[1..], f)
  }

  lemma {:induction false} SumAppend(a: seq<Node>, b: seq<Node>, f: Node -> nat)
    ensures Sum(a + b, f) == Sum(a, f) + Sum(b, f)
  {
    if a == [] {
      assert a + b == b;
    } else {
      assert (a + b)[1..] == a[1..] + b;
      SumAppend(a[1..], b, f);
    }
  }

  lemma SumPreorder(n: Node, a: seq<Node>, b: seq<Node>, c: seq<Node>, d: seq<Node>, f: Node -> nat)
    ensures Sum(Preorder(n, a, b, c, d), f) == f(n) + Sum(a, f) + Sum(b, f) + Sum(c, f) + Sum(d, f)
  {
    SumAppend([n] + a + b + c, d, f);
    SumAppend([n] + a + b, c, f);
    SumAppend([n] + a, b, f);
    SumAppend([n], a, f);
    assert [n][1..] == [];
  }

  // ---- sums over the visited nodes, part by part ----

  function SumIn(n: Node, f: Node -> nat): nat { Sum(Visited(n), f) }

  function SumInAll(ns: seq<Node>, f: Node -> nat): nat { Sum(VisitedAll(ns), f) }

  function SumInOption(o: Option<Node>, f: Node -> nat): nat { Sum(VisitedOption(o), f) }

  lemma SumInCons(ns: seq<Node>, f: Node -> nat)
    requires ns != []
    ensures SumInAll(ns, f) == SumIn(ns[0], f) + SumInAll(ns[1..], f)
  {
    SumAppend(Visited(ns[0]), VisitedAll(ns[1..]), f);
  }

  /** What a node adds to a sum: its own share and those of its visited parts. */
  lemma SumInNode(n: Node, f: Node -> nat)
    ensures SumIn(n, f) == match n
      case Function(_) => 0
      case Class(_) => 0
      case If(_, t, b, e) => f(n) + SumIn(t, f) + SumInAll(b, f) + SumInAll(e, f)
      case For(t, i, b, e) => f(n) + SumIn(t, f) + SumIn(i, f) + SumInAll(b, f) + SumInAll(e, f)
      case While(t, b, e) => f(n) + SumIn(t, f) + SumInAll(b, f) + SumInAll(e, f)
      case Handler(t, b) => f(n) + SumInOption(t, f) + SumInAll(b, f)
      case IfExp(t, a, b) => f(n) + SumIn(t, f) + SumIn(a, f) + SumIn(b, f)
      case Match(_, cases) => f(n) + SumInAll(cases, f)
      case Case(_, g, b) => f(n) + SumInOption(g, f) + SumInAll(b, f)
      case BoolOp(vs) => f(n) + SumInAll(vs, f)
      case Comp(es, gs) => f(n) + SumInAll(es, f) + SumInAll(gs, f)
      case Generator(t, i, ifs) => f(n) + SumIn(t, f) + SumIn(i, f) + SumInAll(ifs, f)
      case Assert(t, m) => f(n) + SumIn(t, f) + SumInOption(m, f)
      case Other(cs) => f(n) + SumInAll(cs, f)
  {
    match n
    case Function(_) =>
    case Class(_) =>
    case If(_, t, b, e) => SumPreorder(n, Visited(t), VisitedAll(b), VisitedAll(e), [], f);
    case For(t, i, b, e) => SumPreorder(n, Visited(t), Visited(i), VisitedAll(b), VisitedAll(e), f);
    case While(t, b, e) => SumPreorder(n, Visited(t), VisitedAll(b), VisitedAll(e), [], f);
    case Handler(t, b) => SumPreorder(n, VisitedOption(t), VisitedAll(b), [], [], f);
    case IfExp(t, a, b) => SumPreorder(n, Visited(t), Visited(a), Visited(b), [], f);
    case Match(_, cases) => SumPreorder(n, VisitedAll(cases), [], [], [], f);
    case Case(_, g, b) => SumPreorder(n, VisitedOption(g), VisitedAll(b), [], [], f);
    case BoolOp(vs) => SumPreorder(n, VisitedAll(vs), [], [], [], f);
    case Comp(es, gs) => SumPreorder(n, VisitedAll(es), VisitedAll(gs), [], [], f);
    case Generator(t, i, ifs) => SumPreorder(n, Visited(t), Visited(i), VisitedAll(ifs), [], f);
    case Assert(t, m) => SumPreorder(n, Visited(t), VisitedOption(m), [], [], f);
    case Other(cs) => SumPreorder(n, VisitedAll(cs), [], [], [], f);
  }

  // ---- what is counted ----

  /** A branch of the control flow: the nodes on which both counters charge a point. */
  function Branches(n: Node): nat {
    if n.If? || n.For? || n.While? || n.Handler? || n.IfExp? || n.Case? then 1 else 0
  }

  function Assertions(n: Node): nat { if n.Assert? then 1 else 0 }

  function BoolOps(n: Node): nat { if n.BoolOp? then 1 else 0 }

  /** Operands of `and` and `or` after the first. */
  function ExtraOperands(n: Node): nat { if n.BoolOp? && n.values != [] then |n.values| - 1 else 0 }

  /** The `if` conditions of a comprehension clause. */
  function Conditions(n: Node): nat { if n.Generator? then |n.ifs| else 0 }

  /** The clauses of a comprehension. */
  function Clauses(n: Node): nat { if n.Comp? then |n.generators| else 0 }

  /** Conditions of a comprehension after the first of each clause. */
  function ExtraConditions(n: Node): nat { if n.Comp? then Sum(n.generators, LaterConditions) else 0 }

  function LaterConditions(n: Node): nat { if n.Generator? && n.ifs != [] then |n.ifs| - 1 else 0 }

  /** The points of the cyclomatic count. */
  function Points(n: Node): nat { Branches(n) + Assertions(n) + ExtraOperands(n) + Conditions(n) }

  /** The branches and assertions, the later operands and the comprehension conditions of some nodes. */
  function PointsAmong(ns: seq<Node>): nat {
    Sum(ns, Branches) + Sum(ns, Assertions) + Sum(ns, ExtraOperands) + Sum(ns, Conditions)
  }

  lemma {:induction false} PointsSplit(ns: seq<Node>)
    ensures Sum(ns, Points) == PointsAmong(ns)
  {
    if ns != [] { PointsSplit(ns[1..]); }
  }

  /** Comprehension clauses that are none; a syntax tree has no such clause. */
  function Misplaced(n: Node): nat { if n.Comp? then Sum(n.generators, NotAClause) else 0 }

  function NotAClause(n: Node): nat { if n.Generator? then 0 else 1 }

  /** Every clause of a visited comprehension is one. */
  predicate HasOnlyClauses(ns: seq<Node>) { Sum(VisitedAll(ns), Misplaced) == 0 }
}
