/**
  Extract-method arithmetic: moving a block out of a function into a new visible one raises total
  cyclomatic complexity by one and lowers total cognitive complexity by the block's nesting level
  times its nesting-bearing nodes. Advisory D7 rests on the first half.
 */
module ExtractMethod {
  import opened Values
  import opened Vocabulary
  import opened States
  import opened Deltas
  import opened Syntax
  import opened Complexity
  import opened Evaluator
  import opened Compiler
  import opened CompileSoundness
  import opened CyclomaticLocks

  // ---- a function body with a hole where the block was ----

  /** A statement list with a hole in it, directly or inside one of its statements. */
  datatype Ctx =
    | Hole(before: seq<Node>, after: seq<Node>)
    | Inside(before: seq<Node>, frame: Frame, after: seq<Node>)

  /** A compound statement whose hole is in one of its statement lists. */
  datatype Frame =
    | IfBody(col: int, test: Node, inner: Ctx, orelse: seq<Node>)
    | IfElse(col: int, test: Node, body: seq<Node>, inner: Ctx)
    | ForBody(target: Node, iter: Node, inner: Ctx, orelse: seq<Node>)
    | ForElse(target: Node, iter: Node, body: seq<Node>, inner: Ctx)
    | WhileBody(test: Node, inner: Ctx, orelse: seq<Node>)
    | WhileElse(test: Node, body: seq<Node>, inner: Ctx)
    | HandlerBody(exceptionType: Option<Node>, inner: Ctx)
    | CaseBody(pattern: Node, guard: Option<Node>, inner: Ctx)
    | MatchCases(subject: Node, inner: Ctx)
    | OtherBody(inner: Ctx)

  function Fill(c: Ctx, block: seq<Node>): seq<Node>
    decreases c, 0
  {
    match c
    case Hole(a, z) => a + block + z
    case Inside(a, f, z) => a + [FillFrame(f, block)] + z
  }

  function FillFrame(f: Frame, block: seq<Node>): Node
    decreases f, 1
  {
    match f
    case IfBody(col, t, c, e) => If(col, t, Fill(c, block), e)
    case IfElse(col, t, b, c) => If(col, t, b, Fill(c, block))
    case ForBody(t, i, c, e) => For(t, i, Fill(c, block), e)
    case ForElse(t, i, b, c) => For(t, i, b, Fill(c, block))
    case WhileBody(t, c, e) => While(t, Fill(c, block), e)
    case WhileElse(t, b, c) => While(t, b, Fill(c, block))
    case HandlerBody(t, c) => Handler(t, Fill(c, block))
    case CaseBody(p, g, c) => Case(p, g, Fill(c, block))
    case MatchCases(s, c) => Match(s, Fill(c, block))
    case OtherBody(c) => Other(Fill(c, block))
  }

  /** The nesting level at which the counter reaches the block, from `nesting` at the outer list. */
  function DepthAt(c: Ctx, block: seq<Node>, nesting: nat): nat
    decreases c, 0
  {
    match c
    case Hole(_, _) => nesting
    case Inside(_, f, _) => DepthIn(f, block, nesting)
  }

  function DepthIn(f: Frame, block: seq<Node>, nesting: nat): nat
    decreases f, 1
  {
    match f
    case IfElse(col, _, _, c) => DepthAt(c, block, if IsElif(col, Fill(c, block)) then nesting else nesting + 1)
    case MatchCases(_, c) => DepthAt(c, block, nesting)
    case OtherBody(c) => DepthAt(c, block, nesting)
    case _ => DepthAt(f.inner, block, nesting + 1)
  }

  /**
    A plain statement: no node of it has a cost of its own, at any depth. A call statement, an
    assignment from a call and a returned call are plain when their arguments are.
   */
  predicate IsPlain(n: Node)
    decreases n, 1
  {
    n.Other? && ArePlain(n.children)
  }

  predicate ArePlain(ns: seq<Node>)
    decreases ns, 0
  {
    ns == [] || (IsPlain(ns[0]) && ArePlain(ns[1..]))
  }

  lemma {:induction false} PlainIsFree(n: Node, nesting: nat)
    requires IsPlain(n)
    ensures Cyc(n) == 0 && Cog(n, nesting) == 0
    decreases n, 1
  {
    PlainListIsFree(n.children, nesting);
  }

  lemma {:induction false} PlainListIsFree(ns: seq<Node>, nesting: nat)
    requires ArePlain(ns)
    ensures CycAll(ns) == 0 && CogAll(ns, nesting) == 0
    decreases ns, 0
  {
    if ns != [] {
      PlainIsFree(ns[0], nesting);
      PlainListIsFree(ns[1..], nesting);
    }
  }

  lemma PlainStatementIsFree(call: Node, nesting: nat)
    requires IsPlain(call)
    ensures CycAll([call]) == 0 && CogAll([call], nesting) == 0
  {
    PlainPair(call, call);
    PlainListIsFree([call], nesting);
  }

  // ---- call statements as Python parses them ----

  /** A name: the node and its load or store context. */
  function NameNode(): Node { Other([Other([])]) }

  function CallNode(arguments: seq<Node>): Node { Other([NameNode()] + arguments) }

  /** `helper(args)` or `return helper(args)`: one node around the call. */
  function CallStatement(arguments: seq<Node>): Node { Other([CallNode(arguments)]) }

  /** `y = helper(args)`. */
  function CallAssignment(arguments: seq<Node>): Node { Other([NameNode(), CallNode(arguments)]) }

  lemma PlainPair(a: Node, b: Node)
    ensures ArePlain([a]) <==> IsPlain(a)
    ensures ArePlain([a, b]) <==> IsPlain(a) && IsPlain(b)
  {
    assert [a, b][1..] == [b] && [a][1..] == [] && [b][1..] == [];
  }

  /** They are plain exactly when their arguments are. */
  lemma CallsArePlain(arguments: seq<Node>)
    ensures IsPlain(CallStatement(arguments)) <==> ArePlain(arguments)
    ensures IsPlain(CallAssignment(arguments)) <==> ArePlain(arguments)
  {
    PlainPair(Other([]), Other([]));
    PlainPair(NameNode(), CallNode(arguments));
    PlainPair(CallNode(arguments), NameNode());
    assert ([NameNode()] + arguments)[1..] == arguments;
  }

  /** In particular `helper(x)`, `y = helper(x)` and `return helper(x)` are. */
  lemma NameCallsArePlain()
    ensures IsPlain(CallStatement([NameNode()])) && IsPlain(CallAssignment([NameNode()]))
  {
    PlainPair(Other([]), Other([]));
    PlainPair(NameNode(), NameNode());
    CallsArePlain([NameNode()]);
  }

  // ---- the block's share of the totals ----

  lemma CycThree(a: seq<Node>, m: seq<Node>, z: seq<Node>)
    ensures CycAll(a + m + z) == CycAll(a) + CycAll(m) + CycAll(z)
  {
    CycAppend(a + m, z);
    CycAppend(a, m);
  }

  lemma CogThree(a: seq<Node>, m: seq<Node>, z: seq<Node>, nesting: nat)
    ensures CogAll(a + m + z, nesting) == CogAll(a, nesting) + CogAll(m, nesting) + CogAll(z, nesting)
  {
    CogAppend(a + m, z, nesting);
    CogAppend(a, m, nesting);
  }

  lemma CycOne(n: Node)
    ensures CycAll([n]) == Cyc(n)
  {
    assert [n][1..] == [];
  }

  lemma CogOne(n: Node, nesting: nat)
    ensures CogAll([n], nesting) == Cog(n, nesting)
  {
    assert [n][1..] == [];
  }

  /** The block contributes its own cyclomatic count, wherever it stands. */
  lemma {:induction false} CyclomaticShare(c: Ctx, block: seq<Node>, call: Node)
    requires IsPlain(call)
    ensures CycAll(Fill(c, block)) == CycAll(Fill(c, [call])) + CycAll(block)
    decreases c, 0
  {
    match c
    case Hole(a, z) =>
      CycThree(a, block, z);
      CycThree(a, [call], z);
      PlainStatementIsFree(call, 0);
    case Inside(a, f, z) =>
      CyclomaticShareIn(f, block, call);
      CycThree(a, [FillFrame(f, block)], z);
      CycThree(a, [FillFrame(f, [call])], z);
      CycOne(FillFrame(f, block));
      CycOne(FillFrame(f, [call]));
  }

  lemma {:induction false} CyclomaticShareIn(f: Frame, block: seq<Node>, call: Node)
    requires IsPlain(call)
    ensures Cyc(FillFrame(f, block)) == Cyc(FillFrame(f, [call])) + CycAll(block)
    decreases f, 1
  {
    match f
    case IfBody(_, _, _, _) => CyclomaticIf(f, block, call);
    case IfElse(_, _, _, _) => CyclomaticIf(f, block, call);
    case ForBody(_, _, _, _) => CyclomaticFor(f, block, call);
    case ForElse(_, _, _, _) => CyclomaticFor(f, block, call);
    case WhileBody(_, _, _) => CyclomaticWhile(f, block, call);
    case WhileElse(_, _, _) => CyclomaticWhile(f, block, call);
    case HandlerBody(_, _) => CyclomaticClause(f, block, call);
    case CaseBody(_, _, _) => CyclomaticClause(f, block, call);
    case _ => CyclomaticWrapper(f, block, call);
  }

  lemma {:induction false} CyclomaticIf(f: Frame, block: seq<Node>, call: Node)
    requires (f.IfBody? || f.IfElse?) && IsPlain(call)
    ensures Cyc(FillFrame(f, block)) == Cyc(FillFrame(f, [call])) + CycAll(block)
    decreases f, 0
  {
    CyclomaticShare(f.inner, block, call);
  }

  lemma {:induction false} CyclomaticFor(f: Frame, block: seq<Node>, call: Node)
    requires (f.ForBody? || f.ForElse?) && IsPlain(call)
    ensures Cyc(FillFrame(f, block)) == Cyc(FillFrame(f, [call])) + CycAll(block)
    decreases f, 0
  {
    CyclomaticShare(f.inner, block, call);
  }

  lemma {:induction false} CyclomaticWhile(f: Frame, block: seq<Node>, call: Node)
    requires (f.WhileBody? || f.WhileElse?) && IsPlain(call)
    ensures Cyc(FillFrame(f, block)) == Cyc(FillFrame(f, [call])) + CycAll(block)
    decreases f, 0
  {
    CyclomaticShare(f.inner, block, call);
  }

  lemma ClauseCost(f: Frame, block: seq<Node>)
    requires f.HandlerBody? || f.CaseBody?
    ensures var head := if f.HandlerBody? then f.exceptionType else f.guard;
      Cyc(FillFrame(f, block)) == 1 + (if head.Some? then Cyc(head.value) else 0) + CycAll(Fill(f.inner, block))
  {
  }

  lemma {:induction false} CyclomaticClause(f: Frame, block: seq<Node>, call: Node)
    requires (f.HandlerBody? || f.CaseBody?) && IsPlain(call)
    ensures Cyc(FillFrame(f, block)) == Cyc(FillFrame(f, [call])) + CycAll(block)
    decreases f, 0
  {
    ClauseCost(f, block);
    ClauseCost(f, [call]);
    CyclomaticShare(f.inner, block, call);
  }

  lemma WrapperCost(f: Frame, block: seq<Node>)
    requires f.MatchCases? || f.OtherBody?
    ensures Cyc(FillFrame(f, block)) == CycAll(Fill(f.inner, block))
  {
  }

  lemma {:induction false} CyclomaticWrapper(f: Frame, block: seq<Node>, call: Node)
    requires (f.MatchCases? || f.OtherBody?) && IsPlain(call)
    ensures Cyc(FillFrame(f, block)) == Cyc(FillFrame(f, [call])) + CycAll(block)
    decreases f, 0
  {
    WrapperCost(f, block);
    WrapperCost(f, [call]);
    CyclomaticShare(f.inner, block, call);
  }

  /** Replacing the block by a call keeps an `elif` an `elif`, unless the block was the `elif` itself. */
  lemma ElifSurvives(col: int, c: Ctx, block: seq<Node>, call: Node)
    requires block != [] && IsPlain(call)
    ensures IsElif(col, Fill(c, [call])) ==> IsElif(col, Fill(c, block))
    ensures IsElif(col, Fill(c, block)) && !IsElif(col, Fill(c, [call])) ==> c == Hole([], [])
  {
    match c
    case Hole(a, z) =>
      assert |a| == 0 && |z| == 0 ==> (a + [call] + z)[0] == call;
    case Inside(a, f, z) =>
      assert |a| == 0 && |z| == 0 ==>
        (a + [FillFrame(f, block)] + z)[0] == FillFrame(f, block)
        && (a + [FillFrame(f, [call])] + z)[0] == FillFrame(f, [call]);
  }

  /** The block contributes its cognitive cost at the level where it stands. */
  lemma {:induction false} CognitiveShare(c: Ctx, block: seq<Node>, call: Node, nesting: nat)
    requires block != [] && IsPlain(call)
    ensures CogAll(Fill(c, block), nesting)
         == CogAll(Fill(c, [call]), nesting) + CogAll(block, DepthAt(c, block, nesting))
    decreases c, 0
  {
    match c
    case Hole(a, z) =>
      CogThree(a, block, z, nesting);
      CogThree(a, [call], z, nesting);
      PlainStatementIsFree(call, nesting);
    case Inside(a, f, z) =>
      CognitiveShareIn(f, block, call, nesting);
      CogThree(a, [FillFrame(f, block)], z, nesting);
      CogThree(a, [FillFrame(f, [call])], z, nesting);
      CogOne(FillFrame(f, block), nesting);
      CogOne(FillFrame(f, [call]), nesting);
  }

  lemma {:induction false} CognitiveShareIn(f: Frame, block: seq<Node>, call: Node, nesting: nat)
    requires block != [] && IsPlain(call)
    ensures Cog(FillFrame(f, block), nesting)
         == Cog(FillFrame(f, [call]), nesting) + CogAll(block, DepthIn(f, block, nesting))
    decreases f, 1
  {
    match f
    case IfElse(_, _, _, _) => ElseShare(f, block, call, nesting);
    case MatchCases(_, c) => CognitiveShare(c, block, call, nesting);
    case OtherBody(c) => CognitiveShare(c, block, call, nesting);
    case IfBody(_, _, _, _) => BodyShare(f, block, call, nesting);
    case HandlerBody(_, _) => BodyShare(f, block, call, nesting);
    case CaseBody(_, _, _) => BodyShare(f, block, call, nesting);
    case ForBody(_, _, _, _) => ForShare(f, block, call, nesting);
    case ForElse(_, _, _, _) => ForShare(f, block, call, nesting);
    case _ => WhileShare(f, block, call, nesting);
  }

  lemma {:induction false} BodyShare(f: Frame, block: seq<Node>, call: Node, nesting: nat)
    requires f.IfBody? || f.HandlerBody? || f.CaseBody?
    requires block != [] && IsPlain(call)
    ensures Cog(FillFrame(f, block), nesting)
         == Cog(FillFrame(f, [call]), nesting) + CogAll(block, DepthIn(f, block, nesting))
    decreases f, 0
  {
    CognitiveShare(f.inner, block, call, nesting + 1);
  }

  lemma {:induction false} ForShare(f: Frame, block: seq<Node>, call: Node, nesting: nat)
    requires f.ForBody? || f.ForElse?
    requires block != [] && IsPlain(call)
    ensures Cog(FillFrame(f, block), nesting)
         == Cog(FillFrame(f, [call]), nesting) + CogAll(block, DepthIn(f, block, nesting))
    decreases f, 0
  {
    CognitiveShare(f.inner, block, call, nesting + 1);
  }

  lemma {:induction false} WhileShare(f: Frame, block: seq<Node>, call: Node, nesting: nat)
    requires f.WhileBody? || f.WhileElse?
    requires block != [] && IsPlain(call)
    ensures Cog(FillFrame(f, block), nesting)
         == Cog(FillFrame(f, [call]), nesting) + CogAll(block, DepthIn(f, block, nesting))
    decreases f, 0
  {
    CognitiveShare(f.inner, block, call, nesting + 1);
  }

  /** What the `else` branch of an `if` costs: an `elif` stays at the level of its `if`. */
  function ElseCog(col: int, orelse: seq<Node>, nesting: nat): nat {
    CogAll(orelse, if IsElif(col, orelse) then nesting else nesting + 1)
  }

  lemma IfCost(col: int, test: Node, body: seq<Node>, orelse: seq<Node>, nesting: nat)
    ensures Cog(If(col, test, body, orelse), nesting)
         == 1 + nesting + Cog(test, nesting) + CogAll(body, nesting + 1) + ElseCog(col, orelse, nesting)
  {
    if IsElif(col, orelse) {
      assert orelse == [orelse[0]];
      CogOne(orelse[0], nesting);
    }
  }

  lemma {:induction false} ElseShare(f: Frame, block: seq<Node>, call: Node, nesting: nat)
    requires f.IfElse? && block != [] && IsPlain(call)
    ensures Cog(FillFrame(f, block), nesting)
         == Cog(FillFrame(f, [call]), nesting) + CogAll(block, DepthIn(f, block, nesting))
    decreases f, 0
  {
    var with, without := Fill(f.inner, block), Fill(f.inner, [call]);
    ElifSurvives(f.col, f.inner, block, call);
    IfCost(f.col, f.test, f.body, with, nesting);
    IfCost(f.col, f.test, f.body, without, nesting);
    if IsElif(f.col, with) && !IsElif(f.col, without) {
      assert with == block && without == [call];
      PlainStatementIsFree(call, nesting + 1);
    } else {
      CognitiveShare(f.inner, block, call, if IsElif(f.col, with) then nesting else nesting + 1);
    }
  }

  // ---- moving code to another column ----

  /** The same code `k` columns to the right. */
  function Shift(n: Node, k: int): Node
    decreases n, 1
  {
    match n
    case Function(cs) => Function(ShiftAll(cs, k))
    case Class(cs) => Class(ShiftAll(cs, k))
    case If(col, t, b, e) => If(col + k, Shift(t, k), ShiftAll(b, k), ShiftAll(e, k))
    case For(t, i, b, e) => For(Shift(t, k), Shift(i, k), ShiftAll(b, k), ShiftAll(e, k))
    case While(t, b, e) => While(Shift(t, k), ShiftAll(b, k), ShiftAll(e, k))
    case Handler(t, b) => Handler(ShiftOption(t, k), ShiftAll(b, k))
    case IfExp(t, a, b) => IfExp(Shift(t, k), Shift(a, k), Shift(b, k))
    case Match(s, cs) => Match(Shift(s, k), ShiftAll(cs, k))
    case Case(p, g, b) => Case(Shift(p, k), ShiftOption(g, k), ShiftAll(b, k))
    case BoolOp(vs) => BoolOp(ShiftAll(vs, k))
    case Comp(es, gs) => Comp(ShiftAll(es, k), ShiftAll(gs, k))
    case Generator(t, i, ifs) => Generator(Shift(t, k), Shift(i, k), ShiftAll(ifs, k))
    case Assert(t, m) => Assert(Shift(t, k), ShiftOption(m, k))
    case Other(cs) => Other(ShiftAll(cs, k))
  }

  function ShiftOption(o: Option<Node>, k: int): Option<Node>
    decreases o, 1
  {
    if o.Some? then Some(Shift(o.value, k)) else None
  }

  function ShiftAll(ns: seq<Node>, k: int): (r: seq<Node>)
    ensures |r| == |ns|
    decreases ns, 0
  {
    if ns == [] then [] else [Shift(ns[0], k)] + ShiftAll(ns[1..], k)
  }

  lemma {:induction false} ShiftKeepsCyc(n: Node, k: int)
    ensures Cyc(Shift(n, k)) == Cyc(n)
    decreases n, 1
  {
    match n
    case Function(_) =>
    case Class(_) =>
    case If(_, t, b, e) => ShiftKeepsCyc(t, k); ShiftAllKeepsCyc(b, k); ShiftAllKeepsCyc(e, k);
    case For(t, i, b, e) => ShiftKeepsCyc(t, k); ShiftKeepsCyc(i, k); ShiftAllKeepsCyc(b, k); ShiftAllKeepsCyc(e, k);
    case While(t, b, e) => ShiftKeepsCyc(t, k); ShiftAllKeepsCyc(b, k); ShiftAllKeepsCyc(e, k);
    case Handler(t, b) => if t.Some? { ShiftKeepsCyc(t.value, k); } ShiftAllKeepsCyc(b, k);
    case IfExp(t, a, b) => ShiftKeepsCyc(t, k); ShiftKeepsCyc(a, k); ShiftKeepsCyc(b, k);
    case Match(_, cs) => ShiftAllKeepsCyc(cs, k);
    case Case(_, g, b) => if g.Some? { ShiftKeepsCyc(g.value, k); } ShiftAllKeepsCyc(b, k);
    case BoolOp(vs) => ShiftAllKeepsCyc(vs, k);
    case Comp(es, gs) => ShiftAllKeepsCyc(es, k); ShiftAllKeepsCyc(gs, k);
    case Generator(t, i, ifs) => ShiftKeepsCyc(t, k); ShiftKeepsCyc(i, k); ShiftAllKeepsCyc(ifs, k);
    case Assert(t, m) => ShiftKeepsCyc(t, k); if m.Some? { ShiftKeepsCyc(m.value, k); }
    case Other(cs) => ShiftAllKeepsCyc(cs, k);
  }

  lemma {:induction false} ShiftAllKeepsCyc(ns: seq<Node>, k: int)
    ensures CycAll(ShiftAll(ns, k)) == CycAll(ns)
    decreases ns, 0
  {
    if ns != [] {
      ShiftKeepsCyc(ns[0], k);
      ShiftAllKeepsCyc(ns[1..], k);
    }
  }

  lemma {:induction false} ShiftKeepsCog(n: Node, k: int, nesting: nat)
    ensures Cog(Shift(n, k), nesting) == Cog(n, nesting)
    decreases n, 2
  {
    match n
    case If(_, _, _, _) => ShiftKeepsIf(n, k, nesting);
    case For(_, _, _, _) => ShiftKeepsLoop(n, k, nesting);
    case While(_, _, _) => ShiftKeepsLoop(n, k, nesting);
    case Handler(_, _) => ShiftKeepsBranch(n, k, nesting);
    case IfExp(_, _, _) => ShiftKeepsBranch(n, k, nesting);
    case Case(_, _, _) => ShiftKeepsBranch(n, k, nesting);
    case Match(_, cs) => ShiftAllKeepsCog(cs, k, nesting);
    case BoolOp(vs) => ShiftAllKeepsCog(vs, k, nesting);
    case Comp(es, gs) => ShiftKeepsClauses(gs, k, nesting); ShiftAllKeepsCog(es, k, nesting + |gs|);
    case Generator(t, i, ifs) =>
      ShiftKeepsCog(t, k, nesting);
      ShiftKeepsCog(i, k, nesting);
      ShiftAllKeepsCog(ifs, k, nesting);
    case Assert(t, m) => ShiftKeepsCog(t, k, nesting); if m.Some? { ShiftKeepsCog(m.value, k, nesting); }
    case Other(cs) => ShiftAllKeepsCog(cs, k, nesting);
    case _ =>
  }

  lemma {:induction false} ShiftKeepsBranch(n: Node, k: int, nesting: nat)
    requires n.Handler? || n.IfExp? || n.Case?
    ensures Cog(Shift(n, k), nesting) == Cog(n, nesting)
    decreases n, 1
  {
    match n
    case Handler(t, b) => if t.Some? { ShiftKeepsCog(t.value, k, nesting); } ShiftAllKeepsCog(b, k, nesting + 1);
    case IfExp(t, a, b) =>
      ShiftKeepsCog(t, k, nesting);
      ShiftKeepsCog(a, k, nesting + 1);
      ShiftKeepsCog(b, k, nesting + 1);
    case Case(_, g, b) => if g.Some? { ShiftKeepsCog(g.value, k, nesting); } ShiftAllKeepsCog(b, k, nesting + 1);
  }

  lemma {:induction false} ShiftKeepsIf(n: Node, k: int, nesting: nat)
    requires n.If?
    ensures Cog(Shift(n, k), nesting) == Cog(n, nesting)
    decreases n, 1
  {
    ShiftKeepsCog(n.test, k, nesting);
    ShiftAllKeepsCog(n.body, k, nesting + 1);
    var e := n.orelse;
    assert |e| == 1 ==> ShiftAll(e, k)[0] == Shift(e[0], k);
    if IsElif(n.col, e) {
      ShiftKeepsCog(e[0], k, nesting);
    } else {
      ShiftAllKeepsCog(e, k, nesting + 1);
    }
  }

  lemma {:induction false} ShiftKeepsLoop(n: Node, k: int, nesting: nat)
    requires n.For? || n.While?
    ensures Cog(Shift(n, k), nesting) == Cog(n, nesting)
    decreases n, 1
  {
    if n.For? {
      ShiftKeepsCog(n.target, k, nesting);
      ShiftKeepsCog(n.iter, k, nesting);
    } else {
      ShiftKeepsCog(n.test, k, nesting);
    }
    ShiftAllKeepsCog(n.body, k, nesting + 1);
    ShiftAllKeepsCog(n.orelse, k, nesting + 1);
  }

  lemma {:induction false} ShiftAllKeepsCog(ns: seq<Node>, k: int, nesting: nat)
    ensures CogAll(ShiftAll(ns, k), nesting) == CogAll(ns, nesting)
    decreases ns, 0
  {
    if ns != [] {
      ShiftKeepsCog(ns[0], k, nesting);
      ShiftAllKeepsCog(ns[1..], k, nesting);
    }
  }

  lemma {:induction false} ShiftKeepsClauses(gs: seq<Node>, k: int, nesting: nat)
    ensures CogGenerators(ShiftAll(gs, k), nesting) == CogGenerators(gs, nesting)
    decreases gs, 0
  {
    if gs != [] {
      match gs[0] {
        case Generator(t, i, ifs) =>
          ShiftKeepsCog(t, k, nesting);
          ShiftKeepsCog(i, k, nesting);
          ShiftAllKeepsCog(ifs, k, nesting + 1);
        case _ =>
      }
      ShiftKeepsClauses(gs[1..], k, nesting + 1);
    }
  }

  // ---- one extraction, over a whole module ----

  /** A function the extractor emits an entry for. */
  datatype Def = Def(fqn: string, body: seq<Node>)

  /** `_entry_for_function`. */
  function EntryOf(d: Def): ComplexityEntry {
    ComplexityEntry(d.fqn, Some(1 + CycAll(d.body)), Some(CogAll(d.body, 0)))
  }

  function Extracted(defs: seq<Def>): seq<ComplexityEntry> { StableEntries(MapSeq(EntryOf, defs)) }

  /** The two counters compute the entry. */
  method CountFunction(d: Def) returns (e: ComplexityEntry)
    ensures e == EntryOf(d)
  {
    var cyclomatic := new CyclomaticCounter();
    var c := cyclomatic.CountBody(d.body);
    var cognitive := new CognitiveCounter();
    var g := cognitive.CountBody(d.body);
    return ComplexityEntry(d.fqn, Some(c), Some(g));
  }

  /** Where the block stood, what it was, what replaced it, how far it moved, its new name, and where
      the new definition was put. */
  datatype Extraction = Extraction(
    index: nat, ctx: Ctx, block: seq<Node>, call: Node, columns: int, name: string, place: nat)

  predicate Applies(x: Extraction, defs: seq<Def>) {
    && x.index < |defs| && x.place <= |defs| && x.block != [] && IsPlain(x.call)
    && defs[x.index].body == Fill(x.ctx, x.block)
    && forall i | 0 <= i < |defs| :: defs[i].fqn != x.name
  }

  function Apply(x: Extraction, defs: seq<Def>): seq<Def>
    requires Applies(x, defs)
  {
    var rest := defs[x.index := Host(x, defs)];
    rest[..x.place] + [Helper(x)] + rest[x.place..]
  }

  /** The function left behind. */
  function Host(x: Extraction, defs: seq<Def>): Def
    requires Applies(x, defs)
  {
    Def(defs[x.index].fqn, Fill(x.ctx, [x.call]))
  }

  /** The new function. */
  function Helper(x: Extraction): Def { Def(x.name, ShiftAll(x.block, x.columns)) }

  /** Cognitive points an extraction saves. */
  function Saved(x: Extraction): nat { DepthAt(x.ctx, x.block, 0) * BearingAll(x.block) }

  /** The extractor sees the host: no earlier definition has its name. */
  predicate IsVisible(x: Extraction, defs: seq<Def>)
    requires x.index < |defs|
  {
    forall i | 0 <= i < x.index :: defs[i].fqn != defs[x.index].fqn
  }

  /** What an extraction changes: a hidden host gives nothing back, so the whole block counts as new. */
  function Change(x: Extraction, defs: seq<Def>): ComplexityTotals
    requires x.index < |defs|
  {
    if IsVisible(x, defs) then ComplexityTotals(1, 0 - Saved(x))
    else ComplexityTotals(1 + CycAll(x.block), CogAll(x.block, 0))
  }

  /** The net total is the helper's entry, plus the host's change if the extractor sees the host. */
  lemma TotalChange(x: Extraction, defs: seq<Def>, f: ComplexityEntry -> int)
    requires Applies(x, defs)
    ensures Total(Extracted(Apply(x, defs)), f) - Total(Extracted(defs), f)
         == f(EntryOf(Helper(x)))
            + (if IsVisible(x, defs) then f(EntryOf(Host(x, defs))) - f(EntryOf(defs[x.index])) else 0)
  {
    var before, host, helper := MapSeq(EntryOf, defs), EntryOf(Host(x, defs)), EntryOf(Helper(x));
    StableTotal(before, f);
    StableTotal(MapSeq(EntryOf, Apply(x, defs)), f);
    FirstTotalReplace(before, x.index, host, f);
    HiddenIsSeen(x, defs);
    HelperCounts(x, defs, f);
  }

  lemma HelperCounts(x: Extraction, defs: seq<Def>, f: ComplexityEntry -> int)
    requires Applies(x, defs)
    ensures FirstTotal(MapSeq(EntryOf, Apply(x, defs)), f)
         == FirstTotal(MapSeq(EntryOf, defs)[x.index := EntryOf(Host(x, defs))], f) + f(EntryOf(Helper(x)))
  {
    var replaced := MapSeq(EntryOf, defs)[x.index := EntryOf(Host(x, defs))];
    EntriesAfter(x, defs);
    HelperIsNew(x, defs);
    FirstTotalInsert(replaced[..x.place], EntryOf(Helper(x)), replaced[x.place..], f);
    assert replaced[..x.place] + replaced[x.place..] == replaced;
  }

  lemma EntriesAfter(x: Extraction, defs: seq<Def>)
    requires Applies(x, defs)
    ensures var replaced := MapSeq(EntryOf, defs)[x.index := EntryOf(Host(x, defs))];
      MapSeq(EntryOf, Apply(x, defs)) == replaced[..x.place] + [EntryOf(Helper(x))] + replaced[x.place..]
  {
  }

  lemma HiddenIsSeen(x: Extraction, defs: seq<Def>)
    requires Applies(x, defs)
    ensures Seen(MapSeq(EntryOf, defs)[..x.index], defs[x.index].fqn) <==> !IsVisible(x, defs)
  {
    var entries := MapSeq(EntryOf, defs)[..x.index];
    assert forall i | 0 <= i < x.index :: entries[i] == EntryOf(defs[i]);
    if !IsVisible(x, defs) {
      var i :| 0 <= i < x.index && defs[i].fqn == defs[x.index].fqn;
      assert entries[i] == EntryOf(defs[i]);
      assert entries[i] in entries;
    }
    if Seen(entries, defs[x.index].fqn) {
      var e :| e in entries && e.fqn == defs[x.index].fqn;
      var i :| 0 <= i < |entries| && entries[i] == e;
      assert defs[i].fqn == defs[x.index].fqn;
    }
  }

  lemma HelperIsNew(x: Extraction, defs: seq<Def>)
    requires Applies(x, defs)
    ensures var replaced := MapSeq(EntryOf, defs)[x.index := EntryOf(Host(x, defs))];
      !Seen(replaced[..x.place] + replaced[x.place..], x.name)
  {
    var replaced := MapSeq(EntryOf, defs)[x.index := EntryOf(Host(x, defs))];
    assert replaced[..x.place] + replaced[x.place..] == replaced;
    assert forall i | 0 <= i < |defs| :: replaced[i].fqn == defs[i].fqn;
  }

  lemma CyclomaticChange(x: Extraction, defs: seq<Def>)
    requires Applies(x, defs)
    ensures CyclomaticOf(EntryOf(Helper(x))) == 1 + CycAll(x.block)
    ensures CyclomaticOf(EntryOf(Host(x, defs))) == CyclomaticOf(EntryOf(defs[x.index])) - CycAll(x.block)
  {
    CyclomaticShare(x.ctx, x.block, x.call);
    ShiftAllKeepsCyc(x.block, x.columns);
  }

  lemma CognitiveChange(x: Extraction, defs: seq<Def>)
    requires Applies(x, defs)
    ensures CognitiveOf(EntryOf(Helper(x))) == CogAll(x.block, 0)
    ensures CognitiveOf(EntryOf(Host(x, defs)))
         == CognitiveOf(EntryOf(defs[x.index])) - CogAll(x.block, 0) - Saved(x)
  {
    CognitiveShare(x.ctx, x.block, x.call, 0);
    CognitiveIsAffine(x.block, DepthAt(x.ctx, x.block, 0));
    ShiftAllKeepsCog(x.block, x.columns, 0);
  }

  /**
    Extracting a block changes the summed totals exactly so, whatever the function, the block, the
    place and the other definitions. It is +1 cyclomatic and minus the nesting level times the bearing
    nodes cognitive if and only if the extractor sees the host or the block has no cost at all.
   */
  lemma ExtractionArithmetic(x: Extraction, defs: seq<Def>)
    requires Applies(x, defs)
    ensures ComplexityDiff(Extracted(defs), Extracted(Apply(x, defs))) == Change(x, defs)
    ensures ComplexityDiff(Extracted(defs), Extracted(Apply(x, defs))) == ComplexityTotals(1, 0 - Saved(x))
       <==> IsVisible(x, defs) || (CycAll(x.block) == 0 && CogAll(x.block, 0) == 0)
  {
    TotalChange(x, defs, CyclomaticOf);
    TotalChange(x, defs, CognitiveOf);
    CyclomaticChange(x, defs);
    CognitiveChange(x, defs);
    FreeBlockSavesNothing(x);
  }

  lemma FreeBlockSavesNothing(x: Extraction)
    ensures CogAll(x.block, 0) == 0 ==> Saved(x) == 0
  {
    AllCost(x.block, 0);
  }

  // ---- a getter and a setter ----

  /** A property: the getter is the first definition of the name, the setter's body is one `if`. */
  function Property(): seq<Def> {
    [Def("C.p", []), Def("C.p", [If(0, Other([]), [], [])])]
  }

  function SetterExtraction(): Extraction {
    Extraction.Extraction(1, Hole([], []), [If(0, Other([]), [], [])], Other([]), 0, "C.check", 2)
  }

  lemma SetterApplies()
    ensures Applies(SetterExtraction(), Property()) && !IsVisible(SetterExtraction(), Property())
  {
    var x, defs := SetterExtraction(), Property();
    assert [] + x.block + [] == x.block;
    assert |"C.p"| != |"C.check"|;
    assert defs[0].fqn == defs[1].fqn;
  }

  lemma EmptyIfCosts(col: int, test: Node)
    requires IsPlain(test)
    ensures CycAll([If(col, test, [], [])]) == 1 && CogAll([If(col, test, [], [])], 0) == 1
  {
    var n := If(col, test, [], []);
    CycOne(n);
    CogOne(n, 0);
    PlainIsFree(test, 0);
  }

  /** The extractor does not see a setter: moving its `if` out adds 2 cyclomatic and 1 cognitive. */
  lemma SetterGrows()
    ensures Applies(SetterExtraction(), Property())
    ensures ComplexityDiff(Extracted(Property()), Extracted(Apply(SetterExtraction(), Property())))
         == ComplexityTotals(2, 1)
  {
    SetterApplies();
    EmptyIfCosts(0, Other([]));
    ExtractionArithmetic(SetterExtraction(), Property());
  }

  // ---- a refactoring of several extractions ----

  predicate AllApply(xs: seq<Extraction>, defs: seq<Def>)
  {
    xs == [] || (Applies(xs[0], defs) && AllApply(xs[1..], Apply(xs[0], defs)))
  }

  function ApplyAll(xs: seq<Extraction>, defs: seq<Def>): seq<Def>
    requires AllApply(xs, defs)
  {
    if xs == [] then defs else ApplyAll(xs[1..], Apply(xs[0], defs))
  }

  function SavedAll(xs: seq<Extraction>): nat
  {
    if xs == [] then 0 else Saved(xs[0]) + SavedAll(xs[1..])
  }

  /** Every host is the first definition of its name when its block is taken out. */
  predicate AllVisible(xs: seq<Extraction>, defs: seq<Def>)
    requires AllApply(xs, defs)
  {
    xs == [] || (IsVisible(xs[0], defs) && AllVisible(xs[1..], Apply(xs[0], defs)))
  }

  /** The cyclomatic cost of the blocks taken out of hosts that the extractor does not see. */
  function HiddenCost(xs: seq<Extraction>, defs: seq<Def>): nat
    requires AllApply(xs, defs)
  {
    if xs == [] then 0
    else (if IsVisible(xs[0], defs) then 0 else CycAll(xs[0].block)) + HiddenCost(xs[1..], Apply(xs[0], defs))
  }

  /** The summed changes. */
  function NetChange(xs: seq<Extraction>, defs: seq<Def>): ComplexityTotals
    requires AllApply(xs, defs)
  {
    if xs == [] then ComplexityTotals(0, 0)
    else
      var first, rest := Change(xs[0], defs), NetChange(xs[1..], Apply(xs[0], defs));
      ComplexityTotals(first.cyclomatic + rest.cyclomatic, first.cognitive + rest.cognitive)
  }

  /** The summed changes, in closed form. */
  lemma {:induction false} NetChangeParts(xs: seq<Extraction>, defs: seq<Def>)
    requires AllApply(xs, defs)
    ensures NetChange(xs, defs).cyclomatic == |xs| + HiddenCost(xs, defs)
    ensures AllVisible(xs, defs) ==> NetChange(xs, defs).cognitive == 0 - SavedAll(xs) && HiddenCost(xs, defs) == 0
  {
    if xs != [] { NetChangeParts(xs[1..], Apply(xs[0], defs)); }
  }

  lemma {:induction false} ChangesAddUp(xs: seq<Extraction>, defs: seq<Def>)
    requires AllApply(xs, defs)
    ensures ComplexityDiff(Extracted(defs), Extracted(ApplyAll(xs, defs))) == NetChange(xs, defs)
  {
    if xs != [] {
      var next := Apply(xs[0], defs);
      ExtractionArithmetic(xs[0], defs);
      ChangesAddUp(xs[1..], next);
      Telescopes(Extracted(defs), Extracted(next), Extracted(ApplyAll(xs, defs)));
    }
  }

  /**
    A refactoring of k extractions changes the totals by the summed changes: k plus the cost of the
    blocks of hidden hosts cyclomatic, and exactly minus the savings cognitive when no host is hidden.
   */
  lemma RefactoringArithmetic(xs: seq<Extraction>, defs: seq<Def>)
    requires AllApply(xs, defs)
    ensures ComplexityDiff(Extracted(defs), Extracted(ApplyAll(xs, defs))) == NetChange(xs, defs)
    ensures NetChange(xs, defs).cyclomatic == |xs| + HiddenCost(xs, defs)
    ensures AllVisible(xs, defs) ==> NetChange(xs, defs) == ComplexityTotals(|xs|, 0 - SavedAll(xs))
  {
    ChangesAddUp(xs, defs);
    NetChangeParts(xs, defs);
  }

  lemma Telescopes(a: seq<ComplexityEntry>, b: seq<ComplexityEntry>, c: seq<ComplexityEntry>)
    ensures ComplexityDiff(a, c).cyclomatic == ComplexityDiff(a, b).cyclomatic + ComplexityDiff(b, c).cyclomatic
    ensures ComplexityDiff(a, c).cognitive == ComplexityDiff(a, b).cognitive + ComplexityDiff(b, c).cognitive
  {
  }

  /** The cyclomatic delta of a refactoring: its helpers, and what hidden hosts do not give back. */
  function GrownBy(xs: seq<Extraction>, defs: seq<Def>): nat
    requires AllApply(xs, defs)
  {
    |xs| + HiddenCost(xs, defs)
  }

  /**
    Advisory D7's claim, for every compiled cyclomatic constraint and every module: a faithful
    refactoring that extracts k helpers violates it exactly when D7 rejects, or misses, k plus the cost
    of the hidden blocks. So D7's +k is the delta the evaluator sees if and only if that cost is 0.
   */
  lemma ExtractionTripsCyclomaticLock(xs: seq<Extraction>, defs: seq<Def>, c: Constraint, ctx: Context, mode: Mode)
    requires AllApply(xs, defs)
    requires ctx.delta.complexityDelta == ComplexityDiff(Extracted(defs), Extracted(ApplyAll(xs, defs)))
    requires FromCompiler(c) && IsEvaluated(c, mode) && ShapeOf(c.target) == Two(ComplexityDelta, Cyclomatic)
    ensures ctx.delta.complexityDelta.cyclomatic == |xs| <==> HiddenCost(xs, defs) == 0
    ensures ResultOf(c, ctx, mode).status == Violated
       <==> RejectsCyclomatic(c, GrownBy(xs, defs)) || MissedByD7(c, GrownBy(xs, defs))
    ensures D7SeesAll(c) ==> (ResultOf(c, ctx, mode).status == Violated <==> RejectsCyclomatic(c, GrownBy(xs, defs)))
  {
    RefactoringDelta(xs, defs, ctx.delta.complexityDelta);
    TripsAt(c, ctx, mode, GrownBy(xs, defs));
  }

  lemma TripsAt(c: Constraint, ctx: Context, mode: Mode, delta: int)
    requires ctx.delta.complexityDelta.cyclomatic == delta
    requires FromCompiler(c) && IsEvaluated(c, mode) && ShapeOf(c.target) == Two(ComplexityDelta, Cyclomatic)
    ensures ResultOf(c, ctx, mode).status == Violated <==> RejectsCyclomatic(c, delta) || MissedByD7(c, delta)
    ensures D7SeesAll(c) ==> (ResultOf(c, ctx, mode).status == Violated <==> RejectsCyclomatic(c, delta))
  {
    CyclomaticExact(c, ctx, mode);
    if D7SeesAll(c) { NothingIsMissed(c, delta); }
  }

  lemma RefactoringDelta(xs: seq<Extraction>, defs: seq<Def>, delta: ComplexityTotals)
    requires AllApply(xs, defs) && delta == ComplexityDiff(Extracted(defs), Extracted(ApplyAll(xs, defs)))
    ensures delta.cyclomatic == GrownBy(xs, defs)
  {
    RefactoringArithmetic(xs, defs);
  }
}
