/** `count_nested_defs`: an explicit-stack walk that counts function definitions inside functions. */
module NestedDefs {

  /** A syntax node: whether it is a function definition, and its child nodes. */
  datatype Syntax = Syntax(isDef: bool, children: seq<Syntax>)

  /** Definitions strictly below `t` that have a function ancestor, if `inside` says whether `t`'s children do. */
  function NestedBelow(t: Syntax, inside: bool): nat
    decreases t, 1
  {
    NestedAmong(t.children, inside)
  }

  function NestedAmong(ts: seq<Syntax>, inside: bool): nat
    decreases ts, 0
  {
    if ts == [] then 0
    else
      (if ts[0].isDef && inside then 1 else 0) + NestedBelow(ts[0], inside || ts[0].isDef)
      + NestedAmong(ts[1..], inside)
  }

  /** All definitions below `t`, and those not below another definition. */
  function DefsBelow(t: Syntax): nat
    decreases t, 1
  {
    DefsAmong(t.children)
  }

  function DefsAmong(ts: seq<Syntax>): nat
    decreases ts, 0
  {
    if ts == [] then 0 else (if ts[0].isDef then 1 else 0) + DefsBelow(ts[0]) + DefsAmong(ts[1..])
  }

  function OutermostAmong(ts: seq<Syntax>): nat
    decreases ts
  {
    if ts == [] then 0 else (if ts[0].isDef then 1 else OutermostAmong(ts[0].children)) + OutermostAmong(ts[1..])
  }

  /** Every definition is nested or outermost; inside a function, every definition is nested. */
  lemma {:induction false} NestedOrOutermost(ts: seq<Syntax>)
    ensures NestedAmong(ts, true) == DefsAmong(ts)
    ensures NestedAmong(ts, false) + OutermostAmong(ts) == DefsAmong(ts)
    decreases ts
  {
    if ts != [] {
      NestedOrOutermost(ts[0].children);
      NestedOrOutermost(ts[1..]);
    }
  }

  /** The walk's frontier: a node and whether it lies inside (or is) a function. */
  datatype Frontier = Frontier(node: Syntax, inside: bool)

  function Pending(stack: seq<Frontier>): nat
  {
    if stack == [] then 0 else NestedBelow(stack[0].node, stack[0].inside) + Pending(stack[1..])
  }

  function Size(t: Syntax): nat
    decreases t, 1
  {
    1 + SizeAll(t.children)
  }

  function SizeAll(ts: seq<Syntax>): nat
    decreases ts, 0
  {
    if ts == [] then 0 else Size(ts[0]) + SizeAll(ts[1..])
  }

  function Weight(stack: seq<Frontier>): nat
  {
    if stack == [] then 0 else Size(stack[0].node) + Weight(stack[1..])
  }

  lemma {:induction false} Split(a: seq<Frontier>, b: seq<Frontier>)
    ensures Pending(a + b) == Pending(a) + Pending(b) && Weight(a + b) == Weight(a) + Weight(b)
  {
    if a == [] {
      assert a + b == b;
    } else {
      assert (a + b)[1..] == a[1..] + b;
      Split(a[1..], b);
    }
  }

  lemma Single(f: Frontier)
    ensures Pending([f]) == NestedBelow(f.node, f.inside) && Weight([f]) == Size(f.node)
  {
    assert [f][1..] == [];
  }

  /** Removing the entry at `i`, whichever it is. */
  lemma Removed(stack: seq<Frontier>, i: nat)
    requires i < |stack|
    ensures Pending(stack) == Pending(stack[..i] + stack[i + 1..]) + NestedBelow(stack[i].node, stack[i].inside)
    ensures Weight(stack) == Weight(stack[..i] + stack[i + 1..]) + Size(stack[i].node)
  {
    var before, one, after := stack[..i], [stack[i]], stack[i + 1..];
    Split(before, after);
    Split(one, after);
    Split(before, one + after);
    Single(stack[i]);
    assert before + (one + after) == stack;
  }

  lemma {:induction false} AmongAppend(a: seq<Syntax>, b: seq<Syntax>, inside: bool)
    ensures NestedAmong(a + b, inside) == NestedAmong(a, inside) + NestedAmong(b, inside)
    ensures SizeAll(a + b) == SizeAll(a) + SizeAll(b)
  {
    if a == [] {
      assert a + b == b;
    } else {
      assert (a + b)[1..] == a[1..] + b;
      AmongAppend(a[1..], b, inside);
    }
  }

  lemma AmongOne(t: Syntax, inside: bool)
    ensures NestedAmong([t], inside) == (if t.isDef && inside then 1 else 0) + NestedBelow(t, inside || t.isDef)
    ensures SizeAll([t]) == Size(t)
  {
    assert [t][1..] == [];
  }

  /** The walk ends and returns the recursive count, whichever stack entry each step takes. */
  method CountNestedDefs(tree: Syntax) returns (count: nat)
    ensures count == NestedBelow(tree, false)
    ensures count + OutermostAmong(tree.children) == DefsBelow(tree)
  {
    NestedOrOutermost(tree.children);
    count := 0;
    var stack := [Frontier(tree, false)];
    Single(stack[0]);
    while stack != []
      invariant count + Pending(stack) == NestedBelow(tree, false)
      decreases Weight(stack)
    {
      var i :| 0 <= i < |stack|;
      var top := stack[i];
      Removed(stack, i);
      var rest := stack[..i] + stack[i + 1..];
      var children := top.node.children;
      stack := rest;
      ghost var before := count;
      for j := 0 to |children|
        invariant count + Pending(stack) == before + Pending(rest) + NestedAmong(children[..j], top.inside)
        invariant Weight(stack) == Weight(rest) + SizeAll(children[..j])
      {
        var child := children[j];
        assert children[..j + 1] == children[..j] + [child];
        AmongAppend(children[..j], [child], top.inside);
        AmongOne(child, top.inside);
        if child.isDef && top.inside {
          count := count + 1;
        }
        var next := Frontier(child, top.inside || child.isDef);
        Split(stack, [next]);
        Single(next);
        stack := stack + [next];
      }
      assert children[..|children|] == children;
    }
  }
}
