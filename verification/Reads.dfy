/** A constraint's result depends only on the parts of a run that its target names. */
module Reads {
  import opened Vocabulary
  import opened States
  import opened Paths
  import opened Evaluator

  lemma SameFirstStep(a: Node, b: Node, t: Target)
    requires t.Dotted? && Step(a, Segments(t), 0) == Step(b, Segments(t), 0)
    ensures Resolve(a, t) == Resolve(b, t)
  {
  }

  /** Two states with the same field for a root name; the public surface is a view of the whole one. */
  predicate SameField(s: CodeState, u: CodeState, t: Tag) {
    if t.ApiSurface? || t.ApiSurfacePublic? then s.apiSurface == u.apiSurface else StateField(s, t) == StateField(u, t)
  }

  lemma StateFieldResolves(s: CodeState, u: CodeState, t: Target)
    requires t.Dotted? && SameField(s, u, t.head.tag)
    ensures Resolve(NState(s), t) == Resolve(NState(u), t)
  {
    assert Segments(t)[0] == t.head;
    SameFirstStep(NState(s), NState(u), t);
  }

  lemma DeltaFieldResolves(d: CodeStateDelta, e: CodeStateDelta, t: Target)
    requires t.Dotted? && DeltaField(d, t.head.tag) == DeltaField(e, t.head.tag)
    ensures Resolve(NDelta(d), t) == Resolve(NDelta(e), t)
  {
    assert Segments(t)[0] == t.head;
    SameFirstStep(NDelta(d), NDelta(e), t);
  }

  /** Two runs under the same rules, with the same baseline, candidate and delta fields for the target. */
  predicate ReadsSame(c: Constraint, x: Context, y: Context) {
    && x.apiAllow == y.apiAllow && x.effectAllow == y.effectAllow
    && (c.target.Dotted? ==>
          && SameField(x.baseline, y.baseline, c.target.head.tag)
          && SameField(x.candidate, y.candidate, c.target.head.tag)
          && DeltaField(x.delta, c.target.head.tag) == DeltaField(y.delta, c.target.head.tag))
  }

  lemma ViewsReadSame(c: Constraint, x: Context, y: Context)
    requires ReadsSame(c, x, y) && c.target.Dotted?
    ensures DeltaField(DeltaView(c, x), c.target.head.tag) == DeltaField(DeltaView(c, y), c.target.head.tag)
  {
  }

  lemma StateViewsReadSame(c: Constraint, x: Context, y: Context, s: CodeState, u: CodeState)
    requires x.apiAllow == y.apiAllow && c.target.Dotted? && SameField(s, u, c.target.head.tag)
    ensures SameField(StateView(c, s, x), StateView(c, u, y), c.target.head.tag)
  {
  }

  /** Then the constraint has the same result in both. */
  lemma SameReads(c: Constraint, x: Context, y: Context, mode: Mode)
    requires ReadsSame(c, x, y)
    ensures ResultOf(c, x, mode) == ResultOf(c, y, mode)
  {
    if c.target.Dotted? {
      ViewsReadSame(c, x, y);
      DeltaFieldResolves(DeltaView(c, x), DeltaView(c, y), c.target);
      StateViewsReadSame(c, x, y, x.baseline, y.baseline);
      StateViewsReadSame(c, x, y, x.candidate, y.candidate);
      StateFieldResolves(StateView(c, x.baseline, x), StateView(c, y.baseline, y), c.target);
      StateFieldResolves(StateView(c, x.candidate, x), StateView(c, y.candidate, y), c.target);
      StateFieldResolves(x.candidate, y.candidate, c.target);
      SameEvaluation(c, x, y, mode);
    }
  }

  lemma SameEvaluation(c: Constraint, x: Context, y: Context, mode: Mode)
    requires c.target.Dotted?
    requires Resolve(NState(x.candidate), c.target) == Resolve(NState(y.candidate), c.target)
    requires Resolve(NDelta(DeltaView(c, x)), c.target) == Resolve(NDelta(DeltaView(c, y)), c.target)
    requires Resolve(NState(StateView(c, x.baseline, x)), c.target)
          == Resolve(NState(StateView(c, y.baseline, y)), c.target)
    requires Resolve(NState(StateView(c, x.candidate, x)), c.target)
          == Resolve(NState(StateView(c, y.candidate, y)), c.target)
    ensures Evaluate(c, x, mode) == Evaluate(c, y, mode)
  {
  }
}
