/**
  Where the cache is not transparent. Effects record the full path of their file, and the module of
  a package root's own `__init__.py` is named after the directory; neither directory is in the key,
  and every commit is checked out in a fresh one. So a hit can return another run's paths and names,
  and an equality of the effects with their baseline is decided by the cache.
 */
module StaleAnswers {
  import opened Values
  import opened Vocabulary
  import opened States
  import opened Deltas
  import opened Paths
  import opened Compiler
  import opened Evaluator
  import opened ExcludedPaths
  import opened CodeStateCache

  /** Two requests in turn, with nothing else happening to the cache. */
  function Twice(a: Request, b: Request): seq<Event> { [Ask(a, Written, {}), Ask(b, Written, {})] }

  /** The second request is answered from the first exactly when both consult the cache under one key. */
  lemma SecondAnswer(w: World, a: Request, b: Request)
    ensures |Answers(w, Twice(a, b))| == 2
    ensures Answers(w, Twice(a, b))[0] == Some(Uncached(w, a))
    ensures Answers(w, Twice(a, b))[1]
         == Some(Uncached(w, if ConsultsCache(a) && ConsultsCache(b) && KeyFor(a) == KeyFor(b) then a else b))
  {
    var events := Twice(a, b);
    AnswerAt(w, events, 0);
    AnswerAt(w, events, 1);
    assert events[..0] == [];
    assert events[..1] == [Ask(a, Written, {})] && events[..1][..0] == [];
    assert SlotsAfter(events[..1]) == After(map[], Ask(a, Written, {}));
  }

  /** Two checkouts of one tree: the second answer is stale exactly when it was extracted elsewhere and
      the tree has an effect. */
  lemma StaleExactly(w: World, a: Request, b: Request)
    requires ConsultsCache(a) && ConsultsCache(b) && KeyFor(a) == KeyFor(b) && SameRootName(w, a, b)
    ensures |Answers(w, Twice(a, b))| == 2
    ensures Answers(w, Twice(a, b))[1] == Some(Uncached(w, b)) <==>
              a.treeRoot == b.treeRoot || AnalysisOf(w, b).effects == []
  {
    SecondAnswer(w, a, b);
    KeyDeterminesInputs(w, a, b);
    CheckoutsDiffer(a.treeRoot, b.treeRoot, AnalysisOf(w, b));
  }

  // ---- concrete checkouts ----

  function NoState(): CodeState { CodeState([], [], [], [], [], [], [], [], None, [], None, None) }

  function Nowhere(): Matching {
    Matching((root: string, path: Path) => None, (relative: string, pattern: string) => false)
  }

  /** A commit checked out in a directory, extracted in full from its root. */
  function Checkout(root: string): Request {
    Request("tree", root, ".", "full", None, None, Environment("3.12", "1", map[]), None, true)
  }

  /** A tree with one file and one effect in it. */
  function OneEffect(): World {
    World((tree: string, package: string) => ["m.py"], Nowhere(),
          (i: Inputs) => Analysis(NoState(), [FoundEffect("m.f", Net, Some(1.0), "m.py", [])]))
  }

  /** The second of two checkouts of the same commit is answered with the path of the first. */
  lemma StaleFile()
    ensures |Answers(OneEffect(), Twice(Checkout("/tmp/a"), Checkout("/tmp/b")))| == 2
    ensures Answers(OneEffect(), Twice(Checkout("/tmp/a"), Checkout("/tmp/b")))[1]
         != Some(Uncached(OneEffect(), Checkout("/tmp/b")))
  {
    var w, a, b := OneEffect(), Checkout("/tmp/a"), Checkout("/tmp/b");
    assert "__init__.py" != "m.py" by { assert |"__init__.py"| != |"m.py"|; }
    assert a.treeRoot[5] != b.treeRoot[5];
    StaleExactly(w, a, b);
  }

  /** A tree whose root is a package that defines one function. */
  function RootPackage(): World {
    World((tree: string, package: string) => ["__init__.py"], Nowhere(),
          (i: Inputs) => Analysis(
            NoState().(apiSurface := [ApiEntry(if i.rootModule.Some? then i.rootModule.value else "",
                                               "module", None, None, [])]),
            []))
  }

  lemma NamesOfRoots()
    ensures BaseName("/tmp/a") == "a" && BaseName("/tmp/b") == "b"
  {
    assert "/tmp/a"[..5] == "/tmp/" && "/tmp/b"[..5] == "/tmp/";
    assert BaseName("/tmp/") == [];
    assert [] + ['a'] == "a" && [] + ['b'] == "b";
  }

  /** It is answered with the first directory's name as the module name, evidence aside. */
  lemma StaleRootName()
    ensures |Answers(RootPackage(), Twice(Checkout("/tmp/a"), Checkout("/tmp/b")))| == 2
    ensures var answer := Answers(RootPackage(), Twice(Checkout("/tmp/a"), Checkout("/tmp/b")))[1];
      && answer.Some?
      && WithoutFiles(answer.value.state) != WithoutFiles(Uncached(RootPackage(), Checkout("/tmp/b")).state)
  {
    var w, a, b := RootPackage(), Checkout("/tmp/a"), Checkout("/tmp/b");
    SecondAnswer(w, a, b);
    NamesOfRoots();
    assert KeptFor(w, a) == ["__init__.py"] && KeptFor(w, b) == ["__init__.py"];
    assert Uncached(w, a).state.apiSurface[0].fqn == "a" && Uncached(w, b).state.apiSurface[0].fqn == "b";
    assert "a"[0] != "b"[0];
  }

  // ---- an equality that the cache decides ----

  /** `effects equals_baseline`, a hard user lock. */
  function EffectsUnchanged(): Constraint {
    Constraint(Named("c"), DeltaKind, Dotted(Segment(Effects, "effects"), []), EqualsBaseline, Null, Hard,
               OnUnknownFail, None, FromUser)
  }

  function Compare(baseline: CodeState, candidate: CodeState): Context {
    Context(ComputeDelta(baseline, candidate), baseline, candidate, [], [])
  }

  function EffectDumps(s: CodeState): Value { Seq(MapSeq(DumpEffect, s.effects)) }

  lemma DumpsDiffer(a: string, b: string, e: FoundEffect)
    requires a != b
    ensures Canonical(DumpEffect(LocateEffect(a, e))) != Canonical(DumpEffect(LocateEffect(b, e)))
  {
    PathsDiffer(a, b, e.path);
    EvidenceDiffers(a, b, e);
    var x, y := Canonical(DumpEffect(LocateEffect(a, e))), Canonical(DumpEffect(LocateEffect(b, e)));
    assert x.parts[2] == CTuple([CStr("evidence"), Canonical(LocateEffect(a, e).evidence)]);
    assert y.parts[2] == CTuple([CStr("evidence"), Canonical(LocateEffect(b, e).evidence)]);
    assert x.parts[2].parts[1] != y.parts[2].parts[1];
  }

  lemma FirstEvidence(root: string, e: FoundEffect)
    ensures var c := Canonical(LocateEffect(root, e).evidence);
      c.CTuple? && |c.parts| > 0 && c.parts[0] == CTuple([CStr("file"), CStr(root + "/" + e.path)])
  {
    var es := LocateEffect(root, e).evidence.entries;
    assert es[0] == Entry("file", Str(root + "/" + e.path));
    assert Canonical(es[0].value) == CStr(root + "/" + e.path);
  }

  lemma EvidenceDiffers(a: string, b: string, e: FoundEffect)
    requires a + "/" + e.path != b + "/" + e.path
    ensures Canonical(LocateEffect(a, e).evidence) != Canonical(LocateEffect(b, e).evidence)
  {
    var x, y := Canonical(LocateEffect(a, e).evidence), Canonical(LocateEffect(b, e).evidence);
    FirstEvidence(a, e);
    FirstEvidence(b, e);
    assert x.parts[0].parts[1] != y.parts[0].parts[1];
  }

  lemma EffectListsDiffer(a: string, b: string, found: Analysis)
    ensures Canonical(EffectDumps(Locate(a, found))) == Canonical(EffectDumps(Locate(b, found)))
       <==> a == b || found.effects == []
  {
    if a != b && found.effects != [] {
      DumpsDiffer(a, b, found.effects[0]);
      var x, y := Canonical(EffectDumps(Locate(a, found))), Canonical(EffectDumps(Locate(b, found)));
      assert x.parts[0] == Canonical(DumpEffect(LocateEffect(a, found.effects[0])));
      assert y.parts[0] == Canonical(DumpEffect(LocateEffect(b, found.effects[0])));
    } else {
      assert Locate(a, found) == Locate(b, found);
    }
  }

  lemma EffectsUnchangedCompiles()
    ensures FromCompiler(EffectsUnchanged())
  {
    var c := EffectsUnchanged();
    assert Accepts(c) && CompileUser(c) == c;
  }

  /** The lock compares the two dumped effect lists. */
  lemma EffectsLock(ctx: Context)
    ensures ResultOf(EffectsUnchanged(), ctx, Mode(None, {}, {})).status
         == if Canonical(EffectDumps(ctx.candidate)) == Canonical(EffectDumps(ctx.baseline)) then Satisfied
            else Violated
  {
    EffectsLockReads(ctx);
    EffectsValue(ctx.baseline);
    EffectsValue(ctx.candidate);
  }

  lemma EffectsLockReads(ctx: Context)
    ensures ResultOf(EffectsUnchanged(), ctx, Mode(None, {}, {}))
         == EvalBaselineAt(EffectsUnchanged(), ctx.baseline, ctx.candidate)
  {
  }

  lemma EffectsValue(s: CodeState)
    ensures Resolve(NState(s), EffectsUnchanged().target) == Some(EffectDumps(s))
  {
    StatePathResolves(s, EffectsUnchanged().target);
  }

  /** On two checkouts of one analysis the lock holds exactly when they are one directory or nothing
      has an effect. */
  lemma EffectsLockExactly(a: string, b: string, found: Analysis)
    ensures ResultOf(EffectsUnchanged(), Compare(Locate(a, found), Locate(b, found)), Mode(None, {}, {})).status
         == if a == b || found.effects == [] then Satisfied else Violated
  {
    EffectsLock(Compare(Locate(a, found), Locate(b, found)));
    EffectListsDiffer(a, b, found);
  }

  /**
    One commit against itself, in two directories, with an effect in it: plain extraction violates the
    lock, the cache satisfies it.
   */
  lemma CacheDecidesTheLock(w: World, a: Request, b: Request)
    requires ConsultsCache(a) && ConsultsCache(b) && KeyFor(a) == KeyFor(b) && SameRootName(w, a, b)
    requires a.treeRoot != b.treeRoot && AnalysisOf(w, b).effects != []
    ensures FromCompiler(EffectsUnchanged())
    ensures ResultOf(EffectsUnchanged(), Compare(Uncached(w, a).state, Uncached(w, b).state), Mode(None, {}, {})).status
         == Violated
    ensures |Answers(w, Twice(a, b))| == 2 && Answers(w, Twice(a, b))[0].Some? && Answers(w, Twice(a, b))[1].Some?
    ensures var first, second := Answers(w, Twice(a, b))[0].value.state, Answers(w, Twice(a, b))[1].value.state;
      ResultOf(EffectsUnchanged(), Compare(first, second), Mode(None, {}, {})).status == Satisfied
  {
    EffectsUnchangedCompiles();
    SecondAnswer(w, a, b);
    KeyDeterminesInputs(w, a, b);
    EffectsLockExactly(a.treeRoot, b.treeRoot, AnalysisOf(w, b));
    EffectsLockExactly(a.treeRoot, a.treeRoot, AnalysisOf(w, a));
  }
}
