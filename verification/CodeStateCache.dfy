/**
  The code-state cache and the extraction step that consults it. The digest of a cache key is
  taken to be injective, so the key is the record that is digested. The extractors are a given
  function of their inputs. Which answers the cache gives is determined exactly by the events of a
  run; they are those of plain extraction where the checkout directory does not show in the state.
 */
module CodeStateCache {
  import opened Values
  import Vocabulary
  import opened States
  import opened Ordering
  import opened Deltas
  import opened Sorting
  import opened ExcludedPaths

  const CacheFormatVersion := 3
  const CodeStateSchemaVersion := "1"

  /** The running interpreter and package; fingerprints of the extractors by dimension. */
  datatype Environment = Environment(pythonXy: string, packageVersion: string, extractorVersions: map<string, string>)

  /**
    One call of `_extract_code_state`. `treeRoot` is the directory the tree is checked out in, a fresh
    temporary one for a commit; `timeout` holds the dimensions that ran out of a given time limit.
   */
  datatype Request = Request(
    treeId: string, treeRoot: string, packageRoot: string, mode: string, dimensions: Option<set<string>>,
    config: Option<Config>, environment: Environment, timeout: Option<set<string>>, useCache: bool
  )

  /**
    Everything the analysis looks at. Paths are relative to the tree. `rootModule` is the name the
    package root gives to its own `__init__.py`, when that file is kept.
   */
  datatype Inputs = Inputs(
    treeId: string, packageRoot: string, dimensions: Option<set<string>>, kept: seq<Path>,
    rootModule: Option<string>,
    pythonXy: string, packageVersion: string, extractorVersions: map<string, string>, timedOut: set<string>
  )

  /** An effect and the file it was found in; `details` is the rest of its evidence, in key order. */
  datatype FoundEffect = FoundEffect(
    fqn: string, effectClass: Vocabulary.EffectClass, confidence: Option<real>, path: Path, details: seq<Entry>)

  /** What the extractors find: the effects apart, since only they record where the file lies. */
  datatype Analysis = Analysis(state: CodeState, effects: seq<FoundEffect>)

  /** The surroundings: the files of a package, how patterns match, and the extractors. */
  datatype World = World(listing: (string, string) -> seq<Path>, matching: Matching, analyse: Inputs -> Analysis)

  datatype Extraction = Extraction(state: CodeState, timedOut: set<string>)

  // ---- keys ----

  datatype CacheKey = CacheKey(
    treeId: string, packageRoot: string, mode: string, dimensions: Option<seq<string>>,
    configRoot: string, patterns: seq<string>, pythonXy: string, packageVersion: string,
    extractorVersions: map<string, string>, schemaVersion: string, formatVersion: int
  )

  /** `dimensions_for_cache`: the dimensions in order. */
  function DimensionsForCache(dimensions: Option<set<string>>): Option<seq<string>> {
    match dimensions
    case None => None
    case Some(ds) => Some(SortedNames(ds))
  }

  /** `_extractor_versions_for_key`: the fingerprints of the selected dimensions. */
  function VersionsForKey(versions: map<string, string>, dimensions: Option<set<string>>): map<string, string> {
    match dimensions
    case None => versions
    case Some(ds) => map d | d in versions && d in ds :: versions[d]
  }

  /** `effective_exclude_key`. */
  function EffectiveExcludeKey(config: Option<Config>): (string, seq<string>) {
    if config.None? || config.value.patterns == [] then ("", [])
    else (config.value.root, SortStrings(config.value.patterns))
  }

  /** `key_for_state`. */
  function KeyFor(r: Request): CacheKey {
    var exclude := EffectiveExcludeKey(r.config);
    CacheKey(r.treeId, r.packageRoot, r.mode, DimensionsForCache(r.dimensions), exclude.0, exclude.1,
             r.environment.pythonXy, r.environment.packageVersion,
             VersionsForKey(r.environment.extractorVersions, r.dimensions),
             CodeStateSchemaVersion, CacheFormatVersion)
  }

  // ---- extraction ----

  function TimedOut(r: Request): set<string> {
    if r.timeout.Some? then r.timeout.value else {}
  }

  /** The last component of a path. */
  function BaseName(path: string): string {
    if path == [] || path[|path| - 1] == '/' then []
    else BaseName(path[..|path| - 1]) + [path[|path| - 1]]
  }

  function InitPath(packageRoot: string): Path {
    if packageRoot == "." then "__init__.py" else packageRoot + "/__init__.py"
  }

  /** `_module_fqn_from_path` on the root's own `__init__.py`: the name of the resolved root directory. */
  function RootModule(r: Request, kept: seq<Path>): Option<string> {
    if InitPath(r.packageRoot) !in kept then None
    else Some(BaseName(if r.packageRoot == "." then r.treeRoot else r.packageRoot))
  }

  ghost function KeptFor(w: World, r: Request): seq<Path> {
    Kept(w.matching, r.config, w.listing(r.treeId, r.packageRoot))
  }

  function InputsFrom(r: Request, kept: seq<Path>): Inputs {
    Inputs(r.treeId, r.packageRoot, r.dimensions, kept, RootModule(r, kept),
           r.environment.pythonXy, r.environment.packageVersion,
           VersionsForKey(r.environment.extractorVersions, r.dimensions), TimedOut(r))
  }

  ghost function InputsOf(w: World, r: Request): Inputs { InputsFrom(r, KeptFor(w, r)) }

  /** The entry stored for an effect: its evidence names the file by its full path. */
  function LocateEffect(root: string, e: FoundEffect): EffectEntry {
    EffectEntry(e.fqn, e.effectClass, e.confidence, Map([Entry("file", Str(root + "/" + e.path))] + e.details))
  }

  function Locate(root: string, a: Analysis): CodeState {
    a.state.(effects := seq(|a.effects|, i requires 0 <= i < |a.effects| => LocateEffect(root, a.effects[i])))
  }

  ghost function AnalysisOf(w: World, r: Request): Analysis { w.analyse(InputsOf(w, r)) }

  /** What extraction returns without any cache. */
  ghost function Uncached(w: World, r: Request): Extraction {
    Extraction(Locate(r.treeRoot, AnalysisOf(w, r)), TimedOut(r))
  }

  /** `extract_python_code_state_result`: list, filter, analyse. */
  method ExtractResult(w: World, r: Request) returns (e: Extraction)
    ensures e == Uncached(w, r)
  {
    var kept, _ := FilterExcludedPaths(w.matching, w.listing(r.treeId, r.packageRoot), r.config);
    e := Extraction(Locate(r.treeRoot, w.analyse(InputsFrom(r, kept))), TimedOut(r));
  }

  // ---- the key determines what extraction sees ----

  lemma SameExcludeKeyKeepsSame(m: Matching, c: Option<Config>, d: Option<Config>, paths: seq<Path>)
    requires EffectiveExcludeKey(c) == EffectiveExcludeKey(d)
    ensures Kept(m, c, paths) == Kept(m, d, paths)
  {
    assert PatternSet([]) == {};
    if c.None? || c.value.patterns == [] {
      EmptySortIsEmpty(d);
      if c.Some? { NoPatternsKeepAll(m, c.value.root, paths); }
      if d.Some? { NoPatternsKeepAll(m, d.value.root, paths); }
    } else {
      EmptySortIsEmpty(c);
      SortedPatternsAgree(c.value.patterns, d.value.patterns);
    }
  }

  lemma EmptySortIsEmpty(c: Option<Config>)
    ensures EffectiveExcludeKey(c).1 == [] <==> c.None? || c.value.patterns == []
  {
    if c.Some? {
      SortMultiset(c.value.patterns, StringKey);
      assert |multiset(c.value.patterns)| == |c.value.patterns|;
    }
  }

  lemma DimensionsFromKey(a: Option<set<string>>, b: Option<set<string>>)
    requires DimensionsForCache(a) == DimensionsForCache(b)
    ensures a == b
  {
    if a.Some? && b.Some? {
      assert forall d :: d in a.value <==> d in SortedNames(b.value);
      assert a.value == b.value;
    }
  }

  /** What the key does not fix: the directory's name, when it names the root's own module. */
  ghost predicate SameRootName(w: World, a: Request, b: Request) {
    a.packageRoot != "." || BaseName(a.treeRoot) == BaseName(b.treeRoot) || "__init__.py" !in KeptFor(w, a)
  }

  /** Two requests with one key and no time limit give the analysis the same inputs exactly when the
      directory name does not matter, whatever the order and repetition of their patterns. */
  lemma KeyDeterminesInputs(w: World, a: Request, b: Request)
    requires a.timeout.None? && b.timeout.None?
    ensures KeyFor(a) == KeyFor(b) ==> (InputsOf(w, a) == InputsOf(w, b) <==> SameRootName(w, a, b))
  {
    if KeyFor(a) == KeyFor(b) {
      DimensionsFromKey(a.dimensions, b.dimensions);
      SameExcludeKeyKeepsSame(w.matching, a.config, b.config, w.listing(a.treeId, a.packageRoot));
    }
  }

  /** The same patterns as a multiset, under the same root when there are any. */
  predicate SamePatterns(c: Option<Config>, d: Option<Config>) {
    var ps, qs := if c.Some? then c.value.patterns else [], if d.Some? then d.value.patterns else [];
    multiset(ps) == multiset(qs) && (ps != [] && qs != [] ==> c.value.root == d.value.root)
  }

  /** The extractors of the selected dimensions have the same fingerprints. */
  ghost predicate SameVersions(a: map<string, string>, b: map<string, string>, dimensions: Option<set<string>>) {
    forall d | dimensions.None? || d in dimensions.value ::
      (d in a <==> d in b) && (d in a && d in b ==> a[d] == b[d])
  }

  lemma SameExcludes(c: Option<Config>, d: Option<Config>)
    ensures EffectiveExcludeKey(c) == EffectiveExcludeKey(d) <==> SamePatterns(c, d)
  {
    EmptySortIsEmpty(c);
    EmptySortIsEmpty(d);
    if c.Some? && d.Some? { SortedPatternsAgree(c.value.patterns, d.value.patterns); }
    if c.Some? { assert |multiset(c.value.patterns)| == |c.value.patterns|; }
    if d.Some? { assert |multiset(d.value.patterns)| == |d.value.patterns|; }
  }

  lemma SameVersionKeys(a: map<string, string>, b: map<string, string>, dimensions: Option<set<string>>)
    ensures VersionsForKey(a, dimensions) == VersionsForKey(b, dimensions) <==> SameVersions(a, b, dimensions)
  {
    var x, y := VersionsForKey(a, dimensions), VersionsForKey(b, dimensions);
    assert forall d :: d in x <==> d in a && (dimensions.None? || d in dimensions.value);
    assert forall d :: d in y <==> d in b && (dimensions.None? || d in dimensions.value);
    if SameVersions(a, b, dimensions) {
      assert forall d :: d in x <==> d in y;
      assert forall d | d in x :: x[d] == y[d];
    }
    if x == y {
      forall d | dimensions.None? || d in dimensions.value
        ensures (d in a <==> d in b) && (d in a && d in b ==> a[d] == b[d])
      {
        assert d in x <==> d in y;
      }
    }
  }

  /**
    Two requests share a key exactly when they agree on tree, package, mode, dimensions, patterns,
    interpreter, package version and the extractors they use; never on the directory or a time limit.
   */
  lemma KeyExactly(a: Request, b: Request)
    ensures KeyFor(a) == KeyFor(b) <==>
              (&& a.treeId == b.treeId && a.packageRoot == b.packageRoot && a.mode == b.mode
               && a.dimensions == b.dimensions && SamePatterns(a.config, b.config)
               && a.environment.pythonXy == b.environment.pythonXy
               && a.environment.packageVersion == b.environment.packageVersion
               && SameVersions(a.environment.extractorVersions, b.environment.extractorVersions, a.dimensions))
  {
    SameExcludes(a.config, b.config);
    if DimensionsForCache(a.dimensions) == DimensionsForCache(b.dimensions) {
      DimensionsFromKey(a.dimensions, b.dimensions);
    }
    SameVersionKeys(a.environment.extractorVersions, b.environment.extractorVersions, a.dimensions);
  }

  // ---- how far the answers of two requests differ ----

  lemma PathsDiffer(a: string, b: string, path: Path)
    ensures a + "/" + path == b + "/" + path <==> a == b
  {
    if a + "/" + path == b + "/" + path {
      assert |a| == |b|;
      assert a == (a + "/" + path)[..|a|] && b == (b + "/" + path)[..|b|];
    }
  }

  lemma EffectsDiffer(a: string, b: string, e: FoundEffect)
    ensures LocateEffect(a, e) == LocateEffect(b, e) <==> a == b
  {
    PathsDiffer(a, b, e.path);
    var x, y := LocateEffect(a, e).evidence.entries, LocateEffect(b, e).evidence.entries;
    assert x[0].value == Str(a + "/" + e.path) && y[0].value == Str(b + "/" + e.path);
  }

  /** Two checkouts of one analysis give the same state exactly when they lie in the same directory
      or no effect was found. */
  lemma CheckoutsDiffer(a: string, b: string, found: Analysis)
    ensures Locate(a, found) == Locate(b, found) <==> a == b || found.effects == []
  {
    if found.effects != [] {
      EffectsDiffer(a, b, found.effects[0]);
      assert Locate(a, found).effects[0] == LocateEffect(a, found.effects[0]);
      assert Locate(b, found).effects[0] == LocateEffect(b, found.effects[0]);
    }
  }

  function IsNotFile(e: Entry): bool { e.key != "file" }

  /** An effect without the file of its evidence. */
  function Unfiled(e: EffectEntry): EffectEntry {
    if e.evidence.Map? then e.(evidence := Map(Filter(e.evidence.entries, IsNotFile))) else e
  }

  /** A state without the files of its effects' evidence. */
  function WithoutFiles(s: CodeState): CodeState {
    s.(effects := seq(|s.effects|, i requires 0 <= i < |s.effects| => Unfiled(s.effects[i])))
  }

  lemma UnfiledAgree(a: string, b: string, e: FoundEffect)
    ensures Unfiled(LocateEffect(a, e)) == Unfiled(LocateEffect(b, e))
  {
    var x, y := LocateEffect(a, e).evidence.entries, LocateEffect(b, e).evidence.entries;
    assert x[1..] == e.details && y[1..] == e.details;
  }

  /** Two checkouts of one analysis always agree but for those files. */
  lemma CheckoutsAgree(a: string, b: string, found: Analysis)
    ensures WithoutFiles(Locate(a, found)) == WithoutFiles(Locate(b, found))
  {
    forall i | 0 <= i < |found.effects|
      ensures Unfiled(Locate(a, found).effects[i]) == Unfiled(Locate(b, found).effects[i])
    {
      UnfiledAgree(a, b, found.effects[i]);
    }
  }

  /** Two requests that differ only in their patterns share a key exactly when the patterns are
      rearrangements of each other. */
  lemma PatternsShareKey(r: Request, root: string, s: seq<string>, t: seq<string>)
    ensures KeyFor(r.(config := Some(Config(root, s)))) == KeyFor(r.(config := Some(Config(root, t))))
       <==> multiset(s) == multiset(t)
  {
    EmptySortIsEmpty(Some(Config(root, s)));
    EmptySortIsEmpty(Some(Config(root, t)));
    SortedPatternsAgree(s, t);
  }

  // ---- the store ----

  /** A cache file: unreadable bytes, or a payload whose state may fail validation. */
  datatype File = Garbled | Payload(formatVersion: int, schemaVersion: string, state: Option<CodeState>)

  function Readable(f: File): Option<CodeState> {
    if f.Payload? && f.formatVersion == CacheFormatVersion && f.schemaVersion == CodeStateSchemaVersion
    then f.state else None
  }

  /** How a write ends; eviction runs after the file is in place and may fail too. */
  datatype WriteOutcome = Written | FailedBefore | FailedAfter

  predicate ConsultsCache(r: Request) { r.useCache && r.timeout.None? }

  // ---- what a store holds, told by the requests that filled it ----

  /** What can happen to a cache: a request, a damaged file, files removed by anyone. */
  datatype Event =
    | Ask(request: Request, outcome: WriteOutcome, evicted: set<CacheKey>)
    | Damage(key: CacheKey, file: File)
    | Remove(keys: set<CacheKey>)

  /** Damage leaves a file that does not read back; nothing can detect a well-formed forgery. */
  predicate IsDetectable(e: Event) { e.Damage? ==> Readable(e.file).None? }

  /** A file that does not read back, or one that holds the extraction of a request. */
  datatype Slot = Damaged | Filled(origin: Request)

  type Slots = map<CacheKey, Slot>

  predicate Hits(slots: Slots, r: Request) {
    ConsultsCache(r) && KeyFor(r) in slots && slots[KeyFor(r)].Filled?
  }

  /** The request whose extraction answers r. */
  function Origin(slots: Slots, r: Request): Request {
    if Hits(slots, r) then slots[KeyFor(r)].origin else r
  }

  function After(slots: Slots, e: Event): Slots {
    match e
    case Ask(r, outcome, evicted) =>
      if !ConsultsCache(r) || Hits(slots, r) || outcome.FailedBefore? then slots
      else slots[KeyFor(r) := Filled(r)] - evicted
    case Damage(key, _) => slots[key := Damaged]
    case Remove(keys) => slots - keys
  }

  function SlotsAfter(events: seq<Event>): Slots {
    if events == [] then map[] else After(SlotsAfter(events[..|events| - 1]), events[|events| - 1])
  }

  /** The files are those of the slots, and a filled one reads back as its request's extraction. */
  ghost predicate Mirrors(w: World, files: map<CacheKey, File>, slots: Slots) {
    && files.Keys == slots.Keys
    && forall k | k in slots :: Readable(files[k]) == Contents(w, slots[k])
  }

  ghost function Contents(w: World, slot: Slot): Option<CodeState> {
    if slot.Filled? then Some(Uncached(w, slot.origin).state) else None
  }

  lemma MirrorsWrite(w: World, files: map<CacheKey, File>, slots: Slots, key: CacheKey, r: Request,
                     evicted: set<CacheKey>)
    requires Mirrors(w, files, slots)
    ensures Mirrors(w, files[key := FileOf(Uncached(w, r).state)] - evicted, slots[key := Filled(r)] - evicted)
  {
  }

  class Store {
    const world: World
    var files: map<CacheKey, File>
    var hit: nat
    var miss: nat
    var invalid: nat
    var writeFailed: nat

    constructor (w: World)
      ensures world == w && Reflects(map[])
      ensures hit == miss == invalid == writeFailed == 0
    {
      world, files := w, map[];
      hit, miss, invalid, writeFailed := 0, 0, 0, 0;
    }

    ghost predicate Reflects(slots: Slots)
      reads this
    {
      Mirrors(world, files, slots)
    }

    /** `read_cached_code_state`. */
    method Read(key: CacheKey) returns (state: Option<CodeState>)
      modifies this`hit, this`miss, this`invalid
      ensures state == if key in files then Readable(files[key]) else None
      ensures hit == old(hit) + (if state.Some? then 1 else 0)
      ensures miss == old(miss) + (if state.Some? then 0 else 1)
      ensures invalid == old(invalid) + (if key in files && state.None? then 1 else 0)
    {
      if key !in files {
        miss := miss + 1;
        return None;
      }
      state := Readable(files[key]);
      if state.None? {
        invalid := invalid + 1;
        miss := miss + 1;
      } else {
        hit := hit + 1;
      }
    }

    /** `write_cached_code_state`, with the files its eviction pass removes. */
    method Write(key: CacheKey, state: CodeState, outcome: WriteOutcome, evicted: set<CacheKey>)
      modifies this`files, this`writeFailed
      ensures files == if outcome.FailedBefore? then old(files) else old(files)[key := FileOf(state)] - evicted
      ensures writeFailed == old(writeFailed) + (if outcome.Written? then 0 else 1)
    {
      if !outcome.FailedBefore? {
        files := files[key := FileOf(state)];
        files := files - evicted;
      }
      if !outcome.Written? {
        writeFailed := writeFailed + 1;
      }
    }

    /**
      `_extract_code_state`: the answer is the plain extraction of the request that filled the slot, or
      of this one; the store and the counters change as told.
     */
    method ExtractCodeState(r: Request, outcome: WriteOutcome, evicted: set<CacheKey>, ghost slots: Slots)
      returns (e: Extraction)
      requires Reflects(slots) && OwnKeys(slots)
      modifies this
      ensures e == Uncached(world, Origin(slots, r))
      ensures Reflects(After(slots, Ask(r, outcome, evicted)))
      ensures hit == old(hit) + (if Hits(slots, r) then 1 else 0)
      ensures miss == old(miss) + (if ConsultsCache(r) && !Hits(slots, r) then 1 else 0)
      ensures invalid - old(invalid) <= miss - old(miss)
    {
      if r.timeout.Some? || !r.useCache {
        e := ExtractResult(world, r);
        return;
      }
      var key := KeyFor(r);
      var cached := Read(key);
      if cached.Some? {
        return Extraction(cached.value, {});
      }
      e := ExtractResult(world, r);
      MirrorsWrite(world, files, slots, key, r, evicted);
      Write(key, e.state, outcome, evicted);
    }

    /** One event of a run. */
    method Apply(event: Event, ghost slots: Slots) returns (answer: Option<Extraction>)
      requires Reflects(slots) && OwnKeys(slots) && IsDetectable(event)
      modifies this
      ensures Reflects(After(slots, event))
      ensures answer == AnswerTo(world, slots, event)
      ensures hit == old(hit) + (if event.Ask? && Hits(slots, event.request) then 1 else 0)
      ensures hit + miss == old(hit + miss) + ReadsOf(event)
      ensures invalid - old(invalid) <= miss - old(miss)
    {
      match event
      case Ask(request, outcome, evicted) =>
        var e := ExtractCodeState(request, outcome, evicted, slots);
        return Some(e);
      case Damage(key, file) =>
        files := files[key := file];
        return None;
      case Remove(keys) =>
        files := files - keys;
        return None;
    }
  }

  /** What an event is answered: a request, by the plain extraction of its origin. */
  ghost function AnswerTo(w: World, slots: Slots, e: Event): Option<Extraction> {
    if e.Ask? then Some(Uncached(w, Origin(slots, e.request))) else None
  }

  function FileOf(state: CodeState): File {
    Payload(CacheFormatVersion, CodeStateSchemaVersion, Some(state))
  }

  /** Every filled slot was filled by a request with its key and no time limit. */
  predicate OwnKeys(slots: Slots) {
    forall k | k in slots && slots[k].Filled? :: KeyFor(slots[k].origin) == k && slots[k].origin.timeout.None?
  }

  lemma {:induction false} SlotsOwnKeys(events: seq<Event>)
    ensures OwnKeys(SlotsAfter(events))
  {
    if events != [] { SlotsOwnKeys(events[..|events| - 1]); }
  }

  // ---- runs ----

  function ReadsOf(e: Event): nat {
    if e.Ask? && ConsultsCache(e.request) then 1 else 0
  }

  function Reads(events: seq<Event>): nat {
    if events == [] then 0 else Reads(events[..|events| - 1]) + ReadsOf(events[|events| - 1])
  }

  ghost function Answers(w: World, events: seq<Event>): seq<Option<Extraction>> {
    if events == [] then []
    else
      var init := events[..|events| - 1];
      Answers(w, init) + [AnswerTo(w, SlotsAfter(init), events[|events| - 1])]
  }

  /** Over every run from an empty cache, each request is answered by the plain extraction of its origin. */
  method Run(w: World, events: seq<Event>) returns (answers: seq<Option<Extraction>>, hit: nat, miss: nat, invalid: nat)
    requires forall e | e in events :: IsDetectable(e)
    ensures answers == Answers(w, events)
    ensures hit + miss == Reads(events) && invalid <= miss
  {
    var store := new Store(w);
    ghost var slots: Slots := map[];
    answers := [];
    for i := 0 to |events|
      invariant fresh(store) && store.world == w && store.Reflects(slots)
      invariant slots == SlotsAfter(events[..i]) && answers == Answers(w, events[..i])
      invariant store.hit + store.miss == Reads(events[..i]) && store.invalid <= store.miss
    {
      RunStep(w, events, i);
      assert IsDetectable(events[i]);
      var answer := store.Apply(events[i], slots);
      slots := After(slots, events[i]);
      answers := answers + [answer];
    }
    assert events[..|events|] == events;
    hit, miss, invalid := store.hit, store.miss, store.invalid;
  }

  lemma RunStep(w: World, events: seq<Event>, i: nat)
    requires i < |events|
    ensures SlotsAfter(events[..i + 1]) == After(SlotsAfter(events[..i]), events[i])
    ensures Reads(events[..i + 1]) == Reads(events[..i]) + ReadsOf(events[i])
    ensures Answers(w, events[..i + 1]) == Answers(w, events[..i]) + [AnswerTo(w, SlotsAfter(events[..i]), events[i])]
    ensures OwnKeys(SlotsAfter(events[..i]))
  {
    assert events[..i + 1][..i] == events[..i];
    SlotsOwnKeys(events[..i]);
  }

  /** Position by position: each request is answered by the plain extraction of its origin. */
  lemma {:induction false} AnswerAt(w: World, events: seq<Event>, i: nat)
    requires i < |events|
    ensures |Answers(w, events)| == |events|
    ensures Answers(w, events)[i] == if events[i].Ask? then Some(Uncached(w, OriginAt(events, i))) else None
  {
    var init := events[..|events| - 1];
    if i < |init| {
      AnswerAt(w, init, i);
      assert init[..i] == events[..i];
    } else if init != [] {
      AnswerAt(w, init, 0);
    }
  }

  // ---- when the cache is transparent ----

  /** The request whose extraction answers event i of a run. */
  function OriginAt(events: seq<Event>, i: nat): Request
    requires i < |events| && events[i].Ask?
  {
    Origin(SlotsAfter(events[..i]), events[i].request)
  }

  /** An answer comes from the request itself or from an earlier one with the same key. */
  lemma {:induction false} OriginIsEarlier(events: seq<Event>, k: CacheKey)
    requires k in SlotsAfter(events) && SlotsAfter(events)[k].Filled?
    ensures exists i :: 0 <= i < |events| && events[i].Ask? && events[i].request == SlotsAfter(events)[k].origin
  {
    if events != [] {
      var init, last := events[..|events| - 1], events[|events| - 1];
      var before := SlotsAfter(init);
      if k in before && before[k] == SlotsAfter(events)[k] {
        OriginIsEarlier(init, k);
        var i :| 0 <= i < |init| && init[i].Ask? && init[i].request == before[k].origin;
        assert events[i] == init[i];
      } else {
        assert events[|events| - 1] == last;
      }
    }
  }

  /**
    The exact condition, for every run and every request of it whose directory name does not matter:
    the answer is the plain extraction if and only if it was extracted in the same directory or the
    tree has no effect; and it always is but for the files named in the evidence of effects.
   */
  lemma CacheTransparency(w: World, events: seq<Event>, i: nat)
    requires i < |events| && events[i].Ask?
    ensures var r, origin := events[i].request, OriginAt(events, i);
      && (origin == r || (KeyFor(origin) == KeyFor(r) && ConsultsCache(r) && origin.timeout.None?))
      && (SameRootName(w, r, origin) ==>
            && (Uncached(w, origin) == Uncached(w, r) <==>
                  origin.treeRoot == r.treeRoot || AnalysisOf(w, r).effects == [])
            && WithoutFiles(Uncached(w, origin).state) == WithoutFiles(Uncached(w, r).state))
  {
    var r, origin := events[i].request, OriginAt(events, i);
    SlotsOwnKeys(events[..i]);
    if origin != r && SameRootName(w, r, origin) {
      KeyDeterminesInputs(w, r, origin);
    }
    if InputsOf(w, r) == InputsOf(w, origin) {
      CheckoutsDiffer(origin.treeRoot, r.treeRoot, AnalysisOf(w, r));
      CheckoutsAgree(origin.treeRoot, r.treeRoot, AnalysisOf(w, r));
    }
  }

  /** If requests with one key always come from one directory, the cache is transparent. */
  lemma OneDirectoryIsTransparent(w: World, events: seq<Event>, i: nat)
    requires i < |events| && events[i].Ask?
    requires forall j | 0 <= j < i && events[j].Ask? ::
               KeyFor(events[j].request) == KeyFor(events[i].request) ==>
                 events[j].request.treeRoot == events[i].request.treeRoot
    ensures Uncached(w, OriginAt(events, i)) == Uncached(w, events[i].request)
  {
    var r, origin, init := events[i].request, OriginAt(events, i), events[..i];
    if Hits(SlotsAfter(init), r) {
      OriginIsEarlier(init, KeyFor(r));
      var j :| 0 <= j < |init| && init[j].Ask? && init[j].request == origin;
      assert events[j] == init[j];
      SlotsOwnKeys(init);
      CacheTransparency(w, events, i);
    }
  }
}
