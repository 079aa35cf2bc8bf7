/**
  Exclude patterns: which source files extraction keeps, and why neither the order nor the
  repetition of patterns can change that. Relative paths and pattern matching are given.
 */
module ExcludedPaths {
  import opened Values
  import opened Deltas
  import opened Sorting

  type Path = string

  datatype Config = Config(root: string, patterns: seq<string>)

  datatype Excluded = Excluded(path: Path, relative: string, pattern: string)

  /** A path relative to the configuration root, if it lies under it; and whether a pattern matches. */
  datatype Matching = Matching(relative: (string, Path) -> Option<string>, matches: (string, string) -> bool)

  // ---- specification ----

  ghost predicate SomeMatches(m: Matching, relative: string, patterns: set<string>) {
    exists p :: p in patterns && m.matches(relative, p)
  }

  /** A path is kept unless it lies under the root and some pattern, whichever, matches it. */
  ghost predicate IsKept(m: Matching, root: string, patterns: set<string>, path: Path) {
    var relative := m.relative(root, path);
    relative.None? || !SomeMatches(m, relative.value, patterns)
  }

  ghost function KeptPaths(m: Matching, root: string, patterns: set<string>, paths: seq<Path>): seq<Path> {
    if paths == [] then []
    else
      KeptPaths(m, root, patterns, paths[..|paths| - 1])
      + (if IsKept(m, root, patterns, paths[|paths| - 1]) then [paths[|paths| - 1]] else [])
  }

  ghost function PatternSet(patterns: seq<string>): set<string> {
    set p | p in patterns
  }

  /** What extraction keeps under an optional configuration. */
  ghost function Kept(m: Matching, config: Option<Config>, paths: seq<Path>): seq<Path> {
    match config
    case None => paths
    case Some(c) => KeptPaths(m, c.root, PatternSet(c.patterns), paths)
  }

  lemma {:induction false} NoPatternsKeepAll(m: Matching, root: string, paths: seq<Path>)
    ensures KeptPaths(m, root, {}, paths) == paths
  {
    if paths != [] { NoPatternsKeepAll(m, root, paths[..|paths| - 1]); }
  }

  // ---- the code ----

  /** `matches_exclude`: the first pattern that matches. */
  method MatchesExclude(m: Matching, path: Path, config: Config) returns (pattern: Option<string>)
    ensures pattern.None? <==> IsKept(m, config.root, PatternSet(config.patterns), path)
    ensures pattern.Some? ==>
              exists i :: 0 <= i < |config.patterns| && pattern.value == config.patterns[i]
                && m.relative(config.root, path).Some?
                && m.matches(m.relative(config.root, path).value, config.patterns[i])
                && forall j | 0 <= j < i :: !m.matches(m.relative(config.root, path).value, config.patterns[j])
  {
    if config.patterns == [] {
      return None;
    }
    var relative := m.relative(config.root, path);
    if relative.None? {
      return None;
    }
    for i := 0 to |config.patterns|
      invariant forall j | 0 <= j < i :: !m.matches(relative.value, config.patterns[j])
    {
      if m.matches(relative.value, config.patterns[i]) {
        assert config.patterns[i] in PatternSet(config.patterns);
        return Some(config.patterns[i]);
      }
    }
    return None;
  }

  /** `filter_excluded_paths`: every path is either kept or reported with the pattern that excluded it. */
  method FilterExcludedPaths(m: Matching, paths: seq<Path>, config: Option<Config>)
    returns (kept: seq<Path>, excluded: seq<Excluded>)
    ensures kept == Kept(m, config, paths)
    ensures |kept| + |excluded| == |paths|
    ensures forall x | x in excluded ::
              config.Some? && x.path in paths && x.pattern in config.value.patterns
              && m.relative(config.value.root, x.path) == Some(x.relative) && m.matches(x.relative, x.pattern)
  {
    if config.None? || config.value.patterns == [] {
      if config.Some? {
        assert PatternSet([]) == {};
        NoPatternsKeepAll(m, config.value.root, paths);
      }
      return paths, [];
    }
    kept, excluded := [], [];
    for i := 0 to |paths|
      invariant kept == KeptPaths(m, config.value.root, PatternSet(config.value.patterns), paths[..i])
      invariant |kept| + |excluded| == i
      invariant forall x | x in excluded ::
                  x.path in paths && x.pattern in config.value.patterns
                  && m.relative(config.value.root, x.path) == Some(x.relative) && m.matches(x.relative, x.pattern)
    {
      assert paths[..i + 1][..i] == paths[..i];
      var relative := m.relative(config.value.root, paths[i]);
      if relative.None? {
        kept := kept + [paths[i]];
        continue;
      }
      var pattern := MatchesExclude(m, paths[i], config.value);
      if pattern.None? {
        kept := kept + [paths[i]];
      } else {
        excluded := excluded + [Excluded(paths[i], relative.value, pattern.value)];
      }
    }
    assert paths[..|paths|] == paths;
  }

  // ---- sorted patterns ----

  lemma StringsApart(s: seq<string>)
    ensures TellsApart(s, StringKey)
  {
    forall x, y | x in s && y in s && StringKey(x) == StringKey(y) ensures x == y {
      assert [x][0] == [y][0];
    }
  }

  /** Sorted pattern tuples are equal exactly when the lists are rearrangements of each other. */
  lemma SortedPatternsAgree(s: seq<string>, t: seq<string>)
    ensures SortStrings(s) == SortStrings(t) <==> multiset(s) == multiset(t)
    ensures SortStrings(s) == SortStrings(t) ==> PatternSet(s) == PatternSet(t)
  {
    SortMultiset(s, StringKey);
    SortMultiset(t, StringKey);
    SortAscends(s, StringKey);
    SortAscends(t, StringKey);
    if multiset(s) == multiset(t) {
      StringsApart(SortStrings(s));
      AscendingUnique(SortStrings(s), SortStrings(t), StringKey);
      forall p | p in s ensures p in t { MemberOf(p, s, t); }
      forall p | p in t ensures p in s { MemberOf(p, t, s); }
    }
  }
}
