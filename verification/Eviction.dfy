/** Eviction of cache files down to the low-water mark, oldest first, with unlinks that may fail. */
module Eviction {

  datatype Record = Record(path: string, mtime: real, size: nat)

  /** How an unlink ends. A file that was not found is already gone. */
  datatype Unlink = Removed | NotFound | Failed

  type Outcomes = string -> Unlink

  // ---- sorting by age ----

  function InsertByAge(x: Record, s: seq<Record>): seq<Record> {
    if s == [] then [x]
    else if s[|s| - 1].mtime <= x.mtime then s + [x]
    else InsertByAge(x, s[..|s| - 1]) + [s[|s| - 1]]
  }

  /** `sorted(records, key=mtime)`; ties keep their order. */
  function SortByAge(s: seq<Record>): seq<Record> {
    if s == [] then [] else InsertByAge(s[|s| - 1], SortByAge(s[..|s| - 1]))
  }

  predicate OldestFirst(s: seq<Record>) {
    forall i, j | 0 <= i < j < |s| :: s[i].mtime <= s[j].mtime
  }

  lemma {:induction false} InsertHolds(x: Record, s: seq<Record>, r: Record)
    ensures r in InsertByAge(x, s) <==> r in s || r == x
  {
    if s != [] && s[|s| - 1].mtime > x.mtime { InsertHolds(x, s[..|s| - 1], r); }
  }

  lemma {:induction false} InsertOldestFirst(x: Record, s: seq<Record>)
    requires OldestFirst(s)
    ensures OldestFirst(InsertByAge(x, s))
  {
    if s != [] && s[|s| - 1].mtime > x.mtime {
      var init, last := s[..|s| - 1], s[|s| - 1];
      InsertOldestFirst(x, init);
      var t := InsertByAge(x, init);
      forall i | 0 <= i < |t| ensures t[i].mtime <= last.mtime {
        InsertHolds(x, init, t[i]);
      }
    }
  }

  lemma {:induction false} SortedOldestFirst(s: seq<Record>)
    ensures OldestFirst(SortByAge(s))
  {
    if s != [] {
      SortedOldestFirst(s[..|s| - 1]);
      InsertOldestFirst(s[|s| - 1], SortByAge(s[..|s| - 1]));
    }
  }

  /** Sorting keeps the records. */
  lemma {:induction false} SortHolds(s: seq<Record>, r: Record)
    ensures r in SortByAge(s) <==> r in s
  {
    if s != [] {
      SortHolds(s[..|s| - 1], r);
      InsertHolds(s[|s| - 1], SortByAge(s[..|s| - 1]), r);
    }
  }

  lemma CountAppend(s: seq<Record>, x: Record, r: Record)
    ensures multiset(s + [x])[r] == multiset(s)[r] + (if x == r then 1 else 0)
  {
  }

  lemma {:induction false} InsertCount(x: Record, s: seq<Record>, r: Record)
    ensures multiset(InsertByAge(x, s))[r] == multiset(s)[r] + (if x == r then 1 else 0)
  {
    CountAppend(s, x, r);
    if s == [] {
      assert s + [x] == [x];
    } else if s[|s| - 1].mtime > x.mtime {
      var init, last := s[..|s| - 1], s[|s| - 1];
      InsertCount(x, init, r);
      CountAppend(init, last, r);
      CountAppend(InsertByAge(x, init), last, r);
      assert s == init + [last];
    }
  }

  lemma SortAppend(s: seq<Record>, x: Record)
    ensures SortByAge(s + [x]) == InsertByAge(x, SortByAge(s))
  {
    assert (s + [x])[..|s|] == s;
  }

  lemma {:induction false} SortCount(s: seq<Record>, r: Record)
    ensures multiset(SortByAge(s))[r] == multiset(s)[r]
  {
    if s == [] {
      assert SortByAge(s) == s;
    } else {
      var init, last := s[..|s| - 1], s[|s| - 1];
      assert s == init + [last];
      SortCount(init, r);
      calc {
        multiset(SortByAge(s))[r];
        { SortAppend(init, last); }
        multiset(InsertByAge(last, SortByAge(init)))[r];
        { InsertCount(last, SortByAge(init), r); CountAppend(init, last, r); }
        multiset(s)[r];
      }
    }
  }

  /** Sorting rearranges. */
  lemma SortedMembers(s: seq<Record>)
    ensures multiset(SortByAge(s)) == multiset(s)
  {
    forall r ensures multiset(SortByAge(s))[r] == multiset(s)[r] { SortCount(s, r); }
  }

  // ---- sizes ----

  function Total(s: seq<Record>): nat {
    if s == [] then 0 else Total(s[..|s| - 1]) + s[|s| - 1].size
  }

  /** Bytes no longer in the cache after trying to unlink every file of s. */
  function Freed(s: seq<Record>, f: Outcomes): nat {
    if s == [] then 0
    else Freed(s[..|s| - 1], f) + (if f(s[|s| - 1].path).Failed? then 0 else s[|s| - 1].size)
  }

  /** Bytes of the files whose unlink fails. */
  function Stuck(s: seq<Record>, f: Outcomes): nat {
    if s == [] then 0
    else Stuck(s[..|s| - 1], f) + (if f(s[|s| - 1].path).Failed? then s[|s| - 1].size else 0)
  }

  function RemovedPaths(s: seq<Record>, f: Outcomes): seq<string> {
    if s == [] then []
    else RemovedPaths(s[..|s| - 1], f) + (if f(s[|s| - 1].path).Removed? then [s[|s| - 1].path] else [])
  }

  function GonePaths(s: seq<Record>, f: Outcomes): set<string> {
    set r | r in s && !f(r.path).Failed? :: r.path
  }

  /** Bytes left once the first k files have been tried. */
  function Left(s: seq<Record>, f: Outcomes, k: nat): int
    requires k <= |s|
  {
    Total(s) - Freed(s[..k], f)
  }

  /** `int(x)`: truncation toward zero. */
  function Truncate(x: real): int {
    if x >= 0.0 then x.Floor else -((-x).Floor)
  }

  /** Where an over-budget pass stops: the first point at or below the target, or the end. */
  ghost predicate IsStop(s: seq<Record>, f: Outcomes, target: int, k: nat) {
    && k <= |s|
    && (forall j | 0 <= j < k :: Left(s, f, j) > target)
    && (k < |s| ==> Left(s, f, k) <= target)
  }

  lemma PrefixStep(s: seq<Record>, f: Outcomes, k: nat)
    requires k < |s|
    ensures Freed(s[..k + 1], f) == Freed(s[..k], f) + (if f(s[k].path).Failed? then 0 else s[k].size)
    ensures RemovedPaths(s[..k + 1], f) == RemovedPaths(s[..k], f) + (if f(s[k].path).Removed? then [s[k].path] else [])
    ensures GonePaths(s[..k + 1], f) == GonePaths(s[..k], f) + (if f(s[k].path).Failed? then {} else {s[k].path})
  {
    assert s[..k + 1][..k] == s[..k];
    assert s[..k + 1] == s[..k] + [s[k]];
  }

  lemma {:induction false} TotalSplits(s: seq<Record>, f: Outcomes)
    ensures Total(s) == Freed(s, f) + Stuck(s, f)
  {
    if s != [] { TotalSplits(s[..|s| - 1], f); }
  }

  lemma {:induction false} TotalConcat(s: seq<Record>, t: seq<Record>)
    ensures Total(s + t) == Total(s) + Total(t)
  {
    if t == [] {
      assert s + t == s;
    } else {
      assert (s + t)[..|s + t| - 1] == s + t[..|t| - 1];
      TotalConcat(s, t[..|t| - 1]);
    }
  }

  /** The cache ends at or below the target exactly when the files that cannot be removed fit in it. */
  lemma StopReachesTarget(s: seq<Record>, f: Outcomes, target: int, k: nat)
    requires IsStop(s, f, target, k)
    ensures Left(s, f, k) <= target <==> Stuck(s, f) <= target
  {
    TotalSplits(s, f);
    assert s[..|s|] == s;
    if k < |s| { FreedGrows(s, f, k, |s|); }
  }

  lemma {:induction false} FreedGrows(s: seq<Record>, f: Outcomes, j: nat, k: nat)
    requires j <= k <= |s|
    ensures Freed(s[..j], f) <= Freed(s[..k], f)
  {
    if j < k {
      PrefixStep(s, f, k - 1);
      FreedGrows(s, f, j, k - 1);
    }
  }

  lemma {:induction false} NothingStuck(s: seq<Record>, f: Outcomes)
    requires forall r | r in s :: !f(r.path).Failed?
    ensures Stuck(s, f) == 0
  {
    if s != [] { NothingStuck(s[..|s| - 1], f); }
  }

  /** k is the length of the shortest prefix whose removal brings the rest down to the target. */
  ghost predicate IsShortest(s: seq<Record>, target: int, k: nat) {
    k <= |s| && Total(s[k..]) <= target && forall j | 0 <= j < k :: Total(s[j..]) > target
  }

  /** When every unlink succeeds or finds the file gone, the pass deletes the shortest oldest-first
      prefix whose removal brings the cache down to the target. */
  lemma ShortestPrefix(s: seq<Record>, f: Outcomes, target: nat, k: nat)
    requires IsStop(s, f, target, k) && forall r | r in s :: !f(r.path).Failed?
    ensures IsShortest(s, target, k)
    ensures GonePaths(s[..k], f) == set r | r in s[..k] :: r.path
  {
    NothingStuck(s, f);
    StopReachesTarget(s, f, target, k);
    forall j | 0 <= j <= k ensures Left(s, f, j) == Total(s[j..]) {
      assert s[..j] + s[j..] == s;
      TotalConcat(s[..j], s[j..]);
      NothingStuck(s[..j], f);
      TotalSplits(s[..j], f);
    }
  }

  // ---- the pass ----

  method SumSizes(records: seq<Record>) returns (total: nat)
    ensures total == Total(records)
  {
    total := 0;
    for i := 0 to |records|
      invariant total == Total(records[..i])
    {
      assert records[..i + 1][..i] == records[..i];
      total := total + records[i].size;
    }
    assert records[..|records|] == records;
  }

  /** What a pass over a listing leaves undone or does. */
  ghost predicate Evicts(records: seq<Record>, budget: int, lowWater: real, f: Outcomes,
                         before: set<string>, after: set<string>, removed: seq<string>) {
    if budget <= 0 || Total(SortByAge(records)) <= budget then after == before && removed == []
    else
      var s := SortByAge(records);
      exists k: nat :: IsStop(s, f, Truncate(budget as real * lowWater), k)
        && after == before - GonePaths(s[..k], f) && removed == RemovedPaths(s[..k], f)
  }

  class Directory {
    var present: set<string>

    /** The eviction loop, from files totalling `size` bytes down to a target. */
    method EvictDownTo(s: seq<Record>, size: int, target: int, f: Outcomes) returns (removed: seq<string>, ghost k: nat)
      requires size == Total(s)
      modifies this
      ensures IsStop(s, f, target, k)
      ensures present == old(present) - GonePaths(s[..k], f) && removed == RemovedPaths(s[..k], f)
    {
      removed := [];
      var total := size;
      k := |s|;
      for i := 0 to |s|
        invariant k == |s| && total == Left(s, f, i)
        invariant forall j | 0 <= j < i :: Left(s, f, j) > target
        invariant present == old(present) - GonePaths(s[..i], f)
        invariant removed == RemovedPaths(s[..i], f)
      {
        if total <= target {
          k := i;
          break;
        }
        PrefixStep(s, f, i);
        match f(s[i].path)
        case NotFound =>
          present := present - {s[i].path};
          total := total - s[i].size;
        case Failed =>
        case Removed =>
          present := present - {s[i].path};
          total := total - s[i].size;
          removed := removed + [s[i].path];
      }
    }

    /** `evict_to_budget`. */
    method EvictToBudget(records: seq<Record>, budget: int, lowWater: real, f: Outcomes) returns (removed: seq<string>)
      modifies this
      ensures Evicts(records, budget, lowWater, f, old(present), present, removed)
    {
      if budget <= 0 {
        return [];
      }
      var s := SortByAge(records);
      var total := SumSizes(s);
      if total <= budget {
        return [];
      }
      ghost var k;
      removed, k := EvictDownTo(s, total, Truncate(budget as real * lowWater), f);
    }
  }

  lemma {:induction false} InsertTotal(x: Record, s: seq<Record>)
    ensures Total(InsertByAge(x, s)) == Total(s) + x.size
  {
    if s != [] {
      if s[|s| - 1].mtime > x.mtime {
        InsertTotal(x, s[..|s| - 1]);
      }
    }
  }

  lemma {:induction false} SortKeepsTotal(s: seq<Record>)
    ensures Total(SortByAge(s)) == Total(s)
  {
    if s != [] {
      SortKeepsTotal(s[..|s| - 1]);
      InsertTotal(s[|s| - 1], SortByAge(s[..|s| - 1]));
    }
  }

  /** The eviction bound: within budget nothing is lost; over budget, with no failing unlink, what is
      left is the newest files, at or below the low-water mark, and one file fewer would not do. */
  lemma EvictionBound(records: seq<Record>, budget: int, lowWater: real, f: Outcomes,
                      before: set<string>, after: set<string>, removed: seq<string>)
    requires Evicts(records, budget, lowWater, f, before, after, removed)
    requires lowWater >= 0.0 && forall r | r in records :: !f(r.path).Failed?
    ensures budget <= 0 || Total(records) <= budget ==> after == before && removed == []
    ensures 0 < budget < Total(records) ==>
              exists k: nat :: IsShortest(SortByAge(records), (budget as real * lowWater).Floor, k)
                && after == before - (set r | r in SortByAge(records)[..k] :: r.path)
  {
    SortKeepsTotal(records);
    if 0 < budget < Total(records) {
      var s, mark := SortByAge(records), budget as real * lowWater;
      MarkIsNatural(budget, lowWater);
      forall r | r in s ensures !f(r.path).Failed? {
        SortHolds(records, r);
      }
      var k: nat :| IsStop(s, f, Truncate(mark), k) && after == before - GonePaths(s[..k], f)
                    && removed == RemovedPaths(s[..k], f);
      ShortestPrefix(s, f, mark.Floor, k);
    }
  }

  lemma MarkIsNatural(budget: int, lowWater: real)
    requires budget > 0 && lowWater >= 0.0
    ensures Truncate(budget as real * lowWater) == (budget as real * lowWater).Floor >= 0
  {
    assert budget as real * lowWater >= 0.0;
  }
}
