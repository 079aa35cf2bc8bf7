/**
  What an SSP comparison adds and how it judges: the findings of a group beyond the number the
  baseline has, and the advisories it does not report; it fails on any of these that is not just
  informational.
 */
module SspVerdicts {
  import opened Deltas
  import opened RecordMembership
  import opened SspDelta

  // ---- how many findings of a group count ----

  /** The spans of a group's findings. */
  function SpansIn(fs: seq<Sast>, g: Group, n: nat): set<Span>
    requires n <= |fs|
  {
    set i | 0 <= i < n && fs[i].group == g && fs[i].span.Some? :: fs[i].span.value
  }

  function SpanlessIn(fs: seq<Sast>, g: Group): nat -> bool {
    (i: nat) => i < |fs| && fs[i].group == g && fs[i].span.None?
  }

  lemma KeptSpan(fs: seq<Sast>, n: nat)
    requires n < |fs| && fs[n].span.Some?
    ensures Kept(fs, n) <==> fs[n].span.value !in SpansIn(fs, fs[n].group, n)
  {
    var g, s := fs[n].group, fs[n].span.value;
    if s in SpansIn(fs, g, n) {
      var j :| 0 <= j < n && fs[j].group == g && fs[j].span.Some? && fs[j].span.value == s;
      assert fs[j].span == fs[n].span;
    } else {
      forall j | 0 <= j < n ensures fs[j].group != g || fs[j].span != fs[n].span {
      }
    }
  }

  lemma SpansStep(fs: seq<Sast>, g: Group, n: nat)
    requires n < |fs|
    ensures SpansIn(fs, g, n + 1)
         == SpansIn(fs, g, n) + (if fs[n].group == g && fs[n].span.Some? then {fs[n].span.value} else {})
  {
  }

  /** A group counts its distinct spans once each, and every finding without a span. */
  lemma {:induction false} GroupSize(fs: seq<Sast>, g: Group, n: nat)
    requires n <= |fs|
    ensures |GroupIndices(fs, g, n)| == |SpansIn(fs, g, n)| + |Select(SpanlessIn(fs, g), n)|
  {
    if n == 0 {
      assert SpansIn(fs, g, 0) == {};
    } else {
      GroupSize(fs, g, n - 1);
      SpansStep(fs, g, n - 1);
      assert KeptIn(fs, g)(n - 1) <==> Kept(fs, n - 1) && fs[n - 1].group == g;
      assert SpanlessIn(fs, g)(n - 1) <==> fs[n - 1].group == g && fs[n - 1].span.None?;
      if fs[n - 1].group == g && fs[n - 1].span.Some? { KeptSpan(fs, n - 1); }
    }
  }

  // ---- what is added ----

  predicate SameAdvisory(a: Sca, b: Sca) {
    a.packageName == b.packageName && a.installedVersion == b.installedVersion && a.advisoryId == b.advisoryId
  }

  lemma KeyOf(digest: Identity -> string, x: Identified, y: Identified)
    requires Injective(digest)
    ensures FingerprintOf(digest)(x) == FingerprintOf(digest)(y) <==> x.id == y.id
  {
    if FingerprintOf(digest)(x) == FingerprintOf(digest)(y) { DistinctFingerprints(digest, x.id, y.id); }
  }

  /** SAST findings have fingerprints of their own. */
  lemma SastIsFirst(scan: Scan, digest: Identity -> string, i: nat)
    requires Injective(digest) && i < |scan.sasts| && Kept(scan.sasts, i)
    ensures IsFirst(Identify(scan), FingerprintOf(digest), IdentifySast(scan.sasts, i))
  {
    var xs, key, x := Identify(scan), FingerprintOf(digest), IdentifySast(scan.sasts, i);
    var sasts := IdentifySasts(scan.sasts);
    SastIsListed(scan.sasts, i);
    var k :| 0 <= k < |sasts| && sasts[k] == x;
    IndexIsFirst(xs, key, key(x));
    assert xs[k] == x;
    var first := IndexBy(xs, key)[key(x)];
    KeyOf(digest, first, x);
    var f :| 0 <= f < |xs| && xs[f] == first && forall j | 0 <= j < f :: key(xs[j]) != key(first);
    SastEntry(scan, f);
    var p := ListedIsSast(scan.sasts, first);
    OrdinalsAreDense(scan.sasts, scan.sasts[i].group);
    assert p == i;
  }

  lemma ScaIsFirst(scan: Scan, digest: Identity -> string, j: nat)
    requires Injective(digest) && j < |scan.scas|
    requires forall i | 0 <= i < j :: !SameAdvisory(scan.scas[i], scan.scas[j])
    ensures IsFirst(Identify(scan), FingerprintOf(digest), IdentifySca(scan.scas[j]))
  {
    var xs, key, x, m := Identify(scan), FingerprintOf(digest), IdentifySca(scan.scas[j]), |IdentifySasts(scan.sasts)|;
    assert xs[m + j] == x;
    forall i | 0 <= i < m + j ensures key(xs[i]) != key(x) {
      KeyOf(digest, xs[i], x);
      if i >= m {
        assert xs[i] == IdentifySca(scan.scas[i - m]);
      } else {
        assert xs[i] in IdentifySasts(scan.sasts);
        var p := ListedIsSast(scan.sasts, xs[i]);
      }
    }
  }

  // ---- the entries of a scan ----

  ghost predicate IsKeptSast(fs: seq<Sast>, x: Identified) {
    exists i: nat :: i < |fs| && Kept(fs, i) && x == IdentifySast(fs, i)
  }

  predicate FirstReport(fs: seq<Sca>, j: nat) { j < |fs| && forall i | 0 <= i < j :: !SameAdvisory(fs[i], fs[j]) }

  ghost predicate IsFirstSca(fs: seq<Sca>, x: Identified) {
    exists j: nat :: FirstReport(fs, j) && x == IdentifySca(fs[j])
  }

  /** An entry of a scan is one of its kept SAST findings or the first report of an advisory. */
  lemma FirstEntry(scan: Scan, digest: Identity -> string, x: Identified)
    requires Injective(digest) && IsFirst(Identify(scan), FingerprintOf(digest), x)
    ensures if x.id.SastId? then IsKeptSast(scan.sasts, x) else IsFirstSca(scan.scas, x)
  {
    var xs, key, m := Identify(scan), FingerprintOf(digest), |IdentifySasts(scan.sasts)|;
    var f :| 0 <= f < |xs| && xs[f] == x && forall j | 0 <= j < f :: key(xs[j]) != key(x);
    if x.id.SastId? {
      SastEntry(scan, f);
      var i := ListedIsSast(scan.sasts, x);
    } else {
      ScaPlace(scan, f);
      forall i | 0 <= i < f - m ensures !SameAdvisory(scan.scas[i], scan.scas[f - m]) {
        assert xs[m + i] == IdentifySca(scan.scas[i]);
        KeyOf(digest, xs[m + i], x);
      }
      assert FirstReport(scan.scas, f - m);
    }
  }

  lemma ScaPlace(scan: Scan, f: nat)
    requires f < |Identify(scan)| && !Identify(scan)[f].id.SastId?
    ensures f >= |IdentifySasts(scan.sasts)|
    ensures Identify(scan)[f] == IdentifySca(scan.scas[f - |IdentifySasts(scan.sasts)|])
  {
  }

  /** A finding of one scan that the other does not have. */
  ghost predicate IsAddition(here: Scan, there: Scan, x: Identified) {
    if x.id.SastId? then IsKeptSast(here.sasts, x) && x.id.ordinal >= GroupCount(there.sasts, x.id.group)
    else IsFirstSca(here.scas, x) && forall k | 0 <= k < |there.scas| :: IdentifySca(there.scas[k]).id != x.id
  }

  lemma SameId(a: Sca, b: Sca)
    ensures IdentifySca(a).id == IdentifySca(b).id <==> SameAdvisory(a, b)
  {
  }

  lemma KeptIsFirst(scan: Scan, digest: Identity -> string, x: Identified)
    requires Injective(digest) && (if x.id.SastId? then IsKeptSast(scan.sasts, x) else IsFirstSca(scan.scas, x))
    ensures IsFirst(Identify(scan), FingerprintOf(digest), x)
  {
    if x.id.SastId? {
      var i: nat :| i < |scan.sasts| && Kept(scan.sasts, i) && x == IdentifySast(scan.sasts, i);
      SastIsFirst(scan, digest, i);
    } else {
      var j: nat :| FirstReport(scan.scas, j) && x == IdentifySca(scan.scas[j]);
      ScaIsFirst(scan, digest, j);
    }
  }

  /** A fingerprint is missing from a scan when its group is too small or nothing reports its advisory. */
  lemma Missing(scan: Scan, digest: Identity -> string, id: Identity)
    requires Injective(digest)
    ensures [digest(id)] !in ByFingerprint(scan, digest) <==>
              if id.SastId? then id.ordinal >= GroupCount(scan.sasts, id.group)
              else forall k | 0 <= k < |scan.scas| :: IdentifySca(scan.scas[k]).id != id
  {
    if id.SastId? {
      SastFingerprints(scan, digest, id.group, id.ordinal);
    } else {
      ScaFingerprints(scan, digest, id);
      if k :| 0 <= k < |scan.scas| && IdentifySca(scan.scas[k]).id == id { assert scan.scas[k] in scan.scas; }
    }
  }

  /** The entries that only one scan has, first of their fingerprint. */
  function OnlyIn(here: Scan, there: Scan, digest: Identity -> string): seq<Identified> {
    var h, t := ByFingerprint(here, digest), ByFingerprint(there, digest);
    EntriesAt(AddedKeys(t, h), h)
  }

  lemma OnlyInMembers(here: Scan, there: Scan, digest: Identity -> string, x: Identified)
    ensures x in OnlyIn(here, there, digest)
       <==> IsFirst(Identify(here), FingerprintOf(digest), x) && [digest(x.id)] !in ByFingerprint(there, digest)
  {
    var h, t, key := ByFingerprint(here, digest), ByFingerprint(there, digest), FingerprintOf(digest);
    EntriesIn(AddedKeys(t, h), h, x);
    FirstIndexed(Identify(here), key, x);
    if k :| k in AddedKeys(t, h) && x == h[k] {
      IndexIsFirst(Identify(here), key, k);
    }
  }

  /** What only one scan has: findings of a group beyond the other's count, and new advisories. */
  lemma OnlyInExactly(here: Scan, there: Scan, digest: Identity -> string, x: Identified)
    requires Injective(digest)
    ensures x in OnlyIn(here, there, digest) <==> IsAddition(here, there, x)
  {
    OnlyInMembers(here, there, digest, x);
    Missing(there, digest, x.id);
    if x in OnlyIn(here, there, digest) { FirstEntry(here, digest, x); }
    if IsAddition(here, there, x) { KeptIsFirst(here, digest, x); }
  }

  // ---- the judgement ----

  /** A kept SAST finding beyond the baseline's count for its group, and not just informational. */
  ghost predicate AddsSast(baseline: seq<Sast>, candidate: seq<Sast>) {
    exists i: nat :: i < |candidate| && Kept(candidate, i) && candidate[i].severity != Info
                     && OrdinalOf(candidate, i) >= GroupCount(baseline, candidate[i].group)
  }

  /** The first report of an advisory that the baseline does not report, and not just informational. */
  ghost predicate AddsSca(baseline: seq<Sca>, candidate: seq<Sca>) {
    exists j: nat :: FirstReport(candidate, j) && candidate[j].severity != Info
                     && forall k | 0 <= k < |baseline| :: !SameAdvisory(baseline[k], candidate[j])
  }

  lemma AddedSast(baseline: Scan, candidate: Scan, x: Identified)
    requires IsAddition(candidate, baseline, x) && SeverityOf(x) != Info
    ensures AddsSast(baseline.sasts, candidate.sasts) || AddsSca(baseline.scas, candidate.scas)
  {
    if x.id.SastId? {
      var i: nat :| i < |candidate.sasts| && Kept(candidate.sasts, i) && x == IdentifySast(candidate.sasts, i);
      assert candidate.sasts[i].severity != Info;
    } else {
      var j: nat :| FirstReport(candidate.scas, j) && x == IdentifySca(candidate.scas[j]);
      forall k | 0 <= k < |baseline.scas| ensures !SameAdvisory(baseline.scas[k], candidate.scas[j]) {
        SameId(baseline.scas[k], candidate.scas[j]);
      }
      assert candidate.scas[j].severity != Info;
    }
  }

  lemma SastIsAddition(baseline: Scan, candidate: Scan) returns (x: Identified)
    requires AddsSast(baseline.sasts, candidate.sasts)
    ensures IsAddition(candidate, baseline, x) && SeverityOf(x) != Info
  {
    var i: nat :| i < |candidate.sasts| && Kept(candidate.sasts, i) && candidate.sasts[i].severity != Info
                  && OrdinalOf(candidate.sasts, i) >= GroupCount(baseline.sasts, candidate.sasts[i].group);
    x := IdentifySast(candidate.sasts, i);
    assert IsKeptSast(candidate.sasts, x);
  }

  lemma ScaIsAddition(baseline: Scan, candidate: Scan) returns (x: Identified)
    requires AddsSca(baseline.scas, candidate.scas)
    ensures IsAddition(candidate, baseline, x) && SeverityOf(x) != Info
  {
    var j: nat :| FirstReport(candidate.scas, j) && candidate.scas[j].severity != Info
                  && forall k | 0 <= k < |baseline.scas| :: !SameAdvisory(baseline.scas[k], candidate.scas[j]);
    x := IdentifySca(candidate.scas[j]);
    forall k | 0 <= k < |baseline.scas| ensures IdentifySca(baseline.scas[k]).id != x.id {
      SameId(baseline.scas[k], candidate.scas[j]);
    }
    assert IsFirstSca(candidate.scas, x);
  }

  lemma AddedSeverity(baseline: Scan, candidate: Scan, digest: Identity -> string)
    requires Injective(digest)
    ensures (exists x | x in OnlyIn(candidate, baseline, digest) :: SeverityOf(x) != Info)
       <==> AddsSast(baseline.sasts, candidate.sasts) || AddsSca(baseline.scas, candidate.scas)
  {
    if x :| x in OnlyIn(candidate, baseline, digest) && SeverityOf(x) != Info {
      OnlyInExactly(candidate, baseline, digest, x);
      AddedSast(baseline, candidate, x);
    } else if AddsSast(baseline.sasts, candidate.sasts) {
      var x := SastIsAddition(baseline, candidate);
      OnlyInExactly(candidate, baseline, digest, x);
    } else if AddsSca(baseline.scas, candidate.scas) {
      var x := ScaIsAddition(baseline, candidate);
      OnlyInExactly(candidate, baseline, digest, x);
    }
  }

  function ExpectedStatus(failed: bool, adds: bool): Status {
    if failed then StatusUnknown else if adds then StatusFail else StatusPass
  }

  /** The scan gives a reason for its failure. */
  predicate Says(scan: Scan) { scan.errorMessage.Some? && scan.errorMessage.value != "" }

  /**
    The comparison is rejected for two different sensors, unknown when either scan failed, and
    otherwise fails exactly when something beyond the informational is added.
   */
  lemma SspStatusExactly(baseline: Scan, candidate: Scan, digest: Identity -> string)
    requires Injective(digest)
    ensures var d := ComputeSspDelta(baseline, candidate, digest);
      && (d.None? <==> baseline.sensorId != candidate.sensorId)
      && (d.Some? ==> d.value.status == ExpectedStatus(
            baseline.failed || candidate.failed,
            AddsSast(baseline.sasts, candidate.sasts) || AddsSca(baseline.scas, candidate.scas)))
      && (d.Some? && d.value.status == StatusUnknown && Says(candidate) ==> d.value.error == candidate.errorMessage)
  {
    AddedSeverity(baseline, candidate, digest);
  }

  /** Which findings the delta adds, and which it removes. */
  lemma SspFindingsExactly(baseline: Scan, candidate: Scan, digest: Identity -> string, x: Identified)
    requires Injective(digest) && baseline.sensorId == candidate.sensorId && !baseline.failed && !candidate.failed
    ensures var d := ComputeSspDelta(baseline, candidate, digest).value;
      && (x in d.added <==> IsAddition(candidate, baseline, x))
      && (x in d.removed <==> IsAddition(baseline, candidate, x))
  {
    OnlyInExactly(candidate, baseline, digest, x);
    OnlyInExactly(baseline, candidate, digest, x);
  }
}
