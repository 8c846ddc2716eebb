/** The alias resolver shared by both command-line tools, stated over the
    similarity scores of the stored machines in their stored order. The
    similarity metric and its "close to upper bound" test come from an outside
    crate; they are parameters here, and nothing is assumed about them. */
module AliasResolver {
  import opened MacTypes

  type Similarity = (string, string) -> real
  type UpperBoundTest = real -> bool

  /** A new name scoring strictly above this against a stored name is a duplicate. */
  const DUPLICATE_THRESHOLD: real := 0.9

  /** The scan of `find_best_machine` from position `i`, with `bestScore` and
      `best` the values its two mutable variables hold on entry: a strictly
      greater score replaces the best so far, and a score close to the upper
      bound ends the scan right after it has been considered. */
  function ScanFrom(scores: seq<real>, close: UpperBoundTest, i: nat, bestScore: real, best: Option<nat>): (r: Option<nat>)
    requires i <= |scores|
    decreases |scores| - i
  {
    if i == |scores| then best
    else
      var better := scores[i] > bestScore;
      var bestScore' := if better then scores[i] else bestScore;
      var best' := if better then Some(i) else best;
      if close(scores[i]) then best' else ScanFrom(scores, close, i + 1, bestScore', best')
  }

  /** The position `find_best_machine` returns, starting from score 0 and no match. */
  function BestIndex(scores: seq<real>, close: UpperBoundTest): (r: Option<nat>)
    ensures |scores| == 0 ==> r == None
    ensures r.Some? ==> r.value < |scores| && scores[r.value] > 0.0
  {
    var r := ScanFrom(scores, close, 0, 0.0, None);
    BestIndexIsFirstMaximum(scores, close);
    r
  }

  /** `n` is how many entries the scan reads: every one up to and including
      the first whose score is close to the upper bound, or all of them. */
  ghost predicate IsExamined(scores: seq<real>, close: UpperBoundTest, n: nat) {
    n <= |scores|
    && (forall j :: 0 <= j < n - 1 ==> !close(scores[j]))
    && (n < |scores| ==> 0 < n && close(scores[n - 1]))
  }

  /** The number of entries read when the scan starts at `i` with nothing
      close to the upper bound before `i`. */
  function ExaminedFrom(scores: seq<real>, close: UpperBoundTest, i: nat): (n: nat)
    requires i <= |scores|
    requires forall j :: 0 <= j < i ==> !close(scores[j])
    ensures i <= n && IsExamined(scores, close, n)
    decreases |scores| - i
  {
    if i == |scores| then i
    else if close(scores[i]) then i + 1
    else ExaminedFrom(scores, close, i + 1)
  }

  function Examined(scores: seq<real>, close: UpperBoundTest): (n: nat)
    ensures IsExamined(scores, close, n)
  {
    ExaminedFrom(scores, close, 0)
  }

  /** Position `k` holds the first highest score among the first `n` entries,
      and that score is strictly positive. */
  ghost predicate IsFirstBest(scores: seq<real>, n: nat, k: nat) {
    k < n <= |scores|
    && scores[k] > 0.0
    && (forall j :: 0 <= j < n ==> scores[j] <= scores[k])
    && (forall j :: 0 <= j < k ==> scores[j] < scores[k])
  }

  /** What the scan's two variables mean after reading the first `i` entries. */
  ghost predicate ScanInvariant(scores: seq<real>, i: nat, bestScore: real, best: Option<nat>) {
    i <= |scores|
    && (best.None? ==> bestScore == 0.0 && forall j :: 0 <= j < i ==> scores[j] <= 0.0)
    && (best.Some? ==> IsFirstBest(scores, i, best.value) && bestScore == scores[best.value])
  }

  lemma {:induction false} ScanFromResult(
    scores: seq<real>, close: UpperBoundTest, n: nat, i: nat, bestScore: real, best: Option<nat>)
    requires IsExamined(scores, close, n)
    requires i <= n && (i == n ==> n == |scores|)
    requires ScanInvariant(scores, i, bestScore, best)
    ensures var r := ScanFrom(scores, close, i, bestScore, best);
      (r.None? <==> forall j :: 0 <= j < n ==> scores[j] <= 0.0)
      && (r.Some? ==> IsFirstBest(scores, n, r.value))
    decreases |scores| - i
  {
    if i < |scores| {
      var better := scores[i] > bestScore;
      var bestScore' := if better then scores[i] else bestScore;
      var best' := if better then Some(i) else best;
      assert ScanInvariant(scores, i + 1, bestScore', best');
      if !close(scores[i]) {
        ScanFromResult(scores, close, n, i + 1, bestScore', best');
      }
    }
  }

  /** The result of the scan: `None` exactly when no examined entry scores
      above 0, and otherwise the first of the examined entries with the
      highest score (a tie goes to the earlier entry). */
  lemma BestIndexIsFirstMaximum(scores: seq<real>, close: UpperBoundTest)
    ensures var n := Examined(scores, close);
      var r := ScanFrom(scores, close, 0, 0.0, None);
      (r.None? <==> forall j :: 0 <= j < n ==> scores[j] <= 0.0)
      && (r.Some? ==> IsFirstBest(scores, n, r.value))
  {
    ScanFromResult(scores, close, Examined(scores, close), 0, 0.0, None);
  }

  /** At most one position is the first highest positive score. */
  lemma FirstBestUnique(scores: seq<real>, n: nat, k1: nat, k2: nat)
    requires IsFirstBest(scores, n, k1) && IsFirstBest(scores, n, k2)
    ensures k1 == k2
  {
  }

  lemma {:induction false} ScanFromSamePrefix(
    s: seq<real>, t: seq<real>, close: UpperBoundTest, c: nat, i: nat, bestScore: real, best: Option<nat>)
    requires c < |s| && c < |t| && s[..c + 1] == t[..c + 1] && close(s[c])
    requires i <= c
    ensures ScanFrom(s, close, i, bestScore, best) == ScanFrom(t, close, i, bestScore, best)
    decreases c - i
  {
    assert s[i] == s[..c + 1][i] == t[..c + 1][i] == t[i];
    if i < c {
      var better := s[i] > bestScore;
      ScanFromSamePrefix(s, t, close, c, i + 1,
        if better then s[i] else bestScore, if better then Some(i) else best);
    }
  }

  /** The scan stops right after an entry whose score is close to the upper
      bound: what follows that entry is never read and cannot change the result. */
  lemma LaterEntriesIgnored(scores: seq<real>, rest: seq<real>, close: UpperBoundTest, c: nat)
    requires c < |scores| && close(scores[c])
    ensures BestIndex(scores, close) == BestIndex(scores[..c + 1] + rest, close)
  {
    var t := scores[..c + 1] + rest;
    assert t[..c + 1] == scores[..c + 1];
    ScanFromSamePrefix(scores, t, close, c, 0, 0.0, None);
  }

  /** A test that never fires: the scan then reads every entry. */
  function NeverClose(score: real): (r: bool) {
    false
  }

  /** Without an early exit the result is the first overall maximum, or `None`
      when every score is at most 0. */
  lemma FullScanIsFirstMaximum(scores: seq<real>)
    ensures var r := BestIndex(scores, NeverClose);
      (r.None? <==> forall j :: 0 <= j < |scores| ==> scores[j] <= 0.0)
      && (r.Some? ==> IsFirstBest(scores, |scores|, r.value))
  {
    BestIndexIsFirstMaximum(scores, NeverClose);
  }

  /** The early exit is only a short cut: when no entry after the first one
      close to the upper bound scores higher than it, stopping there gives
      what scanning every entry would. */
  lemma EarlyExitAgreesWithFullScan(scores: seq<real>, close: UpperBoundTest, c: nat)
    requires c < |scores| && close(scores[c])
    requires forall j :: 0 <= j < c ==> !close(scores[j])
    requires forall j :: c < j < |scores| ==> scores[j] <= scores[c]
    ensures BestIndex(scores, close) == BestIndex(scores, NeverClose)
  {
    var n := Examined(scores, close);
    assert n == c + 1;
    BestIndexIsFirstMaximum(scores, close);
    FullScanIsFirstMaximum(scores);
    var early := BestIndex(scores, close);
    var full := BestIndex(scores, NeverClose);
    if early.Some? {
      assert IsFirstBest(scores, |scores|, early.value);
      FirstBestUnique(scores, |scores|, early.value, full.value);
    } else {
      assert scores[c] <= 0.0;
    }
  }

  /** `iter().any(...)` over the scores: some score is strictly above `threshold`. */
  function AnyExceeds(scores: seq<real>, threshold: real): (r: bool)
    ensures r <==> exists j :: 0 <= j < |scores| && scores[j] > threshold
  {
    if scores == [] then false
    else scores[0] > threshold || AnyExceeds(scores[1..], threshold)
  }
}
