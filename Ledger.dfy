/** The score ledger: the bounded list of past results that `saveScore`
    keeps, and the best score, average and recent history that
    `updateStats` derives from it. */
module Ledger {
  import opened Numbers

  /** `saveScore` keeps at most this many scores. */
  const Capacity: nat := 10
  /** `updateStats` lists at most this many recent scores. */
  const HistorySize: nat := 5

  function Min(a: int, b: int): (m: int) { if a <= b then a else b }

  /** The ledger after `saveScore(cps)`: push, then keep the last ten. */
  function Saved(scores: seq<Score>, cps: Score): (r: seq<Score>)
    ensures |r| == Min(|scores| + 1, Capacity)
    ensures |r| <= Capacity && r[|r| - 1] == cps
    ensures r == (scores + [cps])[|scores| + 1 - |r|..]
  {
    var pushed := scores + [cps];
    if |pushed| > Capacity then pushed[|pushed| - Capacity..] else pushed
  }

  /** On a full ledger, saving evicts exactly the oldest score. */
  lemma SavedEvictsOldest(scores: seq<Score>, cps: Score)
    requires |scores| == Capacity
    ensures Saved(scores, cps) == scores[1..] + [cps]
  {
    assert (scores + [cps])[1..] == scores[1..] + [cps];
  }

  /** Saves every score of `cs`, oldest first, as consecutive games do. */
  function SaveAll(scores: seq<Score>, cs: seq<Score>): (r: seq<Score>)
    decreases |cs|
  {
    if cs == [] then scores else SaveAll(Saved(scores, cs[0]), cs[1..])
  }

  /** Starting from an empty ledger, any number of saves leaves exactly the
      last `min(n, 10)` scores, in the order they were saved. */
  lemma {:induction false} SaveAllKeepsLastTen(cs: seq<Score>)
    ensures SaveAll([], cs) == cs[|cs| - Min(|cs|, Capacity)..]
  {
    var empty: seq<Score> := [];
    SaveAllSuffix(empty, cs);
    assert empty + cs == cs;
  }

  lemma {:induction false} SaveAllSuffix(scores: seq<Score>, cs: seq<Score>)
    requires |scores| <= Capacity
    ensures var all := scores + cs;
            SaveAll(scores, cs) == all[|all| - Min(|all|, Capacity)..]
    decreases |cs|
  {
    var all := scores + cs;
    if cs == [] {
      assert all == scores;
    } else {
      var next := Saved(scores, cs[0]);
      var k := |scores| + 1 - |next|;
      SaveAllSuffix(next, cs[1..]);
      SavedThenRest(scores, cs, k);
    }
  }

  /** One save followed by the remaining scores is the suffix of all the
      scores that starts `k` places in, and keeps the same last ten. */
  lemma SavedThenRest(scores: seq<Score>, cs: seq<Score>, k: nat)
    requires |scores| <= Capacity && cs != []
    requires k == |scores| + 1 - |Saved(scores, cs[0])|
    ensures var all := scores + cs;
            var all' := Saved(scores, cs[0]) + cs[1..];
            && k <= |all| && all' == all[k..]
            && all'[|all'| - Min(|all'|, Capacity)..] == all[|all| - Min(|all|, Capacity)..]
  {
    var all := scores + cs;
    var pushed := scores + [cs[0]];
    assert all == pushed + cs[1..];
    var all' := Saved(scores, cs[0]) + cs[1..];
    assert all' == all[k..];
    assert k == 0 || (k == 1 && |all| > Capacity);
  }

  /** `Math.max(...scores)`, folded left as the spread call does. The best
      score is NaN exactly when some score is NaN; otherwise it is one of the
      scores and no score exceeds it. */
  function Best(scores: seq<Score>): (b: Score)
    requires |scores| > 0
    ensures b.NaN? <==> exists i :: 0 <= i < |scores| && scores[i].NaN?
    ensures !b.NaN? ==> b in scores && forall i :: 0 <= i < |scores| ==> Le(scores[i], b)
  {
    if |scores| == 1 then scores[0]
    else
      var init := scores[..|scores| - 1];
      var last := scores[|scores| - 1];
      assert scores == init + [last];
      var b := Max(Best(init), last);
      assert forall i :: 0 <= i < |init| ==> init[i] == scores[i];
      assert !b.NaN? ==> forall i :: 0 <= i < |init| ==> Le(scores[i], b) by {
        if !b.NaN? {
          forall i | 0 <= i < |init| ensures Le(scores[i], b) {
            LeTransitive(scores[i], Best(init), b);
          }
        }
      }
      b
  }

  lemma LeTransitive(a: Score, b: Score, c: Score)
    requires Le(a, b) && Le(b, c)
    ensures Le(a, c)
  {
  }

  predicate AllFinite(scores: seq<Score>) {
    forall i :: 0 <= i < |scores| ==> scores[i].Finite?
  }

  /** The sum of a list of finite scores, in real arithmetic. */
  function SumValues(scores: seq<Score>): (sum: real)
    requires AllFinite(scores)
  {
    if scores == [] then 0.0
    else SumValues(scores[..|scores| - 1]) + scores[|scores| - 1].value
  }

  /** `scores.reduce((a, b) => a + b, 0)`. */
  function Total(scores: seq<Score>): (r: Score)
    ensures r.NaN? <==> exists i :: 0 <= i < |scores| && scores[i].NaN?
    ensures r.Finite? <==> AllFinite(scores)
    ensures AllFinite(scores) ==> r == Finite(SumValues(scores))
  {
    if scores == [] then Finite(0.0)
    else
      var init := scores[..|scores| - 1];
      assert forall i :: 0 <= i < |init| ==> init[i] == scores[i];
      Add(Total(init), scores[|scores| - 1])
  }

  /** The average `updateStats` shows: the total over the ledger length. */
  function Average(scores: seq<Score>): (r: Score)
    requires |scores| > 0
    ensures r.NaN? <==> exists i :: 0 <= i < |scores| && scores[i].NaN?
    ensures r.Finite? <==> AllFinite(scores)
    ensures AllFinite(scores) ==> r == Finite(Quotient(SumValues(scores), |scores|))
  {
    Divide(Total(scores), |scores|)
  }

  /** A finite sum is bounded by the length times any upper bound. */
  lemma {:induction false} SumBelow(scores: seq<Score>, m: real)
    requires AllFinite(scores)
    requires forall i :: 0 <= i < |scores| ==> scores[i].value <= m
    ensures SumValues(scores) <= |scores| as real * m
  {
    if scores != [] {
      var n := |scores|;
      var init := scores[..n - 1];
      assert forall i :: 0 <= i < |init| ==> init[i] == scores[i];
      SumBelow(init, m);
      assert n as real * m == (n - 1) as real * m + m;
    }
  }

  /** When every score is finite the average never exceeds the best score. */
  lemma AverageAtMostBest(scores: seq<Score>)
    requires |scores| > 0
    requires AllFinite(scores)
    ensures Average(scores).Finite? && Best(scores).Finite?
    ensures Average(scores).value <= Best(scores).value
  {
    var best := Best(scores).value;
    assert forall i :: 0 <= i < |scores| ==> scores[i].value <= best;
    MeanAtMost(scores, best);
  }

  /** The average of scores bounded by `m` is at most `m`. */
  lemma MeanAtMost(scores: seq<Score>, m: real)
    requires |scores| > 0
    requires AllFinite(scores)
    requires forall i :: 0 <= i < |scores| ==> scores[i].value <= m
    ensures Average(scores).Finite? && Average(scores).value <= m
  {
    SumBelow(scores, m);
    QuotientAtMost(SumValues(scores), |scores|, m);
  }

  /** `reverse()` of a list. */
  function Reverse(s: seq<Score>): (r: seq<Score>)
    ensures |r| == |s|
    ensures forall i :: 0 <= i < |s| ==> r[i] == s[|s| - 1 - i]
  {
    if s == [] then [] else Reverse(s[1..]) + [s[0]]
  }

  /** `scores.slice(-5).reverse()`: the most recent scores, newest first. */
  function Recent(scores: seq<Score>): (r: seq<Score>)
    ensures |r| == Min(|scores|, HistorySize)
    ensures forall i :: 0 <= i < |r| ==> r[i] == scores[|scores| - 1 - i]
  {
    var from := if |scores| > HistorySize then |scores| - HistorySize else 0;
    Reverse(scores[from..])
  }

  /** What `updateStats` shows when the ledger is not empty. */
  datatype Summary = Summary(best: Score, average: Score, history: seq<Score>)

  /** `updateStats`: nothing on an empty ledger, otherwise best, average
      and recent history. */
  function Stats(scores: seq<Score>): (r: Option<Summary>)
    ensures r.None? <==> scores == []
  {
    if |scores| > 0 then Some(Summary(Best(scores), Average(scores), Recent(scores)))
    else None
  }

  /** On a ledger of finite scores the statistics are all finite: the best
      is a recorded score no other exceeds, the average is the sum over the
      length and at most the best, and the history lists the last min(n, 5)
      scores, newest first. */
  lemma StatsOfFiniteLedger(scores: seq<Score>)
    requires |scores| > 0
    requires AllFinite(scores)
    ensures Stats(scores).Some?
    ensures var s := Stats(scores).value;
      && s.best.Finite? && s.best in scores
      && (forall i :: 0 <= i < |scores| ==> scores[i].value <= s.best.value)
      && s.average.Finite?
      && s.average.value == SumValues(scores) / |scores| as real
      && s.average.value <= s.best.value
      && |s.history| == Min(|scores|, HistorySize)
      && (forall i :: 0 <= i < |s.history| ==> s.history[i] == scores[|scores| - 1 - i])
  {
    AverageAtMostBest(scores);
  }

}
