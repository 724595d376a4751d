/** Scoring a live batch of templates against the enrolled ones. The Pearson
    arithmetic itself is abstract: a `Correlator` gives, for two templates of
    equal length, either the coefficient or `Degenerate` when the coefficient's
    denominator is zero. */
module Similarity {
  import opened Profile

  datatype Correlation = Degenerate | Coefficient(r: real)

  type Correlator = (Template, Template) -> Correlation

  /** What Pearson's coefficient guarantees whenever it is defined. */
  ghost predicate BoundedCorrelator(corr: Correlator) {
    forall a: Template, b: Template :: corr(a, b).Coefficient? ==> -1.0 <= corr(a, b).r <= 1.0
  }

  const LIVE_DIVISOR: nat := 5
  const STORED_DIVISOR: nat := 10

  /** `compare_templates`: unequal lengths and a zero denominator both give 0;
      otherwise the coefficient is mapped from [-1, 1] onto [0, 1]. */
  function CompareTemplates(t1: Template, t2: Template, corr: Correlator): (s: real)
    ensures |t1| != |t2| ==> s == 0.0
    ensures corr(t1, t2).Degenerate? ==> s == 0.0
    ensures (corr(t1, t2).Degenerate? || -1.0 <= corr(t1, t2).r <= 1.0) ==> 0.0 <= s <= 1.0
    ensures s == 1.0 <==> |t1| == |t2| && corr(t1, t2) == Coefficient(1.0)
    ensures |t1| == |t2| && corr(t1, t2).Coefficient? ==> corr(t1, t2).r == 2.0 * s - 1.0
  {
    if |t1| != |t2| then 0.0
    else
      match corr(t1, t2)
      case Degenerate => 0.0
      case Coefficient(r) => (r + 1.0) / 2.0
  }

  /** `(len / divisor).max(1)`. */
  function Stride(len: nat, divisor: nat): (step: nat)
    requires divisor > 0
    ensures step >= 1
    ensures len >= divisor ==> step == len / divisor
    ensures len < divisor ==> step == 1
  {
    if len / divisor < 1 then 1 else len / divisor
  }

  /** The indices `iter().step_by(step)` visits in a sequence of length `n`,
      starting from index `from`. */
  function StepBy(n: nat, step: nat, from: nat): (idx: seq<nat>)
    requires step >= 1
    ensures forall k :: 0 <= k < |idx| ==> from <= idx[k] < n
    decreases n - from
  {
    if from >= n then [] else [from] + StepBy(n, step, from + step)
  }

  lemma {:induction false} StepByLength(n: nat, step: nat, from: nat, k: nat)
    requires step >= 1
    ensures k < |StepBy(n, step, from)| <==> from + k * step < n
    decreases n - from
  {
    if from < n && k > 0 {
      StepByLength(n, step, from + step, k - 1);
      assert from + step + (k - 1) * step == from + k * step;
    }
  }

  lemma {:induction false} StepByAt(n: nat, step: nat, from: nat, k: nat)
    requires step >= 1 && k < |StepBy(n, step, from)|
    ensures StepBy(n, step, from)[k] == from + k * step
    decreases n - from
  {
    if k > 0 {
      StepByAt(n, step, from + step, k - 1);
      assert from + step + (k - 1) * step == from + k * step;
    }
  }

  /** The visited indices are exactly the multiples of the stride below `n`. */
  lemma StepByMembers(n: nat, step: nat, i: nat)
    requires step >= 1
    ensures i in StepBy(n, step, 0) <==> i < n && i % step == 0
  {
    if i in StepBy(n, step, 0) {
      VisitedIsMultiple(n, step, i);
    }
    if i < n && i % step == 0 {
      MultipleIsVisited(n, step, i);
    }
  }

  lemma VisitedIsMultiple(n: nat, step: nat, i: nat)
    requires step >= 1 && i in StepBy(n, step, 0)
    ensures i < n && i % step == 0
  {
    var idx := StepBy(n, step, 0);
    var k :| 0 <= k < |idx| && idx[k] == i;
    StepByAt(n, step, 0, k);
    MultipleMod(k, step);
  }

  lemma MultipleIsVisited(n: nat, step: nat, i: nat)
    requires step >= 1 && i < n && i % step == 0
    ensures i in StepBy(n, step, 0)
  {
    var k := i / step;
    assert k * step == i by {
      assert i == step * (i / step) + i % step;
    }
    StepByLength(n, step, 0, k);
    StepByAt(n, step, 0, k);
  }

  lemma MultipleMod(k: nat, step: nat)
    requires step >= 1
    ensures (k * step) % step == 0
  {
    var x := k * step;
    var d := x / step - k;
    assert d * step == - (x % step);
    MulSign(d, step);
  }

  lemma MulSign(d: int, step: int)
    requires step >= 1
    ensures d >= 1 ==> d * step >= step
    ensures d <= -1 ==> d * step <= -step
  {
  }

  /** The visited indices come in increasing order. */
  lemma StepByIncreasing(n: nat, step: nat, j: nat, k: nat)
    requires step >= 1 && j < k < |StepBy(n, step, 0)|
    ensures StepBy(n, step, 0)[j] < StepBy(n, step, 0)[k]
  {
    StepByAt(n, step, 0, j);
    StepByAt(n, step, 0, k);
    MulSign(k - j, step);
    assert k * step - j * step == (k - j) * step;
  }

  function LiveSamples(batch: seq<Template>): seq<nat> {
    StepBy(|batch|, Stride(|batch|, LIVE_DIVISOR), 0)
  }

  function StoredSamples(batch: seq<Template>): seq<nat> {
    StepBy(|batch|, Stride(|batch|, STORED_DIVISOR), 0)
  }

  /** The live batch is never sampled more than 9 times. */
  lemma LiveSamplesAtMostNine(batch: seq<Template>)
    ensures |LiveSamples(batch)| <= 9
  {
    var n := |batch|;
    var step := Stride(n, LIVE_DIVISOR);
    assert 9 * step >= n;
    StepByLength(n, step, 0, 9);
  }

  /** The stored batch is never sampled more than 19 times. */
  lemma StoredSamplesAtMostNineteen(batch: seq<Template>)
    ensures |StoredSamples(batch)| <= 19
  {
    var n := |batch|;
    var step := Stride(n, STORED_DIVISOR);
    assert 19 * step >= n;
    StepByLength(n, step, 0, 19);
  }

  /** Below 10 live templates the stride is 1: every template is sampled. */
  lemma SmallLiveBatchFullySampled(batch: seq<Template>, i: nat)
    requires |batch| < 2 * LIVE_DIVISOR
    ensures i in LiveSamples(batch) <==> i < |batch|
  {
    StepByMembers(|batch|, 1, i);
  }

  /** The scores of one live template against the sampled stored templates, in visiting order. */
  function Row(t: Template, stored: seq<Template>, corr: Correlator): seq<real> {
    var idx := StoredSamples(stored);
    seq(|idx|, k requires 0 <= k < |idx| => CompareTemplates(t, stored[idx[k]], corr))
  }

  /** `best_match`: starts at 0 and is replaced by every strictly greater score,
      so it is the largest of 0 and the scores. */
  function BestMatch(scores: seq<real>): (best: real)
    ensures best >= 0.0
    ensures forall k :: 0 <= k < |scores| ==> scores[k] <= best
    ensures best == 0.0 || exists k :: 0 <= k < |scores| && best == scores[k]
  {
    if scores == [] then 0.0
    else
      var b := BestMatch(scores[..|scores| - 1]);
      var s := scores[|scores| - 1];
      if s > b then s else b
  }

  function Sum(xs: seq<real>): real {
    if xs == [] then 0.0 else Sum(xs[..|xs| - 1]) + xs[|xs| - 1]
  }

  /** The arithmetic mean; 0 for no values at all. */
  function Mean(xs: seq<real>): real {
    if xs == [] then 0.0 else Sum(xs) / (|xs| as real)
  }

  lemma {:induction false} SumBounds(xs: seq<real>, lo: real, hi: real)
    requires forall k :: 0 <= k < |xs| ==> lo <= xs[k] <= hi
    ensures (|xs| as real) * lo <= Sum(xs) <= (|xs| as real) * hi
  {
    if xs != [] {
      SumBounds(xs[..|xs| - 1], lo, hi);
    }
  }

  lemma {:induction false} SumConstant(xs: seq<real>, c: real)
    requires forall k :: 0 <= k < |xs| ==> xs[k] == c
    ensures Sum(xs) == (|xs| as real) * c
  {
    if xs != [] {
      SumConstant(xs[..|xs| - 1], c);
    }
  }

  /** The mean of values in [lo, hi] lies in [lo, hi]. */
  lemma MeanBounds(xs: seq<real>, lo: real, hi: real)
    requires xs != []
    requires forall k :: 0 <= k < |xs| ==> lo <= xs[k] <= hi
    ensures lo <= Mean(xs) <= hi
  {
    SumBounds(xs, lo, hi);
    var n := |xs| as real;
    assert n * lo / n == lo && n * hi / n == hi;
  }

  lemma MeanConstant(xs: seq<real>, c: real)
    requires forall k :: 0 <= k < |xs| ==> xs[k] == c
    ensures Mean(xs) == if xs == [] then 0.0 else c
  {
    SumConstant(xs, c);
    if xs != [] {
      var n := |xs| as real;
      assert n * c / n == c;
    }
  }

  /** The best match of every sampled live template, in visiting order. */
  function BestMatches(live: seq<Template>, stored: seq<Template>, corr: Correlator): seq<real> {
    var idx := LiveSamples(live);
    seq(|idx|, k requires 0 <= k < |idx| => BestMatch(Row(live[idx[k]], stored, corr)))
  }

  /** `compare_templates_batch`: the mean of the best matches of the sampled live
      templates. Live batch first, enrolled batch second. */
  function BatchScore(live: seq<Template>, stored: seq<Template>, corr: Correlator): real {
    Mean(BestMatches(live, stored, corr))
  }

  /** The inner loop of `compare_templates_batch`: the best score of one live
      template against the sampled stored templates. */
  method BestMatchAgainst(t1: Template, batch2: seq<Template>, corr: Correlator)
    returns (bestMatch: real)
    ensures bestMatch == BestMatch(Row(t1, batch2, corr))
  {
    var step2 := Stride(|batch2|, STORED_DIVISOR);
    ghost var stored := StoredSamples(batch2);
    ghost var row := Row(t1, batch2, corr);
    bestMatch := 0.0;
    var j: nat := 0;
    ghost var visited: nat := 0;
    StepByStart(|batch2|, step2);
    while j < |batch2|
      invariant visited <= |stored|
      invariant visited < |stored| <==> j < |batch2|
      invariant visited < |stored| ==> stored[visited] == j
      invariant bestMatch == BestMatch(row[..visited])
      decreases |batch2| - j
    {
      var score := CompareTemplates(t1, batch2[j], corr);
      assert score == row[visited];
      BestMatchStep(row, visited);
      if score > bestMatch {
        bestMatch := score;
      }
      StepByAdvance(|batch2|, step2, visited);
      j := j + step2;
      visited := visited + 1;
    }
    assert row[..visited] == row;
  }

  /** `compare_templates_batch`, loop for loop. */
  method CompareTemplatesBatch(batch1: seq<Template>, batch2: seq<Template>, corr: Correlator)
    returns (similarity: real)
    ensures similarity == BatchScore(batch1, batch2, corr)
  {
    var totalScore := 0.0;
    var count: nat := 0;
    var step1 := Stride(|batch1|, LIVE_DIVISOR);
    ghost var live := LiveSamples(batch1);
    ghost var bests := BestMatches(batch1, batch2, corr);
    var i: nat := 0;
    StepByStart(|batch1|, step1);
    while i < |batch1|
      invariant count <= |live|
      invariant count < |live| <==> i < |batch1|
      invariant count < |live| ==> live[count] == i
      invariant totalScore == Sum(bests[..count])
      decreases |batch1| - i
    {
      var bestMatch := BestMatchAgainst(batch1[i], batch2, corr);
      assert bests[count] == bestMatch;
      SumStep(bests, count);
      totalScore := totalScore + bestMatch;
      StepByAdvance(|batch1|, step1, count);
      count := count + 1;
      i := i + step1;
    }
    assert bests[..count] == bests;
    similarity := if count == 0 then 0.0 else totalScore / (count as real);
  }

  /** One more score seen by the inner loop. */
  lemma BestMatchStep(scores: seq<real>, k: nat)
    requires k < |scores|
    ensures BestMatch(scores[..k + 1])
         == if scores[k] > BestMatch(scores[..k]) then scores[k] else BestMatch(scores[..k])
  {
    assert scores[..k + 1][..k] == scores[..k];
  }

  /** One more best match added up by the outer loop. */
  lemma SumStep(xs: seq<real>, k: nat)
    requires k < |xs|
    ensures Sum(xs[..k + 1]) == Sum(xs[..k]) + xs[k]
  {
    assert xs[..k + 1][..k] == xs[..k];
  }

  /** `step_by` starts at index 0 whenever there is one. */
  lemma StepByStart(n: nat, step: nat)
    requires step >= 1
    ensures 0 < |StepBy(n, step, 0)| <==> 0 < n
    ensures 0 < n ==> StepBy(n, step, 0)[0] == 0
  {
  }

  /** `step_by` moves on by one stride, and stops once it passes the end. */
  lemma StepByAdvance(n: nat, step: nat, k: nat)
    requires step >= 1 && k < |StepBy(n, step, 0)|
    ensures k + 1 < |StepBy(n, step, 0)| <==> StepBy(n, step, 0)[k] + step < n
    ensures k + 1 < |StepBy(n, step, 0)| ==> StepBy(n, step, 0)[k + 1] == StepBy(n, step, 0)[k] + step
  {
    StepByAt(n, step, 0, k);
    StepByLength(n, step, 0, k + 1);
    assert (k + 1) * step == k * step + step;
    if k + 1 < |StepBy(n, step, 0)| {
      StepByAt(n, step, 0, k + 1);
    }
  }

  /** Nine live templates give nine samples. */
  lemma NineLiveTemplatesNineSamples(batch: seq<Template>)
    requires |batch| == 9
    ensures |LiveSamples(batch)| == 9
  {
    StepByLength(9, 1, 0, 8);
    StepByLength(9, 1, 0, 9);
  }

  /** An empty live batch scores 0. */
  lemma EmptyLiveBatchScoresZero(stored: seq<Template>, corr: Correlator)
    ensures BatchScore([], stored, corr) == 0.0
  {
    StepByStart(0, 1);
  }

  /** An empty enrolled batch scores 0 too: every best match stays at 0. */
  lemma EmptyStoredBatchScoresZero(live: seq<Template>, corr: Correlator)
    ensures BatchScore(live, [], corr) == 0.0
  {
    var bests := BestMatches(live, [], corr);
    StepByStart(0, 1);
    forall k | 0 <= k < |bests| ensures bests[k] == 0.0 {
      assert Row(live[LiveSamples(live)[k]], [], corr) == [];
    }
    MeanConstant(bests, 0.0);
  }

  /** The best match of a sampled live template is at least every score it was
      compared with, is never negative, and is 0 or one of those scores. */
  lemma BestMatchDominates(live: seq<Template>, stored: seq<Template>, corr: Correlator, k: nat, m: nat)
    requires k < |LiveSamples(live)| && m < |StoredSamples(stored)|
    ensures var best := BestMatches(live, stored, corr)[k];
      var t := live[LiveSamples(live)[k]];
      && best >= 0.0
      && best >= CompareTemplates(t, stored[StoredSamples(stored)[m]], corr)
      && (best == 0.0 || exists q :: 0 <= q < |StoredSamples(stored)|
                          && best == CompareTemplates(t, stored[StoredSamples(stored)[q]], corr))
  {
    var t := live[LiveSamples(live)[k]];
    var row := Row(t, stored, corr);
    assert row[m] == CompareTemplates(t, stored[StoredSamples(stored)[m]], corr);
    var best := BestMatch(row);
    if best != 0.0 {
      var q :| 0 <= q < |row| && best == row[q];
      assert row[q] == CompareTemplates(t, stored[StoredSamples(stored)[q]], corr);
    }
  }

  /** With a well-behaved correlator the batch score lies in [0, 1]. */
  lemma BatchScoreInUnitInterval(live: seq<Template>, stored: seq<Template>, corr: Correlator)
    requires BoundedCorrelator(corr)
    ensures 0.0 <= BatchScore(live, stored, corr) <= 1.0
  {
    var bests := BestMatches(live, stored, corr);
    forall k | 0 <= k < |bests| ensures 0.0 <= bests[k] <= 1.0 {
      var row := Row(live[LiveSamples(live)[k]], stored, corr);
      var best := BestMatch(row);
      if best != 0.0 {
        var q :| 0 <= q < |row| && best == row[q];
      }
    }
    if bests != [] {
      MeanBounds(bests, 0.0, 1.0);
    }
  }

  /** Batches made of one template each score that template's self-score. */
  lemma UniformBatchesScore(live: seq<Template>, stored: seq<Template>, t: Template, corr: Correlator)
    requires live != [] && stored != []
    requires BoundedCorrelator(corr)
    requires forall k :: 0 <= k < |live| ==> live[k] == t
    requires forall k :: 0 <= k < |stored| ==> stored[k] == t
    ensures BatchScore(live, stored, corr) == CompareTemplates(t, t, corr)
  {
    var s := CompareTemplates(t, t, corr);
    var bests := BestMatches(live, stored, corr);
    StepByStart(|stored|, Stride(|stored|, STORED_DIVISOR));
    StepByStart(|live|, Stride(|live|, LIVE_DIVISOR));
    forall k | 0 <= k < |bests| ensures bests[k] == s {
      var row := Row(live[LiveSamples(live)[k]], stored, corr);
      assert forall q :: 0 <= q < |row| ==> row[q] == s;
      var best := BestMatch(row);
      if best != 0.0 {
        var q :| 0 <= q < |row| && best == row[q];
      }
    }
    MeanConstant(bests, s);
  }

  /** Fewer than 20 enrolled templates are all sampled, so a batch scored against
      itself finds every live sample's own copy: with perfect self-correlation
      the score is 1. */
  lemma SmallBatchAgainstItselfScoresOne(batch: seq<Template>, corr: Correlator)
    requires 0 < |batch| < 2 * STORED_DIVISOR
    requires BoundedCorrelator(corr)
    requires forall k :: 0 <= k < |batch| ==> corr(batch[k], batch[k]) == Coefficient(1.0)
    ensures BatchScore(batch, batch, corr) == 1.0
  {
    var bests := BestMatches(batch, batch, corr);
    var stored := StoredSamples(batch);
    StepByStart(|batch|, Stride(|batch|, LIVE_DIVISOR));
    forall k | 0 <= k < |bests| ensures bests[k] == 1.0 {
      var i := LiveSamples(batch)[k];
      var row := Row(batch[i], batch, corr);
      StepByLength(|batch|, 1, 0, i);
      StepByAt(|batch|, 1, 0, i);
      assert row[i] == 1.0;
      var best := BestMatch(row);
      if best != 0.0 {
        var q :| 0 <= q < |row| && best == row[q];
      }
    }
    MeanConstant(bests, 1.0);
  }

  /** A correlator that only recognises identical templates. */
  function ExactMatch(x: Template, y: Template): Correlation {
    if x == y then Coefficient(1.0) else Coefficient(-1.0)
  }

  /** The score is not symmetric in its two batches: with two distinct templates
      live and one enrolled, swapping the batches changes the result. */
  lemma BatchScoreAsymmetric(a: Template, b: Template)
    requires |a| == |b| && a != b
    ensures BatchScore([a, b], [a], ExactMatch) == 0.5
    ensures BatchScore([a], [a, b], ExactMatch) == 1.0
  {
    TwoLiveAgainstOne(a, b);
    OneLiveAgainstTwo(a, b);
  }

  lemma TwoLiveAgainstOne(a: Template, b: Template)
    requires |a| == |b| && a != b
    ensures BatchScore([a, b], [a], ExactMatch) == 0.5
  {
    assert LiveSamples([a, b]) == [0, 1] by {
      assert StepBy(2, 1, 1) == [1];
    }
    assert StoredSamples([a]) == [0];
    var r1 := Row(a, [a], ExactMatch);
    var r2 := Row(b, [a], ExactMatch);
    assert r1 == [1.0];
    assert r2 == [0.0];
    assert BestMatch(r1) == 1.0 by {
      assert r1[..0] == [];
    }
    assert BestMatch(r2) == 0.0;
    var bests := BestMatches([a, b], [a], ExactMatch);
    assert bests == [1.0, 0.0];
    assert Sum(bests) == 1.0 by {
      assert bests[..1] == [1.0];
      assert [1.0][..0] == [];
    }
  }

  lemma OneLiveAgainstTwo(a: Template, b: Template)
    requires |a| == |b| && a != b
    ensures BatchScore([a], [a, b], ExactMatch) == 1.0
  {
    assert StoredSamples([a, b]) == [0, 1] by {
      assert StepBy(2, 1, 1) == [1];
    }
    assert LiveSamples([a]) == [0];
    var r := Row(a, [a, b], ExactMatch);
    assert r == [1.0, 0.0];
    assert BestMatch(r) == 1.0 by {
      assert r[..1] == [1.0];
      assert [1.0][..0] == [];
    }
    var bests := BestMatches([a], [a, b], ExactMatch);
    assert bests == [1.0];
    assert Sum(bests) == 1.0 by {
      assert bests[..0] == [];
    }
  }
}
