/** The training-sample builder: prefix sums in place of window scans, and a split that shares no label bar. */
module Samples {
  import opened Domain

  const CONTEXT_BARS := 96
  const HORIZON_BARS := 6
  /** 300 s in nanoseconds. */
  const BAR := 300_000_000_000

  datatype Split = Train | Validation | Test

  datatype Sample = Sample(split: Split, cutoff: nat, contextStart: nat, targetEnd: nat)

  /** The frame's timestamps, and for each row whether all its features are finite. */
  datatype Bars = Bars(times: seq<int>, finite: seq<bool>)

  type Frame = b: Bars | |b.times| == |b.finite| witness Bars([], [])

  // ---- the naive scan ----

  ghost predicate Contiguous(b: Frame, from: nat, to: nat)
    requires from <= to < |b.times|
  {
    forall e | from <= e < to :: b.times[e + 1] - b.times[e] == BAR
  }

  ghost predicate FiniteContext(b: Frame, from: nat, to: nat)
    requires from <= to < |b.times|
  {
    forall i | from <= i <= to :: b.finite[i]
  }

  predicate IsCutoff(b: Frame, cutoff: nat) {
    CONTEXT_BARS - 1 <= cutoff && cutoff + HORIZON_BARS < |b.times|
  }

  predicate InTrain(b: Frame, cutoff: nat, trainEnd: int)
    requires IsCutoff(b, cutoff)
  {
    b.times[cutoff + HORIZON_BARS] <= trainEnd
  }

  predicate InValidation(b: Frame, cutoff: nat, trainEnd: int, validationEnd: int)
    requires IsCutoff(b, cutoff)
  {
    trainEnd < b.times[cutoff] && b.times[cutoff + HORIZON_BARS] <= validationEnd
  }

  predicate InTest(b: Frame, cutoff: nat, validationEnd: int)
    requires IsCutoff(b, cutoff)
  {
    validationEnd < b.times[cutoff]
  }

  /** The whole window is evenly spaced, the context is finite, and no boundary falls inside the target. */
  ghost predicate Keeps(b: Frame, cutoff: nat, trainEnd: int, validationEnd: int) {
    && IsCutoff(b, cutoff)
    && Contiguous(b, cutoff - CONTEXT_BARS + 1, cutoff + HORIZON_BARS)
    && FiniteContext(b, cutoff - CONTEXT_BARS + 1, cutoff)
    && (InTrain(b, cutoff, trainEnd) || InValidation(b, cutoff, trainEnd, validationEnd)
        || InTest(b, cutoff, validationEnd))
  }

  function SplitOf(b: Frame, cutoff: nat, trainEnd: int, validationEnd: int): Split
    requires IsCutoff(b, cutoff)
  {
    if InTrain(b, cutoff, trainEnd) then Train
    else if InValidation(b, cutoff, trainEnd, validationEnd) then Validation
    else Test
  }

  function SampleAt(b: Frame, cutoff: nat, trainEnd: int, validationEnd: int): Sample
    requires IsCutoff(b, cutoff)
  {
    Sample(SplitOf(b, cutoff, trainEnd, validationEnd), cutoff, cutoff - CONTEXT_BARS + 1, cutoff + HORIZON_BARS)
  }

  // ---- prefix sums ----

  function BadBefore(bad: seq<bool>, n: nat): nat
    requires n <= |bad|
  {
    if n == 0 then 0 else BadBefore(bad, n - 1) + (if bad[n - 1] then 1 else 0)
  }

  /** A difference of two prefix sums is zero exactly when nothing in between is bad. */
  lemma {:induction false} NoneBadBetween(bad: seq<bool>, from: nat, upTo: nat)
    requires from <= upTo <= |bad|
    ensures BadBefore(bad, from) <= BadBefore(bad, upTo)
    ensures BadBefore(bad, upTo) - BadBefore(bad, from) == 0 <==> (forall i | from <= i < upTo :: !bad[i])
    decreases upTo
  {
    if from < upTo { NoneBadBetween(bad, from, upTo - 1); }
  }

  ghost predicate ArePrefixSums(prefix: array<int>, bad: seq<bool>)
    reads prefix
  {
    prefix.Length == |bad| + 1 && forall i | 0 <= i <= |bad| :: prefix[i] == BadBefore(bad, i)
  }

  /** `np.concatenate(([0], np.cumsum(bad)))`. */
  method PrefixSums(bad: seq<bool>) returns (prefix: array<int>)
    ensures fresh(prefix) && ArePrefixSums(prefix, bad)
  {
    prefix := new int[|bad| + 1];
    prefix[0] := 0;
    for i := 0 to |bad|
      invariant forall k | 0 <= k <= i :: prefix[k] == BadBefore(bad, k)
    {
      prefix[i + 1] := prefix[i] + (if bad[i] then 1 else 0);
    }
  }

  function BadEdges(b: Frame): (bad: seq<bool>)
    requires |b.times| > 0
    ensures |bad| == |b.times| - 1
  {
    seq(|b.times| - 1, i requires 0 <= i < |b.times| - 1 => b.times[i + 1] - b.times[i] != BAR)
  }

  function BadRows(b: Frame): seq<bool> {
    seq(|b.times|, i requires 0 <= i < |b.times| => !b.finite[i])
  }

  lemma EdgeTestIsScan(b: Frame, start: nat, end: nat)
    requires start <= end < |b.times|
    ensures BadBefore(BadEdges(b), end) - BadBefore(BadEdges(b), start) == 0 <==> Contiguous(b, start, end)
  {
    NoneBadBetween(BadEdges(b), start, end);
    assert forall e | start <= e < end :: BadEdges(b)[e] <==> b.times[e + 1] - b.times[e] != BAR;
  }

  lemma FeatureTestIsScan(b: Frame, start: nat, end: nat)
    requires start <= end < |b.times|
    ensures BadBefore(BadRows(b), end + 1) - BadBefore(BadRows(b), start) == 0 <==> FiniteContext(b, start, end)
  {
    NoneBadBetween(BadRows(b), start, end + 1);
    assert forall i | start <= i < end + 1 :: BadRows(b)[i] <==> !b.finite[i];
  }

  // ---- the builder ----

  ghost predicate Ascending(kept: seq<nat>) {
    forall i, j | 0 <= i < j < |kept| :: kept[i] < kept[j]
  }

  /** Exactly the cutoffs the naive scan keeps, in order. */
  ghost predicate Selected(b: Frame, kept: seq<nat>, below: nat, trainEnd: int, validationEnd: int) {
    && Ascending(kept)
    && forall c: nat :: c in kept <==> c < below && Keeps(b, c, trainEnd, validationEnd)
  }

  lemma SelectedNext(b: Frame, kept: seq<nat>, c: nat, next: seq<nat>, trainEnd: int, validationEnd: int)
    requires Selected(b, kept, c, trainEnd, validationEnd)
    requires next == if Keeps(b, c, trainEnd, validationEnd) then kept + [c] else kept
    ensures Selected(b, next, c + 1, trainEnd, validationEnd)
  {
    forall i | 0 <= i < |kept| ensures kept[i] < c { assert kept[i] in kept; }
    forall x: nat ensures x in next <==> x < c + 1 && Keeps(b, x, trainEnd, validationEnd) {
      assert x in kept <==> x < c && Keeps(b, x, trainEnd, validationEnd);
      assert x in next <==> x in kept || (x == c && Keeps(b, c, trainEnd, validationEnd));
    }
  }

  /** The three masks at one cutoff, from the prefix sums. */
  method IsValid(b: Frame, edgePrefix: array<int>, featurePrefix: array<int>, cutoff: nat, trainEnd: int,
                 validationEnd: int)
    returns (valid: bool)
    requires IsCutoff(b, cutoff) && ArePrefixSums(edgePrefix, BadEdges(b)) && ArePrefixSums(featurePrefix, BadRows(b))
    ensures valid == Keeps(b, cutoff, trainEnd, validationEnd)
  {
    var start, end := cutoff - CONTEXT_BARS + 1, cutoff + HORIZON_BARS;
    var contiguous := edgePrefix[end] - edgePrefix[start] == 0;
    var validFeatures := featurePrefix[cutoff + 1] - featurePrefix[start] == 0;
    var validSplit := InTrain(b, cutoff, trainEnd) || InValidation(b, cutoff, trainEnd, validationEnd)
                      || InTest(b, cutoff, validationEnd);
    EdgeTestIsScan(b, start, end);
    FeatureTestIsScan(b, start, cutoff);
    valid := contiguous && validFeatures && validSplit;
  }

  method SelectCutoffs(b: Frame, trainEnd: int, validationEnd: int) returns (kept: seq<nat>)
    requires |b.times| >= CONTEXT_BARS + HORIZON_BARS
    ensures Selected(b, kept, |b.times|, trainEnd, validationEnd)
  {
    var edgePrefix := PrefixSums(BadEdges(b));
    var featurePrefix := PrefixSums(BadRows(b));
    kept := [];
    var cutoff := CONTEXT_BARS - 1;
    while cutoff < |b.times| - HORIZON_BARS
      invariant CONTEXT_BARS - 1 <= cutoff <= |b.times| - HORIZON_BARS
      invariant ArePrefixSums(edgePrefix, BadEdges(b)) && ArePrefixSums(featurePrefix, BadRows(b))
      invariant Selected(b, kept, cutoff, trainEnd, validationEnd)
    {
      var valid := IsValid(b, edgePrefix, featurePrefix, cutoff, trainEnd, validationEnd);
      ghost var before := kept;
      if valid {
        kept := kept + [cutoff];
      }
      SelectedNext(b, before, cutoff, kept, trainEnd, validationEnd);
      cutoff := cutoff + 1;
    }
  }

  /** Fill with "test", then overwrite the validation rows, then the training rows. */
  method AssignSplits(b: Frame, kept: seq<nat>, trainEnd: int, validationEnd: int) returns (split: array<Split>)
    requires forall c | c in kept :: IsCutoff(b, c)
    ensures fresh(split) && split.Length == |kept|
    ensures forall i | 0 <= i < |kept| :: split[i] == SplitOf(b, kept[i], trainEnd, validationEnd)
  {
    split := new Split[|kept|](i => Test);
    for i := 0 to |kept|
      invariant forall k | 0 <= k < |kept| ::
        split[k] == if k < i && InValidation(b, kept[k], trainEnd, validationEnd) then Validation else Test
    {
      if InValidation(b, kept[i], trainEnd, validationEnd) {
        split[i] := Validation;
      }
    }
    for i := 0 to |kept|
      invariant forall k | 0 <= k < |kept| ::
        split[k] == if k < i && InTrain(b, kept[k], trainEnd) then Train
                    else if InValidation(b, kept[k], trainEnd, validationEnd) then Validation else Test
    {
      if InTrain(b, kept[i], trainEnd) {
        split[i] := Train;
      }
    }
  }

  /** `build_samples`, up to the label values: the error, or one sample for every cutoff the naive scan keeps. */
  method BuildSamples(b: Frame, trainEnd: int, validationEnd: int) returns (r: Result<seq<Sample>, string>)
    ensures r.Err? <==> |b.times| < CONTEXT_BARS + HORIZON_BARS
    ensures r.Ok? ==>
      && (forall i, j | 0 <= i < j < |r.value| :: r.value[i].cutoff < r.value[j].cutoff)
      && (forall s: Sample :: s in r.value <==>
            Keeps(b, s.cutoff, trainEnd, validationEnd) && s == SampleAt(b, s.cutoff, trainEnd, validationEnd))
  {
    if |b.times| < CONTEXT_BARS + HORIZON_BARS {
      return Err("not enough bars to create training samples");
    }
    var kept := SelectCutoffs(b, trainEnd, validationEnd);
    var split := AssignSplits(b, kept, trainEnd, validationEnd);
    var samples: seq<Sample> := [];
    for i := 0 to |kept|
      invariant |samples| == i && forall c | c in kept :: IsCutoff(b, c)
      invariant forall k | 0 <= k < i :: samples[k] == SampleAt(b, kept[k], trainEnd, validationEnd)
    {
      assert kept[i] in kept;
      samples := samples + [Sample(split[i], kept[i], kept[i] - CONTEXT_BARS + 1, kept[i] + HORIZON_BARS)];
    }
    forall s: Sample | s in samples
      ensures Keeps(b, s.cutoff, trainEnd, validationEnd) && s == SampleAt(b, s.cutoff, trainEnd, validationEnd)
    {
      var k :| 0 <= k < |samples| && samples[k] == s;
      assert kept[k] in kept;
    }
    forall s: Sample | Keeps(b, s.cutoff, trainEnd, validationEnd) && s == SampleAt(b, s.cutoff, trainEnd, validationEnd)
      ensures s in samples
    {
      assert s.cutoff in kept;
      var k :| 0 <= k < |kept| && kept[k] == s.cutoff;
      assert samples[k] == s;
    }
    return Ok(samples);
  }

  // ---- no label is shared ----

  /** The times a sample's labels are read at. */
  ghost predicate IsLabelTime(b: Frame, cutoff: nat, t: int)
    requires IsCutoff(b, cutoff)
  {
    exists i | cutoff < i <= cutoff + HORIZON_BARS :: b.times[i] == t
  }

  lemma {:induction false} WindowIsEven(b: Frame, from: nat, to: nat, i: nat)
    requires from <= i <= to < |b.times| && Contiguous(b, from, to)
    ensures b.times[i] == b.times[from] + (i - from) * BAR
    decreases i - from
  {
    if from < i { WindowIsEven(b, from, to, i - 1); }
  }

  /** A kept sample's labels lie at least one bar after its cutoff and no later than its target's end. */
  lemma LabelBounds(b: Frame, cutoff: nat, t: int)
    requires IsCutoff(b, cutoff) && Contiguous(b, cutoff - CONTEXT_BARS + 1, cutoff + HORIZON_BARS)
    requires IsLabelTime(b, cutoff, t)
    ensures b.times[cutoff] + BAR <= t <= b.times[cutoff + HORIZON_BARS]
  {
    var i :| cutoff < i <= cutoff + HORIZON_BARS && b.times[i] == t;
    var from, to := cutoff - CONTEXT_BARS + 1, cutoff + HORIZON_BARS;
    WindowIsEven(b, from, to, cutoff);
    WindowIsEven(b, from, to, i);
    WindowIsEven(b, from, to, to);
  }

  ghost predicate ShareALabel(b: Frame, c: nat, c': nat, trainEnd: int, validationEnd: int) {
    && Keeps(b, c, trainEnd, validationEnd) && Keeps(b, c', trainEnd, validationEnd)
    && SplitOf(b, c, trainEnd, validationEnd) != SplitOf(b, c', trainEnd, validationEnd)
    && exists t :: IsLabelTime(b, c, t) && IsLabelTime(b, c', t)
  }

  lemma NoSharedLabel(b: Frame, c: nat, c': nat, trainEnd: int, validationEnd: int)
    requires trainEnd <= validationEnd + BAR
    ensures !ShareALabel(b, c, c', trainEnd, validationEnd)
  {
    if ShareALabel(b, c, c', trainEnd, validationEnd) {
      var t :| IsLabelTime(b, c, t) && IsLabelTime(b, c', t);
      LabelBounds(b, c, t);
      LabelBounds(b, c', t);
      assert false;
    }
  }

  /** Evenly spaced bars around a training boundary that lies more than one bar after the validation boundary. */
  function LeakingBars(trainEnd: int): Frame {
    Bars(seq(107, i => trainEnd + (i - 101) * BAR), seq(107, i => true))
  }

  lemma LeakingBarsLeak(trainEnd: int, validationEnd: int)
    requires trainEnd > validationEnd + BAR
    ensures ShareALabel(LeakingBars(trainEnd), 95, 100, trainEnd, validationEnd)
  {
    var b := LeakingBars(trainEnd);
    assert forall e | 0 <= e < 106 :: b.times[e + 1] - b.times[e] == BAR;
    assert b.times[101] == trainEnd && b.times[100] == trainEnd - BAR;
    assert b.times[95 + 6] == trainEnd && b.times[100 + 1] == trainEnd;
    assert IsLabelTime(b, 95, trainEnd) && IsLabelTime(b, 100, trainEnd);
    assert b.times[106] == trainEnd + 5 * BAR;
  }

  /** Whatever the bars, no two kept samples of different splits share a label bar: exactly when the training
    * boundary is at most one bar after the validation boundary. */
  lemma SplitsShareNoLabel(trainEnd: int, validationEnd: int)
    ensures (forall b: Frame, c: nat, c': nat :: !ShareALabel(b, c, c', trainEnd, validationEnd))
       <==> trainEnd <= validationEnd + BAR
  {
    if trainEnd <= validationEnd + BAR {
      forall b: Frame, c: nat, c': nat ensures !ShareALabel(b, c, c', trainEnd, validationEnd) {
        NoSharedLabel(b, c, c', trainEnd, validationEnd);
      }
    } else {
      LeakingBarsLeak(trainEnd, validationEnd);
    }
  }

  // ---- what is kept, at the two boundaries ----

  /** Between ordered boundaries a cutoff with an even window and a finite context is kept unless a boundary falls from
    * the cutoff on before the target's end. */
  lemma KeptExactlyOffTheBoundaries(b: Frame, c: nat, trainEnd: int, validationEnd: int)
    requires trainEnd <= validationEnd && 95 <= c && c + 6 < |b.times|
    ensures Keeps(b, c, trainEnd, validationEnd) <==>
      && (forall e | c - 95 <= e < c + 6 :: b.times[e + 1] - b.times[e] == 300_000_000_000)
      && (forall i | c - 95 <= i <= c :: b.finite[i])
      && !(b.times[c] <= trainEnd < b.times[c + 6]) && !(b.times[c] <= validationEnd < b.times[c + 6])
  {
    if Contiguous(b, c - 95, c + 6) { WindowIsEven(b, c - 95, c + 6, c); WindowIsEven(b, c - 95, c + 6, c + 6); }
  }

  /** A kept sample's window and split: 96 bars up to the cutoff and six more; TRAIN when the target ends by the training
    * boundary, TEST when it starts after the validation boundary, VALIDATION in between. */
  lemma SampleIsPlaced(b: Frame, c: nat, trainEnd: int, validationEnd: int)
    requires trainEnd <= validationEnd && Keeps(b, c, trainEnd, validationEnd)
    ensures 95 <= c && c + 6 < |b.times|
    ensures var s := SampleAt(b, c, trainEnd, validationEnd);
      && s.cutoff == c && s.contextStart == c - 95 && s.targetEnd == c + 6
      && (s.split == Train <==> b.times[c + 6] <= trainEnd)
      && (s.split == Test <==> validationEnd < b.times[c])
      && (s.split == Validation <==> trainEnd < b.times[c] && b.times[c + 6] <= validationEnd)
  {
    WindowIsEven(b, c - 95, c + 6, c);
    WindowIsEven(b, c - 95, c + 6, c + 6);
  }
}
