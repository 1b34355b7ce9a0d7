/** The integer evaluation formulas of TEDPLUS: calculate_accuracy, the poison accuracy,
    and the confusion counts with the true and false positive rates. The outlier detector
    that produces the predicted flags is not modelled; its flags are an input. */
module Evaluation {
  import opened Wrappers
  import opened RankTransformer

  /** torch.sum(a == b): the positions where the two vectors agree. */
  function CountEqual(a: seq<int>, b: seq<int>): (n: nat)
    requires |a| == |b|
    ensures n <= |a|
  {
    if |a| == 0 then 0
    else CountEqual(a[..|a| - 1], b[..|b| - 1]) + (if a[|a| - 1] == b[|b| - 1] then 1 else 0)
  }

  /** All positions agree exactly when the count reaches the length. */
  lemma {:induction false} CountEqualFull(a: seq<int>, b: seq<int>)
    requires |a| == |b|
    ensures CountEqual(a, b) == |a| <==> forall i :: 0 <= i < |a| ==> a[i] == b[i]
  {
    if |a| > 0 {
      var n := |a| - 1;
      CountEqualFull(a[..n], b[..n]);
      assert forall i :: 0 <= i < n ==> a[..n][i] == a[i] && b[..n][i] == b[i];
    }
  }

  /** No position agrees exactly when the count is zero. */
  lemma {:induction false} CountEqualNone(a: seq<int>, b: seq<int>)
    requires |a| == |b|
    ensures CountEqual(a, b) == 0 <==> forall i :: 0 <= i < |a| ==> a[i] != b[i]
  {
    if |a| > 0 {
      var n := |a| - 1;
      CountEqualNone(a[..n], b[..n]);
      assert forall i :: 0 <= i < n ==> a[..n][i] == a[i] && b[..n][i] == b[i];
    }
  }

  /** calculate_accuracy: 0.0 on empty labels, otherwise the percentage of agreeing positions. */
  function CalculateAccuracy(oriLabels: seq<int>, preds: seq<int>): (acc: real)
    requires |oriLabels| == |preds|
    ensures 0.0 <= acc <= 100.0
    ensures |oriLabels| == 0 ==> acc == 0.0
    ensures |oriLabels| > 0 ==> acc * |oriLabels| as real == 100.0 * CountEqual(oriLabels, preds) as real
  {
    if |oriLabels| == 0 then 0.0
    else (CountEqual(oriLabels, preds) as real / |oriLabels| as real) * 100.0
  }

  /** The accuracy is 100 exactly when the labels are non-empty and every prediction is right. */
  lemma AccuracyPerfectIff(oriLabels: seq<int>, preds: seq<int>)
    requires |oriLabels| == |preds|
    ensures CalculateAccuracy(oriLabels, preds) == 100.0 <==>
            |oriLabels| > 0 && forall i :: 0 <= i < |oriLabels| ==> oriLabels[i] == preds[i]
  {
    CountEqualFull(oriLabels, preds);
    var acc := CalculateAccuracy(oriLabels, preds);
    if |oriLabels| > 0 && acc == 100.0 {
      assert 100.0 * |oriLabels| as real == 100.0 * CountEqual(oriLabels, preds) as real;
    }
  }

  /** The accuracy on the poison set: the share of predictions equal to the target class.
      An empty poison set divides by zero. */
  function PoisonAccuracy(poisonPreds: seq<int>, target: int): (r: Result<real>)
    ensures r.Err? <==> |poisonPreds| == 0
    ensures r.Ok? ==> 0.0 <= r.value <= 100.0
  {
    if |poisonPreds| == 0 then Err(ZeroDivision)
    else
      var poisonGT := seq(|poisonPreds|, _ => target);
      Ok((CountEqual(poisonGT, poisonPreds) as real / |poisonPreds| as real) * 100.0)
  }

  /** The poison accuracy is 0 exactly when no poisoned input reaches the target class. */
  lemma PoisonAccuracyZeroIff(poisonPreds: seq<int>, target: int)
    requires |poisonPreds| > 0
    ensures PoisonAccuracy(poisonPreds, target).value == 0.0 <==> forall i :: 0 <= i < |poisonPreds| ==> poisonPreds[i] != target
  {
    var poisonGT := seq(|poisonPreds|, _ => target);
    CountEqualNone(poisonGT, poisonPreds);
  }

  // ---------------------------------------------------------------- detection rates

  /** is_poison_mask: the unknown rows whose label is the poison group. */
  function IsPoisonMask(labels: seq<Tag>): (mask: seq<bool>)
    ensures |mask| == |labels|
    ensures forall i :: 0 <= i < |labels| ==> (mask[i] <==> labels[i] == PoisonTag)
  {
    seq(|labels|, i requires 0 <= i < |labels| => labels[i] == PoisonTag)
  }

  datatype Confusion = Confusion(tn: nat, fp: nat, fn: nat, tp: nat)

  /** The positions whose truth is t and whose prediction is p. */
  function CountPair(truth: seq<bool>, pred: seq<bool>, t: bool, p: bool): (n: nat)
    requires |truth| == |pred|
    ensures n <= |truth|
  {
    if |truth| == 0 then 0
    else
      var k := |truth| - 1;
      CountPair(truth[..k], pred[..k], t, p) + (if truth[k] == t && pred[k] == p then 1 else 0)
  }

  /** Some position of either vector holds v. */
  predicate Occurs(truth: seq<bool>, pred: seq<bool>, v: bool)
  {
    v in truth || v in pred
  }

  /** confusion_matrix(truth, pred).ravel() unpacked into tn, fp, fn, tp: the matrix is 2x2
      only when both classes occur among truth and prediction; otherwise the unpacking of
      fewer than four counts raises. */
  function ConfusionCounts(truth: seq<bool>, pred: seq<bool>): (r: Result<Confusion>)
    requires |truth| == |pred|
    ensures r.Ok? <==> Occurs(truth, pred, false) && Occurs(truth, pred, true)
  {
    if Occurs(truth, pred, false) && Occurs(truth, pred, true) then
      Ok(Confusion(CountPair(truth, pred, false, false), CountPair(truth, pred, false, true),
                   CountPair(truth, pred, true, false), CountPair(truth, pred, true, true)))
    else Err(ConfusionShape)
  }

  /** The four counts partition the positions. */
  lemma {:induction false} CountPairsTotal(truth: seq<bool>, pred: seq<bool>)
    requires |truth| == |pred|
    ensures CountPair(truth, pred, false, false) + CountPair(truth, pred, false, true) +
            CountPair(truth, pred, true, false) + CountPair(truth, pred, true, true) == |truth|
  {
    if |truth| > 0 {
      var k := |truth| - 1;
      CountPairsTotal(truth[..k], pred[..k]);
    }
  }

  lemma ConfusionTotal(truth: seq<bool>, pred: seq<bool>)
    requires |truth| == |pred| && ConfusionCounts(truth, pred).Ok?
    ensures var c := ConfusionCounts(truth, pred).value; c.tn + c.fp + c.fn + c.tp == |truth|
  {
    CountPairsTotal(truth, pred);
  }

  /** num / den, or 0 when the denominator is 0. */
  function Rate(num: nat, den: nat): (r: real)
    requires num <= den
    ensures 0.0 <= r <= 1.0
    ensures den == 0 ==> r == 0.0
    ensures den > 0 ==> r * den as real == num as real
  {
    if den > 0 then num as real / den as real else 0.0
  }

  /** TPR: the share of poisoned rows flagged. */
  function TPR(c: Confusion): (r: real)
    ensures 0.0 <= r <= 1.0
  {
    Rate(c.tp, c.tp + c.fn)
  }

  /** FPR: the share of clean rows flagged. */
  function FPR(c: Confusion): (r: real)
    ensures 0.0 <= r <= 1.0
  {
    Rate(c.fp, c.fp + c.tn)
  }

  /** With poisoned rows present, TPR is 1 exactly when none is missed. */
  lemma TprPerfectIff(c: Confusion)
    requires c.tp + c.fn > 0
    ensures TPR(c) == 1.0 <==> c.fn == 0
  {
    var r := TPR(c);
    assert r * (c.tp + c.fn) as real == c.tp as real;
  }

  /** With clean rows present, FPR is 0 exactly when none is flagged. */
  lemma FprZeroIff(c: Confusion)
    requires c.fp + c.tn > 0
    ensures FPR(c) == 0.0 <==> c.fp == 0
  {
    var r := FPR(c);
    assert r * (c.fp + c.tn) as real == c.fp as real;
  }
}
