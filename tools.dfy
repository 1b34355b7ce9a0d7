/** The self-contained helpers of tools.py: the AverageMeter accumulator, top-k accuracy,
    the Cutout mask, the CelebA attribute packing and jaccard_idx. */
module Tools {
  import opened Wrappers
  import opened Sorting

  // ---------------------------------------------------------------- AverageMeter

  /** The total of value times weight over the updates given. */
  function WeightedSum(history: seq<(real, int)>): real
  {
    if |history| == 0 then 0.0
    else WeightedSum(history[..|history| - 1]) + history[|history| - 1].0 * history[|history| - 1].1 as real
  }

  /** The total weight of the updates given. */
  function TotalWeight(history: seq<(real, int)>): int
  {
    if |history| == 0 then 0 else TotalWeight(history[..|history| - 1]) + history[|history| - 1].1
  }

  /** AverageMeter: the latest value, and the running sum, count and average of the values
      given since the last reset, each weighted by its n. */
  class AverageMeter {
    var val: real
    var avg: real
    var sum: real
    var count: int
    /** The (val, n) pairs given to update since the last reset. */
    ghost var history: seq<(real, int)>

    ghost predicate Valid()
      reads this
    {
      sum == WeightedSum(history) &&
      count == TotalWeight(history) &&
      (count != 0 ==> avg == sum / count as real)
    }

    /** __init__, which calls reset. */
    constructor ()
      ensures Valid()
      ensures val == 0.0 && avg == 0.0 && sum == 0.0 && count == 0 && history == []
    {
      val, avg, sum, count := 0.0, 0.0, 0.0, 0;
      history := [];
    }

    /** reset: every statistic back to zero. */
    method Reset()
      modifies this
      ensures Valid()
      ensures val == 0.0 && avg == 0.0 && sum == 0.0 && count == 0 && history == []
    {
      val, avg, sum, count := 0.0, 0.0, 0.0, 0;
      history := [];
    }

    /** update(val, n): records the value with weight n and recomputes the average. When the
        new count is 0 the division raises after val, sum and count have changed; ok is
        then false and avg keeps its old value. */
    method Update(v: real, n: int) returns (ok: bool)
      requires Valid()
      modifies this
      ensures Valid()
      ensures history == old(history) + [(v, n)]
      ensures val == v && sum == old(sum) + v * n as real && count == old(count) + n
      ensures ok <==> count != 0
      ensures ok ==> avg == sum / count as real
      ensures !ok ==> avg == old(avg)
    {
      val := v;
      sum := sum + v * n as real;
      count := count + n;
      history := history + [(v, n)];
      if count == 0 {
        return false;
      }
      avg := sum / count as real;
      ok := true;
    }
  }

  /** Equal values average to that value, whatever their weights. */
  lemma {:induction false} ConstantHistory(history: seq<(real, int)>, v: real)
    requires forall i :: 0 <= i < |history| ==> history[i].0 == v
    ensures WeightedSum(history) == v * TotalWeight(history) as real
  {
    if |history| > 0 {
      ConstantHistory(history[..|history| - 1], v);
    }
  }

  lemma MulMonotone(a: real, b: real, f: real)
    requires a <= b && f >= 0.0
    ensures a * f <= b * f
  {
    assert (b - a) * f >= 0.0;
  }

  /** With positive weights, the weighted sum lies between the smallest and the largest
      value times the total weight. */
  lemma {:induction false} HistoryBounds(history: seq<(real, int)>, lo: real, hi: real)
    requires forall i :: 0 <= i < |history| ==> lo <= history[i].0 <= hi && history[i].1 > 0
    ensures lo * TotalWeight(history) as real <= WeightedSum(history) <= hi * TotalWeight(history) as real
  {
    if |history| > 0 {
      var k := |history| - 1;
      var prefix := history[..k];
      HistoryBounds(prefix, lo, hi);
      var (v, n) := history[k];
      var nr := n as real;
      var tw := TotalWeight(prefix) as real;
      MulMonotone(lo, v, nr);
      MulMonotone(v, hi, nr);
      var ws := WeightedSum(prefix);
      assert WeightedSum(history) == ws + v * nr;
      assert TotalWeight(history) as real == tw + nr;
      assert lo * tw <= ws <= hi * tw;
      assert lo * (tw + nr) == lo * tw + lo * nr;
      assert hi * (tw + nr) == hi * tw + hi * nr;
      assert lo * tw + lo * nr <= ws + v * nr <= hi * tw + hi * nr;
    }
  }

  /** After updates with positive weights, avg is the weighted mean of all values given, so
      it lies between the smallest and the largest of them. */
  lemma AverageWithinValues(m: AverageMeter, lo: real, hi: real)
    requires m.Valid() && |m.history| > 0
    requires forall i :: 0 <= i < |m.history| ==> lo <= m.history[i].0 <= hi && m.history[i].1 > 0
    ensures m.count > 0
    ensures lo <= m.avg <= hi
  {
    HistoryBounds(m.history, lo, hi);
    PositiveWeight(m.history);
    var c := m.count as real;
    assert lo * c <= m.sum <= hi * c;
    assert m.avg * c == m.sum;
  }

  lemma {:induction false} PositiveWeight(history: seq<(real, int)>)
    requires |history| > 0 && forall i :: 0 <= i < |history| ==> history[i].1 > 0
    ensures TotalWeight(history) > 0
  {
    if |history| > 1 {
      PositiveWeight(history[..|history| - 1]);
    }
  }

  /** After updates that all gave the same value, avg is that value. */
  lemma AverageOfConstant(m: AverageMeter, v: real)
    requires m.Valid() && m.count != 0
    requires forall i :: 0 <= i < |m.history| ==> m.history[i].0 == v
    ensures m.avg == v
  {
    ConstantHistory(m.history, v);
  }

  // ---------------------------------------------------------------- top-k accuracy

  /** The classes of one output row by decreasing score; equal scores keep the lower class
      first, one of the orders torch.topk may return. */
  function TopOrder(row: seq<real>): (order: seq<nat>)
    ensures IsPermutation(order, |row|)
    ensures forall p, q :: 0 <= p <= q < |row| ==> row[order[p]] >= row[order[q]]
  {
    var r := Argsort(seq(|row|, j requires 0 <= j < |row| => -row[j]));
    r.1
  }

  /** The number of the first k predicted classes equal to t: one column of `correct[:k]`. */
  function CorrectIn(order: seq<nat>, t: int, k: nat): nat
    requires k <= |order|
  {
    if k == 0 then 0 else CorrectIn(order, t, k - 1) + (if order[k - 1] == t then 1 else 0)
  }

  /** The predicted classes are distinct, so a sample counts at most once, exactly when its
      target is among its first k predictions. */
  lemma {:induction false} CorrectInOnce(order: seq<nat>, n: nat, t: int, k: nat)
    requires IsPermutation(order, n) && k <= |order|
    ensures CorrectIn(order, t, k) <= 1
    ensures CorrectIn(order, t, k) == 1 <==> t in order[..k]
  {
    if k > 0 {
      CorrectInOnce(order, n, t, k - 1);
      assert order[..k] == order[..k - 1] + [order[k - 1]];
    }
  }

  lemma {:induction false} CorrectInMonotone(order: seq<nat>, t: int, k1: nat, k2: nat)
    requires k1 <= k2 <= |order|
    ensures CorrectIn(order, t, k1) <= CorrectIn(order, t, k2)
    decreases k2
  {
    if k1 < k2 {
      CorrectInMonotone(order, t, k1, k2 - 1);
    }
  }

  /** Every row of the output has c scores. */
  predicate Rows(output: seq<seq<real>>, c: nat)
  {
    forall s :: 0 <= s < |output| ==> |output[s]| == c
  }

  /** `correct[:k].reshape(-1).float().sum(0)`: the samples whose target is among their
      first k predictions. */
  function Hits(output: seq<seq<real>>, target: seq<int>, k: nat, c: nat): nat
    requires |output| == |target| && Rows(output, c) && k <= c
  {
    if |target| == 0 then 0
    else
      var s := |target| - 1;
      Hits(output[..s], target[..s], k, c) + CorrectIn(TopOrder(output[s]), target[s], k)
  }

  lemma {:induction false} HitsBounded(output: seq<seq<real>>, target: seq<int>, k: nat, c: nat)
    requires |output| == |target| && Rows(output, c) && k <= c
    ensures Hits(output, target, k, c) <= |target|
  {
    if |target| > 0 {
      var s := |target| - 1;
      HitsBounded(output[..s], target[..s], k, c);
      CorrectInOnce(TopOrder(output[s]), c, target[s], k);
    }
  }

  lemma {:induction false} HitsMonotone(output: seq<seq<real>>, target: seq<int>, k1: nat, k2: nat, c: nat)
    requires |output| == |target| && Rows(output, c) && k1 <= k2 <= c
    ensures Hits(output, target, k1, c) <= Hits(output, target, k2, c)
  {
    if |target| > 0 {
      var s := |target| - 1;
      HitsMonotone(output[..s], target[..s], k1, k2, c);
      CorrectInMonotone(TopOrder(output[s]), target[s], k1, k2);
    }
  }

  /** precision@k: the hits times 100 / batch_size. */
  function TopKAccuracy(output: seq<seq<real>>, target: seq<int>, k: nat, c: nat): real
    requires |output| == |target| && Rows(output, c) && k <= c && |target| > 0
  {
    Percent(Hits(output, target, k, c), |target|)
  }

  /** h hits out of a batch of b, as a percentage: `correct_k.mul_(100.0 / batch_size)`. */
  function Percent(h: nat, b: nat): real
    requires b > 0
  {
    h as real * (100.0 / b as real)
  }

  lemma PercentOrdered(h1: nat, h2: nat, b: nat)
    requires h1 <= h2 <= b && b > 0
    ensures 0.0 <= Percent(h1, b) <= Percent(h2, b) <= 100.0
  {
    var f := 100.0 / b as real;
    MulMonotone(0.0, h1 as real, f);
    MulMonotone(h1 as real, h2 as real, f);
    MulMonotone(h2 as real, b as real, f);
  }

  /** precision@k lies in [0, 100] and does not decrease as k grows. */
  lemma TopKAccuracyProperties(output: seq<seq<real>>, target: seq<int>, k1: nat, k2: nat, c: nat)
    requires |output| == |target| && Rows(output, c) && k1 <= k2 <= c && |target| > 0
    ensures 0.0 <= TopKAccuracy(output, target, k1, c) <= TopKAccuracy(output, target, k2, c) <= 100.0
  {
    HitsMonotone(output, target, k1, k2, c);
    HitsBounded(output, target, k2, c);
    PercentOrdered(Hits(output, target, k1, c), Hits(output, target, k2, c), |target|);
  }

  /** max(topk). */
  function MaxK(topk: seq<nat>): (m: nat)
    requires |topk| > 0
    ensures m in topk && forall i :: 0 <= i < |topk| ==> topk[i] <= m
  {
    if |topk| == 1 then topk[0]
    else
      var rest := MaxK(topk[1..]);
      assert forall i :: 1 <= i < |topk| ==> topk[i] == topk[1..][i - 1];
      if topk[0] >= rest then topk[0] else rest
  }

  /** accuracy(output, target, topk) over c classes: max of an empty topk, a topk beyond
      the number of classes and an empty batch raise. */
  method Accuracy(output: seq<seq<real>>, target: seq<int>, topk: seq<nat>, c: nat) returns (res: Result<seq<real>>)
    requires |output| == |target| && Rows(output, c)
    ensures res.Err? <==> |topk| == 0 || MaxK(topk) > c || |target| == 0
    ensures res.Ok? ==> |res.value| == |topk|
    ensures res.Ok? ==> forall i :: 0 <= i < |topk| ==>
      topk[i] <= c && res.value[i] == TopKAccuracy(output, target, topk[i], c)
  {
    if |topk| == 0 {
      return Err(EmptyMax);
    }
    var maxk := MaxK(topk);
    if maxk > c {
      return Err(IndexOutOfRange);
    }
    var batchSize := |target|;
    if batchSize == 0 {
      return Err(ZeroDivision);
    }
    var values: seq<real> := [];
    for i := 0 to |topk|
      invariant |values| == i
      invariant forall j :: 0 <= j < i ==> values[j] == TopKAccuracy(output, target, topk[j], c)
    {
      var k := topk[i];
      var correctK := Hits(output, target, k, c);
      values := values + [Percent(correctK, batchSize)];
    }
    res := Ok(values);
  }

  // ---------------------------------------------------------------- Cutout

  /** torch.clip(v, 0, hi). */
  function Clip(v: int, hi: nat): (r: nat)
    ensures r <= hi
    ensures 0 <= v <= hi ==> r == v
  {
    if v < 0 then 0 else if v > hi then hi else v
  }

  /** The rows y1 .. y2-1 and columns x1 .. x2-1 of the hole centred at (y, x). */
  datatype Hole = Hole(y1: nat, y2: nat, x1: nat, x2: nat)

  function HoleAt(y: int, x: int, length: nat, h: nat, w: nat): Hole
  {
    Hole(Clip(y - length / 2, h), Clip(y + length / 2, h), Clip(x - length / 2, w), Clip(x + length / 2, w))
  }

  /** Every hole lies inside the image, is not inverted, and is at most 2*(length/2) wide. */
  lemma HoleClipped(y: int, x: int, length: nat, h: nat, w: nat)
    requires 0 <= y < h && 0 <= x < w
    ensures var hole := HoleAt(y, x, length, h, w);
      0 <= hole.y1 <= hole.y2 <= h && 0 <= hole.x1 <= hole.x2 <= w &&
      hole.y2 - hole.y1 <= 2 * (length / 2) && hole.x2 - hole.x1 <= 2 * (length / 2)
  {
  }

  predicate InHole(hole: Hole, i: int, j: int)
  {
    hole.y1 <= i < hole.y2 && hole.x1 <= j < hole.x2
  }

  /** Pixel (i, j) lies in one of the first n holes. */
  predicate Covered(ys: seq<int>, xs: seq<int>, length: nat, h: nat, w: nat, n: nat, i: int, j: int)
    requires n <= |ys| == |xs|
  {
    exists m :: 0 <= m < n && InHole(HoleAt(ys[m], xs[m], length, h, w), i, j)
  }

  /** One more hole covers exactly the pixels of the new rectangle besides the old ones. */
  lemma CoveredStep(ys: seq<int>, xs: seq<int>, length: nat, h: nat, w: nat, n: nat, i: int, j: int)
    requires n < |ys| == |xs|
    ensures Covered(ys, xs, length, h, w, n + 1, i, j) <==>
      Covered(ys, xs, length, h, w, n, i, j) || InHole(HoleAt(ys[n], xs[n], length, h, w), i, j)
  {
    if Covered(ys, xs, length, h, w, n + 1, i, j) && !InHole(HoleAt(ys[n], xs[n], length, h, w), i, j) {
      var m :| 0 <= m < n + 1 && InHole(HoleAt(ys[m], xs[m], length, h, w), i, j);
      assert m < n;
    }
  }

  /** The mask of Cutout.__call__: torch.ones((h, w)), then `mask[y1: y2, x1: x2] = 0.` for
      each hole. */
  method CutoutMask(h: nat, w: nat, nHoles: nat, length: nat, ys: seq<int>, xs: seq<int>)
    returns (mask: array2<real>)
    requires |ys| == nHoles == |xs|
    ensures fresh(mask) && mask.Length0 == h && mask.Length1 == w
    ensures forall i, j :: 0 <= i < h && 0 <= j < w ==>
      mask[i, j] == if Covered(ys, xs, length, h, w, nHoles, i, j) then 0.0 else 1.0
  {
    mask := new real[h, w]((i, j) => 1.0);
    for n := 0 to nHoles
      invariant forall i, j :: 0 <= i < h && 0 <= j < w ==>
        mask[i, j] == if Covered(ys, xs, length, h, w, n, i, j) then 0.0 else 1.0
    {
      var y := ys[n];
      var x := xs[n];
      var y1 := Clip(y - length / 2, h);
      var y2 := Clip(y + length / 2, h);
      var x1 := Clip(x - length / 2, w);
      var x2 := Clip(x + length / 2, w);
      forall i, j | y1 <= i < y2 && x1 <= j < x2 {
        mask[i, j] := 0.0;
      }
      forall i, j | 0 <= i < h && 0 <= j < w
        ensures mask[i, j] == if Covered(ys, xs, length, h, w, n + 1, i, j) then 0.0 else 1.0
      {
        CoveredStep(ys, xs, length, h, w, n, i, j);
      }
    }
  }

  /** Cutout.__call__ on a (C, H, W) image, with the random hole centres (ys[n], xs[n]) given:
      `img * mask` keeps each pixel outside every hole and zeroes each pixel inside one. */
  method Cutout(img: seq<seq<seq<real>>>, h: nat, w: nat, nHoles: nat, length: nat, ys: seq<int>, xs: seq<int>)
    returns (out: seq<seq<seq<real>>>)
    requires forall ch :: 0 <= ch < |img| ==> |img[ch]| == h && forall i :: 0 <= i < h ==> |img[ch][i]| == w
    requires |ys| == nHoles == |xs|
    requires forall n :: 0 <= n < nHoles ==> 0 <= ys[n] < h && 0 <= xs[n] < w
    ensures |out| == |img|
    ensures forall ch :: 0 <= ch < |img| ==> |out[ch]| == h && forall i :: 0 <= i < h ==> |out[ch][i]| == w
    ensures forall ch, i, j :: 0 <= ch < |img| && 0 <= i < h && 0 <= j < w ==>
      out[ch][i][j] == if Covered(ys, xs, length, h, w, nHoles, i, j) then 0.0 else img[ch][i][j]
  {
    var mask := CutoutMask(h, w, nHoles, length, ys, xs);
    out := seq(|img|, ch requires 0 <= ch < |img| reads mask =>
             seq(h, i requires 0 <= i < h reads mask =>
               seq(w, j requires 0 <= j < w reads mask => img[ch][i][j] * mask[i, j])));
  }

  /** Without holes no pixel is covered, so Cutout returns the image unchanged. */
  lemma CutoutNoHoles(ys: seq<int>, xs: seq<int>, length: nat, h: nat, w: nat, i: int, j: int)
    requires |ys| == |xs|
    ensures !Covered(ys, xs, length, h, w, 0, i, j)
  {
  }

  // ---------------------------------------------------------------- CelebA attributes

  function Bit(b: bool): nat
  {
    if b then 1 else 0
  }

  /** _convert_attributes: the three binary attributes packed as a 3-bit class index. */
  function ConvertAttributes(a: bool, b: bool, c: bool): (code: nat)
    ensures code < 8
  {
    Bit(a) * 4 + Bit(b) * 2 + Bit(c)
  }

  function DecodeAttributes(code: nat): (bool, bool, bool)
  {
    (code / 4 % 2 == 1, code / 2 % 2 == 1, code % 2 == 1)
  }

  /** Packing is a bijection between the triples and 0 .. 7. */
  lemma AttributesRoundTrip(a: bool, b: bool, c: bool, code: nat)
    requires code < 8
    ensures DecodeAttributes(ConvertAttributes(a, b, c)) == (a, b, c)
    ensures ConvertAttributes(DecodeAttributes(code).0, DecodeAttributes(code).1, DecodeAttributes(code).2) == code
  {
  }

  lemma AttributesInjective(a: bool, b: bool, c: bool, a': bool, b': bool, c': bool)
    requires ConvertAttributes(a, b, c) == ConvertAttributes(a', b', c')
    ensures a == a' && b == b' && c == c'
  {
    AttributesRoundTrip(a, b, c, 0);
    AttributesRoundTrip(a', b', c', 0);
  }

  // ---------------------------------------------------------------- jaccard_idx

  /** A float result that may be NaN (0 / 0 of two float counts). */
  datatype Score = Value(v: real) | NotANumber

  /** The entries of s equal to 2 (two) or at least 1 (not two). */
  function CountWhere(s: seq<int>, two: bool): nat
  {
    if |s| == 0 then 0
    else CountWhere(s[..|s| - 1], two) + (if (if two then s[|s| - 1] == 2 else s[|s| - 1] >= 1) then 1 else 0)
  }

  lemma {:induction false} CountTwoAtMostCountOne(s: seq<int>)
    ensures CountWhere(s, true) <= CountWhere(s, false)
  {
    if |s| > 0 {
      CountTwoAtMostCountOne(s[..|s| - 1]);
    }
  }

  /** `mask.flatten().topk(k)[0][-1]`: the k-th largest score. */
  function KthLargest(mask: seq<real>, k: nat): (v: real)
    requires 0 < k <= |mask|
    ensures v in mask
  {
    var order := TopOrder(mask);
    mask[order[k - 1]]
  }

  /** `(detect_mask.int() + real_mask.int())`, with detect_mask the scores strictly above kth. */
  function SumTemp(mask: seq<real>, realMask: seq<int>, kth: real): (t: seq<int>)
    requires |mask| == |realMask|
    ensures |t| == |mask|
  {
    seq(|mask|, i requires 0 <= i < |mask| => (if mask[i] > kth then 1 else 0) + realMask[i])
  }

  /** A count over a larger positive count is a fraction in [0, 1]. */
  lemma FractionInUnit(part: nat, whole: nat)
    requires part <= whole && whole > 0
    ensures 0.0 <= part as real / whole as real <= 1.0
  {
    var w, q := whole as real, part as real / whole as real;
    assert q * w == part as real;
    assert (1.0 - q) * w == (whole - part) as real;
  }

  /** The overlap `(sum_temp == 2).sum() / (sum_temp >= 1).sum()`, NaN when nothing is set. */
  function Overlap(sumTemp: seq<int>): (r: Score)
    ensures r.Value? ==> 0.0 <= r.v <= 1.0
  {
    var both := CountWhere(sumTemp, true);
    var either := CountWhere(sumTemp, false);
    CountTwoAtMostCountOne(sumTemp);
    if either == 0 then NotANumber
    else
      FractionInUnit(both, either);
      Value(both as real / either as real)
  }

  /** jaccard_idx over the flattened masks: 0 when select_num <= 0; otherwise the pixels
      scoring strictly above the select_num-th largest score are detected, and the result is
      |detected and real| / |detected or real|. A select_num beyond the number of pixels
      makes topk raise. */
  function JaccardIdx(mask: seq<real>, realMask: seq<int>, selectNum: int): (r: Result<Score>)
    requires |mask| == |realMask|
    ensures selectNum <= 0 ==> r == Ok(Value(0.0))
    ensures r.Err? <==> 0 < selectNum && selectNum > |mask|
    ensures r.Ok? && r.value.Value? ==> 0.0 <= r.value.v <= 1.0
  {
    if selectNum <= 0 then Ok(Value(0.0))
    else if selectNum > |mask| then Err(IndexOutOfRange)
    else Ok(Overlap(SumTemp(mask, realMask, KthLargest(mask, selectNum))))
  }
}
