/** The topological rank of an activation among the reference activations
    (TEDPLUS.gather_activation_into_class, get_dis_sort, getDefenseRegion and
    getLayerRegionDistance).

    Distances are squared Euclidean distances. The square root that
    pairwise_euclidean_distance takes is strictly increasing, so it changes neither the
    sorted order, nor the maximum of a prefix, nor the outcome of the strict comparison
    with the threshold: every rank is the same as with the Euclidean distance. */
module RankTransformer {
  import opened Wrappers
  import opened Sorting
  import opened LayerHooks

  /** One flattened activation row. */
  type Vec = seq<real>

  /** The keys of the inner dictionaries of the topological representation: a class
      index of the reference set, or one of the two unknown groups. */
  datatype Tag = ClassTag(c: int) | PoisonTag | CleanTag

  // ---------------------------------------------------------------- distances

  function SqDist(a: Vec, b: Vec): (d: real)
    ensures d >= 0.0
  {
    if |a| == 0 || |b| == 0 then 0.0
    else (a[0] - b[0]) * (a[0] - b[0]) + SqDist(a[1..], b[1..])
  }

  lemma {:induction false} SqDistSymmetric(a: Vec, b: Vec)
    ensures SqDist(a, b) == SqDist(b, a)
  {
    if |a| > 0 && |b| > 0 {
      SqDistSymmetric(a[1..], b[1..]);
    }
  }

  lemma {:induction false} SqDistSelf(a: Vec)
    ensures SqDist(a, a) == 0.0
  {
    if |a| > 0 {
      SqDistSelf(a[1..]);
    }
  }

  /** get_dis_sort: the distances from item to every destination row in ascending order,
      with the row each sorted distance belongs to. */
  function DisSort(item: Vec, destinations: seq<Vec>): (r: (seq<real>, seq<nat>))
    ensures IsPermutation(r.1, |destinations|)
    ensures |r.0| == |destinations|
    ensures forall p :: 0 <= p < |destinations| ==> r.0[p] == SqDist(item, destinations[r.1[p]])
    ensures forall p, q :: 0 <= p <= q < |destinations| ==> r.0[p] <= r.0[q]
  {
    Argsort(seq(|destinations|, k requires 0 <= k < |destinations| => SqDist(item, destinations[k])))
  }

  // ---------------------------------------------------------------- grouping by class

  /** The positions whose target is c, in increasing order (torch.nonzero(target == c)). */
  function ClassIndices(target: seq<int>, c: int): (ix: seq<nat>)
    ensures forall k: nat :: k in ix <==> k < |target| && target[k] == c
    ensures forall p, q :: 0 <= p < q < |ix| ==> ix[p] < ix[q]
    ensures forall p :: 0 <= p < |ix| ==> ix[p] < |target|
  {
    if |target| == 0 then []
    else
      var prev := ClassIndices(target[..|target| - 1], c);
      assert forall p :: 0 <= p < |prev| ==> prev[p] in prev;
      if target[|target| - 1] == c then prev + [|target| - 1] else prev
  }

  /** The rows of h whose target is c, in their original order (h[idxs, :]). */
  function ClassRows(target: seq<int>, h: seq<Vec>, c: int): (rows: seq<Vec>)
    requires |target| == |h|
    ensures |rows| == |ClassIndices(target, c)|
  {
    var ix := ClassIndices(target, c);
    seq(|ix|, p requires 0 <= p < |ix| => h[ix[p]])
  }

  /** Every row of class c is in ClassRows(target, h, c), and every member of it is a row of class c. */
  lemma ClassRowsExact(target: seq<int>, h: seq<Vec>, c: int)
    requires |target| == |h|
    ensures forall k :: 0 <= k < |h| && target[k] == c ==> h[k] in ClassRows(target, h, c)
    ensures forall w :: w in ClassRows(target, h, c) ==> exists k :: 0 <= k < |h| && target[k] == c && h[k] == w
  {
    var ix := ClassIndices(target, c);
    var rows := ClassRows(target, h, c);
    forall k | 0 <= k < |h| && target[k] == c ensures h[k] in rows {
      var p :| 0 <= p < |ix| && ix[p] == k;
      assert rows[p] == h[k];
    }
    forall w | w in rows ensures exists k :: 0 <= k < |h| && target[k] == c && h[k] == w {
      var p :| 0 <= p < |rows| && rows[p] == w;
      assert ix[p] in ix;
    }
  }

  /** gather_activation_into_class: entry c holds the rows whose target is c, or None (the
      source's integer 0) when there are none; targets outside 0 .. testC-1 are dropped. */
  method GatherActivationIntoClass(target: seq<int>, h: seq<Vec>, testC: nat)
    returns (hcc: seq<Option<seq<Vec>>>)
    requires |target| == |h|
    ensures |hcc| == testC
    ensures forall c :: 0 <= c < testC ==>
      hcc[c] == if ClassIndices(target, c) == [] then None else Some(ClassRows(target, h, c))
  {
    hcc := seq(testC, _ => None);
    var c := 0;
    while c < testC
      invariant 0 <= c <= testC && |hcc| == testC
      invariant forall d :: 0 <= d < c ==>
        hcc[d] == if ClassIndices(target, d) == [] then None else Some(ClassRows(target, h, d))
      invariant forall d :: c <= d < testC ==> hcc[d] == None
    {
      var idxs := ClassIndices(target, c);
      if |idxs| != 0 {
        hcc := hcc[c := Some(ClassRows(target, h, c))];
      }
      c := c + 1;
    }
  }

  /** Every row whose target lies in 0 .. testC-1 is found in its class's entry. */
  lemma GatherComplete(target: seq<int>, h: seq<Vec>, testC: nat, hcc: seq<Option<seq<Vec>>>, k: nat)
    requires |target| == |h| && |hcc| == testC
    requires forall c :: 0 <= c < testC ==>
      hcc[c] == if ClassIndices(target, c) == [] then None else Some(ClassRows(target, h, c))
    requires k < |h| && 0 <= target[k] < testC
    ensures hcc[target[k]].Some? && h[k] in hcc[target[k]].value
  {
    var c := target[k];
    assert k in ClassIndices(target, c);
    ClassRowsExact(target, h, c);
  }

  /** The labels 0 .. n-1 that occur in preds, ascending (torch.unique when every
      prediction lies in 0 .. n-1). */
  function PresentLabels(preds: seq<int>, n: nat): (labels: seq<int>)
    ensures forall c :: c in labels <==> 0 <= c < n && c in preds
    ensures forall p, q :: 0 <= p < q < |labels| ==> labels[p] < labels[q]
    ensures forall p :: 0 <= p < |labels| ==> 0 <= labels[p] < n
  {
    if n == 0 then []
    else
      var prev := PresentLabels(preds, n - 1);
      assert forall p :: 0 <= p < |prev| ==> prev[p] in prev;
      if n - 1 in preds then prev + [n - 1] else prev
  }

  // ---------------------------------------------------------------- local threshold

  /** math.ceil(SAMPLES_PER_CLASS * ALPHA) with ALPHA = 0.5. */
  function ThresholdCount(q: nat): (k: nat)
    ensures q <= 2 * k <= q + 1
  {
    (q + 1) / 2
  }

  /** The rows of h predicted as the class whose activation differs from u
      (processing_label_h_defense_activation[mask]). */
  function SameClassOthers(h: seq<Vec>, preds: seq<int>, cls: int, u: Vec): (others: seq<Vec>)
    requires |h| == |preds|
    ensures forall w :: w in others ==> w != u && exists k :: 0 <= k < |h| && preds[k] == cls && h[k] == w
    ensures forall k :: 0 <= k < |h| && preds[k] == cls && h[k] != u ==> h[k] in others
  {
    if |h| == 0 then []
    else
      var n := |h| - 1;
      var prev := SameClassOthers(h[..n], preds[..n], cls, u);
      assert forall k :: 0 <= k < n ==> h[..n][k] == h[k] && preds[..n][k] == preds[k];
      if preds[n] == cls && h[n] != u then prev + [h[n]] else prev
  }

  /** When every row of the class equals u, no other row remains. */
  lemma {:induction false} NoOthers(h: seq<Vec>, preds: seq<int>, cls: int, u: Vec)
    requires |h| == |preds|
    requires forall j :: 0 <= j < |h| && preds[j] == cls ==> h[j] == u
    ensures SameClassOthers(h, preds, cls, u) == []
  {
    if |h| > 0 {
      var n := |h| - 1;
      assert forall j :: 0 <= j < n ==> h[..n][j] == h[j] && preds[..n][j] == preds[j];
      NoOthers(h[..n], preds[..n], cls, u);
    }
  }

  /** The local threshold around the neighbour u: the largest of the first
      ThresholdCount(q) sorted distances from u to the other same-class rows, or None
      where the source's torch.max meets an empty slice. */
  function Threshold(h: seq<Vec>, preds: seq<int>, cls: int, u: Vec, q: nat): (t: Option<real>)
    requires |h| == |preds|
    ensures t.None? <==> ThresholdCount(q) == 0 || SameClassOthers(h, preds, cls, u) == []
    ensures t.Some? ==> exists k :: 0 <= k < |h| && preds[k] == cls && h[k] != u && t.value == SqDist(u, h[k])
  {
    var others := SameClassOthers(h, preds, cls, u);
    var sortedDis := DisSort(u, others).0;
    var count := if ThresholdCount(q) < |sortedDis| then ThresholdCount(q) else |sortedDis|;
    var prefix := sortedDis[..count];
    if |prefix| == 0 then None
    else
      var m := Max(prefix);
      var p :| 0 <= p < |prefix| && prefix[p] == m;
      var order := DisSort(u, others).1;
      assert order[p] < |others| && others[order[p]] in others;
      Some(m)
  }

  /** The threshold is the largest of the nearest ThresholdCount(q) distances: it bounds all
      of them, and it is the last of them. */
  lemma ThresholdIsPrefixMax(h: seq<Vec>, preds: seq<int>, cls: int, u: Vec, q: nat)
    requires |h| == |preds|
    requires Threshold(h, preds, cls, u, q).Some?
    ensures var sd := DisSort(u, SameClassOthers(h, preds, cls, u)).0;
            var count := if ThresholdCount(q) < |sd| then ThresholdCount(q) else |sd|;
            0 < count <= |sd| &&
            Threshold(h, preds, cls, u, q).value == sd[count - 1] &&
            forall p :: 0 <= p < count ==> sd[p] <= Threshold(h, preds, cls, u, q).value
  {
    var sd := DisSort(u, SameClassOthers(h, preds, cls, u)).0;
    var count := if ThresholdCount(q) < |sd| then ThresholdCount(q) else |sd|;
    MaxOfAscending(sd[..count]);
  }

  // ---------------------------------------------------------------- one rank

  /** The result of ranking one probe: no same-class neighbour was found, a rank, or the
      threshold slice was empty (the source raises there). */
  datatype Outcome = NoNeighbour | Ranked(rank: int) | EmptyThreshold

  /** The first sorted position at or after from whose row is predicted as the class. */
  function FirstSameClass(preds: seq<int>, order: seq<nat>, cls: int, from: nat): (p: Option<nat>)
    requires forall q :: 0 <= q < |order| ==> order[q] < |preds|
    ensures p.Some? ==> from <= p.value < |order| && preds[order[p.value]] == cls &&
                        forall q :: from <= q < p.value ==> preds[order[q]] != cls
    ensures p.None? ==> forall q :: from <= q < |order| ==> preds[order[q]] != cls
    decreases |order| - from
  {
    if from >= |order| then None
    else if preds[order[from]] == cls then Some(from)
    else FirstSameClass(preds, order, cls, from + 1)
  }

  /** The rank of item among the reference rows h, whose predictions are preds. The walk
      over the sorted positions starts at start and the emitted rank is the position minus
      start: start = 1 in getDefenseRegion, where position 0 is taken to be the item itself,
      and start = 0 in getLayerRegionDistance. */
  function ItemRank(h: seq<Vec>, preds: seq<int>, cls: int, item: Vec, start: nat, q: nat, dts: int): Outcome
    requires |h| == |preds|
  {
    var (sortedDis, order) := DisSort(item, h);
    match FirstSameClass(preds, order, cls, start)
    case None => NoNeighbour
    case Some(i) =>
      match Threshold(h, preds, cls, h[order[i]], q)
      case None => EmptyThreshold
      case Some(t) => if sortedDis[i] > t then Ranked(dts - 1) else Ranked(i - start)
  }

  /** The ranks appended for a list of probes, in order; the first empty threshold aborts. */
  function RanksOf(h: seq<Vec>, preds: seq<int>, cls: int, items: seq<Vec>, start: nat, q: nat, dts: int): Result<seq<int>>
    requires |h| == |preds|
  {
    if |items| == 0 then Ok([])
    else
      match RanksOf(h, preds, cls, items[..|items| - 1], start, q, dts)
      case Err(e) => Err(e)
      case Ok(prev) =>
        match ItemRank(h, preds, cls, items[|items| - 1], start, q, dts)
        case NoNeighbour => Ok(prev)
        case Ranked(r) => Ok(prev + [r])
        case EmptyThreshold => Err(EmptyMax)
  }

  /** getDefenseRegion for one (layer, class): every reference row predicted as the class is
      ranked against all reference rows. */
  function DefenseRanks(preds: seq<int>, h: seq<Vec>, cls: int, q: nat, dts: int): Result<seq<int>>
    requires |h| == |preds|
  {
    RanksOf(h, preds, cls, ClassRows(preds, h, cls), 1, q, dts)
  }

  /** getLayerRegionDistance for one layer: the new rows are ranked class by class, in
      ascending cls order, against the reference rows. */
  function LayerRanksOver(labels: seq<int>, newPreds: seq<int>, newAct: seq<Vec>,
                          hPreds: seq<int>, h: seq<Vec>, q: nat, dts: int): Result<seq<int>>
    requires |newPreds| == |newAct| && |hPreds| == |h|
  {
    if |labels| == 0 then Ok([])
    else
      var cls := labels[|labels| - 1];
      match LayerRanksOver(labels[..|labels| - 1], newPreds, newAct, hPreds, h, q, dts)
      case Err(e) => Err(e)
      case Ok(prev) =>
        match RanksOf(h, hPreds, cls, ClassRows(newPreds, newAct, cls), 0, q, dts)
        case Err(e) => Err(e)
        case Ok(rs) => Ok(prev + rs)
  }

  function LayerRanks(newPreds: seq<int>, newAct: seq<Vec>, hPreds: seq<int>, h: seq<Vec>,
                      q: nat, dts: int, testC: nat): Result<seq<int>>
    requires |newPreds| == |newAct| && |hPreds| == |h|
  {
    LayerRanksOver(PresentLabels(newPreds, testC), newPreds, newAct, hPreds, h, q, dts)
  }

  // ---------------------------------------------------------------- properties of one rank

  /** Every rank lies in 0 .. DEFENSE_TRAIN_SIZE-1 when the reference set has at most
      DEFENSE_TRAIN_SIZE rows. */
  lemma ItemRankBounds(h: seq<Vec>, preds: seq<int>, cls: int, item: Vec, start: nat, q: nat, dts: int)
    requires |h| == |preds| && |h| <= dts
    requires ItemRank(h, preds, cls, item, start, q, dts).Ranked?
    ensures 0 <= ItemRank(h, preds, cls, item, start, q, dts).rank <= dts - 1
  {
  }

  /** The neighbour the walk stops at is the nearest row predicted as the class among the
      sorted positions from start on. */
  lemma NeighbourIsNearest(h: seq<Vec>, preds: seq<int>, cls: int, item: Vec, start: nat, k: nat)
    requires |h| == |preds| && k < |h| && preds[k] == cls
    requires var order := DisSort(item, h).1; exists p :: start <= p < |order| && order[p] == k
    ensures var (sd, order) := DisSort(item, h);
            var i := FirstSameClass(preds, order, cls, start);
            i.Some? && sd[i.value] <= SqDist(item, h[k])
  {
    var (sd, order) := DisSort(item, h);
    var p :| start <= p < |order| && order[p] == k;
    var i := FirstSameClass(preds, order, cls, start);
    assert i.Some?;
  }

  /** Ranking against the reference set (start 0) finds no neighbour exactly when no
      reference row is predicted as the class. */
  lemma LayerNoNeighbourIff(h: seq<Vec>, preds: seq<int>, cls: int, item: Vec, q: nat, dts: int)
    requires |h| == |preds|
    ensures ItemRank(h, preds, cls, item, 0, q, dts) == NoNeighbour <==> cls !in preds
  {
    var (sd, order) := DisSort(item, h);
    if cls in preds {
      var k :| 0 <= k < |preds| && preds[k] == cls;
      assert k in order;
      var p :| 0 <= p < |order| && order[p] == k;
      assert FirstSameClass(preds, order, cls, 0).Some?;
    }
  }

  /** For a reference row ranked against its own set (start 1): when at least two rows are
      predicted as the class a neighbour is always found; when it is the only one, no rank is
      ever emitted (either no neighbour, or an empty threshold). */
  lemma DefenseNeighbourCases(h: seq<Vec>, preds: seq<int>, cls: int, m: nat, q: nat, dts: int)
    requires |h| == |preds| && m < |h| && preds[m] == cls
    ensures |ClassIndices(preds, cls)| >= 2 ==> ItemRank(h, preds, cls, h[m], 1, q, dts) != NoNeighbour
    ensures |ClassIndices(preds, cls)| == 1 ==> !ItemRank(h, preds, cls, h[m], 1, q, dts).Ranked?
  {
    var ix := ClassIndices(preds, cls);
    var (sd, order) := DisSort(h[m], h);
    if |ix| >= 2 {
      var a, b := ix[0], ix[1];
      assert a in order && b in order;
      var pa :| 0 <= pa < |order| && order[pa] == a;
      var pb :| 0 <= pb < |order| && order[pb] == b;
      var p := if pa >= 1 then pa else pb;
      assert 1 <= p && preds[order[p]] == cls;
      assert FirstSameClass(preds, order, cls, 1).Some?;
    }
    if |ix| == 1 {
      assert m in ix;
      match FirstSameClass(preds, order, cls, 1)
      case None =>
      case Some(i) =>
        var k := order[i];
        assert k in ix && m in ix;
        assert ix[0] == k && ix[0] == m;
        forall j | 0 <= j < |h| && preds[j] == cls ensures h[j] == h[k] {
          assert j in ix;
        }
        NoOthers(h, preds, cls, h[k]);
    }
  }

  /** A probe at distance 0 from some reference row, with no reference row of another
      predicted class at distance 0, is never saturated: it ranks 0 against the
      reference set (or the threshold slice is empty). */
  lemma IdenticalProbeRanksZero(h: seq<Vec>, preds: seq<int>, cls: int, item: Vec, q: nat, dts: int)
    requires |h| == |preds|
    requires exists k :: 0 <= k < |h| && preds[k] == cls && SqDist(item, h[k]) == 0.0
    requires forall k :: 0 <= k < |h| && preds[k] != cls ==> SqDist(item, h[k]) > 0.0
    ensures ItemRank(h, preds, cls, item, 0, q, dts) in {Ranked(0), EmptyThreshold}
  {
    var (sd, order) := DisSort(item, h);
    var k :| 0 <= k < |h| && preds[k] == cls && SqDist(item, h[k]) == 0.0;
    assert k in order;
    var pk :| 0 <= pk < |order| && order[pk] == k;
    assert sd[0] <= sd[pk] == 0.0;
    assert preds[order[0]] == cls;
    assert FirstSameClass(preds, order, cls, 0) == Some(0);
  }

  /** A probe farther from every same-class reference row than any two same-class
      reference rows are from each other always saturates (when it is ranked at all). */
  lemma FarProbeSaturates(h: seq<Vec>, preds: seq<int>, cls: int, item: Vec, start: nat, q: nat, dts: int)
    requires |h| == |preds|
    requires forall k, j :: 0 <= k < |h| && 0 <= j < |h| && preds[k] == cls && preds[j] == cls ==>
      SqDist(item, h[k]) > SqDist(h[k], h[j])
    ensures ItemRank(h, preds, cls, item, start, q, dts) in {NoNeighbour, EmptyThreshold, Ranked(dts - 1)}
  {
    var (sd, order) := DisSort(item, h);
    match FirstSameClass(preds, order, cls, start)
    case None =>
    case Some(i) =>
      var u := h[order[i]];
      match Threshold(h, preds, cls, u, q)
      case None =>
      case Some(t) =>
        var j :| 0 <= j < |h| && preds[j] == cls && h[j] != u && t == SqDist(u, h[j]);
        assert sd[i] == SqDist(item, h[order[i]]) > SqDist(h[order[i]], h[j]);
  }

  // ---------------------------------------------------------------- properties of rank lists

  /** An error part-way through the probes is an error for the whole list. */
  lemma {:induction false} RanksOfErrPrefix(h: seq<Vec>, preds: seq<int>, cls: int, items: seq<Vec>, j: nat, start: nat, q: nat, dts: int)
    requires |h| == |preds| && j <= |items|
    requires RanksOf(h, preds, cls, items[..j], start, q, dts).Err?
    ensures RanksOf(h, preds, cls, items, start, q, dts).Err?
    decreases |items| - j
  {
    if j < |items| {
      var next := items[..j + 1];
      assert next[..|next| - 1] == items[..j];
      RanksOfErrExtend(h, preds, cls, next, start, q, dts);
      RanksOfErrPrefix(h, preds, cls, items, j + 1, start, q, dts);
    } else {
      assert items[..j] == items;
    }
  }

  /** An error on all but the last probe is an error on the whole list. */
  lemma RanksOfErrExtend(h: seq<Vec>, preds: seq<int>, cls: int, items: seq<Vec>, start: nat, q: nat, dts: int)
    requires |h| == |preds| && |items| > 0
    requires RanksOf(h, preds, cls, items[..|items| - 1], start, q, dts).Err?
    ensures RanksOf(h, preds, cls, items, start, q, dts).Err?
  {
  }

  /** Every rank in a successful list lies in 0 .. DEFENSE_TRAIN_SIZE-1. */
  lemma {:induction false} RanksOfBounded(h: seq<Vec>, preds: seq<int>, cls: int, items: seq<Vec>, start: nat, q: nat, dts: int)
    requires |h| == |preds| && |h| <= dts
    requires RanksOf(h, preds, cls, items, start, q, dts).Ok?
    ensures forall r :: r in RanksOf(h, preds, cls, items, start, q, dts).value ==> 0 <= r <= dts - 1
  {
    if |items| > 0 {
      var n := |items| - 1;
      RanksOfBounded(h, preds, cls, items[..n], start, q, dts);
      if ItemRank(h, preds, cls, items[n], start, q, dts).Ranked? {
        ItemRankBounds(h, preds, cls, items[n], start, q, dts);
      }
    }
  }

  /** A successful list has one rank per probe when every probe finds a neighbour, and no
      rank when none of them is ranked. */
  lemma {:induction false} RanksOfLength(h: seq<Vec>, preds: seq<int>, cls: int, items: seq<Vec>, start: nat, q: nat, dts: int)
    requires |h| == |preds|
    requires RanksOf(h, preds, cls, items, start, q, dts).Ok?
    ensures (forall x :: x in items ==> ItemRank(h, preds, cls, x, start, q, dts) != NoNeighbour) ==>
              |RanksOf(h, preds, cls, items, start, q, dts).value| == |items|
    ensures (forall x :: x in items ==> !ItemRank(h, preds, cls, x, start, q, dts).Ranked?) ==>
              RanksOf(h, preds, cls, items, start, q, dts).value == []
  {
    if |items| > 0 {
      var n := |items| - 1;
      assert forall x :: x in items[..n] ==> x in items;
      assert items[n] in items;
      RanksOfLength(h, preds, cls, items[..n], start, q, dts);
    }
  }

  /** The number of ranks getDefenseRegion emits for a class does not depend on the layer:
      it is the number of rows predicted as the class when there are at least two, else 0. */
  lemma DefenseRanksLength(preds: seq<int>, h: seq<Vec>, cls: int, q: nat, dts: int)
    requires |h| == |preds|
    requires DefenseRanks(preds, h, cls, q, dts).Ok?
    ensures var n := |ClassIndices(preds, cls)|;
            |DefenseRanks(preds, h, cls, q, dts).value| == if n >= 2 then n else 0
  {
    var items := ClassRows(preds, h, cls);
    ClassRowsExact(preds, h, cls);
    forall x | x in items
      ensures (|ClassIndices(preds, cls)| >= 2 ==> ItemRank(h, preds, cls, x, 1, q, dts) != NoNeighbour)
      ensures (|ClassIndices(preds, cls)| == 1 ==> !ItemRank(h, preds, cls, x, 1, q, dts).Ranked?)
    {
      var m :| 0 <= m < |h| && preds[m] == cls && h[m] == x;
      DefenseNeighbourCases(h, preds, cls, m, q, dts);
    }
    RanksOfLength(h, preds, cls, items, 1, q, dts);
  }

  /** The number of ranks getLayerRegionDistance emits for one group of probes does not
      depend on the layer: two layers with the same predictions give lists of equal length. */
  lemma {:induction false} LayerRanksSameLength(labels: seq<int>, newPreds: seq<int>, newAct1: seq<Vec>, newAct2: seq<Vec>,
                                                 hPreds: seq<int>, h1: seq<Vec>, h2: seq<Vec>, q: nat, dts: int)
    requires |newPreds| == |newAct1| == |newAct2| && |hPreds| == |h1| == |h2|
    requires LayerRanksOver(labels, newPreds, newAct1, hPreds, h1, q, dts).Ok?
    requires LayerRanksOver(labels, newPreds, newAct2, hPreds, h2, q, dts).Ok?
    ensures |LayerRanksOver(labels, newPreds, newAct1, hPreds, h1, q, dts).value| ==
            |LayerRanksOver(labels, newPreds, newAct2, hPreds, h2, q, dts).value|
  {
    if |labels| > 0 {
      var n := |labels| - 1;
      var cls := labels[n];
      LayerRanksSameLength(labels[..n], newPreds, newAct1, newAct2, hPreds, h1, h2, q, dts);
      var items1 := ClassRows(newPreds, newAct1, cls);
      var items2 := ClassRows(newPreds, newAct2, cls);
      forall x | x in items1 ensures (cls in hPreds) == (ItemRank(h1, hPreds, cls, x, 0, q, dts) != NoNeighbour) {
        LayerNoNeighbourIff(h1, hPreds, cls, x, q, dts);
      }
      forall x | x in items2 ensures (cls in hPreds) == (ItemRank(h2, hPreds, cls, x, 0, q, dts) != NoNeighbour) {
        LayerNoNeighbourIff(h2, hPreds, cls, x, q, dts);
      }
      RanksOfLength(h1, hPreds, cls, items1, 0, q, dts);
      RanksOfLength(h2, hPreds, cls, items2, 0, q, dts);
    }
  }

  /** One more label: the ranks of its rows are appended, or its failure is the result. */
  lemma LayerRanksOverStep(labels: seq<int>, li: nat, newPreds: seq<int>, newAct: seq<Vec>,
                           hPreds: seq<int>, h: seq<Vec>, q: nat, dts: int)
    requires |newPreds| == |newAct| && |hPreds| == |h| && li < |labels|
    ensures LayerRanksOver(labels[..li + 1], newPreds, newAct, hPreds, h, q, dts) ==
      match LayerRanksOver(labels[..li], newPreds, newAct, hPreds, h, q, dts)
      case Err(e) => Err(e)
      case Ok(prev) =>
        match RanksOf(h, hPreds, labels[li], ClassRows(newPreds, newAct, labels[li]), 0, q, dts)
        case Err(e) => Err(e)
        case Ok(rs) => Ok(prev + rs)
  {
    assert labels[..li + 1][..li] == labels[..li];
    assert labels[..li + 1][li] == labels[li];
  }

  /** Once the ranks of the first labels fail, the ranks of all labels fail. */
  lemma {:induction false} LayerRanksOverErrPrefix(labels: seq<int>, j: nat, newPreds: seq<int>, newAct: seq<Vec>,
                                                    hPreds: seq<int>, h: seq<Vec>, q: nat, dts: int)
    requires |newPreds| == |newAct| && |hPreds| == |h| && j <= |labels|
    requires LayerRanksOver(labels[..j], newPreds, newAct, hPreds, h, q, dts).Err?
    ensures LayerRanksOver(labels, newPreds, newAct, hPreds, h, q, dts).Err?
    decreases |labels| - j
  {
    if j < |labels| {
      var n := |labels| - 1;
      assert labels[..n][..j] == labels[..j];
      LayerRanksOverErrPrefix(labels[..n], j, newPreds, newAct, hPreds, h, q, dts);
      assert LayerRanksOver(labels[..n], newPreds, newAct, hPreds, h, q, dts).Err?;
    } else {
      assert labels[..j] == labels;
    }
  }

  // ---------------------------------------------------------------- the walk, imperatively

  /** The body of the inner loops of getDefenseRegion and getLayerRegionDistance: sort the
      reference rows by distance, walk from position start to the first row with the same
      prediction, and decide its rank against the local threshold. */
  method RankItem(h: seq<Vec>, preds: seq<int>, cls: int, item: Vec, start: nat, q: nat, dts: int)
    returns (outcome: Outcome)
    requires |h| == |preds|
    ensures outcome == ItemRank(h, preds, cls, item, start, q, dts)
  {
    var (sortedDis, sortedIndices) := DisSort(item, h);
    var i := start;
    while i < |sortedIndices|
      invariant start <= i
      invariant forall p :: start <= p < i && p < |sortedIndices| ==> preds[sortedIndices[p]] != cls
    {
      var idx := sortedIndices[i];
      if preds[idx] == cls {
        FirstSameClassAt(preds, sortedIndices, cls, start, i);
        var threshold := Threshold(h, preds, cls, h[idx], q);
        if threshold.None? {
          return EmptyThreshold;
        }
        var distanceValue := sortedDis[i];
        var distanceValueIndex := if distanceValue > threshold.value then dts - 1 else i - start;
        return Ranked(distanceValueIndex);
      }
      i := i + 1;
    }
    FirstSameClassNone(preds, sortedIndices, cls, start);
    outcome := NoNeighbour;
  }

  /** The walk stops at position i when i is the first same-class position from from. */
  lemma FirstSameClassAt(preds: seq<int>, order: seq<nat>, cls: int, from: nat, i: nat)
    requires forall q :: 0 <= q < |order| ==> order[q] < |preds|
    requires from <= i < |order| && preds[order[i]] == cls
    requires forall p :: from <= p < i ==> preds[order[p]] != cls
    ensures FirstSameClass(preds, order, cls, from) == Some(i)
  {
    var r := FirstSameClass(preds, order, cls, from);
    assert r.Some?;
    assert !(r.value < i) && !(i < r.value);
  }

  /** The walk finds nothing when no position from from on is of the class. */
  lemma FirstSameClassNone(preds: seq<int>, order: seq<nat>, cls: int, from: nat)
    requires forall q :: 0 <= q < |order| ==> order[q] < |preds|
    requires forall p :: from <= p < |order| ==> preds[order[p]] != cls
    ensures FirstSameClass(preds, order, cls, from) == None
  {
    var r := FirstSameClass(preds, order, cls, from);
    assert !r.Some?;
  }

  /** The loop `for index, item in enumerate(items)` of getDefenseRegion and of
      getLayerRegionDistance: the ranks of the items in order, stopping at the first
      empty threshold with the ranks emitted before it. */
  method RankItems(h: seq<Vec>, preds: seq<int>, cls: int, items: seq<Vec>, start: nat, q: nat, dts: int)
    returns (ok: bool, ranks: seq<int>)
    requires |h| == |preds|
    ensures ok <==> RanksOf(h, preds, cls, items, start, q, dts).Ok?
    ensures ok ==> ranks == RanksOf(h, preds, cls, items, start, q, dts).value
  {
    ranks := [];
    ok := true;
    for index := 0 to |items|
      invariant RanksOf(h, preds, cls, items[..index], start, q, dts) == Ok(ranks)
    {
      assert items[..index + 1][..index] == items[..index];
      var outcome := RankItem(h, preds, cls, items[index], start, q, dts);
      match outcome {
        case NoNeighbour =>
        case Ranked(r) =>
          ranks := ranks + [r];
        case EmptyThreshold =>
          ok := false;
          RanksOfErrPrefix(h, preds, cls, items, index + 1, start, q, dts);
          return;
      }
    }
    assert items[..|items|] == items;
  }

  /** The body of getLayerRegionDistance: for each predicted class in ascending order, the
      ranks of the new rows of that class against the reference rows. */
  method LayerRankLoop(newPrediction: seq<int>, newActivation: seq<Vec>, hDefensePrediction: seq<int>,
                       hDefense: seq<Vec>, q: nat, dts: int, testC: nat) returns (ok: bool, ranks: seq<int>)
    requires |newPrediction| == |newActivation| && |hDefensePrediction| == |hDefense|
    requires forall k :: 0 <= k < |newPrediction| ==> 0 <= newPrediction[k] < testC
    ensures ok <==> LayerRanks(newPrediction, newActivation, hDefensePrediction, hDefense, q, dts, testC).Ok?
    ensures ok ==> ranks == LayerRanks(newPrediction, newActivation, hDefensePrediction, hDefense, q, dts, testC).value
  {
    var candidate := GatherActivationIntoClass(newPrediction, newActivation, testC);
    var labels := PresentLabels(newPrediction, testC);
    ranks := [];
    ok := true;
    for li := 0 to |labels|
      invariant LayerRanksOver(labels[..li], newPrediction, newActivation, hDefensePrediction, hDefense, q, dts) == Ok(ranks)
    {
      var cls := labels[li];
      assert cls in labels;
      var k :| 0 <= k < |newPrediction| && newPrediction[k] == cls;
      assert k in ClassIndices(newPrediction, cls);
      var items := candidate[cls].value;
      LayerRanksOverStep(labels, li, newPrediction, newActivation, hDefensePrediction, hDefense, q, dts);
      var itemsOk, itemRanks := RankItems(hDefense, hDefensePrediction, cls, items, 0, q, dts);
      if !itemsOk {
        ok := false;
        ranks := ranks + itemRanks;
        LayerRanksOverErrPrefix(labels, li + 1, newPrediction, newActivation, hDefensePrediction, hDefense, q, dts);
        return;
      }
      ranks := ranks + itemRanks;
    }
    assert labels[..|labels|] == labels;
  }

  // ---------------------------------------------------------------- the representation table

  /** order lists the keys of a Python dictionary in insertion order: each key once. */
  ghost predicate Listed<K(!new)>(order: seq<K>, keys: set<K>)
  {
    (forall k :: k in keys <==> k in order) &&
    (forall i, j :: 0 <= i < j < |order| ==> order[i] != order[j])
  }

  lemma ListedExtend<K(!new)>(order: seq<K>, keys: set<K>, k: K)
    requires Listed(order, keys) && k !in keys
    ensures Listed(order + [k], keys + {k})
  {
  }

  function TagsOf(m: map<LayerId, seq<Tag>>, layer: LayerId): seq<Tag>
  {
    if layer in m then m[layer] else []
  }

  function Entry(t: map<LayerId, map<Tag, seq<int>>>, layer: LayerId): map<Tag, seq<int>>
  {
    if layer in t then t[layer] else map[]
  }

  /** layer_test_region_individual (self.topological_representation): layer -> tag -> ranks.
      Python dictionaries keep their keys in insertion order; layerOrder and tagOrder
      record that order. */
  class TopologicalRepresentation {
    var layerOrder: seq<LayerId>
    var tagOrder: map<LayerId, seq<Tag>>
    var table: map<LayerId, map<Tag, seq<int>>>
    /** self.candidate_: the per-class grouping of the reference rows, per layer. */
    var candidates: map<LayerId, seq<Option<seq<Vec>>>>

    ghost predicate Valid()
      reads this
    {
      Listed(layerOrder, table.Keys) &&
      tagOrder.Keys == table.Keys &&
      forall l :: l in table ==> Listed(tagOrder[l], table[l].Keys)
    }

    constructor ()
      ensures Valid()
      ensures layerOrder == [] && table == map[] && candidates == map[]
    {
      layerOrder := [];
      tagOrder := map[];
      table := map[];
      candidates := map[];
    }

    /** `if layer not in d: d[layer] = {}`, then `d[layer][tag] = []` followed by the
        appends `d[layer][tag].append(r)` that leave ranks there. The ranks are computed
        from the activations alone, never from the table, so the entry is written once. */
    method StoreEntry(layer: LayerId, tag: Tag, ranks: seq<int>)
      requires Valid()
      modifies this
      ensures Valid()
      ensures table == old(table)[layer := Entry(old(table), layer)[tag := ranks]]
      ensures layerOrder == if layer in old(table) then old(layerOrder) else old(layerOrder) + [layer]
      ensures tagOrder == old(tagOrder)[layer := if tag in Entry(old(table), layer) then old(tagOrder)[layer]
                                                 else TagsOf(old(tagOrder), layer) + [tag]]
      ensures candidates == old(candidates)
    {
      var inner := Entry(table, layer);
      var tags := TagsOf(tagOrder, layer);
      if layer !in table {
        ListedExtend(layerOrder, table.Keys, layer);
        layerOrder := layerOrder + [layer];
      }
      assert Listed(tags, inner.Keys);
      if tag !in inner {
        ListedExtend(tags, inner.Keys, tag);
        tags := tags + [tag];
      }
      assert inner[tag := ranks].Keys == inner.Keys + {tag};
      assert Listed(tags, inner[tag := ranks].Keys);
      ghost var t0 := table;
      ghost var o0 := tagOrder;
      tagOrder := tagOrder[layer := tags];
      table := table[layer := inner[tag := ranks]];
      assert table.Keys == t0.Keys + {layer};
      forall l | l in table ensures Listed(tagOrder[l], table[l].Keys) {
        if l != layer {
          assert table[l] == t0[l] && tagOrder[l] == o0[l];
        }
      }
    }

    /** getDefenseRegion: resets table[layer][cls] and fills it with the ranks of the
      reference rows predicted as cls against the whole reference set, and records the
      per-class grouping of the reference rows for the layer. Nothing else in the table
      changes; on an empty threshold the entry keeps the ranks emitted before it. */
    method DefenseRegion(finalPrediction: seq<int>, hDefense: seq<Vec>, cls: int, layer: LayerId,
                         q: nat, dts: int, testC: nat) returns (ok: bool)
      requires Valid()
      requires |finalPrediction| == |hDefense| && 0 <= cls < testC
      modifies this
      ensures Valid()
      ensures ok <==> DefenseRanks(finalPrediction, hDefense, cls, q, dts).Ok?
      ensures layer in table && ClassTag(cls) in table[layer]
      ensures table == old(table)[layer := Entry(old(table), layer)[ClassTag(cls) := table[layer][ClassTag(cls)]]]
      ensures ok ==> table[layer][ClassTag(cls)] == DefenseRanks(finalPrediction, hDefense, cls, q, dts).value
      ensures layerOrder == if layer in old(table) then old(layerOrder) else old(layerOrder) + [layer]
      ensures tagOrder == old(tagOrder)[layer := if ClassTag(cls) in Entry(old(table), layer) then old(tagOrder)[layer]
                                                 else TagsOf(old(tagOrder), layer) + [ClassTag(cls)]]
      ensures candidates.Keys == old(candidates).Keys + {layer}
      ensures forall l :: l in old(candidates) && l != layer ==> candidates[l] == old(candidates)[l]
      ensures |candidates[layer]| == testC
      ensures forall c :: 0 <= c < testC ==>
        candidates[layer][c] == (if ClassIndices(finalPrediction, c) == [] then None
                                 else Some(ClassRows(finalPrediction, hDefense, c)))
    {
      var tag := ClassTag(cls);
      var gathered := GatherActivationIntoClass(finalPrediction, hDefense, testC);
      candidates := candidates[layer := gathered];
      ok := true;
      if gathered[cls].None? {
        // no reference row is predicted as cls: the entry stays empty
        assert ClassRows(finalPrediction, hDefense, cls) == [];
        StoreEntry(layer, tag, []);
        return;
      }
      var ranks;
      ok, ranks := RankItems(hDefense, finalPrediction, cls, gathered[cls].value, 1, q, dts);
      StoreEntry(layer, tag, ranks);
    }

    /** getLayerRegionDistance: resets table[layer][newTag] and fills it with the ranks of
      the new rows, class by class in ascending order, against the reference rows. Nothing
      else in the table changes; on an empty threshold the entry keeps the ranks emitted
      before it. */
    method LayerRegionDistance(newPrediction: seq<int>, newActivation: seq<Vec>, newTag: Tag,
                               hDefensePrediction: seq<int>, hDefense: seq<Vec>, layer: LayerId,
                               q: nat, dts: int, testC: nat) returns (ok: bool)
      requires Valid()
      requires |newPrediction| == |newActivation| && |hDefensePrediction| == |hDefense|
      requires forall k :: 0 <= k < |newPrediction| ==> 0 <= newPrediction[k] < testC
      modifies this
      ensures Valid()
      ensures ok <==> LayerRanks(newPrediction, newActivation, hDefensePrediction, hDefense, q, dts, testC).Ok?
      ensures layer in table && newTag in table[layer]
      ensures table == old(table)[layer := Entry(old(table), layer)[newTag := table[layer][newTag]]]
      ensures ok ==> table[layer][newTag] == LayerRanks(newPrediction, newActivation, hDefensePrediction, hDefense, q, dts, testC).value
      ensures layerOrder == if layer in old(table) then old(layerOrder) else old(layerOrder) + [layer]
      ensures tagOrder == old(tagOrder)[layer := if newTag in Entry(old(table), layer) then old(tagOrder)[layer]
                                                 else TagsOf(old(tagOrder), layer) + [newTag]]
      ensures candidates == old(candidates)
    {
      var ranks;
      ok, ranks := LayerRankLoop(newPrediction, newActivation, hDefensePrediction, hDefense, q, dts, testC);
      StoreEntry(layer, newTag, ranks);
    }
  }
}
