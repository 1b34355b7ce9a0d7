/** The reference set of TEDPLUS.__init__: the correctly predicted samples of the defense
    split are collected per class, SAMPLES_PER_CLASS of them are drawn for each retained class,
    the draw is filtered again by correctness and capped at DEFENSE_TRAIN_SIZE.

    The dataset is given by two sequences indexed by dataset index: `labels[x]` is the label of
    sample x and `preds[x]` the classifier's arg-max prediction for it (the classifier is in
    evaluation mode, so the two passes over the data see the same prediction). */
module ReferenceSet {
  import opened Wrappers

  /** Every index of s addresses a sample of a dataset of n samples. */
  predicate Indexes(s: seq<nat>, n: nat)
  {
    forall p :: 0 <= p < |s| ==> s[p] < n
  }

  predicate NoDup(s: seq<nat>)
  {
    forall i, j :: 0 <= i < j < |s| ==> s[i] != s[j]
  }

  /** The samples of class cls in `subset` that the classifier predicts correctly, in the
      order of the subset. */
  function CorrectOf(labels: seq<int>, preds: seq<int>, subset: seq<nat>, cls: int): (r: seq<nat>)
    requires |preds| == |labels| && Indexes(subset, |labels|)
    ensures |r| <= |subset|
    ensures forall x :: x in r ==> x in subset && labels[x] == cls && preds[x] == cls
  {
    if |subset| == 0 then []
    else
      var x := subset[|subset| - 1];
      CorrectOf(labels, preds, subset[..|subset| - 1], cls) + (if labels[x] == cls && preds[x] == cls then [x] else [])
  }

  /** CorrectOf misses no correctly predicted sample of the class, and repeats none when the
      subset has no repeated index. */
  lemma {:induction false} CorrectOfComplete(labels: seq<int>, preds: seq<int>, subset: seq<nat>, cls: int)
    requires |preds| == |labels| && Indexes(subset, |labels|)
    ensures forall x :: x in subset && labels[x] == cls && preds[x] == cls ==> x in CorrectOf(labels, preds, subset, cls)
    ensures NoDup(subset) ==> NoDup(CorrectOf(labels, preds, subset, cls))
  {
    if |subset| > 0 {
      var init := subset[..|subset| - 1];
      var x := subset[|subset| - 1];
      CorrectOfComplete(labels, preds, init, cls);
      forall y | y in subset && labels[y] == cls && preds[y] == cls
        ensures y in CorrectOf(labels, preds, subset, cls)
      {
        if y != x {
          assert y in init by {
            var p :| 0 <= p < |subset| && subset[p] == y;
            assert init[p] == y;
          }
        }
      }
      if NoDup(subset) {
        assert NoDup(init);
        forall p | 0 <= p < |init| ensures init[p] != x {
          assert init[p] == subset[p];
        }
        assert x !in CorrectOf(labels, preds, init, cls);
      }
    }
  }

  /** defaultdict(list) lookup: the list stored for key c, or the empty list. */
  function Get(m: map<int, seq<nat>>, c: int): seq<nat>
  {
    if c in m then m[c] else []
  }

  /** The loop over the unshuffled defense loader with its running current_idx: each
      correctly predicted sample's dataset index is appended to its label's list. */
  method CollectCorrect(labels: seq<int>, preds: seq<int>, subset: seq<nat>) returns (correct: map<int, seq<nat>>)
    requires |preds| == |labels| && Indexes(subset, |labels|)
    ensures forall c :: Get(correct, c) == CorrectOf(labels, preds, subset, c)
  {
    correct := map[];
    var currentIdx := 0;
    while currentIdx < |subset|
      invariant 0 <= currentIdx <= |subset|
      invariant forall c :: Get(correct, c) == CorrectOf(labels, preds, subset[..currentIdx], c)
    {
      var sampleIdx := subset[currentIdx];
      ghost var before := correct;
      if preds[sampleIdx] == labels[sampleIdx] {
        var cls := labels[sampleIdx];
        correct := correct[cls := Get(correct, cls) + [sampleIdx]];
      }
      CollectStep(labels, preds, subset, currentIdx, before, correct);
      currentIdx := currentIdx + 1;
    }
    assert subset[..currentIdx] == subset;
  }

  /** The loop body keeps the invariant: after sample j the lists are those of subset[..j+1]. */
  lemma CollectStep(labels: seq<int>, preds: seq<int>, subset: seq<nat>, j: nat,
                    before: map<int, seq<nat>>, after: map<int, seq<nat>>)
    requires |preds| == |labels| && Indexes(subset, |labels|) && j < |subset|
    requires forall c :: Get(before, c) == CorrectOf(labels, preds, subset[..j], c)
    requires after == if preds[subset[j]] == labels[subset[j]]
                      then before[labels[subset[j]] := Get(before, labels[subset[j]]) + [subset[j]]]
                      else before
    ensures forall c :: Get(after, c) == CorrectOf(labels, preds, subset[..j + 1], c)
  {
    forall c ensures Get(after, c) == CorrectOf(labels, preds, subset[..j + 1], c) {
      CorrectOfStep(labels, preds, subset, j, c);
    }
  }

  /** One more sample of the subset extends the collection of its own class only. */
  lemma CorrectOfStep(labels: seq<int>, preds: seq<int>, subset: seq<nat>, j: nat, c: int)
    requires |preds| == |labels| && Indexes(subset, |labels|) && j < |subset|
    ensures CorrectOf(labels, preds, subset[..j + 1], c) ==
      CorrectOf(labels, preds, subset[..j], c) + (if labels[subset[j]] == c && preds[subset[j]] == c then [subset[j]] else [])
  {
    assert subset[..j + 1][..j] == subset[..j];
  }

  /** The contract of one np.random.choice(pool, q, replace=...) draw: q entries of the pool;
      without replacement (enough entries and none repeated) no entry is drawn twice. */
  predicate Drawn(sampled: seq<nat>, pool: seq<nat>, q: nat)
  {
    |sampled| == q &&
    (forall x :: x in sampled ==> x in pool) &&
    (|pool| >= q && NoDup(pool) ==> NoDup(sampled))
  }

  /** One draw of q samples of a class: without replacement when the pool has at least q
      entries, with replacement otherwise; drawing from an empty pool raises. */
  method Draw(pool: seq<nat>, q: nat) returns (r: Result<seq<nat>>)
    ensures r.Err? <==> q > 0 && pool == []
    ensures r.Err? ==> r.error == EmptyChoice
    ensures r.Ok? ==> Drawn(r.value, pool, q)
  {
    if |pool| >= q {
      ghost var w := seq(q, j => j);
      assert |w| == q && (forall j :: 0 <= j < q ==> w[j] < |pool|);
      var pos: seq<nat> :| |pos| == q && (forall j :: 0 <= j < q ==> pos[j] < |pool|) &&
        (forall j, j' :: 0 <= j < j' < q ==> pos[j] != pos[j']);
      var sampled := seq(q, j requires 0 <= j < q => pool[pos[j]]);
      if NoDup(pool) {
        forall j, j' | 0 <= j < j' < q ensures sampled[j] != sampled[j'] {
          assert pos[j] != pos[j'];
        }
      }
      return Ok(sampled);
    } else if |pool| == 0 {
      return Err(EmptyChoice);
    }
    ghost var w := seq(q, j => 0);
    assert |w| == q && (forall j :: 0 <= j < q ==> w[j] < |pool|);
    var pos: seq<nat> :| |pos| == q && (forall j :: 0 <= j < q ==> pos[j] < |pool|);
    var sampled := seq(q, j requires 0 <= j < q => pool[pos[j]]);
    return Ok(sampled);
  }

  /** The loop over label in range(num_classes - NUM_MISSING_CLASS): one draw per retained
      class, in class order; the first class with nothing to draw from raises. */
  method SelectReference(correct: map<int, seq<nat>>, retained: nat, q: nat) returns (r: Result<seq<seq<nat>>>)
    ensures r.Err? <==> q > 0 && exists c :: 0 <= c < retained && Get(correct, c) == []
    ensures r.Err? ==> r.error == EmptyChoice
    ensures r.Ok? ==> |r.value| == retained
    ensures r.Ok? ==> forall c :: 0 <= c < retained ==> Drawn(r.value[c], Get(correct, c), q)
  {
    var blocks: seq<seq<nat>> := [];
    var cls := 0;
    while cls < retained
      invariant 0 <= cls <= retained && |blocks| == cls
      invariant forall c :: 0 <= c < cls ==> Drawn(blocks[c], Get(correct, c), q)
      invariant q > 0 ==> forall c :: 0 <= c < cls ==> Get(correct, c) != []
    {
      var sampled := Draw(Get(correct, cls), q);
      if sampled.Err? {
        return Err(sampled.error);
      }
      blocks := blocks + [sampled.value];
      cls := cls + 1;
    }
    return Ok(blocks);
  }

  /** The sampled lists of all classes, one after the other (defense_indices_final). */
  function Flatten(blocks: seq<seq<nat>>): (r: seq<nat>)
    ensures forall x :: x in r ==> exists c :: 0 <= c < |blocks| && x in blocks[c]
  {
    if |blocks| == 0 then []
    else
      var r := Flatten(blocks[..|blocks| - 1]) + blocks[|blocks| - 1];
      assert forall x :: x in r ==> x in Flatten(blocks[..|blocks| - 1]) || x in blocks[|blocks| - 1];
      r
  }

  lemma {:induction false} FlattenLength(blocks: seq<seq<nat>>, q: nat)
    requires forall c :: 0 <= c < |blocks| ==> |blocks[c]| == q
    ensures |Flatten(blocks)| == |blocks| * q
  {
    if |blocks| > 0 {
      FlattenLength(blocks[..|blocks| - 1], q);
      assert |blocks| * q == (|blocks| - 1) * q + q;
    }
  }

  /** The members of s whose label is c, in order. */
  function ClassMembers(s: seq<nat>, labels: seq<int>, c: int): (r: seq<nat>)
    requires Indexes(s, |labels|)
    ensures |r| <= |s|
  {
    if |s| == 0 then []
    else
      var x := s[|s| - 1];
      ClassMembers(s[..|s| - 1], labels, c) + (if labels[x] == c then [x] else [])
  }

  lemma {:induction false} ClassMembersAppend(a: seq<nat>, b: seq<nat>, labels: seq<int>, c: int)
    requires Indexes(a, |labels|) && Indexes(b, |labels|)
    ensures Indexes(a + b, |labels|)
    ensures ClassMembers(a + b, labels, c) == ClassMembers(a, labels, c) + ClassMembers(b, labels, c)
  {
    if |b| == 0 {
      assert a + b == a;
    } else {
      ClassMembersAppend(a, b[..|b| - 1], labels, c);
      assert (a + b)[..|a + b| - 1] == a + b[..|b| - 1];
      assert (a + b)[|a + b| - 1] == b[|b| - 1];
    }
  }

  lemma {:induction false} ClassMembersUniform(b: seq<nat>, labels: seq<int>, d: int, c: int)
    requires Indexes(b, |labels|)
    requires forall x :: x in b ==> labels[x] == d
    ensures ClassMembers(b, labels, c) == if c == d then b else []
  {
    if |b| > 0 {
      ClassMembersUniform(b[..|b| - 1], labels, d, c);
      assert b[..|b| - 1] + [b[|b| - 1]] == b;
    }
  }

  /** Block d holds only samples labelled d. */
  predicate Labelled(blocks: seq<seq<nat>>, labels: seq<int>)
  {
    forall d, p :: 0 <= d < |blocks| && 0 <= p < |blocks[d]| ==> blocks[d][p] < |labels| && labels[blocks[d][p]] == d
  }

  /** When block c holds only samples labelled c, the members of class c in the flattened
      list are exactly block c. */
  lemma {:induction false} FlattenMembers(blocks: seq<seq<nat>>, labels: seq<int>, c: int)
    requires Labelled(blocks, labels)
    ensures Indexes(Flatten(blocks), |labels|)
    ensures ClassMembers(Flatten(blocks), labels, c) == if 0 <= c < |blocks| then blocks[c] else []
  {
    if |blocks| > 0 {
      var init := blocks[..|blocks| - 1];
      var last := blocks[|blocks| - 1];
      assert Labelled(init, labels) by {
        forall d, p | 0 <= d < |init| && 0 <= p < |init[d]| ensures init[d][p] < |labels| && labels[init[d][p]] == d {
          assert init[d] == blocks[d];
        }
      }
      FlattenMembers(init, labels, c);
      assert Indexes(last, |labels|);
      ClassMembersAppend(Flatten(init), last, labels, c);
      forall x | x in last ensures labels[x] == |blocks| - 1 {
        var p :| 0 <= p < |last| && last[p] == x;
      }
      ClassMembersUniform(last, labels, |blocks| - 1, c);
    }
  }

  /** The samples of s that the classifier predicts correctly (benign_mask). */
  function Refilter(labels: seq<int>, preds: seq<int>, s: seq<nat>): (r: seq<nat>)
    requires |preds| == |labels| && Indexes(s, |labels|)
    ensures forall x :: x in r <==> x in s && preds[x] == labels[x]
  {
    if |s| == 0 then []
    else
      var x := s[|s| - 1];
      assert forall y :: y in s <==> y in s[..|s| - 1] || y == x;
      Refilter(labels, preds, s[..|s| - 1]) + (if preds[x] == labels[x] then [x] else [])
  }

  /** Re-filtering a list of correctly predicted samples removes nothing. */
  lemma {:induction false} RefilterKeepsCorrect(labels: seq<int>, preds: seq<int>, s: seq<nat>)
    requires |preds| == |labels| && Indexes(s, |labels|)
    requires forall x :: x in s ==> preds[x] == labels[x]
    ensures Refilter(labels, preds, s) == s
  {
    if |s| > 0 {
      RefilterKeepsCorrect(labels, preds, s[..|s| - 1]);
      assert s[..|s| - 1] + [s[|s| - 1]] == s;
    }
  }

  /** The cap: more than size samples are cut down to size by a draw without replacement. */
  method Cap(benign: seq<nat>, size: nat) returns (r: seq<nat>)
    ensures |benign| <= size ==> r == benign
    ensures |benign| > size ==> Drawn(r, benign, size)
  {
    if |benign| <= size {
      return benign;
    }
    ghost var w := seq(size, j => j);
    assert |w| == size && (forall j :: 0 <= j < size ==> w[j] < |benign|);
    var pos: seq<nat> :| |pos| == size && (forall j :: 0 <= j < size ==> pos[j] < |benign|) &&
      (forall j, j' :: 0 <= j < j' < size ==> pos[j] != pos[j']);
    r := seq(size, j requires 0 <= j < size => benign[pos[j]]);
    if NoDup(benign) {
      forall j, j' | 0 <= j < j' < size ensures r[j] != r[j'] {
        assert pos[j] != pos[j'];
      }
    }
  }

  lemma MulLeq(a: nat, b: nat, q: nat)
    requires a <= b
    ensures a * q <= b * q
  {
    assert b * q == a * q + (b - a) * q;
  }

  /** The classes kept: 0 .. num_classes - NUM_MISSING_CLASS - 1 (none when negative). */
  function Retained(numClasses: nat, numMissing: nat): nat
  {
    if numClasses >= numMissing then numClasses - numMissing else 0
  }

  /** Every sample drawn for class d is a correctly predicted sample of class d. */
  lemma BlocksLabelled(labels: seq<int>, preds: seq<int>, subset: seq<nat>, correct: map<int, seq<nat>>,
                       blocks: seq<seq<nat>>, q: nat)
    requires |preds| == |labels| && Indexes(subset, |labels|)
    requires forall c :: Get(correct, c) == CorrectOf(labels, preds, subset, c)
    requires forall c :: 0 <= c < |blocks| ==> Drawn(blocks[c], Get(correct, c), q)
    ensures Labelled(blocks, labels)
    ensures forall d, p :: 0 <= d < |blocks| && 0 <= p < |blocks[d]| ==>
      preds[blocks[d][p]] == labels[blocks[d][p]] && blocks[d][p] in subset
  {
    forall d, p | 0 <= d < |blocks| && 0 <= p < |blocks[d]|
      ensures blocks[d][p] < |labels| && labels[blocks[d][p]] == d && preds[blocks[d][p]] == d && blocks[d][p] in subset
    {
      assert blocks[d][p] in Get(correct, d);
    }
  }

  /** What the per-class draws give defense_indices_final: q samples of each class, all
      correctly predicted members of the defense split, and no repeats within a class that
      had at least q of them. */
  lemma DrawnBlocks(labels: seq<int>, preds: seq<int>, subset: seq<nat>, correct: map<int, seq<nat>>,
                    blocks: seq<seq<nat>>, q: nat)
    requires |preds| == |labels| && Indexes(subset, |labels|)
    requires forall c :: Get(correct, c) == CorrectOf(labels, preds, subset, c)
    requires forall c :: 0 <= c < |blocks| ==> Drawn(blocks[c], Get(correct, c), q)
    ensures Indexes(Flatten(blocks), |labels|)
    ensures |Flatten(blocks)| == |blocks| * q
    ensures forall x :: x in Flatten(blocks) ==> x in subset && preds[x] == labels[x] && 0 <= labels[x] < |blocks|
    ensures forall c :: 0 <= c < |blocks| ==> |ClassMembers(Flatten(blocks), labels, c)| == q
  {
    BlocksLabelled(labels, preds, subset, correct, blocks, q);
    FlattenLength(blocks, q);
    FlattenMembers(blocks, labels, 0);
    forall x | x in Flatten(blocks) ensures x in subset && preds[x] == labels[x] && 0 <= labels[x] < |blocks| {
      var d :| 0 <= d < |blocks| && x in blocks[d];
      var p :| 0 <= p < |blocks[d]| && blocks[d][p] == x;
    }
    forall c | 0 <= c < |blocks| ensures |ClassMembers(Flatten(blocks), labels, c)| == q {
      FlattenMembers(blocks, labels, c);
    }
  }

  /** Within a class that had at least q correct samples, defense_indices_final repeats no
      sample when the defense split repeats none. */
  lemma DrawnBlocksNoDup(labels: seq<int>, preds: seq<int>, subset: seq<nat>, blocks: seq<seq<nat>>, q: nat)
    requires |preds| == |labels| && Indexes(subset, |labels|) && NoDup(subset)
    requires forall c :: 0 <= c < |blocks| ==> Drawn(blocks[c], CorrectOf(labels, preds, subset, c), q)
    requires Labelled(blocks, labels) && Indexes(Flatten(blocks), |labels|)
    ensures forall c :: (0 <= c < |blocks| && |CorrectOf(labels, preds, subset, c)| >= q) ==>
      NoDup(ClassMembers(Flatten(blocks), labels, c))
  {
    forall c | 0 <= c < |blocks| && |CorrectOf(labels, preds, subset, c)| >= q
      ensures NoDup(ClassMembers(Flatten(blocks), labels, c))
    {
      ClassNoDup(labels, preds, subset, blocks[c], CorrectOf(labels, preds, subset, c), q, c);
      FlattenMembers(blocks, labels, c);
    }
  }

  /** A draw without replacement from a class's correct samples, taken from a split without
      repeats, repeats nothing. */
  lemma ClassNoDup(labels: seq<int>, preds: seq<int>, subset: seq<nat>, block: seq<nat>, pool: seq<nat>, q: nat, c: int)
    requires |preds| == |labels| && Indexes(subset, |labels|)
    requires pool == CorrectOf(labels, preds, subset, c) && |pool| >= q
    requires Drawn(block, pool, q) && NoDup(subset)
    ensures NoDup(block)
  {
    CorrectOfComplete(labels, preds, subset, c);
  }

  /** The reference-set builder, from the per-class collection to the capped final list of
      dataset indices. It raises when some retained class has no correctly predicted sample
      and q > 0. Otherwise every class 0 .. retained - 1 gets exactly q samples, all of that
      class, all correctly predicted and drawn from the defense split, pairwise distinct when
      the class has at least q of them; the cap at num_classes * q never removes anything. */
  method BuildReferenceSet(labels: seq<int>, preds: seq<int>, subset: seq<nat>, numClasses: nat, numMissing: nat, q: nat)
    returns (r: Result<seq<nat>>)
    requires |preds| == |labels| && Indexes(subset, |labels|)
    ensures r.Err? <==> q > 0 && exists c :: 0 <= c < Retained(numClasses, numMissing) && CorrectOf(labels, preds, subset, c) == []
    ensures r.Err? ==> r.error == EmptyChoice
    ensures r.Ok? ==> |r.value| == Retained(numClasses, numMissing) * q <= numClasses * q
    ensures r.Ok? ==> forall x :: x in r.value ==>
      x in subset && preds[x] == labels[x] && 0 <= labels[x] < Retained(numClasses, numMissing)
    ensures r.Ok? ==> Indexes(r.value, |labels|)
    ensures r.Ok? ==> forall c :: 0 <= c < Retained(numClasses, numMissing) ==> |ClassMembers(r.value, labels, c)| == q
    ensures r.Ok? && NoDup(subset) ==> forall c ::
      (0 <= c < Retained(numClasses, numMissing) && |CorrectOf(labels, preds, subset, c)| >= q) ==>
        NoDup(ClassMembers(r.value, labels, c))
  {
    var retained := Retained(numClasses, numMissing);
    var correct := CollectCorrect(labels, preds, subset);
    var selected := SelectReference(correct, retained, q);
    if selected.Err? {
      ghost var c :| 0 <= c < retained && Get(correct, c) == [];
      assert CorrectOf(labels, preds, subset, c) == [];
      return Err(selected.error);
    }
    var blocks := selected.value;
    if q > 0 {
      forall c | 0 <= c < retained ensures CorrectOf(labels, preds, subset, c) != [] {
        assert blocks[c][0] in Get(correct, c);
      }
    }
    var defenseIndicesFinal := Flatten(blocks);
    DrawnBlocks(labels, preds, subset, correct, blocks, q);
    if NoDup(subset) {
      BlocksLabelled(labels, preds, subset, correct, blocks, q);
      forall c | 0 <= c < |blocks| ensures Drawn(blocks[c], CorrectOf(labels, preds, subset, c), q) {
        assert Get(correct, c) == CorrectOf(labels, preds, subset, c);
      }
      DrawnBlocksNoDup(labels, preds, subset, blocks, q);
    }
    MulLeq(retained, numClasses, q);
    var benignIndices := Refilter(labels, preds, defenseIndicesFinal);
    RefilterKeepsCorrect(labels, preds, defenseIndicesFinal);
    var capped := Cap(benignIndices, numClasses * q);
    return Ok(capped);
  }
}
