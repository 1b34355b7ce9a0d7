/** TEDPLUS.generate_poison_clean_sets and create_targets: the buffers of backdoored
    ("Poison") and clean samples the detector later ranks against the reference set.

    A test sample is an Item (its index and label). The classifier is the oracle `predict`,
    which gives the arg-max prediction for one input; the poison transform (or, for SSDT, the
    generator networks of create_bd) turns a sample into its backdoored version, modelled as
    the same sample with `poisoned` set. Tensors of inputs are sequences of Input records, and
    the lists of per-batch tensors are flattened into one sequence per buffer. */
module PoisonCleanSets {
  import opened Wrappers

  datatype Item = Item(id: nat, cls: int)

  /** An input tensor row: the test sample it comes from and whether it was backdoored. */
  datatype Input = Input(id: nat, origLabel: int, poisoned: bool)

  /** label_mapping: the temporary labels of the two buffers. */
  const PoisonLabel: int := 101
  const CleanLabel: int := 102

  /** create_targets: a vector of the same length as `targets`, every entry `value`. */
  function CreateTargets(targets: seq<int>, value: int): (r: seq<int>)
    ensures |r| == |targets|
    ensures forall i :: 0 <= i < |r| ==> r[i] == value
  {
    seq(|targets|, i => value)
  }

  function CleanInput(it: Item): Input
  {
    Input(it.id, it.cls, false)
  }

  function Backdoored(it: Item): Input
  {
    Input(it.id, it.cls, true)
  }

  /** The poison rows of one batch: the backdoored versions of the source-class samples that
      the classifier sends to the target class, with their predictions. */
  function PoisonOf(batch: seq<Item>, source: int, target: int, predict: Input -> int): (r: seq<Input>)
    ensures forall x :: x in r ==> x.poisoned && x.origLabel == source && predict(x) == target
    ensures |r| <= |batch|
  {
    if |batch| == 0 then []
    else
      var it := batch[|batch| - 1];
      var prev := PoisonOf(batch[..|batch| - 1], source, target, predict);
      if it.cls == source && predict(Backdoored(it)) == target then prev + [Backdoored(it)] else prev
  }

  /** The clean rows of one batch: every sample whose label is not the source class. */
  function CleanOf(batch: seq<Item>, source: int): (r: seq<Input>)
    ensures forall x :: x in r ==> !x.poisoned && x.origLabel != source
    ensures |r| <= |batch|
  {
    if |batch| == 0 then []
    else
      var it := batch[|batch| - 1];
      var prev := CleanOf(batch[..|batch| - 1], source);
      if it.cls != source then prev + [CleanInput(it)] else prev
  }

  /** PoisonOf and CleanOf miss nothing: a source-class sample whose backdoored version is
      predicted as the target is kept in the poison rows, and every other-class sample is
      kept in the clean rows. */
  lemma {:induction false} SelectionComplete(batch: seq<Item>, source: int, target: int, predict: Input -> int)
    ensures forall it :: it in batch && it.cls == source && predict(Backdoored(it)) == target ==>
      Backdoored(it) in PoisonOf(batch, source, target, predict)
    ensures forall it :: it in batch && it.cls != source ==> CleanInput(it) in CleanOf(batch, source)
  {
    if |batch| > 0 {
      var init := batch[..|batch| - 1];
      SelectionComplete(init, source, target, predict);
      assert forall it :: it in batch ==> it in init || it == batch[|batch| - 1];
    }
  }

  /** The poison rows of a run of batches, batch after batch. */
  function PoisonRows(batches: seq<seq<Item>>, source: int, target: int, predict: Input -> int): seq<Input>
  {
    if |batches| == 0 then []
    else PoisonRows(batches[..|batches| - 1], source, target, predict) + PoisonOf(batches[|batches| - 1], source, target, predict)
  }

  /** The clean rows of a run of batches, batch after batch. */
  function CleanRows(batches: seq<seq<Item>>, source: int): seq<Input>
  {
    if |batches| == 0 then []
    else CleanRows(batches[..|batches| - 1], source) + CleanOf(batches[|batches| - 1], source)
  }

  /** m passes over the test loader, one after the other. The test loader does not shuffle,
      so every pass deals the same batches in the same order. */
  function Passes(loader: seq<seq<Item>>, m: nat): seq<seq<Item>>
  {
    if m == 0 then [] else Passes(loader, m - 1) + loader
  }

  /** A run of batches that continues another yields rows that continue its rows. */
  lemma {:induction false} RowsPrefix(a: seq<seq<Item>>, b: seq<seq<Item>>, source: int, target: int, predict: Input -> int)
    requires a <= b
    ensures PoisonRows(a, source, target, predict) <= PoisonRows(b, source, target, predict)
    ensures CleanRows(a, source) <= CleanRows(b, source)
    decreases |b|
  {
    if |a| < |b| {
      var init := b[..|b| - 1];
      assert a <= init;
      RowsPrefix(a, init, source, target, predict);
    } else {
      assert a == b;
    }
  }

  /** A pass cut short after k batches is a prefix of the run with one more full pass. */
  lemma PartialPassPrefix(loader: seq<seq<Item>>, m: nat, k: nat)
    requires k <= |loader|
    ensures Passes(loader, m) + loader[..k] <= Passes(loader, m + 1)
  {
    assert Passes(loader, m + 1) == Passes(loader, m) + loader;
    assert (Passes(loader, m) + loader)[..|Passes(loader, m)| + k] == Passes(loader, m) + loader[..k];
  }

  /** More passes only append rows: the first NUM_SAMPLES rows of the stream do not depend on
      the pass at which the loop stops, once the stream is that long. */
  lemma {:induction false} StreamPrefix(loader: seq<seq<Item>>, m: nat, m': nat, source: int, target: int, predict: Input -> int)
    requires m <= m'
    ensures PoisonRows(Passes(loader, m), source, target, predict) <= PoisonRows(Passes(loader, m'), source, target, predict)
    ensures CleanRows(Passes(loader, m), source) <= CleanRows(Passes(loader, m'), source)
    decreases m'
  {
    if m < m' {
      StreamPrefix(loader, m, m' - 1, source, target, predict);
      PartialPassPrefix(loader, m' - 1, 0);
      assert loader[..0] == [];
      RowsPrefix(Passes(loader, m' - 1), Passes(loader, m'), source, target, predict);
    }
  }

  /** The rows of two runs of batches, one after the other. */
  lemma {:induction false} RowsAppend(a: seq<seq<Item>>, b: seq<seq<Item>>, source: int, target: int, predict: Input -> int)
    ensures PoisonRows(a + b, source, target, predict) == PoisonRows(a, source, target, predict) + PoisonRows(b, source, target, predict)
    ensures CleanRows(a + b, source) == CleanRows(a, source) + CleanRows(b, source)
    decreases |b|
  {
    if |b| == 0 {
      assert a + b == a;
    } else {
      var init, last := b[..|b| - 1], b[|b| - 1];
      assert (a + b)[..|a + b| - 1] == a + init;
      assert (a + b)[|a + b| - 1] == last;
      RowsAppend(a, init, source, target, predict);
      var pa, pi, pl := PoisonRows(a, source, target, predict), PoisonRows(init, source, target, predict), PoisonOf(last, source, target, predict);
      assert PoisonRows(a + b, source, target, predict) == PoisonRows(a + init, source, target, predict) + pl;
      assert PoisonRows(b, source, target, predict) == pi + pl;
      assert (pa + pi) + pl == pa + (pi + pl);
      var ca, ci, cl := CleanRows(a, source), CleanRows(init, source), CleanOf(last, source);
      assert CleanRows(a + b, source) == CleanRows(a + init, source) + cl;
      assert CleanRows(b, source) == ci + cl;
      assert (ca + ci) + cl == ca + (ci + cl);
    }
  }

  /** No batch of a run yields a poison row exactly when the run's poison rows are empty. */
  lemma {:induction false} PoisonRowsEmpty(batches: seq<seq<Item>>, source: int, target: int, predict: Input -> int)
    ensures PoisonRows(batches, source, target, predict) == [] <==>
      forall j :: 0 <= j < |batches| ==> PoisonOf(batches[j], source, target, predict) == []
    decreases |batches|
  {
    if |batches| > 0 {
      var init, last := batches[..|batches| - 1], batches[|batches| - 1];
      PoisonRowsEmpty(init, source, target, predict);
      var rows, more := PoisonRows(init, source, target, predict), PoisonOf(last, source, target, predict);
      assert PoisonRows(batches, source, target, predict) == rows + more;
      if forall j :: 0 <= j < |batches| ==> PoisonOf(batches[j], source, target, predict) == [] {
        forall j | 0 <= j < |init| ensures PoisonOf(init[j], source, target, predict) == [] {
          assert init[j] == batches[j];
        }
        assert rows + more == [];
      }
      if rows + more == [] {
        assert |rows| == 0 && |more| == 0;
        forall j | 0 <= j < |batches| ensures PoisonOf(batches[j], source, target, predict) == [] {
          if j < |init| {
            assert batches[j] == init[j];
          }
        }
      }
    }
  }

  /** No batch of a run yields a clean row exactly when the run's clean rows are empty. */
  lemma {:induction false} CleanRowsEmpty(batches: seq<seq<Item>>, source: int)
    ensures CleanRows(batches, source) == [] <==> forall j :: 0 <= j < |batches| ==> CleanOf(batches[j], source) == []
    decreases |batches|
  {
    if |batches| > 0 {
      var init, last := batches[..|batches| - 1], batches[|batches| - 1];
      CleanRowsEmpty(init, source);
      var rows, more := CleanRows(init, source), CleanOf(last, source);
      assert CleanRows(batches, source) == rows + more;
      if forall j :: 0 <= j < |batches| ==> CleanOf(batches[j], source) == [] {
        forall j | 0 <= j < |init| ensures CleanOf(init[j], source) == [] {
          assert init[j] == batches[j];
        }
        assert rows + more == [];
      }
      if rows + more == [] {
        assert |rows| == 0 && |more| == 0;
        forall j | 0 <= j < |batches| ensures CleanOf(batches[j], source) == [] {
          if j < |init| {
            assert batches[j] == init[j];
          }
        }
      }
    }
  }

  /** m passes over a loader none of whose batches yields a row yield no row. */
  lemma {:induction false} PassesEmpty(loader: seq<seq<Item>>, m: nat, source: int, target: int, predict: Input -> int)
    ensures PoisonRows(loader, source, target, predict) == [] ==> PoisonRows(Passes(loader, m), source, target, predict) == []
    ensures CleanRows(loader, source) == [] ==> CleanRows(Passes(loader, m), source) == []
  {
    if m > 0 {
      PassesEmpty(loader, m - 1, source, target, predict);
      RowsAppend(Passes(loader, m - 1), loader, source, target, predict);
    }
  }

  /** A buffer follows a stream of rows from `start`: it extends `start`, it is a prefix of
      `start` followed by the stream, it falls behind the stream only once it holds n rows,
      and a buffer that started with n rows took nothing. */
  ghost predicate Follows(start: seq<Input>, buf: seq<Input>, stream: seq<Input>, n: nat)
  {
    |start| <= |buf| <= |start| + |stream| && buf == (start + stream)[..|buf|] &&
    (|buf| < |start| + |stream| ==> |buf| >= n) &&
    (|start| >= n ==> |buf| == |start|)
  }

  /** Before any batch, the buffer follows the empty stream. */
  lemma FollowsStart(start: seq<Input>, n: nat)
    ensures Follows(start, start, [], n)
  {
    assert start + [] == start;
  }

  /** One batch: a short buffer takes the batch's rows, a full one takes nothing. */
  lemma FollowsStep(start: seq<Input>, buf: seq<Input>, stream: seq<Input>, n: nat, add: seq<Input>)
    requires Follows(start, buf, stream, n)
    ensures Follows(start, buf + (if |buf| < n then add else []), stream + add, n)
  {
    if |buf| < n {
      assert buf == start + stream;
      assert buf + add == start + (stream + add);
      assert (buf + add)[..|start|] == start;
    } else {
      assert buf + [] == buf;
      assert (start + (stream + add))[..|start + stream|] == start + stream;
    }
  }

  /** Two stretches of following, the second starting where the first ended. */
  lemma FollowsJoin(start: seq<Input>, mid: seq<Input>, buf: seq<Input>, x: seq<Input>, y: seq<Input>, n: nat)
    requires Follows(start, mid, x, n) && Follows(mid, buf, y, n)
    ensures Follows(start, buf, x + y, n)
  {
    if mid == start + x {
      assert mid + y == start + (x + y);
    } else {
      assert (start + (x + y))[..|start + x|] == start + x;
    }
  }

  /** A full buffer that follows a stream follows any continuation of it. */
  lemma FollowsExtend(start: seq<Input>, buf: seq<Input>, stream: seq<Input>, longer: seq<Input>, n: nat)
    requires Follows(start, buf, stream, n) && |buf| >= n && stream <= longer
    ensures Follows(start, buf, longer, n)
  {
    assert (start + longer)[..|start + stream|] == start + stream;
  }

  /** A buffer that holds n rows and follows a stream holds the first n rows of any
      continuation of that stream. */
  lemma FollowsCut(start: seq<Input>, buf: seq<Input>, stream: seq<Input>, full: seq<Input>, n: nat)
    requires Follows(start, buf, stream, n) && |buf| >= n && stream <= full
    ensures n <= |start + full| && buf[..n] == (start + full)[..n]
  {
    assert start + stream <= start + full by {
      assert (start + full)[..|start + stream|] == start + stream;
    }
  }

  /** One pass of the targeted loop, k batches long, after `passes` full passes: each
      buffer that followed the rows of the passes before follows the rows of one more pass
      (a pass cut short leaves both buffers full), and a full pass over a loader with rows
      for a short buffer makes it grow. */
  lemma PassJoin(loader: seq<seq<Item>>, passes: nat, k: nat, n: nat, source: int, target: int, predict: Input -> int,
                 p0: seq<Input>, pBefore: seq<Input>, pAfter: seq<Input>,
                 c0: seq<Input>, cBefore: seq<Input>, cAfter: seq<Input>)
    requires k <= |loader| && (k < |loader| ==> |pAfter| >= n && |cAfter| >= n)
    requires Follows(p0, pBefore, PoisonRows(Passes(loader, passes), source, target, predict), n)
    requires Follows(c0, cBefore, CleanRows(Passes(loader, passes), source), n)
    requires Follows(pBefore, pAfter, PoisonRows(loader[..k], source, target, predict), n)
    requires Follows(cBefore, cAfter, CleanRows(loader[..k], source), n)
    ensures Follows(p0, pAfter, PoisonRows(Passes(loader, passes + 1), source, target, predict), n)
    ensures Follows(c0, cAfter, CleanRows(Passes(loader, passes + 1), source), n)
    ensures |pBefore| <= |pAfter| && |cBefore| <= |cAfter|
    ensures PoisonRows(loader, source, target, predict) != [] ==> |pAfter| >= n || |pAfter| > |pBefore|
    ensures CleanRows(loader, source) != [] ==> |cAfter| >= n || |cAfter| > |cBefore|
  {
    var done := Passes(loader, passes);
    var ps, cs := PoisonRows(loader[..k], source, target, predict), CleanRows(loader[..k], source);
    FollowsJoin(p0, pBefore, pAfter, PoisonRows(done, source, target, predict), ps, n);
    FollowsJoin(c0, cBefore, cAfter, CleanRows(done, source), cs, n);
    RowsAppend(done, loader[..k], source, target, predict);
    PartialPassPrefix(loader, passes, k);
    RowsPrefix(done + loader[..k], Passes(loader, passes + 1), source, target, predict);
    assert Passes(loader, passes + 1) == done + loader;
    if k == |loader| {
      assert loader[..k] == loader;
    } else {
      FollowsExtend(p0, pAfter, PoisonRows(done + loader[..k], source, target, predict),
                    PoisonRows(Passes(loader, passes + 1), source, target, predict), n);
      FollowsExtend(c0, cAfter, CleanRows(done + loader[..k], source), CleanRows(Passes(loader, passes + 1), source), n);
    }
  }

  function Predictions(xs: seq<Input>, predict: Input -> int): (r: seq<int>)
    ensures |r| == |xs|
    ensures forall i :: 0 <= i < |xs| ==> r[i] == predict(xs[i])
  {
    seq(|xs|, i requires 0 <= i < |xs| => predict(xs[i]))
  }

  /** The detector's poison and clean buffers (temp_*_set) and their counters. */
  class PoisonCleanSets {
    /** True for TaCT and SSDT, which build the sets by filtering the test loader. */
    const targeted: bool
    const numSamples: nat
    const sourceClass: int
    const target: int
    const predict: Input -> int

    var poisonCount: int
    var cleanCount: int
    var poisonInputs: seq<Input>
    var poisonLabels: seq<int>
    var poisonPreds: seq<int>
    var cleanInputs: seq<Input>
    var cleanLabels: seq<int>
    var cleanPreds: seq<int>

    /** The counters count the rows, every label is the buffer's temporary label, every
        prediction is the classifier's, and the poison rows are backdoored and the clean rows
        are not. In the targeted mode the poison rows come from the source class and hit the
        target, and the clean rows come from the other classes. */
    ghost predicate Valid()
      reads this
    {
      poisonCount == |poisonInputs| == |poisonLabels| == |poisonPreds| &&
      cleanCount == |cleanInputs| == |cleanLabels| == |cleanPreds| &&
      (forall i :: 0 <= i < |poisonLabels| ==> poisonLabels[i] == PoisonLabel) &&
      (forall i :: 0 <= i < |cleanLabels| ==> cleanLabels[i] == CleanLabel) &&
      (forall i :: 0 <= i < |poisonInputs| ==> poisonInputs[i].poisoned && poisonPreds[i] == predict(poisonInputs[i])) &&
      (forall i :: 0 <= i < |cleanInputs| ==> !cleanInputs[i].poisoned && cleanPreds[i] == predict(cleanInputs[i])) &&
      (targeted ==> forall i :: 0 <= i < |poisonInputs| ==> poisonInputs[i].origLabel == sourceClass && poisonPreds[i] == target) &&
      (targeted ==> forall i :: 0 <= i < |cleanInputs| ==> cleanInputs[i].origLabel != sourceClass)
    }

    /** The counters and buffers as __init__ leaves them. */
    constructor (targeted: bool, numSamples: nat, sourceClass: int, target: int, predict: Input -> int)
      ensures Valid()
      ensures this.targeted == targeted && this.numSamples == numSamples
      ensures this.sourceClass == sourceClass && this.target == target && this.predict == predict
      ensures poisonCount == 0 && cleanCount == 0
      ensures poisonInputs == [] && cleanInputs == []
    {
      this.targeted := targeted;
      this.numSamples := numSamples;
      this.sourceClass := sourceClass;
      this.target := target;
      this.predict := predict;
      poisonCount, cleanCount := 0, 0;
      poisonInputs, poisonLabels, poisonPreds := [], [], [];
      cleanInputs, cleanLabels, cleanPreds := [], [], [];
    }

    /** Appends rows to the poison buffer. */
    method AppendPoison(xs: seq<Input>)
      requires Valid()
      requires forall x :: x in xs ==> x.poisoned
      requires targeted ==> forall x :: x in xs ==> x.origLabel == sourceClass && predict(x) == target
      modifies this
      ensures Valid()
      ensures poisonInputs == old(poisonInputs) + xs && poisonCount == old(poisonCount) + |xs|
      ensures cleanInputs == old(cleanInputs) && cleanCount == old(cleanCount)
    {
      var preds := Predictions(xs, predict);
      var targets := CreateTargets(preds, PoisonLabel);
      poisonInputs := poisonInputs + xs;
      poisonLabels := poisonLabels + targets;
      poisonPreds := poisonPreds + preds;
      poisonCount := poisonCount + |xs|;
      assert forall i :: |old(poisonInputs)| <= i < |poisonInputs| ==> poisonInputs[i] == xs[i - |old(poisonInputs)|];
    }

    /** Appends rows to the clean buffer. */
    method AppendClean(xs: seq<Input>)
      requires Valid()
      requires forall x :: x in xs ==> !x.poisoned
      requires targeted ==> forall x :: x in xs ==> x.origLabel != sourceClass
      modifies this
      ensures Valid()
      ensures cleanInputs == old(cleanInputs) + xs && cleanCount == old(cleanCount) + |xs|
      ensures poisonInputs == old(poisonInputs) && poisonCount == old(poisonCount)
    {
      var preds := Predictions(xs, predict);
      var targets := CreateTargets(preds, CleanLabel);
      cleanInputs := cleanInputs + xs;
      cleanLabels := cleanLabels + targets;
      cleanPreds := cleanPreds + preds;
      cleanCount := cleanCount + |xs|;
      assert forall i :: |old(cleanInputs)| <= i < |cleanInputs| ==> cleanInputs[i] == xs[i - |old(cleanInputs)|];
    }

    /** One batch of the targeted loop: the poison rows are added while the poison buffer is
        short, the clean rows while the clean buffer is short. */
    method TargetedBatch(batch: seq<Item>)
      requires Valid() && targeted
      modifies this
      ensures Valid()
      ensures poisonInputs == old(poisonInputs) +
        (if old(poisonCount) < numSamples then PoisonOf(batch, sourceClass, target, predict) else [])
      ensures cleanInputs == old(cleanInputs) +
        (if old(cleanCount) < numSamples then CleanOf(batch, sourceClass) else [])
    {
      if poisonCount < numSamples {
        var victims := PoisonOf(batch, sourceClass, target, predict);
        if |victims| > 0 {
          AppendPoison(victims);
        }
      }
      if cleanCount < numSamples {
        var clean := CleanOf(batch, sourceClass);
        if |clean| > 0 {
          AppendClean(clean);
        }
      }
    }

    /** Cuts both buffers down to numSamples rows when they hold more. */
    method Truncate()
      requires Valid()
      modifies this
      ensures Valid()
      ensures old(poisonCount) > numSamples ==> poisonInputs == old(poisonInputs)[..numSamples]
      ensures old(poisonCount) <= numSamples ==> poisonInputs == old(poisonInputs)
      ensures old(cleanCount) > numSamples ==> cleanInputs == old(cleanInputs)[..numSamples]
      ensures old(cleanCount) <= numSamples ==> cleanInputs == old(cleanInputs)
    {
      if poisonCount > numSamples {
        poisonInputs := poisonInputs[..numSamples];
        poisonLabels := poisonLabels[..numSamples];
        poisonPreds := poisonPreds[..numSamples];
        poisonCount := numSamples;
      }
      if cleanCount > numSamples {
        cleanInputs := cleanInputs[..numSamples];
        cleanLabels := cleanLabels[..numSamples];
        cleanPreds := cleanPreds[..numSamples];
        cleanCount := numSamples;
      }
    }

    /** The buffers hold the first numSamples rows of the rows held before followed by the
        rows of m passes over the loader. */
    ghost predicate FilledFrom(p0: seq<Input>, c0: seq<Input>, loader: seq<seq<Item>>, m: nat)
      reads this
    {
      var ps := p0 + PoisonRows(Passes(loader, m), sourceClass, target, predict);
      var cs := c0 + CleanRows(Passes(loader, m), sourceClass);
      numSamples <= |ps| && numSamples <= |cs| && poisonInputs == ps[..numSamples] && cleanInputs == cs[..numSamples]
    }

    /** Enough passes are allowed, and every short buffer has some batch that adds to it;
        each pass then adds at least one row to each short buffer. */
    ghost predicate CanFill(loader: seq<seq<Item>>, poisonHeld: int, cleanHeld: int, maxPasses: nat)
    {
      numSamples <= maxPasses &&
      (poisonHeld < numSamples ==> exists i :: 0 <= i < |loader| && PoisonOf(loader[i], sourceClass, target, predict) != []) &&
      (cleanHeld < numSamples ==> exists i :: 0 <= i < |loader| && CleanOf(loader[i], sourceClass) != [])
    }

    /** When the passes are spent with a buffer still short, although each pass added a row
        to every short buffer the loader has rows for, the loader could not have filled the
        buffers within maxPasses passes. */
    lemma Exhausted(loader: seq<seq<Item>>, poisonHeld: int, cleanHeld: int, poisonNow: int, cleanNow: int, maxPasses: nat)
      requires poisonNow < numSamples || cleanNow < numSamples
      requires poisonHeld >= numSamples || PoisonRows(loader, sourceClass, target, predict) != [] ==>
        poisonNow >= numSamples || poisonNow >= maxPasses
      requires cleanHeld >= numSamples || CleanRows(loader, sourceClass) != [] ==>
        cleanNow >= numSamples || cleanNow >= maxPasses
      ensures !CanFill(loader, poisonHeld, cleanHeld, maxPasses)
    {
      if numSamples <= maxPasses {
        if poisonNow < numSamples {
          assert poisonHeld < numSamples && PoisonRows(loader, sourceClass, target, predict) == [];
          PoisonRowsEmpty(loader, sourceClass, target, predict);
        } else {
          assert cleanHeld < numSamples && CleanRows(loader, sourceClass) == [];
          CleanRowsEmpty(loader, sourceClass);
        }
      }
    }

    /** One pass of the loop over the test loader: batch after batch until both buffers hold
        numSamples rows. `k` is the number of batches the pass dealt; each buffer follows the
        rows of those batches. */
    method TargetedPass(loader: seq<seq<Item>>) returns (ghost k: nat)
      requires Valid() && targeted
      modifies this
      ensures Valid()
      ensures k <= |loader| && (k < |loader| ==> poisonCount >= numSamples && cleanCount >= numSamples)
      ensures Follows(old(poisonInputs), poisonInputs, PoisonRows(loader[..k], sourceClass, target, predict), numSamples)
      ensures Follows(old(cleanInputs), cleanInputs, CleanRows(loader[..k], sourceClass), numSamples)
    {
      ghost var p0, c0 := poisonInputs, cleanInputs;
      FollowsStart(p0, numSamples);
      FollowsStart(c0, numSamples);
      var i := 0;
      while i < |loader|
        invariant 0 <= i <= |loader| && Valid()
        invariant Follows(p0, poisonInputs, PoisonRows(loader[..i], sourceClass, target, predict), numSamples)
        invariant Follows(c0, cleanInputs, CleanRows(loader[..i], sourceClass), numSamples)
      {
        FollowsStep(p0, poisonInputs, PoisonRows(loader[..i], sourceClass, target, predict), numSamples,
                    PoisonOf(loader[i], sourceClass, target, predict));
        FollowsStep(c0, cleanInputs, CleanRows(loader[..i], sourceClass), numSamples, CleanOf(loader[i], sourceClass));
        TargetedBatch(loader[i]);
        assert loader[..i + 1][..i] == loader[..i];
        i := i + 1;
        if poisonCount >= numSamples && cleanCount >= numSamples {
          break;
        }
      }
      k := i;
    }

    /** Each buffer follows, from its contents p0 / c0 before the loop, the rows of the
        first `passes` passes over the loader. */
    ghost predicate Tracks(loader: seq<seq<Item>>, passes: nat, p0: seq<Input>, c0: seq<Input>)
      reads this
    {
      Follows(p0, poisonInputs, PoisonRows(Passes(loader, passes), sourceClass, target, predict), numSamples) &&
      Follows(c0, cleanInputs, CleanRows(Passes(loader, passes), sourceClass), numSamples)
    }

    /** The state of the loop after `passes` passes: the buffer invariant holds, the buffers
        follow the rows of those passes, and every buffer the loader feeds (or that was full
        from the start) is full or has gained a row per pass. */
    ghost predicate Filling(loader: seq<seq<Item>>, passes: nat, p0: seq<Input>, c0: seq<Input>)
      reads this
    {
      Valid() && Tracks(loader, passes, p0, c0) &&
      (|p0| >= numSamples || PoisonRows(loader, sourceClass, target, predict) != [] ==>
         poisonCount >= numSamples || poisonCount >= passes) &&
      (|c0| >= numSamples || CleanRows(loader, sourceClass) != [] ==>
         cleanCount >= numSamples || cleanCount >= passes)
    }

    /** One pass of the loop keeps the loop's state, one pass further on. */
    method FillPass(loader: seq<seq<Item>>, ghost passes: nat, ghost p0: seq<Input>, ghost c0: seq<Input>)
      requires targeted && Filling(loader, passes, p0, c0)
      modifies this
      ensures Filling(loader, passes + 1, p0, c0)
    {
      ghost var pBefore, cBefore := poisonInputs, cleanInputs;
      ghost var k := TargetedPass(loader);
      PassJoin(loader, passes, k, numSamples, sourceClass, target, predict,
               p0, pBefore, poisonInputs, c0, cBefore, cleanInputs);
    }

    /** The `while` loop of the TaCT / SSDT branch: passes over the test loader until both
        buffers hold at least numSamples rows. Each buffer follows the rows of the `passes`
        passes made. The source loops without bound; here at most maxPasses passes are made
        and running out of passes is LoaderExhausted. */
    method FillLoop(loader: seq<seq<Item>>, maxPasses: nat) returns (r: Result<()>, passes: nat)
      requires Valid() && targeted
      modifies this
      ensures Valid()
      ensures r.Err? ==> r.error == LoaderExhausted && !CanFill(loader, old(poisonCount), old(cleanCount), maxPasses)
      ensures r.Ok? ==> poisonCount >= numSamples && cleanCount >= numSamples && passes <= maxPasses
      ensures r.Ok? ==> Tracks(loader, passes, old(poisonInputs), old(cleanInputs))
    {
      ghost var p0, c0 := poisonInputs, cleanInputs;
      FollowsStart(p0, numSamples);
      FollowsStart(c0, numSamples);
      passes := 0;
      while (poisonCount < numSamples || cleanCount < numSamples) && passes < maxPasses
        invariant passes <= maxPasses && Filling(loader, passes, p0, c0)
      {
        FillPass(loader, passes, p0, c0);
        passes := passes + 1;
      }
      if poisonCount < numSamples || cleanCount < numSamples {
        Exhausted(loader, |p0|, |c0|, poisonCount, cleanCount, maxPasses);
        r := Err(LoaderExhausted);
      } else {
        r := Ok(());
      }
    }

    /** The TaCT / SSDT branch: the loop, then the truncation. A short buffer takes whole
        batches, so the result is the first numSamples rows of the stream of rows the passes
        yield; when some buffer is short and no batch can add to it, the loader is exhausted
        for every bound. */
    method GenerateTargeted(loader: seq<seq<Item>>, maxPasses: nat) returns (r: Result<()>)
      requires Valid() && targeted
      modifies this
      ensures Valid()
      ensures r.Err? ==> r.error == LoaderExhausted
      ensures r.Ok? ==> poisonCount == numSamples && cleanCount == numSamples
      ensures r.Ok? ==> exists m: nat :: m <= maxPasses && FilledFrom(old(poisonInputs), old(cleanInputs), loader, m)
      ensures r.Ok? && old(poisonCount) <= numSamples ==> old(poisonInputs) <= poisonInputs
      ensures r.Ok? && old(cleanCount) <= numSamples ==> old(cleanInputs) <= cleanInputs
      ensures CanFill(loader, old(poisonCount), old(cleanCount), maxPasses) ==> r.Ok?
      ensures (old(poisonCount) < numSamples &&
               forall i :: 0 <= i < |loader| ==> PoisonOf(loader[i], sourceClass, target, predict) == []) ==> r.Err?
      ensures (old(cleanCount) < numSamples &&
               forall i :: 0 <= i < |loader| ==> CleanOf(loader[i], sourceClass) == []) ==> r.Err?
    {
      ghost var p0, c0 := poisonInputs, cleanInputs;
      var passes;
      r, passes := FillLoop(loader, maxPasses);
      if r.Err? {
        return;
      }
      PoisonRowsEmpty(loader, sourceClass, target, predict);
      CleanRowsEmpty(loader, sourceClass);
      PassesEmpty(loader, passes, sourceClass, target, predict);
      ghost var ps, cs := PoisonRows(Passes(loader, passes), sourceClass, target, predict), CleanRows(Passes(loader, passes), sourceClass);
      FollowsCut(p0, poisonInputs, ps, ps, numSamples);
      FollowsCut(c0, cleanInputs, cs, cs, numSamples);
      ghost var full, fullClean := poisonInputs, cleanInputs;
      Truncate();
      assert full[..numSamples] == poisonInputs && fullClean[..numSamples] == cleanInputs;
      assert FilledFrom(p0, c0, loader, passes);
      assert old(poisonCount) <= numSamples ==> old(poisonInputs) <= full[..numSamples];
      assert old(cleanCount) <= numSamples ==> old(cleanInputs) <= fullClean[..numSamples];
    }

    /** The branch for every other attack: numSamples distinct test samples drawn at random
        (all of them, in order, when the test set is smaller), then the same samples go clean
        into the clean buffer and backdoored into the poison buffer. The random draw is a
        nondeterministic choice; `chosen` is returned so the contract can name it. */
    method GenerateUntargeted(testset: seq<Item>) returns (chosen: seq<nat>)
      requires Valid() && !targeted
      modifies this
      ensures Valid()
      ensures Drawn(|testset|, numSamples, chosen)
      ensures cleanInputs == old(cleanInputs) + Rows(testset, chosen, false)
      ensures poisonInputs == old(poisonInputs) + Rows(testset, chosen, true)
      ensures cleanCount == old(cleanCount) + |chosen| && poisonCount == old(poisonCount) + |chosen|
    {
      if |testset| < numSamples {
        chosen := seq(|testset|, j => j);
      } else {
        ghost var prefix: seq<nat> := seq(numSamples, j => j);
        assert |prefix| == numSamples && forall j :: 0 <= j < |prefix| ==> prefix[j] < |testset|;
        chosen :| |chosen| == numSamples && (forall j :: 0 <= j < |chosen| ==> chosen[j] < |testset|) &&
          forall j, k :: 0 <= j < k < |chosen| ==> chosen[j] != chosen[k];
      }
      AppendClean(Rows(testset, chosen, false));
      AppendPoison(Rows(testset, chosen, true));
    }

    /** generate_poison_clean_sets: the targeted loop for TaCT and SSDT, the random draw for the
        other attacks. */
    method Generate(loader: seq<seq<Item>>, testset: seq<Item>, maxPasses: nat) returns (r: Result<()>)
      requires Valid()
      modifies this
      ensures Valid()
      ensures r.Err? ==> targeted && r.error == LoaderExhausted
      ensures r.Ok? && targeted ==> poisonCount == numSamples && cleanCount == numSamples
      ensures r.Ok? && targeted ==> exists m: nat :: m <= maxPasses && FilledFrom(old(poisonInputs), old(cleanInputs), loader, m)
      ensures targeted && CanFill(loader, old(poisonCount), old(cleanCount), maxPasses) ==> r.Ok?
      ensures !targeted ==>
        (exists chosen :: Drawn(|testset|, numSamples, chosen) &&
           cleanInputs == old(cleanInputs) + Rows(testset, chosen, false) &&
           poisonInputs == old(poisonInputs) + Rows(testset, chosen, true))
      ensures !targeted ==>
        (cleanCount - old(cleanCount) == poisonCount - old(poisonCount) ==
           if |testset| < numSamples then |testset| else numSamples)
    {
      if targeted {
        r := GenerateTargeted(loader, maxPasses);
      } else {
        var chosen := GenerateUntargeted(testset);
        r := Ok(());
      }
    }
  }

  /** The random draw of the untargeted branch: all test positions in order when the test set
      is smaller than numSamples, otherwise numSamples distinct positions. */
  ghost predicate Drawn(size: nat, numSamples: nat, chosen: seq<nat>)
  {
    (size < numSamples ==> chosen == seq(size, j => j)) &&
    (size >= numSamples ==> |chosen| == numSamples) &&
    (forall j :: 0 <= j < |chosen| ==> chosen[j] < size) &&
    (forall j, k :: 0 <= j < k < |chosen| ==> chosen[j] != chosen[k])
  }

  /** The rows built from the chosen test samples, clean or backdoored, in the order drawn. */
  function Rows(testset: seq<Item>, chosen: seq<nat>, poisoned: bool): (r: seq<Input>)
    requires forall j :: 0 <= j < |chosen| ==> chosen[j] < |testset|
    ensures |r| == |chosen|
    ensures forall j :: 0 <= j < |r| ==> r[j].poisoned == poisoned && r[j].id == testset[chosen[j]].id
    ensures forall j :: 0 <= j < |r| ==> r[j].origLabel == testset[chosen[j]].cls
  {
    seq(|chosen|, j requires 0 <= j < |chosen| => Input(testset[chosen[j]].id, testset[chosen[j]].cls, poisoned))
  }
}
