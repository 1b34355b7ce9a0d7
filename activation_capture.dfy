/** TEDPLUS.fetch_activation: the forward hooks record each monitored layer's output in a
    scratch dictionary; every batch's per-sample rows are appended to one list per layer, the
    prediction of each sample is the arg-max restricted to the retained classes, and the
    scratch dictionary is cleared after each batch.

    The classifier is an oracle `model` that maps the samples of a batch to a Pass: the rows
    the hooks recorded (per layer, one row per sample, already flattened by view(n, -1)) and
    the logits, or None when the forward pass raised. Softmax is left out: it is strictly
    monotone in each row, so the restricted arg-max of the logits is that of the
    probabilities. */
module ActivationCapture {
  import opened Wrappers
  import opened LayerHooks

  type Vec = seq<real>

  /** The hook dictionary self.activations, and the per-layer lists of activation_container. */
  type Scratch = map<LayerId, seq<Vec>>

  /** A batch of the loader: the samples it holds and their labels. */
  datatype Batch = Batch(samples: seq<nat>, labels: seq<int>)

  /** One forward pass: what the hooks recorded, and the logits (None when the pass raised;
      the hooks of the layers run before the exception have still recorded). */
  datatype Pass = Pass(captured: Scratch, logits: Option<seq<Vec>>)

  /** The position of the first maximum (torch.max over a dimension; ties to the first). */
  function FirstMaxPos(v: seq<real>): (p: nat)
    requires |v| > 0
    ensures p < |v|
    ensures forall i :: 0 <= i < |v| ==> v[i] <= v[p]
    ensures forall i :: 0 <= i < p ==> v[i] < v[p]
  {
    if |v| == 1 then 0
    else
      var p := FirstMaxPos(v[..|v| - 1]);
      if v[|v| - 1] > v[p] then |v| - 1 else p
  }

  /** One sample's prediction: the class of `allowed` with the largest score. Indexing with a
      class past the row's end raises, and so does the maximum over no class. */
  function RestrictedArgmax(row: Vec, allowed: seq<nat>): (r: Result<nat>)
    ensures r.Err? <==> allowed == [] || exists a :: a in allowed && a >= |row|
    ensures r.Ok? ==> r.value in allowed && forall a :: a in allowed ==> row[a] <= row[r.value]
  {
    if exists a :: a in allowed && a >= |row| then Err(IndexOutOfRange)
    else if allowed == [] then Err(EmptyMax)
    else
      assert forall j :: 0 <= j < |allowed| ==> allowed[j] in allowed;
      var scores := seq(|allowed|, j requires 0 <= j < |allowed| => row[allowed[j]]);
      var p := FirstMaxPos(scores);
      assert forall a :: a in allowed ==> row[a] <= scores[p] by {
        forall a | a in allowed ensures row[a] <= scores[p] {
          var j :| 0 <= j < |allowed| && allowed[j] == a;
          assert scores[j] == row[a];
        }
      }
      Ok(allowed[p])
  }

  /** The restricted predictions of a batch, row by row. */
  function BatchPreds(rows: seq<Vec>, allowed: seq<nat>): (r: Result<seq<nat>>)
    ensures r.Err? <==> exists i :: 0 <= i < |rows| && RestrictedArgmax(rows[i], allowed).Err?
    ensures r.Ok? ==> |r.value| == |rows|
    ensures r.Ok? ==> forall i :: 0 <= i < |rows| ==>
      r.value[i] in allowed && forall a :: a in allowed ==> rows[i][a] <= rows[i][r.value[i]]
  {
    if |rows| == 0 then Ok([])
    else
      var last := rows[|rows| - 1];
      match BatchPreds(rows[..|rows| - 1], allowed)
      case Err(e) =>
        assert forall i :: 0 <= i < |rows| - 1 ==> rows[..|rows| - 1][i] == rows[i];
        Err(e)
      case Ok(prev) =>
        match RestrictedArgmax(last, allowed)
        case Err(e) => Err(e)
        case Ok(c) =>
          assert forall i :: 0 <= i < |rows| - 1 ==> rows[..|rows| - 1][i] == rows[i];
          Ok(prev + [c])
  }

  /** The labels, the per-layer lists and the predictions gathered so far. */
  datatype Acc = Acc(labels: seq<int>, container: Scratch, preds: seq<nat>)

  /** The per-layer appends of one batch: every recorded layer must already have a list
      (otherwise the lookup raises), and its rows go at the end of that list. */
  function AppendActivations(container: Scratch, captured: Scratch): (r: Result<Scratch>)
    ensures r.Err? <==> exists k :: k in captured && k !in container
    ensures r.Ok? ==> r.value.Keys == container.Keys
  {
    if exists k :: k in captured && k !in container then Err(MissingKey)
    else Ok(map k | k in container :: if k in captured then container[k] + captured[k] else container[k])
  }

  /** One batch of the main loop after its forward pass returned logits. */
  function Step(acc: Acc, batch: Batch, pass: Pass, allowed: seq<nat>): Result<Acc>
    requires pass.logits.Some?
  {
    match BatchPreds(pass.logits.value, allowed)
    case Err(e) => Err(e)
    case Ok(ps) =>
      match AppendActivations(acc.container, pass.captured)
      case Err(e) => Err(e)
      case Ok(c) => Ok(Acc(acc.labels + batch.labels, c, acc.preds + ps))
  }

  /** The outcome of the main loop, and the scratch dictionary it leaves behind. */
  datatype Run = Run(result: Result<Acc>, scratch: Scratch)

  /** The main loop from a given batch on: a forward pass that raises ends the loop (break),
      any other exception propagates, and the scratch dictionary is cleared after each batch. */
  function Drain(batches: seq<Batch>, model: seq<nat> -> Pass, allowed: seq<nat>, acc: Acc): Run
    decreases |batches|
  {
    if |batches| == 0 then Run(Ok(acc), map[])
    else
      var pass := model(batches[0].samples);
      if pass.logits.None? then Run(Ok(acc), pass.captured)
      else
        match Step(acc, batches[0], pass, allowed)
        case Err(e) => Run(Err(e), pass.captured)
        case Ok(next) => Drain(batches[1..], model, allowed, next)
  }

  /** Drain past one batch whose pass returned logits and whose step succeeded. */
  lemma DrainNext(batches: seq<Batch>, model: seq<nat> -> Pass, allowed: seq<nat>, acc: Acc, ps: seq<nat>, c: Scratch)
    requires |batches| > 0 && model(batches[0].samples).logits.Some?
    requires BatchPreds(model(batches[0].samples).logits.value, allowed) == Ok(ps)
    requires AppendActivations(acc.container, model(batches[0].samples).captured) == Ok(c)
    ensures Drain(batches, model, allowed, acc) ==
      Drain(batches[1..], model, allowed, Acc(acc.labels + batches[0].labels, c, acc.preds + ps))
  {
  }

  /** The final torch.stack / torch.cat calls, which raise on an empty list. */
  function Finish(acc: Acc): (r: Result<Acc>)
    ensures r.Err? <==> acc.labels == [] || exists k :: k in acc.container && acc.container[k] == []
    ensures r.Ok? ==> r.value == acc
  {
    if acc.labels == [] || exists k :: k in acc.container && acc.container[k] == [] then Err(EmptyStack)
    else Ok(acc)
  }

  /** The layer lists start empty, one per key of the scratch dictionary after the first
      batch has been run once to populate it. */
  function EmptyLists(scratch: Scratch): (c: Scratch)
    ensures c.Keys == scratch.Keys
    ensures forall k :: k in c ==> c[k] == []
  {
    map k | k in scratch :: []
  }

  /** fetch_activation from a scratch dictionary `scratch0`, whose keys stay in the
      dictionary until the key-discovery pass. That pass runs on `probe`, the first batch of
      a separate iteration of the loader; a shuffling loader deals a different first batch
      on each iteration, so `probe` need not be `loader[0]`. */
  function FetchSpec(loader: seq<Batch>, probe: Batch, model: seq<nat> -> Pass, allowed: seq<nat>, scratch0: Scratch): Run
  {
    if |loader| == 0 then
      Run(Finish(Acc([], EmptyLists(scratch0), [])), map[])
    else
      var pass0 := model(probe.samples);
      if pass0.logits.None? then Run(Err(ModelRaised), scratch0 + pass0.captured)
      else
        var run := Drain(loader, model, allowed, Acc([], EmptyLists(scratch0 + pass0.captured), []));
        if run.result.Err? then run else Run(Finish(run.result.value), run.scratch)
  }

  /** All the labels of a sequence of batches, in order. */
  function AllLabels(batches: seq<Batch>): (r: seq<int>)
  {
    if |batches| == 0 then [] else AllLabels(batches[..|batches| - 1]) + batches[|batches| - 1].labels
  }

  lemma {:induction false} AllLabelsCons(batches: seq<Batch>)
    requires |batches| > 0
    ensures AllLabels(batches) == batches[0].labels + AllLabels(batches[1..])
  {
    if |batches| > 1 {
      var init := batches[..|batches| - 1];
      AllLabelsCons(init);
      assert init[1..] == batches[1..][..|batches[1..]| - 1];
    } else {
      assert batches[1..] == [];
      assert batches[..0] == [];
    }
  }

  /** The gathered rows line up: one prediction per label, every prediction one of the allowed
      classes, and one row per label in every layer list. */
  ghost predicate AccShape(acc: Acc, allowed: seq<nat>)
  {
    |acc.preds| == |acc.labels| &&
    (forall i :: 0 <= i < |acc.preds| ==> acc.preds[i] in allowed) &&
    (forall k :: k in acc.container ==> |acc.container[k]| == |acc.labels|)
  }

  /** A pass that returns logits gives one logit row per sample and records exactly the
      layers `keys`, with one row per sample each. */
  ghost predicate WellFormed(pass: Pass, batch: Batch, keys: set<LayerId>)
  {
    pass.logits.Some? ==>
      |pass.logits.value| == |batch.labels| &&
      pass.captured.Keys == keys &&
      (forall k :: k in pass.captured ==> |pass.captured[k]| == |batch.labels|)
  }

  /** One successful step keeps the rows lined up and the layer keys fixed. */
  lemma StepShape(acc: Acc, b: Batch, pass: Pass, allowed: seq<nat>)
    requires pass.logits.Some? && Step(acc, b, pass, allowed).Ok?
    requires AccShape(acc, allowed) && WellFormed(pass, b, acc.container.Keys)
    ensures AccShape(Step(acc, b, pass, allowed).value, allowed)
    ensures Step(acc, b, pass, allowed).value.container.Keys == acc.container.Keys
    ensures Step(acc, b, pass, allowed).value.labels == acc.labels + b.labels
  {
    var next := Step(acc, b, pass, allowed).value;
    var ps := BatchPreds(pass.logits.value, allowed).value;
    assert next.preds == acc.preds + ps;
    forall i | 0 <= i < |next.preds| ensures next.preds[i] in allowed {
      if i >= |acc.preds| {
        assert next.preds[i] == ps[i - |acc.preds|];
      }
    }
  }

  /** The main loop keeps the rows lined up and the layer keys fixed, and gathers the labels
      of a prefix of the batches. */
  lemma {:induction false} DrainShape(batches: seq<Batch>, model: seq<nat> -> Pass, allowed: seq<nat>, acc: Acc)
    requires AccShape(acc, allowed)
    requires forall i :: 0 <= i < |batches| ==> WellFormed(model(batches[i].samples), batches[i], acc.container.Keys)
    ensures var run := Drain(batches, model, allowed, acc);
      run.result.Ok? ==>
        AccShape(run.result.value, allowed) &&
        run.result.value.container.Keys == acc.container.Keys &&
        exists n :: 0 <= n <= |batches| && run.result.value.labels == acc.labels + AllLabels(batches[..n])
    decreases |batches|
  {
    assert batches[..0] == [];
    if |batches| > 0 {
      var b := batches[0];
      var pass := model(b.samples);
      if pass.logits.Some? && Step(acc, b, pass, allowed).Ok? {
        var next := Step(acc, b, pass, allowed).value;
        StepShape(acc, b, pass, allowed);
        var rest := batches[1..];
        assert forall i :: 0 <= i < |rest| ==> rest[i] == batches[i + 1];
        DrainShape(rest, model, allowed, next);
        var run := Drain(rest, model, allowed, next);
        if run.result.Ok? {
          var n :| 0 <= n <= |rest| && run.result.value.labels == next.labels + AllLabels(rest[..n]);
          PrefixLabels(batches, n);
          var tail := AllLabels(rest[..n]);
          assert run.result.value.labels == (acc.labels + b.labels) + tail;
          ConcatAssoc(acc.labels, b.labels, tail);
        }
      }
    }
  }

  lemma ConcatAssoc(a: seq<int>, b: seq<int>, c: seq<int>)
    ensures (a + b) + c == a + (b + c)
  {
  }

  lemma PrefixLabels(batches: seq<Batch>, n: nat)
    requires n < |batches|
    ensures AllLabels(batches[..n + 1]) == batches[0].labels + AllLabels(batches[1..][..n])
  {
    assert batches[..n + 1][1..] == batches[1..][..n];
    AllLabelsCons(batches[..n + 1]);
  }

  /** When no forward pass raises, a successful main loop gathers the labels of every batch
      and leaves the scratch dictionary empty. */
  lemma {:induction false} DrainAll(batches: seq<Batch>, model: seq<nat> -> Pass, allowed: seq<nat>, acc: Acc)
    requires forall i :: 0 <= i < |batches| ==> model(batches[i].samples).logits.Some?
    ensures var run := Drain(batches, model, allowed, acc);
      run.result.Ok? ==> run.result.value.labels == acc.labels + AllLabels(batches) && run.scratch == map[]
    decreases |batches|
  {
    if |batches| > 0 {
      var b := batches[0];
      var pass := model(b.samples);
      if Step(acc, b, pass, allowed).Ok? {
        var next := Step(acc, b, pass, allowed).value;
        var rest := batches[1..];
        assert forall i :: 0 <= i < |rest| ==> rest[i] == batches[i + 1];
        DrainAll(rest, model, allowed, next);
        AllLabelsCons(batches);
        var run := Drain(rest, model, allowed, next);
        if run.result.Ok? {
          ConcatAssoc(acc.labels, b.labels, AllLabels(rest));
        }
      }
    }
  }

  /** With well-formed passes over the layers the discovery pass records, every prediction of a
      successful fetch_activation is an allowed class, there is one prediction and one row in
      every layer list per label, and the labels are those of the first batches; when no pass
      raises they are all the labels and the scratch dictionary is left empty. */
  lemma FetchShape(loader: seq<Batch>, probe: Batch, model: seq<nat> -> Pass, allowed: seq<nat>, scratch0: Scratch)
    requires |loader| > 0
    requires forall i :: 0 <= i < |loader| ==>
      WellFormed(model(loader[i].samples), loader[i], (scratch0 + model(probe.samples).captured).Keys)
    ensures var run := FetchSpec(loader, probe, model, allowed, scratch0);
      run.result.Ok? ==>
        AccShape(run.result.value, allowed) && |run.result.value.labels| > 0 &&
        run.result.value.container.Keys == (scratch0 + model(probe.samples).captured).Keys &&
        exists n :: 0 < n <= |loader| && run.result.value.labels == AllLabels(loader[..n])
    ensures var run := FetchSpec(loader, probe, model, allowed, scratch0);
      (run.result.Ok? && forall i :: 0 <= i < |loader| ==> model(loader[i].samples).logits.Some?) ==>
        run.result.value.labels == AllLabels(loader) && run.scratch == map[]
  {
    var pass0 := model(probe.samples);
    if pass0.logits.Some? {
      var acc0 := Acc([], EmptyLists(scratch0 + pass0.captured), []);
      assert AccShape(acc0, allowed);
      DrainShape(loader, model, allowed, acc0);
      if forall i :: 0 <= i < |loader| ==> model(loader[i].samples).logits.Some? {
        DrainAll(loader, model, allowed, acc0);
      }
      var run := Drain(loader, model, allowed, acc0);
      assert FetchSpec(loader, probe, model, allowed, scratch0) ==
        if run.result.Err? then run else Run(Finish(run.result.value), run.scratch);
      if run.result.Ok? && Finish(run.result.value).Ok? {
        var n :| 0 <= n <= |loader| && run.result.value.labels == [] + AllLabels(loader[..n]);
        assert run.result.value.labels == AllLabels(loader[..n]) != [];
        assert n != 0 by {
          assert loader[..0] == [];
        }
      }
    }
  }

  /** A fetch with no stale scratch keys, an allowed class inside every logit row and passes
      that neither raise nor record anything unexpected succeeds as soon as some batch is
      non-empty. */
  lemma {:induction false} DrainSucceeds(batches: seq<Batch>, model: seq<nat> -> Pass, allowed: seq<nat>, acc: Acc)
    requires allowed != []
    requires forall i :: 0 <= i < |batches| ==> model(batches[i].samples).logits.Some?
    requires forall i :: 0 <= i < |batches| ==> model(batches[i].samples).captured.Keys <= acc.container.Keys
    requires forall i, j, a :: 0 <= i < |batches| && 0 <= j < |model(batches[i].samples).logits.value| && a in allowed ==>
      a < |model(batches[i].samples).logits.value[j]|
    ensures Drain(batches, model, allowed, acc).result.Ok?
    decreases |batches|
  {
    if |batches| > 0 {
      var b := batches[0];
      var pass := model(b.samples);
      var rows := pass.logits.value;
      forall j | 0 <= j < |rows| ensures RestrictedArgmax(rows[j], allowed).Ok? {
        forall a | a in allowed ensures a < |rows[j]| {
        }
      }
      var next := Step(acc, b, pass, allowed).value;
      var rest := batches[1..];
      assert forall i :: 0 <= i < |rest| ==> rest[i] == batches[i + 1];
      DrainSucceeds(rest, model, allowed, next);
    }
  }

  /** fetch_activation succeeds, with every label of the loader, when no forward pass raises,
      every pass records the same layers as the first one (and no stale key is left in the
      scratch dictionary), some batch is non-empty and every allowed class indexes every logit
      row. */
  lemma FetchSucceeds(loader: seq<Batch>, probe: Batch, model: seq<nat> -> Pass, allowed: seq<nat>, scratch0: Scratch)
    requires |loader| > 0 && allowed != [] && AllLabels(loader) != []
    requires model(probe.samples).logits.Some?
    requires forall i :: 0 <= i < |loader| ==> model(loader[i].samples).logits.Some?
    requires forall i :: 0 <= i < |loader| ==>
      WellFormed(model(loader[i].samples), loader[i], (scratch0 + model(probe.samples).captured).Keys)
    requires forall i, j, a :: 0 <= i < |loader| && 0 <= j < |model(loader[i].samples).logits.value| && a in allowed ==>
      a < |model(loader[i].samples).logits.value[j]|
    ensures FetchSpec(loader, probe, model, allowed, scratch0).result.Ok?
    ensures FetchSpec(loader, probe, model, allowed, scratch0).result.value.labels == AllLabels(loader)
  {
    var acc0 := Acc([], EmptyLists(scratch0 + model(probe.samples).captured), []);
    DrainSucceeds(loader, model, allowed, acc0);
    DrainShape(loader, model, allowed, acc0);
    DrainAll(loader, model, allowed, acc0);
    var acc := Drain(loader, model, allowed, acc0).result.value;
    assert acc.labels == AllLabels(loader);
    assert Finish(acc).Ok?;
  }

  /** The hooks' scratch dictionary of the detector. */
  class ActivationCapture {
    var activations: Scratch

    constructor ()
      ensures activations == map[]
    {
      activations := map[];
    }

    /** One forward pass: every hook that fires overwrites its layer's entry. */
    method Forward(model: seq<nat> -> Pass, samples: seq<nat>) returns (logits: Option<seq<Vec>>)
      modifies this
      ensures activations == old(activations) + model(samples).captured
      ensures logits == model(samples).logits
    {
      activations := activations + model(samples).captured;
      logits := model(samples).logits;
    }

    /** The per-layer appends of one batch, layer by layer in the dictionary's order. */
    static method AppendRows(container: Scratch, captured: Scratch) returns (r: Result<Scratch>)
      ensures r == AppendActivations(container, captured)
    {
      var out := container;
      var pending := captured.Keys;
      while pending != {}
        invariant pending <= captured.Keys
        invariant out.Keys == container.Keys
        invariant forall k :: k in captured && k !in pending ==> k in container
        invariant forall k :: k in out ==>
          out[k] == if k in captured && k !in pending then container[k] + captured[k] else container[k]
        decreases pending
      {
        var key :| key in pending;
        if key !in out {
          return Err(MissingKey);
        }
        out := out[key := out[key] + captured[key]];
        pending := pending - {key};
      }
      assert out == map k | k in container :: if k in captured then container[k] + captured[k] else container[k];
      return Ok(out);
    }

    /** fetch_activation(loader), with the retained classes `allowed` (self.all_labels) and
        `probe` the batch the key-discovery iteration deals first. */
    method FetchActivation(loader: seq<Batch>, probe: Batch, model: seq<nat> -> Pass, allowed: seq<nat>) returns (r: Result<Acc>)
      modifies this
      ensures r == FetchSpec(loader, probe, model, allowed, old(activations)).result
      ensures activations == FetchSpec(loader, probe, model, allowed, old(activations)).scratch
    {
      if |loader| > 0 {
        var logits0 := Forward(model, probe.samples);
        if logits0.None? {
          return Err(ModelRaised);
        }
      }
      var acc := Acc([], EmptyLists(activations), []);
      ghost var acc0 := acc;
      activations := map[];
      var i := 0;
      while i < |loader|
        invariant 0 <= i <= |loader|
        invariant activations == map[]
        invariant Drain(loader[i..], model, allowed, acc) == Drain(loader, model, allowed, acc0)
      {
        var batch := loader[i];
        var logits := Forward(model, batch.samples);
        assert activations == model(batch.samples).captured;
        assert loader[i..][0] == batch;
        if logits.None? {
          break;
        }
        var preds := BatchPreds(logits.value, allowed);
        if preds.Err? {
          return Err(preds.error);
        }
        var appended := AppendRows(acc.container, activations);
        if appended.Err? {
          return Err(appended.error);
        }
        DrainNext(loader[i..], model, allowed, acc, preds.value, appended.value);
        assert loader[i..][1..] == loader[i + 1..];
        acc := Acc(acc.labels + batch.labels, appended.value, acc.preds + preds.value);
        activations := map[];
        i := i + 1;
      }
      r := Finish(acc);
    }
  }
}
