/** The rank trajectories of TEDPLUS.test: aggregate_by_all_layers and the split of the
    aggregated trajectories into the benign pool (reference classes) and the unknown pool
    (the poison and clean groups). Numpy arrays are modelled by Block. */
module Trajectory {
  import opened Wrappers
  import opened LayerHooks
  import opened RankTransformer

  type Table = map<LayerId, map<Tag, seq<int>>>

  /** A numpy array as these steps see it: the one-dimensional empty array that
      np.array([]).T gives, or a matrix of rows that all have the given width. */
  datatype Block = Flat | Matrix(width: nat, rows: seq<seq<int>>)

  /** The result of aggregate_by_all_layers: one trajectory per row, and its labels. */
  datatype Aggregated = Aggregated(inputs: Block, labels: seq<Tag>)

  /** The benign and unknown pools after np.concatenate. */
  datatype Pools = Pools(benignInputs: Block, benignLabels: seq<Tag>, unknownInputs: Block, unknownLabels: seq<Tag>)

  predicate IsUnknown(t: Tag)
  {
    t.PoisonTag? || t.CleanTag?
  }

  // ---------------------------------------------------------------- one label

  /** The non-empty rank lists of tag, layer by layer; a layer without tag is a KeyError. */
  function Columns(table: Table, layers: seq<LayerId>, tag: Tag): (r: Result<seq<seq<int>>>)
    ensures r.Err? ==> r.error == MissingKey
    ensures r.Ok? ==> |r.value| <= |layers| && forall j :: 0 <= j < |r.value| ==> r.value[j] != []
  {
    if |layers| == 0 then Ok([])
    else
      match Columns(table, layers[..|layers| - 1], tag)
      case Err(e) => Err(e)
      case Ok(prev) =>
        var l := layers[|layers| - 1];
        if l !in table || tag !in table[l] then Err(MissingKey)
        else if table[l][tag] == [] then Ok(prev)
        else Ok(prev + [table[l][tag]])
  }

  /** Row i holds the i-th entry of every column. */
  function Transpose(cols: seq<seq<int>>, n: nat): (t: seq<seq<int>>)
    requires forall j :: 0 <= j < |cols| ==> |cols[j]| == n
    ensures |t| == n
    ensures forall i :: 0 <= i < n ==> |t[i]| == |cols|
  {
    seq(n, i requires 0 <= i < n => seq(|cols|, j requires 0 <= j < |cols| => cols[j][i]))
  }

  /** np.array(cols).T: the empty list gives the flat empty array, ragged lists are refused. */
  function ToBlock(cols: seq<seq<int>>): (r: Result<Block>)
    ensures r.Ok? && r.value.Matrix? ==> r.value.width == |cols| && forall i :: 0 <= i < |r.value.rows| ==> |r.value.rows[i]| == |cols|
  {
    if |cols| == 0 then Ok(Flat)
    else if forall j :: 0 <= j < |cols| ==> |cols[j]| == |cols[0]| then Ok(Matrix(|cols|, Transpose(cols, |cols[0]|)))
    else Err(ShapeMismatch)
  }

  /** aggregate_by_all_layers(tag): the labels repeat tag once per rank of the first layer;
      the inputs are the transposed non-empty rank lists of all layers. */
  function Aggregate(table: Table, layers: seq<LayerId>, tag: Tag): Result<Aggregated>
  {
    if |layers| == 0 then Err(IndexOutOfRange)
    else if layers[0] !in table || tag !in table[layers[0]] then Err(MissingKey)
    else
      match Columns(table, layers, tag)
      case Err(e) => Err(e)
      case Ok(cols) =>
        match ToBlock(cols)
        case Err(e) => Err(e)
        case Ok(b) => Ok(Aggregated(b, seq(|table[layers[0]][tag]|, _ => tag)))
  }

  lemma {:induction false} ColumnsErrPrefix(table: Table, layers: seq<LayerId>, tag: Tag, j: nat)
    requires j <= |layers| && Columns(table, layers[..j], tag).Err?
    ensures Columns(table, layers, tag).Err?
    decreases |layers| - j
  {
    if j < |layers| {
      var n := |layers| - 1;
      assert layers[..n][..j] == layers[..j];
      ColumnsErrPrefix(table, layers[..n], tag, j);
      assert Columns(table, layers[..n], tag).Err?;
    } else {
      assert layers[..j] == layers;
    }
  }

  /** When every layer holds a non-empty list for tag, the columns are those lists in layer order. */
  lemma {:induction false} ColumnsAllLayers(table: Table, layers: seq<LayerId>, tag: Tag)
    requires forall j :: 0 <= j < |layers| ==> layers[j] in table && tag in table[layers[j]] && table[layers[j]][tag] != []
    ensures Columns(table, layers, tag).Ok?
    ensures |Columns(table, layers, tag).value| == |layers|
    ensures forall j :: 0 <= j < |layers| ==> Columns(table, layers, tag).value[j] == table[layers[j]][tag]
  {
    if |layers| > 0 {
      var n := |layers| - 1;
      ColumnsAllLayers(table, layers[..n], tag);
    }
  }

  /** aggregate_by_all_layers yields one row per sample whose l-th cell is the sample's rank
      in the l-th layer, and one label per row, when all layers hold equally many ranks. */
  lemma AggregateCells(table: Table, layers: seq<LayerId>, tag: Tag, n: nat)
    requires n > 0 && |layers| > 0
    requires forall j :: 0 <= j < |layers| ==> layers[j] in table && tag in table[layers[j]] && |table[layers[j]][tag]| == n
    ensures Aggregate(table, layers, tag).Ok?
    ensures Aggregate(table, layers, tag).value.inputs == Matrix(|layers|, Aggregate(table, layers, tag).value.inputs.rows)
    ensures |Aggregate(table, layers, tag).value.inputs.rows| == n == |Aggregate(table, layers, tag).value.labels|
    ensures forall i, j :: 0 <= i < n && 0 <= j < |layers| ==>
      Aggregate(table, layers, tag).value.inputs.rows[i][j] == table[layers[j]][tag][i]
    ensures forall i :: 0 <= i < n ==> Aggregate(table, layers, tag).value.labels[i] == tag
  {
    ColumnsAllLayers(table, layers, tag);
  }

  /** A label that some layer does not hold cannot be aggregated. */
  lemma AggregateMissing(table: Table, layers: seq<LayerId>, tag: Tag, j: nat)
    requires j < |layers| && (layers[j] !in table || tag !in table[layers[j]])
    ensures Aggregate(table, layers, tag) == Err(MissingKey)
  {
    if j > 0 {
      assert layers[..j + 1][..j] == layers[..j];
      if Columns(table, layers[..j], tag).Ok? {
        assert Columns(table, layers[..j + 1], tag).Err?;
      }
      ColumnsErrPrefix(table, layers, tag, j + 1);
    }
  }

  /** aggregate_by_all_layers, with its two loops over the layers and over a layer's ranks. */
  method AggregateByAllLayers(table: Table, layers: seq<LayerId>, tag: Tag) returns (r: Result<Aggregated>)
    ensures r == Aggregate(table, layers, tag)
  {
    if |layers| == 0 {
      return Err(IndexOutOfRange);
    }
    var firstKey := layers[0];
    if firstKey !in table || tag !in table[firstKey] {
      return Err(MissingKey);
    }
    var labelsContainer := seq(|table[firstKey][tag]|, _ => tag);
    var inputsContainer: seq<seq<int>> := [];
    for p := 0 to |layers|
      invariant Columns(table, layers[..p], tag) == Ok(inputsContainer)
    {
      assert layers[..p + 1][..p] == layers[..p];
      var l := layers[p];
      if l !in table || tag !in table[l] {
        ColumnsErrPrefix(table, layers, tag, p + 1);
        return Err(MissingKey);
      }
      var entry := table[l][tag];
      var temp: seq<int> := [];
      for j := 0 to |entry|
        invariant temp == entry[..j]
      {
        temp := temp + [entry[j]];
      }
      assert temp == entry;
      if temp != [] {
        inputsContainer := inputsContainer + [temp];
      }
    }
    assert layers[..|layers|] == layers;
    var block := ToBlock(inputsContainer);
    if block.Err? {
      return Err(block.error);
    }
    r := Ok(Aggregated(block.value, labelsContainer));
  }

  // ---------------------------------------------------------------- all labels, and the two pools

  /** aggregate_by_all_layers for each label of the first layer's dictionary, in its order;
      the first failing label ends the run. */
  function Aggregates(table: Table, layers: seq<LayerId>, tags: seq<Tag>): (r: Result<seq<Aggregated>>)
    ensures r.Ok? ==> |r.value| == |tags|
  {
    if |tags| == 0 then Ok([])
    else
      match Aggregates(table, layers, tags[..|tags| - 1])
      case Err(e) => Err(e)
      case Ok(prev) =>
        match Aggregate(table, layers, tags[|tags| - 1])
        case Err(e) => Err(e)
        case Ok(a) => Ok(prev + [a])
  }

  /** The aggregates of the unknown labels (unknown = true) or of the class labels (false). */
  function Select(aggs: seq<Aggregated>, tags: seq<Tag>, unknown: bool): seq<Aggregated>
    requires |aggs| == |tags|
  {
    if |tags| == 0 then []
    else
      var n := |tags| - 1;
      Select(aggs[..n], tags[..n], unknown) + (if IsUnknown(tags[n]) == unknown then [aggs[n]] else [])
  }

  /** np.concatenate of the label vectors. */
  function AllLabels(aggs: seq<Aggregated>): seq<Tag>
  {
    if |aggs| == 0 then [] else AllLabels(aggs[..|aggs| - 1]) + aggs[|aggs| - 1].labels
  }

  function AllRows(aggs: seq<Aggregated>): seq<seq<int>>
  {
    if |aggs| == 0 then []
    else AllRows(aggs[..|aggs| - 1]) + (if aggs[|aggs| - 1].inputs.Matrix? then aggs[|aggs| - 1].inputs.rows else [])
  }

  /** The number of dimensions and the width of an array, as np.concatenate compares them. */
  function Shape(b: Block): int
  {
    if b.Flat? then -1 else b.width
  }

  /** np.concatenate of the input arrays along the first axis: an empty list is refused, as
      is a mix of dimensions or of widths. */
  function ConcatInputs(aggs: seq<Aggregated>): (r: Result<Block>)
    ensures r.Ok? ==> |aggs| > 0 && forall i :: 0 <= i < |aggs| ==> Shape(aggs[i].inputs) == Shape(r.value)
    ensures r.Err? ==> r.error == EmptyStack || r.error == ShapeMismatch
  {
    if |aggs| == 0 then Err(EmptyStack)
    else if forall i :: 0 <= i < |aggs| ==> Shape(aggs[i].inputs) == Shape(aggs[0].inputs) then
      if aggs[0].inputs.Flat? then Ok(Flat) else Ok(Matrix(aggs[0].inputs.width, AllRows(aggs)))
    else Err(ShapeMismatch)
  }

  /** The benign and unknown pools of TEDPLUS.test: the labels of the first layer's
      dictionary in insertion order, each aggregated over all layers and sent to the unknown
      pool when it is the poison or clean group and to the benign pool otherwise. */
  function PartitionSpec(table: Table, layers: seq<LayerId>, tagOrder: map<LayerId, seq<Tag>>): Result<Pools>
  {
    if |layers| == 0 then Err(IndexOutOfRange)
    else
      var tags := TagsOf(tagOrder, layers[0]);
      match Aggregates(table, layers, tags)
      case Err(e) => Err(e)
      case Ok(aggs) =>
        var benign := Select(aggs, tags, false);
        var unknown := Select(aggs, tags, true);
        match ConcatInputs(benign)
        case Err(e) => Err(e)
        case Ok(bi) =>
          match ConcatInputs(unknown)
          case Err(e) => Err(e)
          case Ok(ui) => Ok(Pools(bi, AllLabels(benign), ui, AllLabels(unknown)))
  }

  lemma {:induction false} AggregatesErrPrefix(table: Table, layers: seq<LayerId>, tags: seq<Tag>, j: nat)
    requires j <= |tags| && Aggregates(table, layers, tags[..j]).Err?
    ensures Aggregates(table, layers, tags) == Aggregates(table, layers, tags[..j])
    decreases |tags| - j
  {
    if j < |tags| {
      var n := |tags| - 1;
      assert tags[..n][..j] == tags[..j];
      AggregatesErrPrefix(table, layers, tags[..n], j);
      assert Aggregates(table, layers, tags[..n]).Err?;
    } else {
      assert tags[..j] == tags;
    }
  }

  /** Every label aggregated for tag is tag itself. */
  lemma {:induction false} AggregatesLabels(table: Table, layers: seq<LayerId>, tags: seq<Tag>)
    requires Aggregates(table, layers, tags).Ok?
    ensures forall i, x :: 0 <= i < |tags| && x in Aggregates(table, layers, tags).value[i].labels ==> x == tags[i]
  {
    if |tags| > 0 {
      var n := |tags| - 1;
      AggregatesLabels(table, layers, tags[..n]);
    }
  }

  /** The selected aggregates carry only labels on the requested side. */
  lemma {:induction false} SelectSide(aggs: seq<Aggregated>, tags: seq<Tag>, unknown: bool)
    requires |aggs| == |tags|
    requires forall i, x :: 0 <= i < |tags| && x in aggs[i].labels ==> x == tags[i]
    ensures forall x :: x in AllLabels(Select(aggs, tags, unknown)) ==> IsUnknown(x) == unknown
  {
    if |tags| > 0 {
      var n := |tags| - 1;
      SelectSide(aggs[..n], tags[..n], unknown);
      AllLabelsAppend(Select(aggs[..n], tags[..n], unknown), if IsUnknown(tags[n]) == unknown then [aggs[n]] else []);
      if IsUnknown(tags[n]) == unknown {
        assert AllLabels([aggs[n]]) == aggs[n].labels by {
          assert [aggs[n]][..0] == [];
        }
      }
    }
  }

  lemma {:induction false} AllLabelsAppend(a: seq<Aggregated>, b: seq<Aggregated>)
    ensures AllLabels(a + b) == AllLabels(a) + AllLabels(b)
    decreases |b|
  {
    if |b| == 0 {
      assert a + b == a;
    } else {
      var n := |b| - 1;
      assert (a + b)[..|a + b| - 1] == a + b[..n];
      AllLabelsAppend(a, b[..n]);
    }
  }

  /** The two pools share no label: class labels go to the benign pool, the poison and clean
      groups to the unknown pool. */
  lemma PartitionDisjoint(table: Table, layers: seq<LayerId>, tagOrder: map<LayerId, seq<Tag>>)
    requires PartitionSpec(table, layers, tagOrder).Ok?
    ensures forall x :: x in PartitionSpec(table, layers, tagOrder).value.benignLabels ==> x.ClassTag?
    ensures forall x :: x in PartitionSpec(table, layers, tagOrder).value.unknownLabels ==> x.PoisonTag? || x.CleanTag?
  {
    var tags := TagsOf(tagOrder, layers[0]);
    var aggs := Aggregates(table, layers, tags).value;
    AggregatesLabels(table, layers, tags);
    SelectSide(aggs, tags, false);
    SelectSide(aggs, tags, true);
  }

  /** Number of ranks the first layer holds for the given labels. */
  function FirstLayerCount(table: Table, first: LayerId, tags: seq<Tag>): nat
  {
    if |tags| == 0 then 0
    else
      var t := tags[|tags| - 1];
      FirstLayerCount(table, first, tags[..|tags| - 1]) + (if first in table && t in table[first] then |table[first][t]| else 0)
  }

  lemma {:induction false} SelectCount(aggs: seq<Aggregated>, tags: seq<Tag>)
    requires |aggs| == |tags|
    ensures |AllLabels(Select(aggs, tags, false))| + |AllLabels(Select(aggs, tags, true))| == |AllLabels(aggs)|
  {
    if |tags| > 0 {
      var n := |tags| - 1;
      SelectCount(aggs[..n], tags[..n]);
      AllLabelsAppend(Select(aggs[..n], tags[..n], false), if IsUnknown(tags[n]) then [] else [aggs[n]]);
      AllLabelsAppend(Select(aggs[..n], tags[..n], true), if IsUnknown(tags[n]) then [aggs[n]] else []);
      assert AllLabels([aggs[n]]) == aggs[n].labels by {
        assert [aggs[n]][..0] == [];
      }
      assert AllLabels([]) == [];
    }
  }

  lemma {:induction false} AggregatesCount(table: Table, layers: seq<LayerId>, tags: seq<Tag>)
    requires |layers| > 0
    requires Aggregates(table, layers, tags).Ok?
    ensures |AllLabels(Aggregates(table, layers, tags).value)| == FirstLayerCount(table, layers[0], tags)
  {
    if |tags| > 0 {
      var n := |tags| - 1;
      AggregatesCount(table, layers, tags[..n]);
      var aggs := Aggregates(table, layers, tags).value;
      assert aggs[..n] == Aggregates(table, layers, tags[..n]).value;
    }
  }

  /** Every rank of the first layer contributes one label, to exactly one of the pools. */
  lemma PartitionCount(table: Table, layers: seq<LayerId>, tagOrder: map<LayerId, seq<Tag>>)
    requires PartitionSpec(table, layers, tagOrder).Ok?
    ensures |PartitionSpec(table, layers, tagOrder).value.benignLabels| + |PartitionSpec(table, layers, tagOrder).value.unknownLabels|
            == FirstLayerCount(table, layers[0], TagsOf(tagOrder, layers[0]))
  {
    var tags := TagsOf(tagOrder, layers[0]);
    var aggs := Aggregates(table, layers, tags).value;
    SelectCount(aggs, tags);
    AggregatesCount(table, layers, tags);
  }

  /** The loop of TEDPLUS.test over the labels of the first layer: each label is
      aggregated and appended to the benign or the unknown list. */
  method AggregateLabels(table: Table, layers: seq<LayerId>, tags: seq<Tag>)
    returns (r: Result<(seq<Aggregated>, seq<Aggregated>)>)
    ensures r.Ok? <==> Aggregates(table, layers, tags).Ok?
    ensures r.Err? ==> r.error == Aggregates(table, layers, tags).error
    ensures r.Ok? ==> r.value == (Select(Aggregates(table, layers, tags).value, tags, false),
                                  Select(Aggregates(table, layers, tags).value, tags, true))
  {
    var benign: seq<Aggregated> := [];
    var unknown: seq<Aggregated> := [];
    ghost var aggs: seq<Aggregated> := [];
    for i := 0 to |tags|
      invariant Aggregates(table, layers, tags[..i]) == Ok(aggs)
      invariant benign == Select(aggs, tags[..i], false)
      invariant unknown == Select(aggs, tags[..i], true)
    {
      var inx := tags[i];
      var agg := AggregateByAllLayers(table, layers, inx);
      assert tags[..i + 1][..i] == tags[..i];
      if agg.Err? {
        AggregatesErrPrefix(table, layers, tags, i + 1);
        return Err(agg.error);
      }
      assert (aggs + [agg.value])[..i] == aggs;
      aggs := aggs + [agg.value];
      if inx != PoisonTag && inx != CleanTag {
        benign := benign + [agg.value];
      } else {
        unknown := unknown + [agg.value];
      }
    }
    assert tags[..|tags|] == tags;
    r := Ok((benign, unknown));
  }

  /** The partition of TEDPLUS.test: the labels of the first layer's dictionary, aggregated
      and split, followed by the four np.concatenate calls. */
  method Partition(rep: TopologicalRepresentation) returns (r: Result<Pools>)
    requires rep.Valid()
    ensures r == PartitionSpec(rep.table, rep.layerOrder, rep.tagOrder)
  {
    if |rep.layerOrder| == 0 {
      return Err(IndexOutOfRange);
    }
    var firstKey := rep.layerOrder[0];
    assert firstKey in rep.table;
    var className := rep.tagOrder[firstKey];
    var split := AggregateLabels(rep.table, rep.layerOrder, className);
    if split.Err? {
      return Err(split.error);
    }
    var (benign, unknown) := split.value;
    var inputsAllBenign := ConcatInputs(benign);
    if inputsAllBenign.Err? {
      return Err(inputsAllBenign.error);
    }
    var labelsAllBenign := AllLabels(benign);
    var inputsAllUnknown := ConcatInputs(unknown);
    if inputsAllUnknown.Err? {
      return Err(inputsAllUnknown.error);
    }
    var labelsAllUnknown := AllLabels(unknown);
    r := Ok(Pools(inputsAllBenign.value, labelsAllBenign, inputsAllUnknown.value, labelsAllUnknown));
  }
}
