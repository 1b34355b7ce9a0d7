/** attack_dataloader.py: the ColorDepthShrinking transform on 8-bit pixels and the order in
    which get_transform assembles its pipeline, with each transform named by a tag. */
module AttackDataloader {
  import opened Wrappers

  /** An 8-bit pixel value. */
  type Pixel = x: nat | x < 256

  function Pow2(e: nat): (r: nat)
    ensures r >= 1
  {
    if e == 0 then 1 else 2 * Pow2(e - 1)
  }

  /** ColorDepthShrinking.__init__: t = 1 << (8 - c); a negative shift count raises. */
  function ShrinkStep(c: int): (t: Result<nat>)
    ensures t.Err? <==> c > 8
    ensures t.Ok? ==> t.value >= 1
  {
    if 8 - c < 0 then Err(NegativeShift) else Ok(Pow2(8 - c))
  }

  /** For 1 <= c <= 8 the step is a power of two between 1 and 128. */
  lemma ShrinkStepRange(c: int)
    requires 1 <= c <= 8
    ensures ShrinkStep(c).Ok?
    ensures 1 <= ShrinkStep(c).value <= 128
    ensures ShrinkStep(c).value == Pow2(8 - c) && 8 - c <= 7
    ensures 128 % ShrinkStep(c).value == 0
  {
    var e := 8 - c;
    Pow2Bounds(e);
  }

  lemma {:induction false} Pow2Bounds(e: nat)
    requires e <= 7
    ensures Pow2(e) <= 128 && 128 % Pow2(e) == 0
  {
    if e > 0 {
      Pow2Bounds(e - 1);
      var p := Pow2(e - 1);
      assert 128 == p * (128 / p);
      if e < 7 {
        assert Pow2(e) == 2 * p;
        Pow2Below(e);
      }
    }
  }

  lemma {:induction false} Pow2Below(e: nat)
    requires e <= 7
    ensures 128 == Pow2(e) * Pow2(7 - e)
  {
    if e > 0 {
      Pow2Below(e - 1);
      assert Pow2(8 - e) == 2 * Pow2(7 - e);
    }
  }

  /** ColorDepthShrinking.__call__ on one pixel: `(p / t).astype("uint8") * t`, the pixel
      rounded down to a multiple of t. */
  function Quantize(p: Pixel, t: nat): (q: Pixel)
    requires t >= 1
    ensures q % t == 0
    ensures q <= p && p - q < t
  {
    var d := p / t;
    DivUnique(d * t, t, d, 0);
    d * t
  }

  lemma MulAtLeast(x: int, t: int)
    requires x >= 1 && t >= 1
    ensures x * t >= t
  {
    assert x * t == (x - 1) * t + t;
    assert (x - 1) * t >= 0;
  }

  /** Euclidean division is unique: a = q*t + r with 0 <= r < t fixes a / t and a % t. */
  lemma DivUnique(a: int, t: nat, q: int, r: int)
    requires t >= 1 && a == q * t + r && 0 <= r < t
    ensures a / t == q && a % t == r
  {
    var q' := a / t;
    var r' := a % t;
    assert a == q' * t + r' && 0 <= r' < t;
    assert (q' - q) * t == r - r';
    if q' > q {
      MulAtLeast(q' - q, t);
    } else if q' < q {
      MulAtLeast(q - q', t);
    }
  }

  /** Quantizing twice is quantizing once, and a step of 1 (c = 8) is the identity. */
  lemma QuantizeIdempotent(p: Pixel, t: nat)
    requires t >= 1
    ensures Quantize(Quantize(p, t), t) == Quantize(p, t)
    ensures t == 1 ==> Quantize(p, t) == p
  {
    var q := Quantize(p, t);
    DivUnique(q, t, p / t, 0);
    if t == 1 {
      DivUnique(p, 1, p, 0);
    }
  }

  /** ColorDepthShrinking(c) applied to an image. */
  function ShrinkImage(img: seq<Pixel>, c: int): (r: Result<seq<Pixel>>)
    ensures r.Err? <==> c > 8
    ensures r.Ok? ==> |r.value| == |img|
    ensures r.Ok? ==> forall i :: 0 <= i < |img| ==>
      r.value[i] <= img[i] && img[i] - r.value[i] < ShrinkStep(c).value && r.value[i] % ShrinkStep(c).value == 0
  {
    match ShrinkStep(c)
    case Err(e) => Err(e)
    case Ok(t) => Ok(seq(|img|, i requires 0 <= i < |img| => Quantize(img[i], t)))
  }

  /** At full depth (c = 8) the image is unchanged. */
  lemma ShrinkFullDepth(img: seq<Pixel>)
    ensures ShrinkImage(img, 8) == Ok(img)
  {
    var r := ShrinkImage(img, 8).value;
    forall i | 0 <= i < |img| ensures r[i] == img[i] {
      QuantizeIdempotent(img[i], 1);
    }
    assert r == img;
  }

  /** For c <= 0 the step is at least 256, so every pixel becomes 0. */
  lemma ShrinkNonPositive(img: seq<Pixel>, c: int)
    requires c <= 0
    ensures ShrinkImage(img, c).Ok?
    ensures forall i :: 0 <= i < |img| ==> ShrinkImage(img, c).value[i] == 0
  {
    Pow2AtLeast(8 - c);
  }

  lemma {:induction false} Pow2AtLeast(e: nat)
    requires e >= 8
    ensures Pow2(e) >= 256
  {
    if e > 8 {
      Pow2AtLeast(e - 1);
    }
  }

  // ---------------------------------------------------------------- get_transform

  datatype Dataset = Cifar10 | Mnist | Gtsrb | ImageNet200 | TinyImageNet200 | OtherDataset

  datatype Transform =
    | Resize
    | RandomCrop
    | CenterCrop
    | RandomHorizontalFlip
    | RandomRotation
    | ColorJitter
    | Identity
    | ColorDepthShrinking(c: int)
    | Smoothing(k: int)
    | ToTensor
    | Normalize(ds: Dataset)

  /** The augmentations get_transform may insert. */
  predicate IsAugmentation(t: Transform)
  {
    t.RandomCrop? || t.RandomRotation? || t.RandomHorizontalFlip?
  }

  /** get_transform(opt, train, c, k), element by element. */
  function TransformList(ds: Dataset, train: bool, c: int, k: int): Result<seq<Transform>>
  {
    if ds == ImageNet200 then
      Ok([Resize, if train then RandomCrop else CenterCrop, if train then RandomHorizontalFlip else Identity,
          if train then ColorJitter else Identity, ToTensor, Normalize(ImageNet200)])
    else if ds == TinyImageNet200 then
      Ok([RandomCrop, RandomHorizontalFlip, RandomRotation, ColorJitter, ToTensor, Normalize(TinyImageNet200)])
    else if ds == OtherDataset then Err(InvalidDataset)
    else
      var normalize := if ds == Gtsrb then [] else [Normalize(ds)];
      Ok([Resize] + Augment(ds, train) + Filters(c, k) + [ToTensor] + normalize)
  }

  /** get_transform, with its successive appends. */
  method GetTransform(ds: Dataset, train: bool, c: int, k: int) returns (r: Result<seq<Transform>>)
    ensures r == TransformList(ds, train, c, k)
  {
    if ds == ImageNet200 {
      var transformList := [Resize, if train then RandomCrop else CenterCrop,
                            if train then RandomHorizontalFlip else Identity,
                            if train then ColorJitter else Identity, ToTensor, Normalize(ImageNet200)];
      return Ok(transformList);
    } else if ds == TinyImageNet200 {
      var transformList := [RandomCrop, RandomHorizontalFlip, RandomRotation, ColorJitter, ToTensor, Normalize(TinyImageNet200)];
      return Ok(transformList);
    }
    var transformsList: seq<Transform> := [];
    transformsList := transformsList + [Resize];
    if train {
      transformsList := transformsList + [RandomCrop];
      if ds != Mnist {
        transformsList := transformsList + [RandomRotation];
      }
      if ds == Cifar10 {
        transformsList := transformsList + [RandomHorizontalFlip];
      }
    }
    assert transformsList == [Resize] + Augment(ds, train);
    ghost var front := transformsList;
    if c > 0 {
      transformsList := transformsList + [ColorDepthShrinking(c)];
    }
    if k > 0 {
      transformsList := transformsList + [Smoothing(k)];
    }
    assert transformsList == front + Filters(c, k);
    transformsList := transformsList + [ToTensor];
    if ds == Cifar10 {
      transformsList := transformsList + [Normalize(Cifar10)];
    } else if ds == Mnist {
      transformsList := transformsList + [Normalize(Mnist)];
    } else if ds == Gtsrb {
    } else {
      return Err(InvalidDataset);
    }
    r := Ok(transformsList);
    ghost var normalize := if ds == Gtsrb then [] else [Normalize(ds)];
    assert transformsList == [Resize] + Augment(ds, train) + Filters(c, k) + [ToTensor] + normalize;
  }

  /** The two ImageNet pipelines are fixed: c and k are ignored. */
  lemma ImageNetPipelinesFixed(ds: Dataset, train: bool, c: int, k: int, c': int, k': int)
    requires ds == ImageNet200 || ds == TinyImageNet200
    ensures TransformList(ds, train, c, k).Ok?
    ensures TransformList(ds, train, c, k) == TransformList(ds, train, c', k')
    ensures TransformList(ds, train, c, k).value[|TransformList(ds, train, c, k).value| - 1] == Normalize(ds)
  {
  }

  /** Every dataset other than the five handled raises. */
  lemma InvalidDatasetRaises(train: bool, c: int, k: int)
    ensures TransformList(OtherDataset, train, c, k) == Err(InvalidDataset)
  {
  }

  /** For the small datasets the pipeline is Resize, the augmentations, the filters and
      ToTensor, followed by the normalization. */
  lemma SmallPipelineShape(ds: Dataset, train: bool, c: int, k: int)
    requires ds == Cifar10 || ds == Mnist || ds == Gtsrb
    ensures TransformList(ds, train, c, k).Ok?
    ensures var l := TransformList(ds, train, c, k).value;
      var a := 1 + |Augment(ds, train)|;
      var f := a + |Filters(c, k)|;
      |l| > f && l[0] == Resize && l[f] == ToTensor &&
      (forall i :: 1 <= i < a ==> IsAugmentation(l[i])) &&
      l[a..f] == Filters(c, k)
  {
    var l := TransformList(ds, train, c, k).value;
    var front := [Resize] + Augment(ds, train);
    var prefix := front + Filters(c, k);
    assert l == prefix + ([ToTensor] + (if ds == Gtsrb then [] else [Normalize(ds)]));
    assert l[..|prefix|] == prefix;
    assert prefix[..|front|] == front;
    assert prefix[|front|..] == Filters(c, k);
  }

  /** The augmentations of get_transform, in order. */
  function Augment(ds: Dataset, train: bool): (a: seq<Transform>)
    ensures forall i :: 0 <= i < |a| ==> IsAugmentation(a[i])
  {
    if train then [RandomCrop] + (if ds != Mnist then [RandomRotation] else [])
                  + (if ds == Cifar10 then [RandomHorizontalFlip] else [])
    else []
  }

  /** The image filters of get_transform, in order. */
  function Filters(c: int, k: int): (f: seq<Transform>)
    ensures ColorDepthShrinking(c) in f <==> c > 0
    ensures Smoothing(k) in f <==> k > 0
    ensures c > 0 && k > 0 ==> f == [ColorDepthShrinking(c), Smoothing(k)]
  {
    (if c > 0 then [ColorDepthShrinking(c)] else []) + (if k > 0 then [Smoothing(k)] else [])
  }

  /** ColorDepthShrinking appears exactly when c > 0 and Smoothing exactly when k > 0, after
      every augmentation, shrinking before smoothing, and both before ToTensor. */
  lemma FilterOrder(ds: Dataset, train: bool, c: int, k: int)
    requires ds == Cifar10 || ds == Mnist || ds == Gtsrb
    ensures TransformList(ds, train, c, k).Ok?
    ensures ColorDepthShrinking(c) in TransformList(ds, train, c, k).value <==> c > 0
    ensures Smoothing(k) in TransformList(ds, train, c, k).value <==> k > 0
  {
    var l := TransformList(ds, train, c, k).value;
    var f := Filters(c, k);
    assert l == ([Resize] + Augment(ds, train)) + f + ([ToTensor] + (if ds == Gtsrb then [] else [Normalize(ds)]));
    if c > 0 {
      assert ColorDepthShrinking(c) in f;
    }
    if k > 0 {
      assert Smoothing(k) in f;
    }
  }

  /** Augmentations appear only when training: RandomCrop always, RandomRotation unless the
      dataset is mnist, the horizontal flip only for cifar10. */
  lemma Augmentations(ds: Dataset, train: bool, c: int, k: int)
    requires ds == Cifar10 || ds == Mnist || ds == Gtsrb
    ensures TransformList(ds, train, c, k).Ok?
    ensures RandomCrop in TransformList(ds, train, c, k).value <==> train
    ensures RandomRotation in TransformList(ds, train, c, k).value <==> train && ds != Mnist
    ensures RandomHorizontalFlip in TransformList(ds, train, c, k).value <==> train && ds == Cifar10
  {
    var l := TransformList(ds, train, c, k).value;
    if train {
      assert l[1] == RandomCrop;
      if ds != Mnist {
        assert l[2] == RandomRotation;
      }
      if ds == Cifar10 {
        assert l[3] == RandomHorizontalFlip;
      }
    }
  }

  /** Normalize is the last step for cifar10 and mnist, and gtsrb is not normalized. */
  lemma NormalizeLast(ds: Dataset, train: bool, c: int, k: int)
    requires ds == Cifar10 || ds == Mnist || ds == Gtsrb
    ensures TransformList(ds, train, c, k).Ok?
    ensures ds != Gtsrb ==> TransformList(ds, train, c, k).value[|TransformList(ds, train, c, k).value| - 1] == Normalize(ds)
    ensures ds == Gtsrb ==> forall i :: 0 <= i < |TransformList(ds, train, c, k).value| ==> !TransformList(ds, train, c, k).value[i].Normalize?
    ensures ds == Gtsrb ==> TransformList(ds, train, c, k).value[|TransformList(ds, train, c, k).value| - 1] == ToTensor
  {
  }
}
