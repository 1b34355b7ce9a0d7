/** Which layers of the classifier are monitored, and under which names
    (TEDPLUS.register_hooks). The classifier's modules are given as the flat
    sequence that model.modules() enumerates. */
module LayerHooks {
  import opened Wrappers

  /** The module kinds the naming rule distinguishes; everything else is OtherModule. */
  datatype Module = Conv2d(kernelH: nat, kernelW: nat) | ReLU | Linear | OtherModule

  datatype LayerKind = ConvKind | ReluKind | LinearKind

  /** A hook name: "Conv2d_<index>", "Relu_<index>" or "Linear_<index>". Two names are
      equal exactly when their kinds and indices are, so the pair stands for the string. */
  datatype LayerId = LayerId(kind: LayerKind, index: nat)

  /** The kind under which a module gets a hook, if any: convolutions whose kernel is
      not 1x1, every ReLU and every Linear layer. */
  function HookKind(m: Module): (k: Option<LayerKind>)
    ensures k == None <==> m.OtherModule? || m == Conv2d(1, 1)
  {
    match m
    case Conv2d(kh, kw) => if kh == 1 && kw == 1 then None else Some(ConvKind)
    case ReLU => Some(ReluKind)
    case Linear => Some(LinearKind)
    case OtherModule => None
  }

  /** The kinds of the monitored modules, in module order. */
  function MonitoredKinds(modules: seq<Module>): (ks: seq<LayerKind>)
    ensures |ks| <= |modules|
  {
    if |modules| == 0 then []
    else
      var prev := MonitoredKinds(modules[..|modules| - 1]);
      match HookKind(modules[|modules| - 1])
      case None => prev
      case Some(k) => prev + [k]
  }

  /** The filter is compositional: the hooks of a concatenation are the hooks of its parts. */
  lemma {:induction false} MonitoredKindsAppend(a: seq<Module>, b: seq<Module>)
    ensures MonitoredKinds(a + b) == MonitoredKinds(a) + MonitoredKinds(b)
    decreases |b|
  {
    if |b| == 0 {
      assert a + b == a;
    } else {
      var b' := b[..|b| - 1];
      assert (a + b)[..|a + b| - 1] == a + b';
      assert (a + b)[|a + b| - 1] == b[|b| - 1];
      MonitoredKindsAppend(a, b');
    }
  }

  /** No hook is registered exactly when no module is a monitored kind. */
  lemma {:induction false} NoHooksIff(modules: seq<Module>)
    ensures MonitoredKinds(modules) == [] <==> forall i :: 0 <= i < |modules| ==> HookKind(modules[i]) == None
  {
    if |modules| > 0 {
      var prev := modules[..|modules| - 1];
      NoHooksIff(prev);
      assert forall i :: 0 <= i < |prev| ==> prev[i] == modules[i];
    }
  }

  /** register_hooks: one name per monitored module, numbered by a single counter shared
      by the three kinds. */
  method RegisterHooks(modules: seq<Module>) returns (names: seq<LayerId>)
    ensures |names| == |MonitoredKinds(modules)|
    ensures forall i :: 0 <= i < |names| ==> names[i] == LayerId(MonitoredKinds(modules)[i], i)
    ensures forall i, j :: 0 <= i < j < |names| ==> names[i] != names[j]
  {
    names := [];
    var index := 0;
    for p := 0 to |modules|
      invariant index == |names| == |MonitoredKinds(modules[..p])|
      invariant forall i :: 0 <= i < |names| ==> names[i] == LayerId(MonitoredKinds(modules[..p])[i], i)
    {
      assert modules[..p + 1][..p] == modules[..p];
      var child := modules[p];
      if child.Conv2d? && !(child.kernelH == 1 && child.kernelW == 1) {
        names := names + [LayerId(ConvKind, index)];
        index := index + 1;
      }
      if child.ReLU? {
        names := names + [LayerId(ReluKind, index)];
        index := index + 1;
      }
      if child.Linear? {
        names := names + [LayerId(LinearKind, index)];
        index := index + 1;
      }
    }
    assert modules[..|modules|] == modules;
  }
}
