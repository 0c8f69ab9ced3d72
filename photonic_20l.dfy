/**
  The Photonic 20-layer backend of LightCompiler
  (`lightcompiler/backends/photonic_20l.py`): matrix products are spread
  round-robin over the intelligence layers, and each is lowered to MZI
  phase lists and a WDM channel plan for its layer.

  `np.angle` and `np.abs` are the abstract kernels of a `Physics` value;
  the values `np.random.randn` draws are a parameter of `Compile`.
*/
module Photonic20l {
  import opened Wrappers
  import opened Numerics
  import opened UnifiedIr
  import opened MziIndices

  /** The configuration dict of one layer: MZI phases and WDM wavelengths in nm. */
  datatype LayerConfig = LayerConfig(theta: seq<real>, phi: seq<real>, wdm: seq<real>)

  const EmptyConfig: LayerConfig := LayerConfig([], [], [])

  /** An entry of `resource_map`: the layer a product went to and its MZI count. */
  datatype Resource = Resource(layer: int, mziCount: nat)

  /** `list(range(lo, hi))`. */
  function Range(lo: int, hi: int): (r: seq<int>)
    ensures |r| == if lo <= hi then hi - lo else 0
    ensures forall i :: 0 <= i < |r| ==> r[i] == lo + i
    decreases hi - lo
  {
    if lo < hi then [lo] + Range(lo + 1, hi) else []
  }

  /** `{l: {"theta": [], "phi": [], "wdm": []} for l in layers}`. */
  function EmptyConfigs(layers: seq<int>): (m: map<int, LayerConfig>)
    ensures forall l :: l in m <==> l in layers
    ensures forall l :: l in m ==> m[l] == EmptyConfig
  {
    map l | l in layers :: EmptyConfig
  }

  /** `np.eye(n)`: an n-by-n identity, flattened row by row. */
  function Eye(n: nat): (t: Tensor)
    ensures t.shape == [n, n] && |t.flat| == n * n
    ensures forall k :: 0 <= k < n * n ==> t.flat[k] == if k / n == k % n then Complex(1.0, 0.0) else Zero
  {
    Tensor([n, n], seq(n * n, k requires 0 <= k < n * n => if k / n == k % n then Complex(1.0, 0.0) else Zero))
  }

  /** Row i, column j of `np.eye(n)` is 1 on the diagonal and 0 elsewhere. */
  lemma {:induction false} EyeEntry(n: nat, i: nat, j: nat)
    requires i < n && j < n
    ensures i * n + j < n * n
    ensures Eye(n).flat[i * n + j] == if i == j then Complex(1.0, 0.0) else Zero
  {
    RowBound(n, i, j);
    RowDivMod(n, i, j);
  }

  lemma {:induction false} RowBound(n: nat, i: nat, j: nat)
    requires i < n && j < n
    ensures i * n + j < n * n
  {
    assert i * n <= (n - 1) * n;
  }

  lemma {:induction false} RowDivMod(n: nat, i: nat, j: nat)
    requires j < n
    ensures (i * n + j) / n == i && (i * n + j) % n == j
  {
    var q, r := (i * n + j) / n, (i * n + j) % n;
    assert q * n + r == i * n + j;
    if q < i {
      assert (i - q) * n == i * n - q * n;
      MulAtLeast(i - q, n);
    } else if q > i {
      assert (q - i) * n == q * n - i * n;
      MulAtLeast(q - i, n);
    }
  }

  lemma {:induction false} MulAtLeast(a: nat, n: nat)
    requires a >= 1
    ensures a * n >= n
  {
    assert a * n == (a - 1) * n + n;
    MulNat(a - 1, n);
  }

  /** `np.eye(n)` has the n * n elements its shape asks for. */
  lemma {:induction false} EyeElements(n: nat)
    ensures Elements([n, n]) == n * n
  {
    assert [n, n][1..] == [n];
    assert [n][1..] == [];
    assert Elements([n]) == n * Elements([]) == n;
  }

  /** A real array as the complex array numpy's `angle` and `abs` see. */
  function AsComplex(v: seq<real>): (c: seq<Complex>)
    ensures |c| == |v| && forall i :: 0 <= i < |v| ==> c[i] == Complex(v[i], 0.0)
  {
    seq(|v|, i requires 0 <= i < |v| => Complex(v[i], 0.0))
  }

  /** The value of the first `ConstantNode` input, as the `for ... break` of `_lower_matmul` finds it. */
  function FirstConstant(inputs: seq<UcgNode>): (r: Option<Tensor>)
    ensures r.None? <==> forall i :: 0 <= i < |inputs| ==> !inputs[i].kind.Constant?
    ensures r.Some? ==> exists i :: 0 <= i < |inputs| && inputs[i].kind == Constant(r.value) &&
                                    forall j :: 0 <= j < i ==> !inputs[j].kind.Constant?
  {
    if inputs == [] then None
    else if inputs[0].kind.Constant? then Some(inputs[0].kind.value)
    else
      var r := FirstConstant(inputs[1..]);
      assert forall i :: 1 <= i < |inputs| ==> inputs[i] == inputs[1..][i - 1];
      if r.Some? then
        var i :| 0 <= i < |inputs[1..]| && inputs[1..][i].kind == Constant(r.value) &&
          forall j :: 0 <= j < i ==> !inputs[1..][j].kind.Constant?;
        assert inputs[i + 1] == inputs[1..][i];
        r
      else r
  }

  /**
    The weights `_lower_matmul` lowers: the first constant input's value;
    without one, `randn(next, shape)` for a node with a truthy shape, else the
    mesh-sized identity.
  */
  function Weights(node: UcgNode, randn: (nat, seq<nat>) -> seq<real>, next: nat, meshSize: nat): (w: Tensor)
    reads node`inputs, node`shape
    ensures FirstConstant(node.inputs).Some? ==> w == FirstConstant(node.inputs).value
    ensures FirstConstant(node.inputs).None? && RandnShaped(randn) ==> |w.flat| == Elements(w.shape)
  {
    match FirstConstant(node.inputs)
    case Some(t) => t
    case None =>
      if HasDims(node.shape) then Tensor(node.shape.value, AsComplex(randn(next, node.shape.value)))
      else
        EyeElements(meshSize);
        Eye(meshSize)
  }

  /** The number of elements of an array of this shape: the product of its dimensions. */
  function Elements(shape: seq<nat>): nat
  {
    if shape == [] then 1
    else
      MulNat(shape[0], Elements(shape[1..]));
      shape[0] * Elements(shape[1..])
  }

  /** `np.random.randn(*shape)` draws one sample per element of the shape. */
  ghost predicate RandnShaped(randn: (nat, seq<nat>) -> seq<real>)
  {
    forall k: nat, shape: seq<nat> :: |randn(k, shape)| == Elements(shape)
  }

  function Min(a: nat, b: nat): nat { if a <= b then a else b }

  lemma {:induction false} MulNat(a: nat, b: nat)
    ensures a * b >= 0
  {
  }

  /** `np.angle` of the first k flattened weights. */
  function Phases(ph: Physics, flat: seq<Complex>, k: nat): (theta: seq<real>)
    requires k <= |flat|
    ensures |theta| == k && forall i :: 0 <= i < k ==> theta[i] == Angle(ph, flat[i])
  {
    seq(k, i requires 0 <= i < k => Angle(ph, flat[i]))
  }

  /** `np.abs(...) % (np.pi / 2)` of the first k flattened weights: each lies in [0, pi/2). */
  function Magnitudes(ph: Physics, flat: seq<Complex>, k: nat): (phi: seq<real>)
    requires k <= |flat|
    ensures |phi| == k
    ensures forall i :: 0 <= i < k ==> phi[i] == FloorMod(Abs(ph, flat[i]), Pi / 2.0) && 0.0 <= phi[i] < Pi / 2.0
  {
    seq(k, i requires 0 <= i < k => FloorMod(Abs(ph, flat[i]), Pi / 2.0))
  }

  /** `[1550.0 + i * 0.8 for i in range(n)]`: n WDM channels 0.8 nm apart from 1550 nm. */
  function WdmPlan(n: nat): (wdm: seq<real>)
    ensures |wdm| == n && forall i :: 0 <= i < n ==> wdm[i] == 1550.0 + (i as real) * 0.8
  {
    seq(n, i requires 0 <= i < n => 1550.0 + (i as real) * 0.8)
  }

  /**
    What `_lower_matmul` derives from a weight array: with `n` its first
    dimension, `n(n-1)/2` MZIs, the phases and magnitudes of the first that
    many flattened weights and `n` WDM channels (LowerContents). A 0-d array
    has no first dimension: IndexError.
  */
  function Lower(ph: Physics, w: Tensor): (r: Result<(LayerConfig, nat)>)
    ensures r.Failure? <==> w.shape == []
    ensures r.Failure? ==> r.error == IndexError
  {
    if w.shape == [] then Failure(IndexError)
    else
      var n := w.shape[0];
      var k := Min(NumMzi(n), |w.flat|);
      Success((LayerConfig(Phases(ph, w.flat, k), Magnitudes(ph, w.flat, k), WdmPlan(n)), NumMzi(n)))
  }

  /**
    A lowered layer: theta and phi are the phase and the magnitude modulo
    pi/2 of the first `n(n-1)/2` flattened weights (fewer if the array is
    smaller), every phi lies in [0, pi/2), and the WDM plan is `n` channels
    0.8 nm apart from 1550 nm.
  */
  lemma {:induction false} LowerContents(ph: Physics, w: Tensor)
    requires w.shape != []
    ensures var n := w.shape[0];
      var cfg := Lower(ph, w).value.0;
      Lower(ph, w).value.1 == NumMzi(n) &&
      |cfg.theta| == Min(NumMzi(n), |w.flat|) && |cfg.phi| == |cfg.theta| &&
      (forall i :: 0 <= i < |cfg.theta| ==> cfg.theta[i] == Angle(ph, w.flat[i])) &&
      (forall i :: 0 <= i < |cfg.phi| ==>
        cfg.phi[i] == FloorMod(Abs(ph, w.flat[i]), Pi / 2.0) && 0.0 <= cfg.phi[i] < Pi / 2.0) &&
      |cfg.wdm| == n && forall i :: 0 <= i < n ==> cfg.wdm[i] == 1550.0 + (i as real) * 0.8
  {
    var k := Min(NumMzi(w.shape[0]), |w.flat|);
    assert Lower(ph, w).value.0.theta == Phases(ph, w.flat, k);
  }

  /** The state `compile` threads through its loop: the product counter, both dicts, and the exception if one was raised. */
  datatype Outcome = Outcome(next: nat, configs: map<int, LayerConfig>, resources: map<string, Resource>, error: Option<Error>)

  /**
    One pass of the loop of `compile`. A `MatMulNode` goes to layer
    `layers[next % len(layers)]` (ZeroDivisionError when there are no
    layers) and is lowered there; an `AddNode` is lowered by `_lower_add`,
    which does nothing, and any other node is skipped.
  */
  function Step(ph: Physics, randn: (nat, seq<nat>) -> seq<real>, layers: seq<int>, meshSize: nat,
                node: UcgNode, o: Outcome): (r: Outcome)
    reads node`inputs, node`shape
    ensures node.kind != MatMul ==> r == o
  {
    if node.kind != MatMul then o
    else if |layers| == 0 then o.(error := Some(ZeroDivisionError))
    else
      var layer := layers[o.next % |layers|];
      match Lower(ph, Weights(node, randn, o.next, meshSize))
      case Failure(e) => o.(error := Some(e))
      case Success((cfg, m)) =>
        if layer !in o.configs then o.(error := Some(KeyError))
        else Outcome(o.next + 1, o.configs[layer := cfg], o.resources[node.name := Resource(layer, m)], None)
  }

  /** `compile` over a list of nodes from a starting state, stopping at the first exception. */
  function Run(ph: Physics, randn: (nat, seq<nat>) -> seq<real>, layers: seq<int>, meshSize: nat,
               nodes: seq<UcgNode>, init: Outcome): (o: Outcome)
    reads nodes
    ensures init.error.Some? ==> o == init
    ensures o.error.None? ==> o.next >= init.next
  {
    if nodes == [] then init
    else
      var o := Run(ph, randn, layers, meshSize, nodes[..|nodes| - 1], init);
      if o.error.Some? then o else Step(ph, randn, layers, meshSize, nodes[|nodes| - 1], o)
  }

  class Photonic20LBackend {
    const numLayers: int
    const intelligenceLayers: seq<int>
    const meshSize: nat
    var layerConfigs: map<int, LayerConfig>
    var resourceMap: map<string, Resource>

    /** `__init__`: an empty configuration for every intelligence layer, and no resources. */
    constructor (numLayers: int, intelligenceLayers: seq<int>)
      ensures this.numLayers == numLayers && this.intelligenceLayers == intelligenceLayers && meshSize == 128
      ensures layerConfigs == EmptyConfigs(intelligenceLayers) && resourceMap == map[]
    {
      this.numLayers := numLayers;
      this.intelligenceLayers := intelligenceLayers;
      meshSize := 128;
      layerConfigs := EmptyConfigs(intelligenceLayers);
      resourceMap := map[];
    }

    /** `Photonic20LBackend()`: 20 layers, of which L5 to L15 compute. */
    constructor Default()
      ensures numLayers == 20 && intelligenceLayers == Range(5, 16) && meshSize == 128
      ensures layerConfigs == EmptyConfigs(Range(5, 16)) && resourceMap == map[]
    {
      numLayers := 20;
      intelligenceLayers := Range(5, 16);
      meshSize := 128;
      layerConfigs := EmptyConfigs(Range(5, 16));
      resourceMap := map[];
    }

    /**
      `compile`: lower the nodes in order and return the layer
      configurations, or the exception that stopped the loop; the dicts
      keep what the nodes before it wrote. `randn(k, shape)` is what
      `np.random.randn(*shape)` draws for the k-th product of the call.
    */
    method Compile(nodes: seq<UcgNode>, ph: Physics, randn: (nat, seq<nat>) -> seq<real>)
      returns (r: Result<map<int, LayerConfig>>)
      requires RandnShaped(randn)
      modifies this`layerConfigs, this`resourceMap
      ensures var o := Run(ph, randn, intelligenceLayers, meshSize, nodes, Outcome(0, old(layerConfigs), old(resourceMap), None));
        layerConfigs == o.configs && resourceMap == o.resources &&
        r == (if o.error.Some? then Failure(o.error.value) else Success(o.configs))
    {
      ghost var init := Outcome(0, layerConfigs, resourceMap, None);
      var next: nat := 0;
      var k := 0;
      while k < |nodes|
        invariant 0 <= k <= |nodes|
        invariant Run(ph, randn, intelligenceLayers, meshSize, nodes[..k], init) == Outcome(next, layerConfigs, resourceMap, None)
      {
        var e;
        ghost var o := Outcome(next, layerConfigs, resourceMap, None);
        next, e := CompileNode(nodes[k], next, ph, randn);
        RunAdvance(ph, randn, intelligenceLayers, meshSize, nodes, k, init, o, Outcome(next, layerConfigs, resourceMap, e));
        if e.Some? {
          RunStops(ph, randn, intelligenceLayers, meshSize, nodes, k + 1, init);
          return Failure(e.value);
        }
        k := k + 1;
      }
      assert nodes[..k] == nodes;
      r := Success(layerConfigs);
    }

    /** One pass of the loop of `compile`: dispatch on the node's class and lower it. */
    method CompileNode(node: UcgNode, next: nat, ph: Physics, randn: (nat, seq<nat>) -> seq<real>)
      returns (next': nat, e: Option<Error>)
      modifies this`layerConfigs, this`resourceMap
      ensures Step(ph, randn, intelligenceLayers, meshSize, node, Outcome(next, old(layerConfigs), old(resourceMap), None))
        == Outcome(next', layerConfigs, resourceMap, e)
    {
      next' := next;
      e := None;
      if node.kind == MatMul {
        if |intelligenceLayers| == 0 {
          return next, Some(ZeroDivisionError);
        }
        var layer := intelligenceLayers[next % |intelligenceLayers|];
        e := LowerMatMul(node, layer, next, ph, randn);
        if e.None? {
          next' := next + 1;
        }
      } else if node.kind == AddOp {
        LowerAdd(node);
      }
    }

    /** `_lower_add`: addition needs no configuration, so nothing changes. */
    method LowerAdd(node: UcgNode)
      ensures unchanged(this)
    {
    }

    /**
      `_lower_matmul(node, layer)`: write the lowered configuration to the
      layer and the resource entry for the node, or report the exception
      before writing anything.
    */
    method LowerMatMul(node: UcgNode, layer: int, next: nat, ph: Physics, randn: (nat, seq<nat>) -> seq<real>)
      returns (e: Option<Error>)
      modifies this`layerConfigs, this`resourceMap
      ensures match Lower(ph, Weights(node, randn, next, meshSize))
        case Failure(err) => e == Some(err) && unchanged(this)
        case Success((cfg, m)) =>
          if layer !in old(layerConfigs) then e == Some(KeyError) && unchanged(this) else
          e == None && layerConfigs == old(layerConfigs)[layer := cfg] &&
            resourceMap == old(resourceMap)[node.name := Resource(layer, m)]
    {
      var weights := Weights(node, randn, next, meshSize);
      var lowered := Lower(ph, weights);
      if lowered.Failure? {
        return Some(lowered.error);
      }
      var (cfg, m) := lowered.value;
      if layer !in layerConfigs {
        return Some(KeyError);
      }
      layerConfigs := layerConfigs[layer := cfg];
      resourceMap := resourceMap[node.name := Resource(layer, m)];
      e := None;
    }
  }

  /** The loop of `compile` steps from the state after k nodes to the state after k + 1. */
  lemma {:induction false} RunAdvance(ph: Physics, randn: (nat, seq<nat>) -> seq<real>, layers: seq<int>, meshSize: nat,
                                      nodes: seq<UcgNode>, k: nat, init: Outcome, o: Outcome, o': Outcome)
    requires k < |nodes| && o.error.None?
    requires Run(ph, randn, layers, meshSize, nodes[..k], init) == o
    requires Step(ph, randn, layers, meshSize, nodes[k], o) == o'
    ensures Run(ph, randn, layers, meshSize, nodes[..k + 1], init) == o'
  {
    RunNext(ph, randn, layers, meshSize, nodes, k, init);
  }

  /** One more node: the state it finds is the one the nodes before it left, unless they raised. */
  lemma {:induction false} RunNext(ph: Physics, randn: (nat, seq<nat>) -> seq<real>, layers: seq<int>, meshSize: nat,
                                   nodes: seq<UcgNode>, k: nat, init: Outcome)
    requires k < |nodes|
    ensures var o := Run(ph, randn, layers, meshSize, nodes[..k], init);
      Run(ph, randn, layers, meshSize, nodes[..k + 1], init) ==
        if o.error.Some? then o else Step(ph, randn, layers, meshSize, nodes[k], o)
  {
    assert nodes[..k + 1][..k] == nodes[..k];
  }

  /** Once an exception has stopped the loop, the later nodes change nothing. */
  lemma {:induction false} RunStops(ph: Physics, randn: (nat, seq<nat>) -> seq<real>, layers: seq<int>, meshSize: nat,
                                    nodes: seq<UcgNode>, k: nat, init: Outcome)
    requires k <= |nodes| && Run(ph, randn, layers, meshSize, nodes[..k], init).error.Some?
    ensures Run(ph, randn, layers, meshSize, nodes, init) == Run(ph, randn, layers, meshSize, nodes[..k], init)
    decreases |nodes| - k
  {
    if k < |nodes| {
      assert nodes[..k + 1][..k] == nodes[..k];
      RunStops(ph, randn, layers, meshSize, nodes, k + 1, init);
    } else {
      assert nodes[..k] == nodes;
    }
  }

  /** Without an exception, the counter has advanced once per `MatMulNode`. */
  lemma {:induction false} RunCounts(ph: Physics, randn: (nat, seq<nat>) -> seq<real>, layers: seq<int>, meshSize: nat,
                                     nodes: seq<UcgNode>, init: Outcome)
    requires Run(ph, randn, layers, meshSize, nodes, init).error.None?
    ensures Run(ph, randn, layers, meshSize, nodes, init).next == init.next + |MatMuls(nodes)|
    decreases |nodes|
  {
    if nodes != [] {
      RunCounts(ph, randn, layers, meshSize, nodes[..|nodes| - 1], init);
    }
  }

  /**
    Round-robin placement: the `MatMulNode` at position k, preceded by j
    others, is lowered onto `layers[(next + j) % len(layers)]`, with the
    MZI count of its weights' first dimension, and that layer's
    configuration is then the one lowered from its weights.
  */
  lemma {:induction false} RoundRobin(ph: Physics, randn: (nat, seq<nat>) -> seq<real>, layers: seq<int>, meshSize: nat,
                                      nodes: seq<UcgNode>, k: nat, init: Outcome)
    requires k < |nodes| && nodes[k].kind == MatMul
    requires Run(ph, randn, layers, meshSize, nodes[..k + 1], init).error.None?
    ensures var j := init.next + |MatMuls(nodes[..k])|;
      var w := Weights(nodes[k], randn, j, meshSize);
      |layers| > 0 && w.shape != [] &&
      Run(ph, randn, layers, meshSize, nodes[..k + 1], init).resources[nodes[k].name] ==
        Resource(layers[j % |layers|], NumMzi(w.shape[0])) &&
      Run(ph, randn, layers, meshSize, nodes[..k + 1], init).configs[layers[j % |layers|]] == Lower(ph, w).value.0
  {
    assert nodes[..k + 1][..k] == nodes[..k];
    RunCounts(ph, randn, layers, meshSize, nodes[..k], init);
  }

  /** Every layer a resource entry names is one of the intelligence layers. */
  predicate OnLayers(layers: seq<int>, resources: map<string, Resource>)
  {
    forall name :: name in resources ==> resources[name].layer in layers
  }

  /** The resources `compile` records name intelligence layers only. */
  lemma {:induction false} RunKeeps(ph: Physics, randn: (nat, seq<nat>) -> seq<real>, layers: seq<int>, meshSize: nat,
                                    nodes: seq<UcgNode>, init: Outcome)
    requires OnLayers(layers, init.resources)
    ensures OnLayers(layers, Run(ph, randn, layers, meshSize, nodes, init).resources)
    decreases |nodes|
  {
    if nodes != [] {
      RunKeeps(ph, randn, layers, meshSize, nodes[..|nodes| - 1], init);
    }
  }

  /** The weights of a product have a first dimension unless its first constant input is 0-d. */
  predicate Lowerable(node: UcgNode)
    reads node`inputs
  {
    match FirstConstant(node.inputs)
    case Some(t) => t.shape != []
    case None => true
  }

  lemma {:induction false} WeightsShape(node: UcgNode, randn: (nat, seq<nat>) -> seq<real>, next: nat, meshSize: nat)
    ensures Weights(node, randn, next, meshSize).shape != [] <==> Lowerable(node)
  {
  }

  /**
    With at least one layer, every layer configured and every product's
    weights of positive rank, `compile` raises nothing.
  */
  lemma {:induction false} RunSucceeds(ph: Physics, randn: (nat, seq<nat>) -> seq<real>, layers: seq<int>, meshSize: nat,
                                       nodes: seq<UcgNode>, init: Outcome)
    requires |layers| > 0 && forall l :: l in layers ==> l in init.configs
    requires forall i :: 0 <= i < |nodes| ==> Lowerable(nodes[i])
    requires init.error.None?
    ensures Run(ph, randn, layers, meshSize, nodes, init).error.None?
    decreases |nodes|
  {
    if nodes != [] {
      var front := nodes[..|nodes| - 1];
      assert forall i :: 0 <= i < |front| ==> front[i] == nodes[i];
      RunSucceeds(ph, randn, layers, meshSize, front, init);
      var o := Run(ph, randn, layers, meshSize, front, init);
      ConfigKeys(ph, randn, layers, meshSize, front, init);
      WeightsShape(nodes[|nodes| - 1], randn, o.next, meshSize);
    }
  }

  /** The set of configured layers never changes. */
  lemma {:induction false} ConfigKeys(ph: Physics, randn: (nat, seq<nat>) -> seq<real>, layers: seq<int>, meshSize: nat,
                                      nodes: seq<UcgNode>, init: Outcome)
    ensures Run(ph, randn, layers, meshSize, nodes, init).configs.Keys == init.configs.Keys
    decreases |nodes|
  {
    if nodes != [] {
      ConfigKeys(ph, randn, layers, meshSize, nodes[..|nodes| - 1], init);
    }
  }

  /** With no intelligence layers, `compile` raises ZeroDivisionError exactly when the nodes hold a product. */
  lemma {:induction false} RunNoLayers(ph: Physics, randn: (nat, seq<nat>) -> seq<real>, meshSize: nat,
                                       nodes: seq<UcgNode>, init: Outcome)
    requires init.error.None?
    ensures Run(ph, randn, [], meshSize, nodes, init).error == if |MatMuls(nodes)| > 0 then Some(ZeroDivisionError) else None
    decreases |nodes|
  {
    if nodes != [] {
      RunNoLayers(ph, randn, meshSize, nodes[..|nodes| - 1], init);
    }
  }

  /** Nodes other than `MatMulNode` (an `AddNode` included) leave the state as it was. */
  lemma {:induction false} RunSkips(ph: Physics, randn: (nat, seq<nat>) -> seq<real>, layers: seq<int>, meshSize: nat,
                                    nodes: seq<UcgNode>, init: Outcome)
    requires MatMuls(nodes) == []
    ensures Run(ph, randn, layers, meshSize, nodes, init) == init
    decreases |nodes|
  {
    if nodes != [] {
      RunSkips(ph, randn, layers, meshSize, nodes[..|nodes| - 1], init);
    }
  }
}
