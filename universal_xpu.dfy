/**
  The universal XPU dispatcher of LightCompiler
  (`lightcompiler/backends/universal_xpu.py`): it sorts the nodes of a
  graph into three buckets, one per backend, and compiles every non-empty
  bucket with its backend.

  The GPU backend is a parameter: `gpu(nodes)` is the kernel list its
  `compile` returns for a bucket.
*/
module UniversalXpu {
  import opened Wrappers
  import opened Numerics
  import opened UnifiedIr
  import opened Photonic20l
  import opened GenericTpuNpu

  /** The keys of the plan `dispatch` builds. */
  predicate IsBucket(b: string)
  {
    b == "photonic" || b == "gpu" || b == "tpu"
  }

  /** The three bucket names are different strings. */
  lemma {:induction false} BucketsDistinct()
    ensures "photonic" != "gpu" && "photonic" != "tpu" && "gpu" != "tpu"
  {
    assert |"photonic"| == 8 && |"gpu"| == 3 && "gpu"[0] == 'g' && "tpu"[0] == 't';
  }

  /** Python truthiness of `target_override`: given, and not the empty string. */
  predicate Overrides(o: Option<string>)
  {
    o.Some? && o.value != ""
  }

  /** `node.metadata.get("priority") == "latency"`. */
  predicate LatencyCritical(node: UcgNode)
    reads node`metadata
  {
    "priority" in node.metadata && node.metadata["priority"] == "latency"
  }

  /**
    The bucket `dispatch` appends a node to: the override when there is
    one; otherwise photonic for a latency-critical `MatMulNode` and gpu for
    every other node.
  */
  function Target(node: UcgNode, o: Option<string>): (r: string)
    reads node`metadata
    ensures Overrides(o) ==> r == o.value
    ensures !Overrides(o) ==> r == "photonic" || r == "gpu"
  {
    if Overrides(o) then o.value
    else if node.kind == MatMul && LatencyCritical(node) then "photonic"
    else "gpu"
  }

  /** The nodes, in their order, whose target is bucket b. */
  function Select(nodes: seq<UcgNode>, o: Option<string>, b: string): (r: seq<UcgNode>)
    reads nodes
    ensures |r| <= |nodes|
  {
    if nodes == [] then []
    else
      var last := nodes[|nodes| - 1];
      Select(nodes[..|nodes| - 1], o, b) + (if Target(last, o) == b then [last] else [])
  }

  /** The three buckets over a node list. */
  function Plan(nodes: seq<UcgNode>, o: Option<string>): (p: map<string, seq<UcgNode>>)
    reads nodes
    ensures forall b :: b in p <==> IsBucket(b)
  {
    map["photonic" := Select(nodes, o, "photonic"), "gpu" := Select(nodes, o, "gpu"), "tpu" := Select(nodes, o, "tpu")]
  }

  /**
    What `dispatch` returns: the plan, or the KeyError `plan[target_override]`
    raises at the first node when the override names no bucket.
  */
  function DispatchSpec(nodes: seq<UcgNode>, o: Option<string>): (r: Result<map<string, seq<UcgNode>>>)
    reads nodes
    ensures r.Failure? ==> r.error == KeyError && nodes != []
    ensures r.Success? ==> forall b :: b in r.value <==> IsBucket(b)
  {
    if Overrides(o) && !IsBucket(o.value) && nodes != [] then Failure(KeyError)
    else Success(Plan(nodes, o))
  }

  /** Bucketing commutes with concatenation, so every bucket keeps the input order. */
  lemma {:induction false} SelectAppend(a: seq<UcgNode>, b: seq<UcgNode>, o: Option<string>, bucket: string)
    ensures Select(a + b, o, bucket) == Select(a, o, bucket) + Select(b, o, bucket)
    decreases |b|
  {
    if b == [] {
      assert a + b == a;
    } else {
      var b' := b[..|b| - 1];
      assert (a + b)[..|a + b| - 1] == a + b';
      assert (a + b)[|a + b| - 1] == b[|b| - 1];
      SelectAppend(a, b', o, bucket);
    }
  }

  /** A node is in bucket b exactly when it is one of the nodes and b is its target. */
  lemma {:induction false} SelectMembers(nodes: seq<UcgNode>, o: Option<string>, b: string)
    ensures forall x :: x in Select(nodes, o, b) <==> x in nodes && Target(x, o) == b
    decreases |nodes|
  {
    if nodes != [] {
      var front := nodes[..|nodes| - 1];
      SelectMembers(front, o, b);
      assert nodes == front + [nodes[|nodes| - 1]];
    }
  }

  /** Every node lands in exactly one of the three buckets, as often as it occurs in the input. */
  lemma {:induction false} SelectPartition(nodes: seq<UcgNode>, o: Option<string>)
    requires !Overrides(o) || IsBucket(o.value)
    ensures multiset(Select(nodes, o, "photonic")) + multiset(Select(nodes, o, "gpu")) + multiset(Select(nodes, o, "tpu"))
      == multiset(nodes)
    decreases |nodes|
  {
    if nodes != [] {
      var front, x := nodes[..|nodes| - 1], nodes[|nodes| - 1];
      SelectPartition(front, o);
      assert multiset(nodes) == multiset(front) + multiset{x} by {
        assert nodes == front + [x];
      }
      SelectLast(nodes, o, "photonic");
      SelectLast(nodes, o, "gpu");
      SelectLast(nodes, o, "tpu");
      TargetIsBucket(x, o);
      Distribute(Target(x, o), x,
        multiset(Select(front, o, "photonic")), multiset(Select(front, o, "gpu")), multiset(Select(front, o, "tpu")),
        multiset(Select(nodes, o, "photonic")), multiset(Select(nodes, o, "gpu")), multiset(Select(nodes, o, "tpu")));
    }
  }

  /** Adding x to the bucket named t, and to no other, adds x once to the union of the three. */
  lemma {:induction false} Distribute<T>(t: string, x: T, p: multiset<T>, g: multiset<T>, u: multiset<T>,
                                         p': multiset<T>, g': multiset<T>, u': multiset<T>)
    requires IsBucket(t)
    requires p' == p + if t == "photonic" then multiset{x} else multiset{}
    requires g' == g + if t == "gpu" then multiset{x} else multiset{}
    requires u' == u + if t == "tpu" then multiset{x} else multiset{}
    ensures p' + g' + u' == p + g + u + multiset{x}
  {
    BucketsDistinct();
  }

  /** Without an override, or with one naming a bucket, every node's target is a bucket. */
  lemma {:induction false} TargetIsBucket(x: UcgNode, o: Option<string>)
    requires !Overrides(o) || IsBucket(o.value)
    ensures IsBucket(Target(x, o))
  {
  }

  /** The last node adds one to its own bucket's multiset and nothing to the others. */
  lemma {:induction false} SelectLast(nodes: seq<UcgNode>, o: Option<string>, b: string)
    requires nodes != []
    ensures var x := nodes[|nodes| - 1];
      multiset(Select(nodes, o, b)) ==
        multiset(Select(nodes[..|nodes| - 1], o, b)) + (if Target(x, o) == b then multiset{x} else multiset{})
  {
  }

  /** One more node joins the end of its target's bucket. */
  lemma {:induction false} PlanNext(nodes: seq<UcgNode>, k: nat, o: Option<string>)
    requires k < |nodes| && IsBucket(Target(nodes[k], o))
    ensures var p := Plan(nodes[..k], o);
      var t := Target(nodes[k], o);
      Plan(nodes[..k + 1], o) == p[t := p[t] + [nodes[k]]]
  {
    assert nodes[..k + 1][..k] == nodes[..k];
    BucketsDistinct();
    var t := Target(nodes[k], o);
    var p, p' := Plan(nodes[..k], o), Plan(nodes[..k + 1], o);
    forall b | IsBucket(b)
      ensures p'[b] == p[t := p[t] + [nodes[k]]][b]
    {
    }
  }

  /** With an override, the override's bucket receives every node and the others none. */
  lemma {:induction false} SelectOverride(nodes: seq<UcgNode>, o: Option<string>, b: string)
    requires Overrides(o)
    ensures Select(nodes, o, b) == if b == o.value then nodes else []
    decreases |nodes|
  {
    if nodes != [] {
      var front := nodes[..|nodes| - 1];
      SelectOverride(front, o, b);
      assert nodes == front + [nodes[|nodes| - 1]];
    }
  }

  /** `dispatch` raises KeyError exactly when a non-empty node list meets an override that names no bucket. */
  lemma {:induction false} DispatchFails(nodes: seq<UcgNode>, o: Option<string>)
    ensures DispatchSpec(nodes, o).Failure? <==> Overrides(o) && !IsBucket(o.value) && |nodes| > 0
    ensures DispatchSpec(nodes, o).Failure? ==> DispatchSpec(nodes, o).error == KeyError
  {
  }

  /** The buckets of a plan hold the input nodes, counted with multiplicity. */
  lemma {:induction false} DispatchPartition(nodes: seq<UcgNode>, o: Option<string>)
    requires DispatchSpec(nodes, o).Success?
    ensures var p := DispatchSpec(nodes, o).value;
      multiset(p["photonic"]) + multiset(p["gpu"]) + multiset(p["tpu"]) == multiset(nodes)
  {
    if Overrides(o) && !IsBucket(o.value) {
      assert nodes == [];
    } else {
      SelectPartition(nodes, o);
    }
  }

  /** With a valid override, all nodes go to that bucket, in order, and the other two stay empty. */
  lemma {:induction false} DispatchOverride(nodes: seq<UcgNode>, o: Option<string>)
    requires Overrides(o) && IsBucket(o.value)
    ensures DispatchSpec(nodes, o).Success?
    ensures forall b :: IsBucket(b) ==> DispatchSpec(nodes, o).value[b] == if b == o.value then nodes else []
  {
    forall b | IsBucket(b)
      ensures DispatchSpec(nodes, o).value[b] == if b == o.value then nodes else []
    {
      SelectOverride(nodes, o, b);
    }
  }

  /**
    Without an override, the photonic bucket holds exactly the
    latency-critical `MatMulNode`s, the gpu bucket every other node, and the
    tpu bucket nothing.
  */
  lemma {:induction false} DispatchDefault(nodes: seq<UcgNode>, o: Option<string>)
    requires !Overrides(o)
    ensures DispatchSpec(nodes, o).Success?
    ensures var p := DispatchSpec(nodes, o).value;
      p["tpu"] == [] &&
      (forall x :: x in p["photonic"] <==> x in nodes && x.kind == MatMul && LatencyCritical(x)) &&
      (forall x :: x in p["gpu"] <==> x in nodes && !(x.kind == MatMul && LatencyCritical(x)))
  {
    SelectMembers(nodes, o, "photonic");
    SelectMembers(nodes, o, "gpu");
    SelectNoTpu(nodes, o);
  }

  lemma {:induction false} SelectNoTpu(nodes: seq<UcgNode>, o: Option<string>)
    requires !Overrides(o)
    ensures Select(nodes, o, "tpu") == []
    decreases |nodes|
  {
    if nodes != [] {
      SelectNoTpu(nodes[..|nodes| - 1], o);
    }
  }

  /** What `compile_all` stores for each backend. */
  datatype Output =
    | Layers(configs: map<int, LayerConfig>)    // the photonic layer configurations
    | Kernels(kernels: seq<string>)             // the GPU kernel list
    | Instructions(instrs: seq<string>)         // the TPU instruction list

  /** The result dict of `compile_all`: an entry for each non-empty bucket only. */
  function Results(plan: map<string, seq<UcgNode>>, configs: map<int, LayerConfig>, kernels: seq<string>,
                   instrs: seq<string>): (m: map<string, Output>)
    requires "photonic" in plan && "gpu" in plan && "tpu" in plan
    ensures forall b :: b in m <==> IsBucket(b) && plan[b] != []
    ensures "photonic" in m ==> m["photonic"] == Layers(configs)
    ensures "gpu" in m ==> m["gpu"] == Kernels(kernels)
    ensures "tpu" in m ==> m["tpu"] == Instructions(instrs)
  {
    var m1: map<string, Output> := if plan["photonic"] != [] then map["photonic" := Layers(configs)] else map[];
    var m2 := if plan["gpu"] != [] then m1["gpu" := Kernels(kernels)] else m1;
    if plan["tpu"] != [] then m2["tpu" := Instructions(instrs)] else m2
  }

  /** Compiling a plan built without an override never produces TPU output. */
  lemma {:induction false} DefaultSkipsTpu(nodes: seq<UcgNode>, o: Option<string>, configs: map<int, LayerConfig>,
                                           kernels: seq<string>, instrs: seq<string>)
    requires !Overrides(o)
    ensures DispatchSpec(nodes, o).Success?
    ensures "tpu" !in Results(DispatchSpec(nodes, o).value, configs, kernels, instrs)
  {
    DispatchDefault(nodes, o);
  }

  /** The photonic stage of `compile_all`: the backend's state after compiling its bucket, if that is non-empty. */
  function PhotonicStage(backend: Photonic20LBackend, nodes: seq<UcgNode>, ph: Physics,
                         randn: (nat, seq<nat>) -> seq<real>): (o: Outcome)
    reads backend, nodes
    ensures nodes == [] ==> o == Outcome(0, backend.layerConfigs, backend.resourceMap, None)
  {
    var init := Outcome(0, backend.layerConfigs, backend.resourceMap, None);
    if nodes == [] then init else Run(ph, randn, backend.intelligenceLayers, backend.meshSize, nodes, init)
  }

  class UniversalXpuDispatcher {
    const photonic: Photonic20LBackend
    const tpu: GenericTpuNpuBackend

    /** `__init__`: a default photonic backend (layers L5 to L15) and a TPU backend with a 128-wide array. */
    constructor ()
      ensures fresh(photonic) && fresh(tpu)
      ensures photonic.intelligenceLayers == Range(5, 16) && photonic.meshSize == 128
      ensures photonic.layerConfigs == EmptyConfigs(Range(5, 16)) && photonic.resourceMap == map[]
      ensures tpu.systolicSize == 128 && tpu.instructions == []
    {
      photonic := new Photonic20LBackend.Default();
      tpu := new GenericTpuNpuBackend(128);
    }

    /** `dispatch`: append every node to the bucket of its target, in order. */
    method Dispatch(nodes: seq<UcgNode>, o: Option<string>) returns (r: Result<map<string, seq<UcgNode>>>)
      ensures r == DispatchSpec(nodes, o)
    {
      var plan: map<string, seq<UcgNode>> := map["photonic" := [], "gpu" := [], "tpu" := []];
      var k := 0;
      while k < |nodes|
        invariant 0 <= k <= |nodes|
        invariant plan == Plan(nodes[..k], o)
        invariant Overrides(o) && k > 0 ==> IsBucket(o.value)
      {
        var target := Target(nodes[k], o);
        if target !in plan {
          return Failure(KeyError);
        }
        PlanNext(nodes, k, o);
        plan := plan[target := plan[target] + [nodes[k]]];
        k := k + 1;
      }
      assert nodes[..k] == nodes;
      r := Success(plan);
    }

    /**
      `compile_all`: compile the photonic, gpu and tpu buckets in this
      order, each only if it is non-empty. A missing bucket raises KeyError
      when it is reached, and an exception of the photonic backend ends the
      call; the backends keep the state they reached.
    */
    method CompileAll(plan: map<string, seq<UcgNode>>, ph: Physics, randn: (nat, seq<nat>) -> seq<real>,
                      gpu: seq<UcgNode> -> seq<string>)
      returns (r: Result<map<string, Output>>)
      requires RandnShaped(randn)
      modifies photonic`layerConfigs, photonic`resourceMap, tpu`instructions
      ensures "photonic" !in plan ==> r == Failure(KeyError) && unchanged(photonic, tpu)
      ensures "photonic" in plan ==>
        var o := old(PhotonicStage(photonic, plan["photonic"], ph, randn));
        photonic.layerConfigs == o.configs && photonic.resourceMap == o.resources &&
        if o.error.Some? then r == Failure(o.error.value) && unchanged(tpu)
        else if "gpu" !in plan || "tpu" !in plan then r == Failure(KeyError) && unchanged(tpu)
        else
          tpu.instructions == old(tpu.instructions) + Instrs(plan["tpu"], tpu.systolicSize) &&
          r == Success(Results(plan, o.configs, gpu(plan["gpu"]), tpu.instructions))
    {
      if "photonic" !in plan {
        return Failure(KeyError);
      }
      var configs := photonic.layerConfigs;
      if plan["photonic"] != [] {
        var c := photonic.Compile(plan["photonic"], ph, randn);
        if c.Failure? {
          return Failure(c.error);
        }
        configs := c.value;
      }
      if "gpu" !in plan {
        return Failure(KeyError);
      }
      var kernels: seq<string> := [];
      if plan["gpu"] != [] {
        kernels := gpu(plan["gpu"]);
      }
      if "tpu" !in plan {
        return Failure(KeyError);
      }
      var instrs := tpu.instructions;
      if plan["tpu"] != [] {
        instrs := tpu.Compile(plan["tpu"]);
      }
      r := Success(Results(plan, configs, kernels, instrs));
    }
  }
}
