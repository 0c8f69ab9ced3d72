/**
  The Unified Compute Graph of LightCompiler (`lightcompiler/unified_ir.py`):
  nodes that list their inputs and their consumers, the shape each node
  constructor infers, the graph container and its depth-first ordering.

  Nodes are heap objects, as in the source: a node is shared by every list
  that holds it, and `add_input` updates two nodes at once. The order
  `get_topo_sort` produces is specified by reachability along consumer
  edges inside a set `U` of nodes closed under consumers (every graph the
  program builds has one: the nodes it allocated).
*/
module UnifiedIr {
  import opened Wrappers
  import opened Numerics

  /** A numpy array: its shape and its entries in row-major (flattened) order. */
  datatype Tensor = Tensor(shape: seq<nat>, flat: seq<Complex>)

  /** The class a node was built as; the `isinstance` tests of the backends read it. */
  datatype Kind =
    | Plain                   // UCGNode
    | Input                   // InputNode
    | Constant(value: Tensor) // ConstantNode
    | Op(opType: string)      // OpNode
    | MatMul                  // MatMulNode, op_type "matmul"
    | AddOp                   // AddNode, op_type "add"

  /** The `op_type` attribute, which only operation nodes carry. */
  function OpType(k: Kind): (t: Option<string>)
    ensures t.Some? <==> (k.Op? || k.MatMul? || k.AddOp?)
  {
    match k
    case Op(t) => Some(t)
    case MatMul => Some("matmul")
    case AddOp => Some("add")
    case _ => None
  }

  /** The `MatMulNode`s of a list, in order: what every backend's `isinstance` test picks out. */
  function MatMuls(nodes: seq<UcgNode>): (r: seq<UcgNode>)
    ensures |r| <= |nodes|
    ensures forall i :: 0 <= i < |r| ==> r[i].kind == MatMul
  {
    if nodes == [] then []
    else MatMuls(nodes[..|nodes| - 1]) + (if nodes[|nodes| - 1].kind == MatMul then [nodes[|nodes| - 1]] else [])
  }

  /** Picking out the `MatMulNode`s commutes with concatenation, so it keeps their order. */
  lemma {:induction false} MatMulsAppend(a: seq<UcgNode>, b: seq<UcgNode>)
    ensures MatMuls(a + b) == MatMuls(a) + MatMuls(b)
    decreases |b|
  {
    if b == [] {
      assert a + b == a;
    } else {
      var b' := b[..|b| - 1];
      assert (a + b)[..|a + b| - 1] == a + b';
      assert (a + b)[|a + b| - 1] == b[|b| - 1];
      MatMulsAppend(a, b');
    }
  }

  /** Python truthiness of a shape attribute: set, and a non-empty tuple. */
  predicate HasDims(s: Option<seq<nat>>)
  {
    s.Some? && |s.value| > 0
  }

  class UcgNode {
    const name: string
    const kind: Kind
    var inputs: seq<UcgNode>
    var consumers: seq<UcgNode>
    var shape: Option<seq<nat>>
    var metadata: map<string, string>

    /** `UCGNode.__init__`, followed by the shape a subclass sets first. */
    constructor (name: string, kind: Kind, shape: Option<seq<nat>>)
      ensures this.name == name && this.kind == kind && this.shape == shape
      ensures inputs == [] && consumers == [] && metadata == map[]
    {
      this.name := name;
      this.kind := kind;
      this.shape := shape;
      inputs := [];
      consumers := [];
      metadata := map[];
    }

    /** `InputNode(name, shape)`. */
    constructor InputNode(name: string, shape: seq<nat>)
      ensures this.name == name && kind == Input && this.shape == Some(shape)
      ensures inputs == [] && consumers == [] && metadata == map[]
    {
      this.name := name;
      kind := Input;
      this.shape := Some(shape);
      inputs := [];
      consumers := [];
      metadata := map[];
    }

    /** `ConstantNode(name, value)`: the shape is the array's. */
    constructor ConstantNode(name: string, value: Tensor)
      ensures this.name == name && kind == Constant(value) && shape == Some(value.shape)
      ensures inputs == [] && consumers == [] && metadata == map[]
    {
      this.name := name;
      kind := Constant(value);
      shape := Some(value.shape);
      inputs := [];
      consumers := [];
      metadata := map[];
    }

    /**
      `add_input`: this node takes `node` as its next input and `node` takes
      this one as its next consumer; when `U` holds both, the two views of
      every edge stay in step.
    */
    method AddInput(node: UcgNode, ghost U: set<UcgNode>)
      requires this in U && node in U && Symmetric(U)
      modifies this`inputs, node`consumers
      ensures inputs == old(inputs) + [node]
      ensures node.consumers == old(node.consumers) + [this]
      ensures Symmetric(U)
    {
      inputs := inputs + [node];
      node.consumers := node.consumers + [this];
      forall a, b | a in U && b in U
        ensures EdgeCount(a, b)
      {
        assert old(EdgeCount(a, b));
        assert multiset(a.inputs)[b] == old(multiset(a.inputs)[b]) + (if a == this && b == node then 1 else 0);
        assert multiset(b.consumers)[a] == old(multiset(b.consumers)[a]) + (if a == this && b == node then 1 else 0);
      }
    }
  }

  /** Each node lists another as an input exactly as often as the other lists it as a consumer. */
  ghost predicate Symmetric(U: set<UcgNode>)
    reads U`inputs, U`consumers
  {
    forall a, b :: a in U && b in U ==> EdgeCount(a, b)
  }

  /** `a` lists `b` as an input as often as `b` lists `a` as a consumer. */
  predicate EdgeCount(a: UcgNode, b: UcgNode)
    reads a`inputs, b`consumers
  {
    multiset(a.inputs)[b] == multiset(b.consumers)[a]
  }

  /** A node just built, with no edge yet, keeps a symmetric set symmetric. */
  lemma {:induction false} SymmetricAddIsolated(U: set<UcgNode>, n: UcgNode)
    requires Symmetric(U) && n.inputs == [] && n.consumers == []
    requires forall a :: a in U ==> n !in a.inputs && n !in a.consumers
    ensures Symmetric(U + {n})
  {
    forall a, b | a in U + {n} && b in U + {n}
      ensures EdgeCount(a, b)
    {
      if a == n || b == n {
        assert multiset(a.inputs)[b] == 0 && multiset(b.consumers)[a] == 0;
      }
    }
  }

  /** The two `add_input` calls of a binary operation's constructor, on a node just built. */
  method Link(node: UcgNode, a: UcgNode, b: UcgNode, ghost U: set<UcgNode>)
    requires a in U && b in U && Symmetric(U) && node !in U
    requires node.inputs == [] && node.consumers == []
    requires forall x :: x in U ==> node !in x.inputs && node !in x.consumers
    modifies node`inputs, a`consumers, b`consumers
    ensures node.inputs == [a, b] && node.consumers == []
    ensures a != b ==> a.consumers == old(a.consumers) + [node] && b.consumers == old(b.consumers) + [node]
    ensures a == b ==> a.consumers == old(a.consumers) + [node, node]
    ensures Symmetric(U + {node})
  {
    ghost var V := U + {node};
    ghost var bc := b.consumers;
    SymmetricAddIsolated(U, node);
    node.AddInput(a, V);
    assert a != b ==> b.consumers == bc;
    node.AddInput(b, V);
  }

  // ---------------------------------------------------------------------
  // Shapes of operation nodes

  /**
    `MatMulNode`'s shape: `(a.shape[0], b.shape[1])` when both input shapes
    are truthy, otherwise no shape. Subscripting a one-dimensional `b`
    raises IndexError; the inner dimensions are not compared.
  */
  function MatMulShape(a: Option<seq<nat>>, b: Option<seq<nat>>): (r: Result<Option<seq<nat>>>)
    ensures r.Failure? ==> r.error == IndexError
    ensures r.Success? && r.value.Some? ==> HasDims(a) && HasDims(b) && |b.value| >= 2 && r.value.value == [a.value[0], b.value[1]]
  {
    if HasDims(a) && HasDims(b) then
      if |b.value| >= 2 then Success(Some([a.value[0], b.value[1]])) else Failure(IndexError)
    else Success(None)
  }

  /** The shape a matrix product of an (M, N) and an (N', K) operand gets: (M, K), with N and N' unchecked. */
  lemma {:induction false} MatMulShapeOfMatrices(m: nat, n: nat, n': nat, k: nat)
    ensures MatMulShape(Some([m, n]), Some([n', k])) == Success(Some([m, k]))
  {
    assert HasDims(Some([m, n])) && HasDims(Some([n', k]));
  }

  /** The cases of MatMulShape: no shape exactly when an operand's shape is unset or empty, an error exactly for a one-dimensional second operand. */
  lemma {:induction false} MatMulShapeCases(a: Option<seq<nat>>, b: Option<seq<nat>>)
    ensures MatMulShape(a, b) == Success(None) <==> !HasDims(a) || !HasDims(b)
    ensures MatMulShape(a, b).Failure? <==> HasDims(a) && HasDims(b) && |b.value| == 1
    ensures MatMulShape(a, b).Success? && MatMulShape(a, b).value.Some? ==>
      MatMulShape(a, b).value.value == [a.value[0], b.value[1]]
  {
  }

  /**
    `MatMulNode(name, a, b)`: the node takes a then b as inputs, then its
    shape is inferred. When the shape subscript raises, the node is already
    a consumer of both operands; `built` is that node in either case.
  */
  method NewMatMul(name: string, a: UcgNode, b: UcgNode, ghost U: set<UcgNode>)
    returns (r: Result<UcgNode>, ghost built: UcgNode)
    requires a in U && b in U && Symmetric(U)
    modifies a`consumers, b`consumers
    ensures fresh(built) && built.name == name && built.kind == MatMul && built.metadata == map[]
    ensures built.inputs == [a, b] && built.consumers == []
    ensures a != b ==> a.consumers == old(a.consumers) + [built] && b.consumers == old(b.consumers) + [built]
    ensures a == b ==> a.consumers == old(a.consumers) + [built, built]
    ensures var s := MatMulShape(a.shape, b.shape);
      (s.Success? ==> r == Success(built) && built.shape == s.value) && (s.Failure? ==> r == Failure(s.error))
    ensures Symmetric(U + {built})
  {
    var node := new UcgNode(name, MatMul, None);
    built := node;
    Link(node, a, b, U);
    var s := MatMulShape(a.shape, b.shape);
    if s.Success? {
      node.shape := s.value;
      r := Success(node);
    } else {
      r := Failure(s.error);
    }
  }

  /** `AddNode(name, a, b)`: inputs a then b, and the shape of a. */
  method NewAdd(name: string, a: UcgNode, b: UcgNode, ghost U: set<UcgNode>)
    returns (node: UcgNode)
    requires a in U && b in U && Symmetric(U)
    modifies a`consumers, b`consumers
    ensures fresh(node) && node.name == name && node.kind == AddOp && node.metadata == map[]
    ensures node.inputs == [a, b] && node.consumers == [] && node.shape == a.shape
    ensures a != b ==> a.consumers == old(a.consumers) + [node] && b.consumers == old(b.consumers) + [node]
    ensures a == b ==> a.consumers == old(a.consumers) + [node, node]
    ensures Symmetric(U + {node})
  {
    node := new UcgNode(name, AddOp, None);
    Link(node, a, b, U);
    node.shape := a.shape;
  }

  // ---------------------------------------------------------------------
  // Reachability along consumer edges

  /** Every consumer of a node of `U` is in `U`. */
  ghost predicate Closed(U: set<UcgNode>)
    reads U`consumers
  {
    forall x, c :: x in U && c in x.consumers ==> c in U
  }

  /** Step `i` of `p` follows a consumer edge. */
  predicate Linked(p: seq<UcgNode>, i: nat)
    requires i + 1 < |p|
    reads {p[i]}`consumers
  {
    p[i + 1] in p[i].consumers
  }

  /** A non-empty walk through `U` along consumer edges. */
  ghost predicate IsPath(U: set<UcgNode>, older p: seq<UcgNode>)
    reads U`consumers
  {
    |p| > 0 && (forall i :: 0 <= i < |p| ==> p[i] in U) &&
    forall i :: 0 <= i < |p| - 1 ==> Linked(p, i)
  }

  /** `b` is `a` or is reached from `a` by following consumers inside `U`. */
  ghost predicate Reaches(U: set<UcgNode>, a: UcgNode, b: UcgNode)
    reads U`consumers
  {
    exists p :: IsPath(U, p) && p[0] == a && p[|p| - 1] == b
  }

  lemma {:induction false} ReachesRefl(U: set<UcgNode>, a: UcgNode)
    requires a in U
    ensures Reaches(U, a, a)
  {
    assert IsPath(U, [a]);
  }

  /** A walk to `b` extends by one consumer of `b`. */
  lemma {:induction false} ReachesEdge(U: set<UcgNode>, a: UcgNode, b: UcgNode, c: UcgNode)
    requires Reaches(U, a, b) && b in U && c in b.consumers && c in U
    ensures Reaches(U, a, c)
  {
    var p :| IsPath(U, p) && p[0] == a && p[|p| - 1] == b;
    var q := p + [c];
    forall i | 0 <= i < |q| - 1 ensures Linked(q, i) {
      if i < |p| - 1 { assert Linked(p, i); }
    }
    assert IsPath(U, q);
  }

  /** A walk from a consumer of `a` extends back to `a`. */
  lemma {:induction false} ReachesPrepend(U: set<UcgNode>, a: UcgNode, b: UcgNode, c: UcgNode)
    requires a in U && b in a.consumers && Reaches(U, b, c)
    ensures Reaches(U, a, c)
  {
    var p :| IsPath(U, p) && p[0] == b && p[|p| - 1] == c;
    var q := [a] + p;
    forall i | 0 <= i < |q| - 1 ensures Linked(q, i) {
      if i > 0 { assert Linked(p, i - 1); }
    }
    assert IsPath(U, q);
  }

  /** A set holding every consumer of its members holds everything a member reaches. */
  lemma {:induction false} ReachInside(U: set<UcgNode>, V: set<UcgNode>, a: UcgNode, b: UcgNode)
    requires V <= U && a in V && Reaches(U, a, b)
    requires forall x, c :: x in V && c in x.consumers ==> c in V
    ensures b in V
  {
    var p :| IsPath(U, p) && p[0] == a && p[|p| - 1] == b;
    var k := 0;
    while k < |p| - 1
      invariant 0 <= k < |p| && p[k] in V
    {
      assert Linked(p, k);
      k := k + 1;
    }
  }

  /** A node without consumers reaches only itself. */
  lemma {:induction false} ReachesSink(U: set<UcgNode>, a: UcgNode, b: UcgNode)
    requires a in U && a.consumers == [] && Reaches(U, a, b)
    ensures b == a
  {
    var p :| IsPath(U, p) && p[0] == a && p[|p| - 1] == b;
    assert |p| == 1 || Linked(p, 0);
  }

  // ---------------------------------------------------------------------
  // Depth-first ordering

  /** The members of a list. */
  function Elems(s: seq<UcgNode>): set<UcgNode>
  {
    set x | x in s
  }

  predicate NoDuplicates(s: seq<UcgNode>)
  {
    forall x :: x in s ==> multiset(s)[x] == 1
  }

  /** Every consumer of a member of `s` is in `V`. */
  ghost predicate Finished(U: set<UcgNode>, s: seq<UcgNode>, V: set<UcgNode>)
    reads U`consumers
  {
    forall x, c :: x in s && x in U && c in x.consumers ==> c in V
  }

  /**
    Where the consumers of each member of `s` sit: later in `s`, in `rest`,
    or on a walk back to that member (a cycle).
  */
  ghost predicate PlacedIn(U: set<UcgNode>, s: seq<UcgNode>, rest: seq<UcgNode>)
    reads U`consumers
  {
    forall i :: 0 <= i < |s| && s[i] in U ==>
      forall c :: c in s[i].consumers ==> c in s[i + 1..] || c in rest || Reaches(U, c, s[i])
  }

  /** Placement survives putting a block placed in front of the rest in front of a list placed in it. */
  lemma {:induction false} PlacedPrepend(U: set<UcgNode>, a: seq<UcgNode>, b: seq<UcgNode>, rest: seq<UcgNode>)
    requires PlacedIn(U, a, b + rest) && PlacedIn(U, b, rest)
    ensures PlacedIn(U, a + b, rest)
  {
    var s := a + b;
    forall i, c | 0 <= i < |s| && s[i] in U && c in s[i].consumers
      ensures c in s[i + 1..] || c in rest || Reaches(U, c, s[i])
    {
      if i < |a| {
        assert s[i] == a[i];
        assert s[i + 1..] == a[i + 1..] + b;
      } else {
        assert s[i] == b[i - |a|];
        assert s[i + 1..] == b[i - |a| + 1..];
      }
    }
  }

  lemma {:induction false} NoDuplicatesAppend(a: seq<UcgNode>, b: seq<UcgNode>)
    requires NoDuplicates(a) && NoDuplicates(b) && Elems(a) !! Elems(b)
    ensures NoDuplicates(a + b)
  {
    assert multiset(a + b) == multiset(a) + multiset(b);
    forall x | x in a + b ensures multiset(a + b)[x] == 1 {
      if x in a {
        assert x in Elems(a) && x !in Elems(b);
        assert x !in multiset(b);
      } else {
        assert x in Elems(b) && x !in Elems(a);
        assert x !in multiset(a);
      }
    }
  }

  /** Removing one more member of `U` shortens what is left of it. */
  lemma {:induction false} LeftShrinks(U: set<UcgNode>, A: set<UcgNode>, B: set<UcgNode>, n: UcgNode)
    requires A <= B <= U && n in B && n !in A
    ensures |U - B| < |U - A|
  {
    assert U - B <= (U - A) - {n};
    SubsetCard(U - B, (U - A) - {n});
  }

  lemma {:induction false} SubsetCard(A: set<UcgNode>, B: set<UcgNode>)
    requires A <= B
    ensures |A| <= |B|
    decreases |A|
  {
    if A != {} {
      var x :| x in A;
      SubsetCard(A - {x}, B - {x});
      assert |A - {x}| == |A| - 1 && |B - {x}| == |B| - 1;
    }
  }

  /**
    What holds while `visit(n)` works through the consumers of `n`, having
    started from `visited0` and `stack0`: the stack has `acc` in front of
    `stack0`, the visited set has `n` and `acc` beside `visited0`, and each
    node of `acc` is new, reached from `n`, finished and placed.
  */
  ghost predicate Progress(U: set<UcgNode>, n: UcgNode, visited0: set<UcgNode>, stack0: seq<UcgNode>,
                           visited: set<UcgNode>, stack: seq<UcgNode>, acc: seq<UcgNode>)
    reads U`consumers
  {
    stack == acc + stack0 &&
    visited == visited0 + {n} + Elems(acc) && visited <= U &&
    NoDuplicates(acc) && Elems(acc) !! visited0 + {n} &&
    (forall x :: x in acc ==> Reaches(U, n, x)) &&
    Finished(U, acc, visited) &&
    PlacedIn(U, acc, stack0)
  }

  /**
    `visit(n)` of `get_topo_sort`: if `n` is new, mark it, visit its
    consumers in order, then put `n` in front of the stack. `added` is what
    the call puts in front of the stack. The nodes visited but not on the
    stack are those whose visits are still open, and each reaches `n`.
  */
  method Visit(n: UcgNode, ghost U: set<UcgNode>, visited: set<UcgNode>, stack: seq<UcgNode>)
    returns (visited': set<UcgNode>, stack': seq<UcgNode>, ghost added: seq<UcgNode>)
    requires Closed(U) && n in U && visited <= U
    requires forall v :: v in visited ==> v in stack || Reaches(U, v, n)
    ensures VisitResult(U, n, visited, stack, visited', stack', added)
    decreases |U - visited|, 0
  {
    if n in visited {
      VisitSeen(U, n, visited, stack);
      return visited, stack, [];
    }
    visited' := visited + {n};
    stack' := stack;
    ghost var acc: seq<UcgNode> := [];
    ProgressStart(U, n, visited, stack);
    var k := 0;
    while k < |n.consumers|
      invariant 0 <= k <= |n.consumers|
      invariant Progress(U, n, visited, stack, visited', stack', acc)
      invariant forall j :: 0 <= j < k ==> n.consumers[j] in visited'
    {
      ProgressShrinks(U, n, visited, stack, visited', stack', acc);
      ghost var before := visited';
      visited', stack', acc := VisitConsumer(n, n.consumers[k], U, visited, stack, visited', stack', acc);
      CoveredStep(n.consumers, k, before, visited');
      k := k + 1;
    }
    VisitDone(U, n, visited, stack, visited', stack', acc);
    added := [n] + acc;
    stack' := [n] + stack';
  }

  /**
    What `visit(n)` does, started from `visited` and `stack`: it puts
    `added` in front of the stack and marks exactly its nodes; `added` is
    empty if `n` was visited before and otherwise starts with `n`; it holds
    new nodes only, once each, all reached from `n`, all finished, and each
    placed before its consumers except along a cycle.
  */
  ghost predicate VisitResult(U: set<UcgNode>, n: UcgNode, visited: set<UcgNode>, stack: seq<UcgNode>,
                              visited': set<UcgNode>, stack': seq<UcgNode>, added: seq<UcgNode>)
    reads U`consumers
  {
    stack' == added + stack &&
    visited' == visited + Elems(added) && visited' <= U && n in visited' &&
    (n in visited ==> added == []) &&
    (n !in visited ==> added != [] && added[0] == n) &&
    NoDuplicates(added) && Elems(added) !! visited &&
    (forall x :: x in added ==> Reaches(U, n, x)) &&
    Finished(U, added, visited') &&
    PlacedIn(U, added, stack)
  }

  lemma {:induction false} VisitSeen(U: set<UcgNode>, n: UcgNode, visited: set<UcgNode>, stack: seq<UcgNode>)
    requires n in visited && visited <= U
    ensures VisitResult(U, n, visited, stack, visited, stack, [])
  {
    assert Elems([]) == {};
  }

  /** A loop that puts the next element of `cs` into a growing set keeps every element before it there. */
  lemma {:induction false} CoveredStep<T>(cs: seq<T>, k: nat, V: set<T>, V': set<T>)
    requires k < |cs| && V <= V' && cs[k] in V'
    requires forall j :: 0 <= j < k ==> cs[j] in V
    ensures forall j :: 0 <= j < k + 1 ==> cs[j] in V'
  {
  }

  lemma {:induction false} ProgressStart(U: set<UcgNode>, n: UcgNode, visited: set<UcgNode>, stack: seq<UcgNode>)
    requires n in U && visited <= U
    ensures Progress(U, n, visited, stack, visited + {n}, stack, [])
  {
    assert Elems([]) == {};
  }

  /** Each pass of the consumer loop leaves less of `U` unvisited than `visit(n)` started with. */
  lemma {:induction false} ProgressShrinks(U: set<UcgNode>, n: UcgNode, visited0: set<UcgNode>, stack0: seq<UcgNode>,
                                           visited: set<UcgNode>, stack: seq<UcgNode>, acc: seq<UcgNode>)
    requires n !in visited0 && Progress(U, n, visited0, stack0, visited, stack, acc)
    ensures |U - visited| < |U - visited0|
  {
    LeftShrinks(U, visited0, visited, n);
  }

  /** One pass of the consumer loop of `visit(n)`: `visit(c)` for the next consumer `c`. */
  method VisitConsumer(n: UcgNode, c: UcgNode, ghost U: set<UcgNode>, ghost visited0: set<UcgNode>, ghost stack0: seq<UcgNode>,
                       visited: set<UcgNode>, stack: seq<UcgNode>, ghost acc: seq<UcgNode>)
    returns (visited': set<UcgNode>, stack': seq<UcgNode>, ghost acc': seq<UcgNode>)
    requires Closed(U) && n in U && c in n.consumers
    requires forall v :: v in visited0 ==> v in stack0 || Reaches(U, v, n)
    requires Progress(U, n, visited0, stack0, visited, stack, acc)
    ensures Progress(U, n, visited0, stack0, visited', stack', acc')
    ensures visited <= visited' && c in visited'
    decreases |U - visited|, 1
  {
    ConsumerEntry(U, n, c, visited0, stack0, visited, stack, acc);
    ghost var a;
    visited', stack', a := Visit(c, U, visited, stack);
    acc' := a + acc;
    ProgressStep(U, n, c, visited0, stack0, visited, stack, acc, visited', stack', a);
  }

  /** Entering `visit(c)` for a consumer `c` of `n`: every open visit reaches `c`. */
  lemma {:induction false} ConsumerEntry(U: set<UcgNode>, n: UcgNode, c: UcgNode, visited0: set<UcgNode>, stack0: seq<UcgNode>,
                                         visited: set<UcgNode>, stack: seq<UcgNode>, acc: seq<UcgNode>)
    requires Closed(U) && n in U && c in n.consumers
    requires forall v :: v in visited0 ==> v in stack0 || Reaches(U, v, n)
    requires Progress(U, n, visited0, stack0, visited, stack, acc)
    ensures c in U && visited <= U
    ensures forall v :: v in visited ==> v in stack || Reaches(U, v, c)
  {
    forall v | v in visited && v !in stack
      ensures Reaches(U, v, c)
    {
      if v == n {
        ReachesRefl(U, n);
      }
      ReachesEdge(U, v, n, c);
    }
  }

  /** After `visit(c)` added `a` in front of the stack, the loop state holds again with `a + acc`. */
  lemma {:induction false} ProgressStep(U: set<UcgNode>, n: UcgNode, c: UcgNode, visited0: set<UcgNode>, stack0: seq<UcgNode>,
                                        visited: set<UcgNode>, stack: seq<UcgNode>, acc: seq<UcgNode>,
                                        visited': set<UcgNode>, stack': seq<UcgNode>, a: seq<UcgNode>)
    requires n in U && c in n.consumers
    requires Progress(U, n, visited0, stack0, visited, stack, acc)
    requires VisitResult(U, c, visited, stack, visited', stack', a)
    ensures Progress(U, n, visited0, stack0, visited', stack', a + acc)
    ensures visited <= visited'
  {
    forall x | x in a ensures Reaches(U, n, x) {
      ReachesPrepend(U, n, c, x);
    }
    NoDuplicatesAppend(a, acc);
    PlacedPrepend(U, a, acc, stack0);
    assert a + stack == (a + acc) + stack0;
  }

  /** Closing `visit(n)`: `n` in front of the consumers' blocks is what the call added. */
  lemma {:induction false} VisitDone(U: set<UcgNode>, n: UcgNode, visited0: set<UcgNode>, stack0: seq<UcgNode>,
                                     visited: set<UcgNode>, stack: seq<UcgNode>, acc: seq<UcgNode>)
    requires n in U && n !in visited0
    requires forall v :: v in visited0 ==> v in stack0 || Reaches(U, v, n)
    requires Progress(U, n, visited0, stack0, visited, stack, acc)
    requires forall j :: 0 <= j < |n.consumers| ==> n.consumers[j] in visited
    ensures VisitResult(U, n, visited0, stack0, visited, [n] + stack, [n] + acc)
  {
    ReachesRefl(U, n);
    NoDuplicatesAppend([n], acc);
    PlacedHead(U, n, acc, stack0, visited0);
    PlacedPrepend(U, [n], acc, stack0);
  }

  /** The node a visit puts in front of its consumers' blocks is placed before them. */
  lemma {:induction false} PlacedHead(U: set<UcgNode>, n: UcgNode, acc: seq<UcgNode>, stack: seq<UcgNode>, visited: set<UcgNode>)
    requires n in U
    requires forall c :: c in n.consumers ==> c in visited + {n} + Elems(acc)
    requires forall v :: v in visited ==> v in stack || Reaches(U, v, n)
    ensures PlacedIn(U, [n], acc + stack)
  {
    forall c | c in n.consumers
      ensures c in [n][1..] || c in acc + stack || Reaches(U, c, n)
    {
      if c == n { ReachesRefl(U, n); }
    }
  }

  /** `stack[::-1]`. */
  function Reverse(s: seq<UcgNode>): (r: seq<UcgNode>)
    ensures |r| == |s| && forall i :: 0 <= i < |s| ==> r[i] == s[|s| - 1 - i]
  {
    if s == [] then [] else Reverse(s[1..]) + [s[0]]
  }

  /** `n` is a member of the graph without inputs, where `get_topo_sort` starts. */
  predicate IsRoot(nodes: seq<UcgNode>, n: UcgNode)
    reads n`inputs
  {
    n in nodes && n.inputs == []
  }

  /** `x` is reached from a node of `nodes` without inputs. */
  ghost predicate FromRoot(U: set<UcgNode>, nodes: seq<UcgNode>, x: UcgNode)
    reads U`inputs, U`consumers
  {
    exists r :: r in U && IsRoot(nodes, r) && Reaches(U, r, x)
  }

  /**
    The state of the root loop of `get_topo_sort` after the first `k`
    members of `nodes`: the visited set is what the stack holds, once each;
    all of it is reached from a root and finished; every root so far is
    visited; and the stack is placed.
  */
  ghost predicate RootsDone(U: set<UcgNode>, nodes: seq<UcgNode>, k: nat, visited: set<UcgNode>, stack: seq<UcgNode>)
    reads U`inputs, U`consumers
  {
    k <= |nodes| && (forall i :: 0 <= i < |nodes| ==> nodes[i] in U) &&
    visited == Elems(stack) && visited <= U && NoDuplicates(stack) &&
    Finished(U, stack, visited) &&
    (forall x :: x in stack ==> FromRoot(U, nodes, x)) &&
    (forall j :: 0 <= j < k && nodes[j].inputs == [] ==> nodes[j] in visited) &&
    PlacedIn(U, stack, [])
  }

  lemma {:induction false} RootsStart(U: set<UcgNode>, nodes: seq<UcgNode>)
    requires forall i :: 0 <= i < |nodes| ==> nodes[i] in U
    ensures RootsDone(U, nodes, 0, {}, [])
  {
    assert Elems([]) == {};
  }

  /** Before `visit` on a root, every visited node is on the stack. */
  lemma {:induction false} RootEntry(U: set<UcgNode>, nodes: seq<UcgNode>, k: nat, visited: set<UcgNode>, stack: seq<UcgNode>)
    requires k < |nodes| && RootsDone(U, nodes, k, visited, stack)
    ensures nodes[k] in U && visited <= U
    ensures forall v :: v in visited ==> v in stack || Reaches(U, v, nodes[k])
  {
  }

  lemma {:induction false} RootStep(U: set<UcgNode>, nodes: seq<UcgNode>, k: nat, visited: set<UcgNode>, stack: seq<UcgNode>,
                                    visited': set<UcgNode>, stack': seq<UcgNode>, added: seq<UcgNode>)
    requires k < |nodes| && RootsDone(U, nodes, k, visited, stack) && nodes[k].inputs == []
    requires VisitResult(U, nodes[k], visited, stack, visited', stack', added)
    ensures RootsDone(U, nodes, k + 1, visited', stack')
  {
    var n := nodes[k];
    forall x | x in added ensures FromRoot(U, nodes, x) {
      assert IsRoot(nodes, n) && Reaches(U, n, x);
    }
    NoDuplicatesAppend(added, stack);
    PlacedPrepend(U, added, stack, []);
    assert added + stack + [] == added + stack;
  }

  lemma {:induction false} RootSkip(U: set<UcgNode>, nodes: seq<UcgNode>, k: nat, visited: set<UcgNode>, stack: seq<UcgNode>)
    requires k < |nodes| && RootsDone(U, nodes, k, visited, stack) && nodes[k].inputs != []
    ensures RootsDone(U, nodes, k + 1, visited, stack)
  {
  }

  /** Once every root is visited, the stack holds exactly the nodes reached from a root, once each. */
  lemma {:induction false} RootsEnd(U: set<UcgNode>, nodes: seq<UcgNode>, visited: set<UcgNode>, stack: seq<UcgNode>)
    requires RootsDone(U, nodes, |nodes|, visited, stack)
    ensures forall x :: multiset(stack)[x] == if FromRoot(U, nodes, x) then 1 else 0
    ensures PlacedIn(U, stack, [])
  {
    forall x ensures multiset(stack)[x] == if FromRoot(U, nodes, x) then 1 else 0 {
      if FromRoot(U, nodes, x) {
        var r :| r in U && IsRoot(nodes, r) && Reaches(U, r, x);
        ReachInside(U, visited, r, x);
      }
    }
  }

  class ComputeGraph {
    var nodes: seq<UcgNode>

    constructor ()
      ensures nodes == []
    {
      nodes := [];
    }

    /** `add_node`: append the node and hand it back. */
    method AddNode(node: UcgNode) returns (r: UcgNode)
      modifies this`nodes
      ensures nodes == old(nodes) + [node] && r == node
    {
      nodes := nodes + [node];
      r := node;
    }

    /**
      The stack `get_topo_sort` builds before its final reversal: every node
      reached from a node without inputs, once each, and each node before
      its consumers except along a cycle. This is the forward order the
      comment on the reversal asks for.
    */
    method ForwardOrder(ghost U: set<UcgNode>) returns (stack: seq<UcgNode>)
      requires Closed(U) && forall i :: 0 <= i < |nodes| ==> nodes[i] in U
      ensures forall x :: multiset(stack)[x] == if FromRoot(U, nodes, x) then 1 else 0
      ensures PlacedIn(U, stack, [])
    {
      var visited: set<UcgNode> := {};
      stack := [];
      RootsStart(U, nodes);
      var k := 0;
      while k < |nodes|
        invariant 0 <= k <= |nodes|
        invariant RootsDone(U, nodes, k, visited, stack)
      {
        var n := nodes[k];
        if n.inputs == [] {
          RootEntry(U, nodes, k, visited, stack);
          ghost var added;
          var visited', stack';
          visited', stack', added := Visit(n, U, visited, stack);
          RootStep(U, nodes, k, visited, stack, visited', stack', added);
          visited, stack := visited', stack';
        } else {
          RootSkip(U, nodes, k, visited, stack);
        }
        k := k + 1;
      }
      RootsEnd(U, nodes, visited, stack);
    }

    /**
      `get_topo_sort`: every node reached from a node without inputs, once
      each, with every consumer of a node ahead of it unless the two lie on a
      cycle. The comment of the source promises the forward order instead.
    */
    method TopoSort(ghost U: set<UcgNode>) returns (order: seq<UcgNode>)
      requires Closed(U) && forall i :: 0 <= i < |nodes| ==> nodes[i] in U
      ensures forall x :: multiset(order)[x] == if FromRoot(U, nodes, x) then 1 else 0
      ensures ConsumersFirst(U, order)
    {
      var stack := ForwardOrder(U);
      order := Reverse(stack);
      ReverseMultiset(stack);
      ReversePlaced(U, stack);
    }
  }

  /** Every consumer of a member of `order` comes before it, unless it reaches that member back. */
  ghost predicate ConsumersFirst(U: set<UcgNode>, order: seq<UcgNode>)
    reads U`consumers
  {
    forall i :: 0 <= i < |order| && order[i] in U ==>
      forall c :: c in order[i].consumers ==> c in order[..i] || Reaches(U, c, order[i])
  }

  lemma {:induction false} ReverseMultiset(s: seq<UcgNode>)
    ensures multiset(Reverse(s)) == multiset(s)
    decreases |s|
  {
    if s != [] {
      ReverseMultiset(s[1..]);
      assert s == [s[0]] + s[1..];
    }
  }

  lemma {:induction false} ReversePlaced(U: set<UcgNode>, s: seq<UcgNode>)
    requires PlacedIn(U, s, [])
    ensures ConsumersFirst(U, Reverse(s))
  {
    var r := Reverse(s);
    forall i, c | 0 <= i < |r| && r[i] in U && c in r[i].consumers
      ensures c in r[..i] || Reaches(U, c, r[i])
    {
      var j := |s| - 1 - i;
      assert r[i] == s[j];
      if c in s[j + 1..] {
        var m :| j + 1 <= m < |s| && s[m] == c;
        assert r[|s| - 1 - m] == c;
        assert c in r[..i];
      }
    }
  }

  /** No consumer edge closes a cycle. */
  ghost predicate Acyclic(U: set<UcgNode>)
    reads U`consumers
  {
    forall a, c :: a in U && c in a.consumers ==> !Reaches(U, c, a)
  }

  /** On an acyclic graph the forward order puts every producer before all of its consumers. */
  lemma {:induction false} ForwardOrderAcyclic(U: set<UcgNode>, s: seq<UcgNode>)
    requires Closed(U) && Acyclic(U) && PlacedIn(U, s, [])
    ensures forall i, c :: 0 <= i < |s| && s[i] in U && c in s[i].consumers ==> c in s[i + 1..]
  {
    forall i, c | 0 <= i < |s| && s[i] in U && c in s[i].consumers
      ensures c in s[i + 1..]
    {
      assert !Reaches(U, c, s[i]);
    }
  }

  /** On an acyclic graph `get_topo_sort` puts every consumer before the nodes it reads. */
  lemma {:induction false} TopoSortAcyclic(U: set<UcgNode>, order: seq<UcgNode>)
    requires Closed(U) && Acyclic(U) && ConsumersFirst(U, order)
    ensures forall i, c :: 0 <= i < |order| && order[i] in U && c in order[i].consumers ==> c in order[..i]
  {
    forall i, c | 0 <= i < |order| && order[i] in U && c in order[i].consumers
      ensures c in order[..i]
    {
      assert !Reaches(U, c, order[i]);
    }
  }

  /**
    The graph the compiler driver builds, `Y = X @ W` with an input `X` and
    a constant `W`, ordered by `get_topo_sort`: the product `Y` comes first,
    ahead of both of its operands.
  */
  method TopoSortOfMatMul(value: seq<Complex>) returns (x: UcgNode, w: UcgNode, y: UcgNode, order: seq<UcgNode>)
    ensures x.kind == Input && w.kind == Constant(Tensor([128, 128], value)) && y.kind == MatMul
    ensures y.inputs == [x, w]
    ensures multiset(order) == multiset{x, w, y}
    ensures order[0] == y
  {
    var g;
    g, x, w, y := MatMulGraph(value);
    ghost var U := {x, w, y};
    MatMulGraphClosed(x, w, y);
    order := g.TopoSort(U);
    MatMulOrder(g.nodes, x, w, y, order);
  }

  /** `compile_example_matmul`'s graph: `X` of shape (128, 128), a constant `W` and `Y = X @ W`, added in that order. */
  method MatMulGraph(value: seq<Complex>) returns (g: ComputeGraph, x: UcgNode, w: UcgNode, y: UcgNode)
    ensures x.kind == Input && w.kind == Constant(Tensor([128, 128], value)) && y.kind == MatMul
    ensures g.nodes == [x, w, y] && x != y && w != y && x != w
    ensures x.inputs == [] && w.inputs == [] && y.inputs == [x, w]
    ensures x.consumers == [y] && w.consumers == [y] && y.consumers == []
    ensures y.shape == Some([128, 128])
  {
    g := new ComputeGraph();
    x := new UcgNode.InputNode("X", [128, 128]);
    x := g.AddNode(x);
    w := new UcgNode.ConstantNode("W", Tensor([128, 128], value));
    w := g.AddNode(w);
    ghost var U0: set<UcgNode> := {};
    SymmetricAddIsolated(U0, x);
    SymmetricAddIsolated(U0 + {x}, w);
    var r, built := NewMatMul("Y", x, w, {x, w});
    MatMulShapeOfMatrices(128, 128, 128, 128);
    y := r.value;
    y := g.AddNode(y);
  }

  lemma {:induction false} MatMulGraphClosed(x: UcgNode, w: UcgNode, y: UcgNode)
    requires x.consumers == [y] && w.consumers == [y] && y.consumers == []
    ensures Closed({x, w, y})
  {
  }

  /** In the graph of `Y = X @ W`, the nodes reached from a root are exactly X, W and Y. */
  lemma {:induction false} MatMulFromRoot(nodes: seq<UcgNode>, x: UcgNode, w: UcgNode, y: UcgNode, z: UcgNode)
    requires nodes == [x, w, y] && x.inputs == [] && w.inputs == []
    requires x.consumers == [y] && w.consumers == [y] && y.consumers == []
    ensures FromRoot({x, w, y}, nodes, z) <==> z in {x, w, y}
  {
    var U := {x, w, y};
    if FromRoot(U, nodes, z) {
      var r0 :| r0 in U && IsRoot(nodes, r0) && Reaches(U, r0, z);
      var p :| IsPath(U, p) && p[0] == r0 && p[|p| - 1] == z;
      assert z in U;
    }
    if z in U {
      ReachesRefl(U, x);
      ReachesRefl(U, w);
      ReachesEdge(U, x, x, y);
      assert IsRoot(nodes, x) && IsRoot(nodes, w);
      assert z == w ==> Reaches(U, w, z);
      assert z != w ==> Reaches(U, x, z);
    }
  }

  lemma {:induction false} MatMulOrder(nodes: seq<UcgNode>, x: UcgNode, w: UcgNode, y: UcgNode, order: seq<UcgNode>)
    requires nodes == [x, w, y] && x.inputs == [] && w.inputs == [] && x != y && w != y && x != w
    requires x.consumers == [y] && w.consumers == [y] && y.consumers == []
    requires forall z :: multiset(order)[z] == if FromRoot({x, w, y}, nodes, z) then 1 else 0
    requires ConsumersFirst({x, w, y}, order)
    ensures multiset(order) == multiset{x, w, y}
    ensures order[0] == y
  {
    var U := {x, w, y};
    forall z ensures multiset(order)[z] == multiset{x, w, y}[z] {
      MatMulFromRoot(nodes, x, w, y, z);
    }
    assert multiset(order) == multiset{x, w, y};
    assert |order| == 3;
    assert order[0] in multiset(order);
    var first := order[0];
    if first != y {
      assert y in first.consumers;
      if Reaches(U, y, first) {
        ReachesSink(U, y, first);
      }
      assert false;
    }
  }
}
