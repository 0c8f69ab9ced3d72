/**
  The generic TPU/NPU backend of LightCompiler
  (`lightcompiler/backends/generic_tpu_npu.py`): every matrix product
  becomes one systolic-array instruction, appended to the backend's
  instruction list.
*/
module GenericTpuNpu {
  import opened Wrappers
  import opened Text
  import opened UnifiedIr

  const Opcode: string := "SYSTOLIC_MATMUL "
  const SizeField: string := " SIZE="

  /** `f"SYSTOLIC_MATMUL {node.name} SIZE={self.systolic_size}"`. */
  function Instr(name: string, size: int): (s: string)
    ensures |s| > |Opcode| + |name| + |SizeField| && s[..|Opcode|] == Opcode
  {
    Opcode + name + SizeField + IntToString(size)
  }

  /**
    An instruction can be taken apart again: the opcode comes first, the
    node name follows it, and the text after ` SIZE=` reads back as the
    array size.
  */
  lemma {:induction false} InstrFields(name: string, size: int)
    ensures var s := Instr(name, size);
      var n := |Opcode| + |name|;
      |s| > n + |SizeField| &&
      s[..|Opcode|] == Opcode && s[|Opcode|..n] == name && s[n..n + |SizeField|] == SizeField &&
      PyInt(s[n + |SizeField|..]) == Some(size)
  {
    Fields(Opcode, name, SizeField, IntToString(size));
    IntToStringRoundTrip(size);
  }

  lemma {:induction false} Fields(a: string, b: string, c: string, d: string)
    ensures var s := a + b + c + d;
      s[..|a|] == a && s[|a|..|a| + |b|] == b && s[|a| + |b|..|a| + |b| + |c|] == c && s[|a| + |b| + |c|..] == d
  {
    var s := a + b + c + d;
    assert s == ((a + b) + c) + d;
    assert s[..|a| + |b| + |c|] == (a + b) + c;
    assert s[..|a| + |b|] == a + b;
  }

  /** The instructions `compile` emits for a node list: one per `MatMulNode`, in order. */
  function Instrs(nodes: seq<UcgNode>, size: int): (r: seq<string>)
    ensures |r| == |MatMuls(nodes)|
    ensures forall i :: 0 <= i < |r| ==> r[i] == Instr(MatMuls(nodes)[i].name, size)
  {
    if nodes == [] then []
    else
      var front := nodes[..|nodes| - 1];
      var last := nodes[|nodes| - 1];
      Instrs(front, size) + (if last.kind == MatMul then [Instr(last.name, size)] else [])
  }

  /** Compiling two node lists one after the other emits what compiling their concatenation does. */
  lemma {:induction false} InstrsAppend(a: seq<UcgNode>, b: seq<UcgNode>, size: int)
    ensures Instrs(a + b, size) == Instrs(a, size) + Instrs(b, size)
    decreases |b|
  {
    if b == [] {
      assert a + b == a;
    } else {
      var b' := b[..|b| - 1];
      assert (a + b)[..|a + b| - 1] == a + b';
      assert (a + b)[|a + b| - 1] == b[|b| - 1];
      InstrsAppend(a, b', size);
    }
  }

  /** One more node adds its instruction, if it has one, at the end. */
  lemma {:induction false} InstrsNext(nodes: seq<UcgNode>, k: nat, size: int)
    requires k < |nodes|
    ensures Instrs(nodes[..k + 1], size) ==
      Instrs(nodes[..k], size) + (if nodes[k].kind == MatMul then [Instr(nodes[k].name, size)] else [])
  {
    assert nodes[..k + 1][..k] == nodes[..k];
  }

  class GenericTpuNpuBackend {
    const systolicSize: int
    var instructions: seq<string>

    /** `__init__`: the array size, and no instructions yet. */
    constructor (systolicSize: int)
      ensures this.systolicSize == systolicSize && instructions == []
    {
      this.systolicSize := systolicSize;
      instructions := [];
    }

    /**
      `compile`: append one instruction per `MatMulNode` to the list the
      backend keeps across calls, and return the whole list.
    */
    method Compile(nodes: seq<UcgNode>) returns (r: seq<string>)
      modifies this`instructions
      ensures instructions == old(instructions) + Instrs(nodes, systolicSize)
      ensures r == instructions
    {
      var k := 0;
      while k < |nodes|
        invariant 0 <= k <= |nodes|
        invariant instructions == old(instructions) + Instrs(nodes[..k], systolicSize)
      {
        InstrsNext(nodes, k, systolicSize);
        if nodes[k].kind == MatMul {
          instructions := instructions + [Instr(nodes[k].name, systolicSize)];
        }
        k := k + 1;
      }
      assert nodes[..k] == nodes;
      r := instructions;
    }
  }
}
