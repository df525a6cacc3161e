/** The SafePoint pass: a check call in front of every registered terminator. */
module SafePoint {
  import opened Wrappers

  /** An `MDNode`; its first operand is the esp shift. */
  datatype Node = Node(id: nat, shift: int)

  datatype Operand = Arg(index: nat) | Const(c: int) | Value(id: nat)

  datatype Inst = Call(callee: string, args: seq<Operand>, tail: bool) | Plain(id: nat)

  /** A terminator and the node attached to it under the kind "safepoint". */
  datatype Terminator = Terminator(id: nat, md: Option<Node>)

  const CHECK := "compiler_checkSafePoint"

  /** A call with three operands, the callee being one of them, to the check function. */
  predicate IsCheck(i: Inst) {
    i.Call? && |i.args| + 1 == 3 && i.callee == CHECK
  }

  function CheckCall(shift: int): (i: Inst)
    ensures IsCheck(i)
  {
    Call(CHECK, [Arg(0), Const(shift)], true)
  }

  predicate Registered(t: Terminator, nodes: seq<Node>) {
    t.md.Some? && t.md.value in nodes
  }

  /** The instruction in front of the terminator is a check. */
  predicate Guarded(insts: seq<Inst>) {
    insts != [] && IsCheck(insts[|insts| - 1])
  }

  function Emitted(insts: seq<Inst>, shift: int): (r: seq<Inst>)
    ensures Guarded(r)
  {
    if Guarded(insts) then insts else insts + [CheckCall(shift)]
  }

  /** The instructions of one block after the pass. */
  function Passed(insts: seq<Inst>, t: Terminator, nodes: seq<Node>): (r: seq<Inst>)
    ensures Registered(t, nodes) ==> Guarded(r)
  {
    if Registered(t, nodes) then Emitted(insts, t.md.value.shift) else insts
  }

  // ---------------------------------------------------------------------------
  // What the pass does to a block

  predicate NoChecks(insts: seq<Inst>) {
    forall k :: 0 <= k < |insts| ==> !IsCheck(insts[k])
  }

  /** The instructions that are not checks, in order. */
  function Others(insts: seq<Inst>): seq<Inst> {
    if insts == [] then []
    else if IsCheck(insts[0]) then Others(insts[1..])
    else [insts[0]] + Others(insts[1..])
  }

  lemma {:induction false} OthersOfSum(a: seq<Inst>, b: seq<Inst>)
    ensures Others(a + b) == Others(a) + Others(b)
  {
    if a == [] {
      assert a + b == b;
    } else {
      assert (a + b)[1..] == a[1..] + b;
      OthersOfSum(a[1..], b);
    }
  }

  /** Everything but the checks is kept, in order. */
  lemma OthersKept(insts: seq<Inst>, t: Terminator, nodes: seq<Node>)
    ensures Others(Passed(insts, t, nodes)) == Others(insts)
  {
    if Registered(t, nodes) {
      OthersOfSum(insts, [CheckCall(t.md.value.shift)]);
    }
  }

  /** A block free of checks ends up with exactly one, right in front of the terminator and with
      the registered shift, when it is registered, and with none otherwise. */
  lemma {:induction false} ExactlyOneCheck(insts: seq<Inst>, t: Terminator, nodes: seq<Node>, k: nat)
    requires NoChecks(insts) && k < |Passed(insts, t, nodes)|
    ensures var r := Passed(insts, t, nodes);
            && (IsCheck(r[k]) <==> Registered(t, nodes) && k == |r| - 1)
            && (IsCheck(r[k]) ==> r[k].args == [Arg(0), Const(t.md.value.shift)])
  {
    if k < |insts| {
      assert Passed(insts, t, nodes)[k] == insts[k];
    }
  }

  // ---------------------------------------------------------------------------
  // The pass

  /** A block is well formed in LLVM's sense: one terminator, after all other instructions. */
  class BasicBlock {
    var insts: seq<Inst>
    const terminator: Terminator

    constructor (insts: seq<Inst>, terminator: Terminator)
      ensures this.insts == insts && this.terminator == terminator
    {
      this.insts, this.terminator := insts, terminator;
    }
  }

  /** `emit`. */
  method Emit(bb: BasicBlock, espshift: int)
    modifies bb
    ensures bb.insts == Emitted(old(bb.insts), espshift)
  {
    var itr := |bb.insts|;
    if itr != 0 {
      var prev := bb.insts[itr - 1];
      if prev.Call? && |prev.args| + 1 == 3 && prev.callee == CHECK {
        return;
      }
    }
    bb.insts := bb.insts + [CheckCall(espshift)];
  }

  predicate Collected(bb: BasicBlock, op: int, blocks: seq<BasicBlock>, nodes: seq<Node>) {
    bb in blocks && Registered(bb.terminator, nodes) && op == bb.terminator.md.value.shift
  }

  /** The first half of `runOnFunction`: blocks and shifts, once for every listing of their node. */
  method Collect(blocks: seq<BasicBlock>, nodes: seq<Node>) returns (bbs: seq<BasicBlock>, ops: seq<int>)
    ensures |bbs| == |ops| && forall k :: 0 <= k < |bbs| ==> Collected(bbs[k], ops[k], blocks, nodes)
    ensures forall b :: b in blocks && Registered(b.terminator, nodes) ==> b in bbs
  {
    bbs, ops := [], [];
    for p := 0 to |blocks|
      invariant |bbs| == |ops| && forall k :: 0 <= k < |bbs| ==> Collected(bbs[k], ops[k], blocks, nodes)
      invariant forall q :: 0 <= q < p && Registered(blocks[q].terminator, nodes) ==> blocks[q] in bbs
    {
      var inst := blocks[p].terminator;
      if inst.md.Some? {
        for i := 0 to |nodes|
          invariant |bbs| == |ops| && forall k :: 0 <= k < |bbs| ==> Collected(bbs[k], ops[k], blocks, nodes)
          invariant forall q :: 0 <= q < p && Registered(blocks[q].terminator, nodes) ==> blocks[q] in bbs
          invariant inst.md.value in nodes[..i] ==> blocks[p] in bbs
        {
          if inst.md.value == nodes[i] {
            bbs, ops := bbs + [blocks[p]], ops + [inst.md.value.shift];
          }
        }
      }
    }
  }

  /** The second half: a block that is listed several times is changed the first time only. */
  method EmitAll(bbs: seq<BasicBlock>, ops: seq<int>, ghost blocks: seq<BasicBlock>, ghost nodes: seq<Node>)
    requires |bbs| == |ops| && forall k :: 0 <= k < |bbs| ==> Collected(bbs[k], ops[k], blocks, nodes)
    modifies bbs
    ensures forall b :: b in bbs ==> b.insts == Passed(old(b.insts), b.terminator, nodes)
  {
    for i := 0 to |bbs|
      invariant forall b :: b in bbs ==>
                  b.insts == if b in bbs[..i] then Passed(old(b.insts), b.terminator, nodes) else old(b.insts)
    {
      assert Collected(bbs[i], ops[i], blocks, nodes);
      Emit(bbs[i], ops[i]);
      assert bbs[..i + 1] == bbs[..i] + [bbs[i]];
    }
    assert bbs[..|bbs|] == bbs;
  }

  /** `runOnFunction`; `nmd` is the module's named metadata "safepoint", if it has any. */
  method RunOnFunction(blocks: seq<BasicBlock>, nmd: Option<seq<Node>>) returns (changed: bool)
    modifies blocks
    ensures forall b :: b in blocks ==>
              b.insts == Passed(old(b.insts), b.terminator, if nmd.Some? then nmd.value else [])
    ensures changed <==> nmd.Some? && exists b :: b in blocks && Registered(b.terminator, nmd.value)
  {
    if nmd.None? {
      return false;
    }
    var bbs, ops := Collect(blocks, nmd.value);
    changed := |bbs| > 0;
    if !changed {
      return;
    }
    assert Collected(bbs[0], ops[0], blocks, nmd.value);
    EmitAll(bbs, ops, blocks, nmd.value);
  }

  /** Two runs in a row: the second leaves every block alone, but reports a change like the first. */
  method RunTwice(blocks: seq<BasicBlock>, nmd: Option<seq<Node>>) returns (first: bool, second: bool)
    modifies blocks
    ensures forall b :: b in blocks ==>
              b.insts == Passed(old(b.insts), b.terminator, if nmd.Some? then nmd.value else [])
    ensures second == first
  {
    first := RunOnFunction(blocks, nmd);
    second := RunOnFunction(blocks, nmd);
  }
}
