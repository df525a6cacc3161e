/** The compare-and-jump peephole of the bytecode assembler: a JMPF that follows a compare,
    possibly through a chain of bNOTs, becomes one fused branch. */
module Fusion {
  import opened Registers

  /** An instruction of one frame with its operands already addressed: `rbp` is fixed here. */
  datatype Ins = Ins(op: Opcode, xs: seq<Operand>)

  /** A basic block: straight-line instructions, then one conditional branch.  The branch falls
      through to `next` when its condition holds and goes to `jump` otherwise. */
  datatype Block = Block(body: seq<Ins>, branch: Ins, jump: nat, next: nat)

  predicate Complete(i: Ins) {
    |i.xs| == |Args(i.op)|
  }

  predicate Straight(ls: seq<Ins>) {
    forall i :: 0 <= i < |ls| ==> Complete(ls[i]) && !IsBranch(ls[i].op)
  }

  predicate Branching(i: Ins) {
    Complete(i) && IsBranch(i.op)
  }

  function Jmpf(a: Operand): Ins {
    Ins(JMPF, [Jump(0), a])
  }

  // ---------------------------------------------------------------------------
  // GammaBuilder_asmJMPF

  predicate IsCompare(op: Opcode) {
    op.iCMP? || op.iCMPC?
  }

  /** `OPCODE_iJEQ + (opcode - OPCODE_iEQ)`: both families list the comparisons in one order. */
  function FusedOp(op: Opcode): Opcode
    requires IsCompare(op)
  {
    if op.iCMP? then iJ(op.c) else iJC(op.c)
  }

  /** The fused branch: the destination word is replaced by the jump address. */
  function FusedIns(i: Ins): Ins
    requires IsCompare(i.op) && Complete(i)
  {
    Ins(FusedOp(i.op), [Jump(0), i.xs[1], i.xs[2]])
  }

  /** The body and branch after the peephole, and whether the exits have to be exchanged. */
  function Fuse(ls: seq<Ins>, a: Operand, swap: bool): (seq<Ins>, Ins, bool)
    requires Straight(ls)
    decreases |ls|
  {
    if ls == [] then (ls, Jmpf(a), swap)
    else
      var n := |ls| - 1;
      if ls[n].op.bNOT? then Fuse(ls[..n], ls[n].xs[1], !swap)
      else if IsCompare(ls[n].op) then (ls[..n], FusedIns(ls[n]), swap)
      else (ls, Jmpf(a), swap)
  }

  lemma FuseLast(ls: seq<Ins>, a: Operand, swap: bool)
    requires Straight(ls) && ls != []
    ensures var n := |ls| - 1;
            Straight(ls[..n]) && Fuse(ls, a, swap) ==
            if ls[n].op.bNOT? then Fuse(ls[..n], ls[n].xs[1], !swap)
            else if IsCompare(ls[n].op) then (ls[..n], FusedIns(ls[n]), swap)
            else (ls, Jmpf(a), swap)
  {
  }

  /** The block under construction. */
  class BlockBuilder {
    var opbuf: seq<Ins>
    var jumpNC: nat
    var nextNC: nat

    constructor (body: seq<Ins>)
      ensures opbuf == body
    {
      opbuf := body;
      jumpNC, nextNC := 0, 0;
    }

    /** The while loop: drop bNOTs, then rewrite a compare in place or append the JMPF. */
    method AsmJMPF(a0: Operand) returns (swap: bool)
      requires Straight(opbuf)
      modifies this`opbuf
      ensures opbuf != [] && opbuf[..|opbuf| - 1] == Fuse(old(opbuf), a0, false).0
      ensures opbuf[|opbuf| - 1] == Fuse(old(opbuf), a0, false).1
      ensures swap == Fuse(old(opbuf), a0, false).2
    {
      var a := a0;
      swap := false;
      while |opbuf| > 0
        invariant Straight(opbuf)
        invariant Fuse(opbuf, a, swap) == Fuse(old(opbuf), a0, false)
        decreases |opbuf|
      {
        var n := |opbuf| - 1;
        var opP := opbuf[n];
        FuseLast(opbuf, a, swap);
        if opP.op.bNOT? {
          a := opP.xs[1];
          swap := !swap;
          opbuf := opbuf[..n];
          continue;
        }
        if IsCompare(opP.op) {
          opbuf := opbuf[n := FusedIns(opP)];
          assert opbuf[..n] == Fuse(old(opbuf), a0, false).0;
          return;
        }
        break;
      }
      assert (opbuf + [Jmpf(a)])[..|opbuf|] == opbuf;
      opbuf := opbuf + [Jmpf(a)];
    }

    /** `ASM_JMPF`: the exits are exchanged when an odd number of bNOTs was dropped. */
    method AsmBranch(a: Operand, lbJUMP: nat, lbNEXT: nat)
      requires Straight(opbuf)
      modifies this
      ensures opbuf != []
      ensures Block(opbuf[..|opbuf| - 1], opbuf[|opbuf| - 1], jumpNC, nextNC) == FusedBlock(old(opbuf), a, lbJUMP, lbNEXT)
    {
      var swap := AsmJMPF(a);
      if swap {
        jumpNC, nextNC := lbNEXT, lbJUMP;
      } else {
        jumpNC, nextNC := lbJUMP, lbNEXT;
      }
    }
  }

  function PlainBlock(ls: seq<Ins>, a: Operand, jump: nat, next: nat): Block {
    Block(ls, Jmpf(a), jump, next)
  }

  function FusedBlock(ls: seq<Ins>, a: Operand, jump: nat, next: nat): Block
    requires Straight(ls)
  {
    var (body, branch, swap) := Fuse(ls, a, false);
    if swap then Block(body, branch, next, jump) else Block(body, branch, jump, next)
  }

  // ---------------------------------------------------------------------------
  // Execution

  function Exec(i: Ins, m: Mem): Result<Mem>
    requires Complete(i) && !IsBranch(i.op)
  {
    Perform(i.op, i.xs, m)
  }

  function RunBody(ls: seq<Ins>, m: Mem): Result<Mem>
    requires Straight(ls)
    decreases |ls|
  {
    if ls == [] then Ok(m)
    else
      var m1 :- RunBody(ls[..|ls| - 1], m);
      Exec(ls[|ls| - 1], m1)
  }

  /** Memories that agree except possibly in the words `dead`. */
  ghost predicate AgreeOff(m: Mem, m': Mem, dead: set<int>) {
    && |m.words| == |m'.words| && m.heap == m'.heap && m.probed == m'.probed
    && forall w :: 0 <= w < |m.words| && w !in dead ==> m.words[w] == m'.words[w]
  }

  /** The tested register is the one the dropped instruction wrote, all along the chain.  The
      assembler does not check this. */
  predicate Matches(ls: seq<Ins>, a: Operand)
    requires Straight(ls)
    decreases |ls|
  {
    ls == [] ||
    var l := ls[|ls| - 1];
    if l.op.bNOT? then l.xs[0] == a && Matches(ls[..|ls| - 1], l.xs[1])
    else IsCompare(l.op) ==> l.xs[0] == a
  }

  function WordOf(x: Operand): set<int> {
    if x.Word? then {x.w} else {}
  }

  /** Words whose assignment the peephole drops. */
  function Dropped(ls: seq<Ins>): set<int>
    requires Straight(ls)
    decreases |ls|
  {
    if ls == [] then {}
    else
      var l := ls[|ls| - 1];
      if l.op.bNOT? then WordOf(l.xs[0]) + Dropped(ls[..|ls| - 1])
      else if IsCompare(l.op) then WordOf(l.xs[0])
      else {}
  }

  lemma {:induction false} FuseWellFormed(ls: seq<Ins>, a: Operand, swap: bool)
    requires Straight(ls)
    ensures Straight(Fuse(ls, a, swap).0) && Branching(Fuse(ls, a, swap).1)
    decreases |ls|
  {
    if ls != [] && ls[|ls| - 1].op.bNOT? {
      FuseWellFormed(ls[..|ls| - 1], ls[|ls| - 1].xs[1], !swap);
    }
  }

  // ---------------------------------------------------------------------------
  // The peephole preserves control flow

  lemma SetGet(m: Mem, x: Operand, v: Value)
    requires Set(m, x, v).Ok?
    ensures Get(Set(m, x, v).value, x) == Ok(v)
    ensures AgreeOff(Set(m, x, v).value, m, WordOf(x))
  {
  }

  lemma NotStep(i: Ins, m: Mem, m1: Mem)
    requires i.op.bNOT? && Complete(i) && Exec(i, m) == Ok(m1)
    ensures GetN(m, i.xs[1]).Ok?
    ensures GetN(m1, i.xs[0]) == Ok(if GetN(m, i.xs[1]).value == 0 then 1 else 0)
    ensures AgreeOff(m1, m, WordOf(i.xs[0]))
  {
    SetGet(m, i.xs[0], Bool(GetN(m, i.xs[1]).value == 0));
  }

  /** A compare writes the truth value on which the fused branch decides directly. */
  lemma CompareStep(i: Ins, m: Mem, m1: Mem) returns (t: bool)
    requires IsCompare(i.op) && Complete(i) && Exec(i, m) == Ok(m1)
    ensures Branching(FusedIns(i)) && Test(FusedIns(i).op, FusedIns(i).xs, m) == Ok(t)
    ensures GetN(m1, i.xs[0]) == Ok(if t then 1 else 0)
    ensures AgreeOff(m1, m, WordOf(i.xs[0]))
  {
    var d := if i.op.iCMP? then GetN(m, i.xs[2]).value else Lits(i.xs[2]);
    t := Compare(i.op.c, GetN(m, i.xs[1]).value, d);
    SetGet(m, i.xs[0], Bool(t));
  }

  lemma RunSnoc(ls: seq<Ins>, m: Mem, m1: Mem) returns (m0: Mem)
    requires Straight(ls) && ls != [] && RunBody(ls, m) == Ok(m1)
    ensures RunBody(ls[..|ls| - 1], m) == Ok(m0) && Exec(ls[|ls| - 1], m0) == Ok(m1)
  {
    m0 := RunBody(ls[..|ls| - 1], m).value;
  }

  lemma AgreeTrans(x: Mem, y: Mem, z: Mem, d: set<int>, e: set<int>, f: set<int>)
    requires AgreeOff(x, y, d) && AgreeOff(y, z, e) && d <= f && e <= f
    ensures AgreeOff(x, z, f)
  {
  }

  /** Body and branch decide `t` from `m`, leaving memory `m'`. */
  ghost predicate Decides(body: seq<Ins>, branch: Ins, m: Mem, t: bool, m': Mem) {
    && Straight(body) && Branching(branch)
    && RunBody(body, m) == Ok(m') && Test(branch.op, branch.xs, m') == Ok(t)
  }

  /** Wherever JMPF on `a` decides `n != 0`, the fused block decides the same (negated when the
      exits are exchanged), and memory differs only in the words no longer written. */
  lemma {:induction false} FuseDecides(ls: seq<Ins>, a: Operand, swap: bool, m: Mem, m1: Mem, n: int)
    returns (t: bool, m': Mem)
    requires Straight(ls) && Matches(ls, a) && RunBody(ls, m) == Ok(m1) && GetN(m1, a) == Ok(n)
    ensures Decides(Fuse(ls, a, swap).0, Fuse(ls, a, swap).1, m, t, m')
    ensures (t != Fuse(ls, a, swap).2) == ((n != 0) != swap)
    ensures AgreeOff(m1, m', Dropped(ls))
    decreases |ls|
  {
    FuseWellFormed(ls, a, swap);
    var k := |ls| - 1;
    if ls != [] && ls[k].op.bNOT? {
      var m0 := RunSnoc(ls, m, m1);
      NotStep(ls[k], m0, m1);
      t, m' := FuseDecides(ls[..k], ls[k].xs[1], !swap, m, m0, GetN(m0, ls[k].xs[1]).value);
      AgreeTrans(m1, m0, m', WordOf(ls[k].xs[0]), Dropped(ls[..k]), Dropped(ls));
    } else if ls != [] && IsCompare(ls[k].op) {
      m' := RunSnoc(ls, m, m1);
      t := CompareStep(ls[k], m', m1);
    } else {
      t, m' := n != 0, m1;
    }
  }
}
