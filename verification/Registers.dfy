/** Straight-line and branching instructions of the register VM, executed from encoded
    lines: operands are fetched at the words of the generated struct fields, registers are
    addressed relative to `rbp`. */
module Registers {
  import opened Operands

  datatype Fault = OutOfRange | Trap | Undefined

  datatype Result<+T> = Ok(value: T) | Err(fault: Fault) {
    predicate IsFailure() { Err? }
    function PropagateFailure<S>(): Result<S>
      requires Err?
    {
      Err(fault)
    }
    function Extract(): T
      requires Ok?
    {
      value
    }
  }

  datatype Cmp = EQ | NEQ | LT | LTE | GT | GTE
  datatype Arith = ADD | SUB | MUL | DIV | MOD

  /** One opcode per table line; comparisons and arithmetic are grouped, `iEQ` is `iCMP(EQ)`. */
  datatype Opcode =
    | NSET | NMOV | NMOVx | XNSET | XNMOV | XNMOVx
    | OMOV | OMOVx | XMOV | XMOVx
    | iINC | iDEC | iNEG | bNUL | bNN | bNOT
    | iARITH(f: Arith) | iARITHC(f: Arith)
    | iCMP(c: Cmp) | iCMPC(c: Cmp)
    | NGETIDX | NGETIDXC | NSETIDX | NSETIDXC
    | OGETIDX | OGETIDXC | OSETIDX | OSETIDXC
    | CHKIDX | CHKIDXC
    | PROBE
    | JMP | JMPF | bJNUL | bJNN | bJNOT | iJ(c: Cmp) | iJC(c: Cmp)

  /** The operand column of the instruction table. */
  function Args(op: Opcode): (r: seq<OpType>)
    ensures |r| <= 4
    ensures forall i :: 0 <= i < |r| ==> IsOperand(r[i])
  {
    match op
    case NSET => [RN, INT]
    case NMOV => [RN, RN]
    case NMOVx => [RN, SFX]
    case XNSET => [SFX, INT]
    case XNMOV => [SFX, RN]
    case XNMOVx => [SFX, SFX]
    case OMOV => [RO, RO]
    case OMOVx => [RO, SFX]
    case XMOV => [SFX, RO]
    case XMOVx => [SFX, SFX]
    case iINC => [RN]
    case iDEC => [RN]
    case iNEG => [RN, RN]
    case bNUL => [RN, RO]
    case bNN => [RN, RO]
    case bNOT => [RN, RN]
    case iARITH(_) => [RN, RN, RN]
    case iARITHC(_) => [RN, RN, INT]
    case iCMP(_) => [RN, RN, RN]
    case iCMPC(_) => [RN, RN, INT]
    case NGETIDX => [RN, RO, RN]
    case NGETIDXC => [RN, RO, U]
    case NSETIDX => [RN, RO, RN, RN]
    case NSETIDXC => [RN, RO, U, RN]
    case OGETIDX => [RO, RO, RN]
    case OGETIDXC => [RO, RO, U]
    case OSETIDX => [RO, RO, RN, RO]
    case OSETIDXC => [RO, RO, U, RO]
    case CHKIDX => [RO, RN]
    case CHKIDXC => [RO, U]
    case PROBE => [SFPIDX2, F, U, U]
    case JMP => [ADDR]
    case JMPF => [ADDR, RN]
    case bJNUL => [ADDR, RO]
    case bJNN => [ADDR, RO]
    case bJNOT => [ADDR, RN]
    case iJ(_) => [ADDR, RN, RN]
    case iJC(_) => [ADDR, RN, INT]
  }

  /** An encoded line, `kopl_t`: the opcode and its five operand words. */
  datatype Line = Line(op: Opcode, data: seq<int>)

  /** The struct of the opcode fits a `kopl_t`, as `knh_opcode_check` asserts. */
  predicate WellSized(l: Line, b: Build) {
    |l.data| == 5 && Offset(Args(l.op), b, |Args(l.op)|) <= 5
  }

  // ---------------------------------------------------------------------------
  // Operands

  /** An operand as the macros use it.  `Word` is a word of the stack, `Slot` field `n` of the
      object in a word. */
  datatype Operand = Jump(target: int) | Word(w: int) | Slot(w: int, n: int) | Lit(n: int)

  function Wide(d0: int, d1: int, b: Build): int {
    if b.dbl then d0 + 0x1_0000_0000 * d1 else d0
  }

  function Resolve(t: OpType, d0: int, d1: int, rbp: int, b: Build): Operand {
    if t == ADDR then Jump(d0)
    else if t == SFX then Slot(rbp + d0, d1)
    else if IsRegister(t) then Word(rbp + d0)
    else if t == SFPIDX2 then Word(rbp + 2 * d0)
    else if t == INT || t == FLOAT then Lit(Wide(d0, d1, b))
    else Lit(d0)
  }

  function OperandAt(args: seq<OpType>, data: seq<int>, b: Build, rbp: int, i: nat): Operand
    requires i < |args| && Offset(args, b, |args|) <= |data|
  {
    OffsetMono(args, b, i, |args|);
    var o := Offset(args, b, i);
    Resolve(args[i], data[o], if Width(args[i], b) == 2 then data[o + 1] else 0, rbp, b)
  }

  function Fetch(l: Line, rbp: int, b: Build): (xs: seq<Operand>)
    requires WellSized(l, b)
    ensures |xs| == |Args(l.op)|
  {
    seq(|Args(l.op)|, i requires 0 <= i < |Args(l.op)| => OperandAt(Args(l.op), l.data, b, rbp, i))
  }

  // ---------------------------------------------------------------------------
  // Memory

  /** `N` is an unboxed number, `O` an object pointer; object 0 is `KNH_NULL`. */
  datatype Value = N(n: int) | O(ref: nat)

  datatype Mem = Mem(words: seq<Value>, heap: map<nat, seq<Value>>, probed: seq<Value>)

  function Get(m: Mem, x: Operand): Result<Value> {
    if x.Word? && 0 <= x.w < |m.words| then Ok(m.words[x.w]) else Err(Undefined)
  }

  function GetN(m: Mem, x: Operand): Result<int> {
    var v :- Get(m, x);
    if v.N? then Ok(v.n) else Err(Undefined)
  }

  function GetO(m: Mem, x: Operand): Result<nat> {
    var v :- Get(m, x);
    if v.O? then Ok(v.ref) else Err(Undefined)
  }

  function Set(m: Mem, x: Operand, v: Value): Result<Mem> {
    if x.Word? && 0 <= x.w < |m.words| then Ok(m.(words := m.words[x.w := v])) else Err(Undefined)
  }

  function Lits(x: Operand): int {
    if x.Lit? then x.n else 0
  }

  function ElemAt(m: Mem, r: nat, n: int): Result<Value> {
    if r in m.heap && 0 <= n < |m.heap[r]| then Ok(m.heap[r][n]) else Err(Undefined)
  }

  function SetElem(m: Mem, r: nat, n: int, v: Value): Result<Mem> {
    if r in m.heap && 0 <= n < |m.heap[r]| then Ok(m.(heap := m.heap[r := m.heap[r][n := v]])) else Err(Undefined)
  }

  function GetX(m: Mem, x: Operand): Result<Value> {
    if !x.Slot? then Err(Undefined)
    else
      var r :- GetO(m, Word(x.w));
      ElemAt(m, r, x.n)
  }

  function SetX(m: Mem, x: Operand, v: Value): Result<Mem> {
    if !x.Slot? then Err(Undefined)
    else
      var r :- GetO(m, Word(x.w));
      SetElem(m, r, x.n, v)
  }

  // ---------------------------------------------------------------------------
  // Arithmetic of `kint_t`

  const TWO64: int := 0x1_0000_0000_0000_0000
  const TWO63: int := 0x8000_0000_0000_0000

  /** Two's complement wrap-around to 64 bits. */
  function Wrap64(x: int): (r: int)
    ensures -TWO63 <= r < TWO63
  {
    (x + TWO63) % TWO64 - TWO63
  }

  /** Conversion to `size_t`. */
  function Unsigned(x: int): (r: int)
    ensures 0 <= r < TWO64
  {
    x % TWO64
  }

  /** C division truncates toward zero. */
  function TruncDiv(a: int, d: int): int
    requires d != 0
  {
    if (a >= 0) == (d > 0) then Abs(a) / Abs(d) else -(Abs(a) / Abs(d))
  }

  function Abs(a: int): nat {
    if a >= 0 then a else -a
  }

  function Alu(f: Arith, a: int, d: int): Result<int> {
    match f
    case ADD => Ok(Wrap64(a + d))
    case SUB => Ok(Wrap64(a - d))
    case MUL => Ok(Wrap64(a * d))
    case DIV => if d == 0 || (a == -TWO63 && d == -1) then Err(Trap) else Ok(TruncDiv(a, d))
    case MOD => if d == 0 || (a == -TWO63 && d == -1) then Err(Trap) else Ok(a - d * TruncDiv(a, d))
  }

  predicate Compare(c: Cmp, a: int, d: int) {
    match c
    case EQ => a == d
    case NEQ => a != d
    case LT => a < d
    case LTE => a <= d
    case GT => a > d
    case GTE => a >= d
  }

  function Bool(p: bool): Value {
    N(if p then 1 else 0)
  }

  // ---------------------------------------------------------------------------
  // Instructions

  predicate IsBranch(op: Opcode) {
    op.JMP? || op.JMPF? || op.bJNUL? || op.bJNN? || op.bJNOT? || op.iJ? || op.iJC?
  }

  /** The unsigned compare of CHKIDX. */
  function CheckIndex(m: Mem, x: Operand, n: int): Result<Mem> {
    var r :- GetO(m, x);
    if r !in m.heap then Err(Undefined)
    else if Unsigned(n) >= |m.heap[r]| then Err(OutOfRange)
    else Ok(m)
  }

  /** `a[n]` into register `c`, without a check. */
  function GetIndex(m: Mem, c: Operand, x: Operand, n: int): Result<Mem> {
    var r :- GetO(m, x);
    var v :- ElemAt(m, r, Unsigned(n));
    Set(m, c, v)
  }

  /** `a[n] = v`, and `v` into register `c`. */
  function SetIndex(m: Mem, c: Operand, x: Operand, n: int, v: Operand): Result<Mem> {
    var r :- GetO(m, x);
    var e :- Get(m, v);
    var m1 :- SetElem(m, r, Unsigned(n), e);
    Set(m1, c, e)
  }

  /** Effect of a non-branching instruction.  It sees the stack only through its operands. */
  function Perform(op: Opcode, xs: seq<Operand>, m: Mem): Result<Mem>
    requires |xs| == |Args(op)| && !IsBranch(op)
  {
    match op
    case NSET => Set(m, xs[0], N(Lits(xs[1])))
    case NMOV => var v :- Get(m, xs[1]); Set(m, xs[0], v)
    case OMOV => var v :- Get(m, xs[1]); Set(m, xs[0], v)
    case NMOVx => var v :- GetX(m, xs[1]); Set(m, xs[0], v)
    case OMOVx => var v :- GetX(m, xs[1]); Set(m, xs[0], v)
    case XNSET => SetX(m, xs[0], N(Lits(xs[1])))
    case XNMOV => var v :- Get(m, xs[1]); SetX(m, xs[0], v)
    case XMOV => var v :- Get(m, xs[1]); SetX(m, xs[0], v)
    case XNMOVx => var v :- GetX(m, xs[1]); SetX(m, xs[0], v)
    case XMOVx => var v :- GetX(m, xs[1]); SetX(m, xs[0], v)
    case iINC => var n :- GetN(m, xs[0]); Set(m, xs[0], N(Wrap64(n + 1)))
    case iDEC => var n :- GetN(m, xs[0]); Set(m, xs[0], N(Wrap64(n - 1)))
    case iNEG => var n :- GetN(m, xs[1]); Set(m, xs[0], N(Wrap64(-n)))
    case bNUL => var r :- GetO(m, xs[1]); Set(m, xs[0], Bool(r == 0))
    case bNN => var r :- GetO(m, xs[1]); Set(m, xs[0], Bool(r != 0))
    case bNOT => var n :- GetN(m, xs[1]); Set(m, xs[0], Bool(n == 0))
    case iARITH(f) => var a :- GetN(m, xs[1]); var d :- GetN(m, xs[2]); var r :- Alu(f, a, d); Set(m, xs[0], N(r))
    case iARITHC(f) => var a :- GetN(m, xs[1]); var r :- Alu(f, a, Lits(xs[2])); Set(m, xs[0], N(r))
    case iCMP(c) => var a :- GetN(m, xs[1]); var d :- GetN(m, xs[2]); Set(m, xs[0], Bool(Compare(c, a, d)))
    case iCMPC(c) => var a :- GetN(m, xs[1]); Set(m, xs[0], Bool(Compare(c, a, Lits(xs[2]))))
    case NGETIDX => var n :- GetN(m, xs[2]); GetIndex(m, xs[0], xs[1], n)
    case OGETIDX => var n :- GetN(m, xs[2]); GetIndex(m, xs[0], xs[1], n)
    case NGETIDXC => GetIndex(m, xs[0], xs[1], Lits(xs[2]))
    case OGETIDXC => GetIndex(m, xs[0], xs[1], Lits(xs[2]))
    case NSETIDX => var n :- GetN(m, xs[2]); SetIndex(m, xs[0], xs[1], n, xs[3])
    case OSETIDX => var n :- GetN(m, xs[2]); SetIndex(m, xs[0], xs[1], n, xs[3])
    case NSETIDXC => SetIndex(m, xs[0], xs[1], Lits(xs[2]), xs[3])
    case OSETIDXC => SetIndex(m, xs[0], xs[1], Lits(xs[2]), xs[3])
    case CHKIDX => var n :- GetN(m, xs[1]); CheckIndex(m, xs[0], n)
    case CHKIDXC => CheckIndex(m, xs[0], Lits(xs[1]))
    case PROBE => var v :- Get(m, xs[0]); Ok(m.(probed := m.probed + [v]))
  }

  /** The condition of a branch.  All of them fall through when it is true and jump when it
      is false (`BR_`). */
  function Test(op: Opcode, xs: seq<Operand>, m: Mem): Result<bool>
    requires |xs| == |Args(op)| && IsBranch(op)
  {
    match op
    case JMP => Ok(false)
    case JMPF => var n :- GetN(m, xs[1]); Ok(n != 0)
    case bJNUL => var r :- GetO(m, xs[1]); Ok(r == 0)
    case bJNN => var r :- GetO(m, xs[1]); Ok(r != 0)
    case bJNOT => var n :- GetN(m, xs[1]); Ok(n == 0)
    case iJ(c) => var a :- GetN(m, xs[1]); var d :- GetN(m, xs[2]); Ok(Compare(c, a, d))
    case iJC(c) => var a :- GetN(m, xs[1]); Ok(Compare(c, a, Lits(xs[2])))
  }

  // ---------------------------------------------------------------------------
  // Index checks

  /** The single unsigned compare of CHKIDX decides `0 <= n < size` for every 64-bit `n`
      exactly when the size is at most 2^63. */
  lemma UnsignedCheckIff(size: nat)
    requires size < TWO64
    ensures (forall n: int :: -TWO63 <= n < TWO63 ==> (Unsigned(n) < size <==> 0 <= n < size)) <==> size <= TWO63
  {
    if size > TWO63 {
      assert Unsigned(-TWO63) == TWO63;
    } else {
      forall n: int | -TWO63 <= n < TWO63 ensures Unsigned(n) < size <==> 0 <= n < size {
        UnsignedOf(n);
      }
    }
  }

  lemma NegativePasses(size: nat)
    requires TWO63 < size < TWO64
    ensures -TWO63 < 0 && Unsigned(-TWO63) < size
  {
    UnsignedOf(-TWO63);
  }

  lemma UnsignedOf(n: int)
    requires -TWO63 <= n < TWO63
    ensures Unsigned(n) == if n >= 0 then n else n + TWO64
  {
  }

  /** After CHKIDX (or CHKIDXC) has passed, the unguarded get reads exactly element `n`. */
  lemma {:induction false} CheckedGet(m: Mem, a: Operand, n: int, c: Operand)
    requires -TWO63 <= n < TWO63 && GetO(m, a).Ok? && GetO(m, a).value in m.heap
    requires |m.heap[GetO(m, a).value]| <= TWO63 && Set(m, c, N(0)).Ok?
    ensures var list := m.heap[GetO(m, a).value];
            && (CheckIndex(m, a, n) == Ok(m) <==> 0 <= n < |list|)
            && (CheckIndex(m, a, n) == Err(OutOfRange) <==> !(0 <= n < |list|))
            && (CheckIndex(m, a, n).Ok? ==> GetIndex(m, c, a, n) == Set(m, c, list[n]))
  {
    UnsignedOf(n);
  }

  /** `knh_array_index`: negative indexes count from the end, in `size_t` arithmetic. */
  function ArrayIndex(n: int, size: nat): Result<int>
    requires -TWO63 <= n < TWO63 && size < TWO64
  {
    var idx := if n < 0 then Unsigned(size + Unsigned(n)) else n;
    if !(idx < size) then Err(OutOfRange) else Ok(idx)
  }

  /** It accepts exactly `-size <= n < size`, and maps into `[0, size)`; unlike the unsigned
      compare this needs no bound on the size. */
  lemma {:induction false} ArrayIndexExact(n: int, size: nat)
    requires -TWO63 <= n < TWO63 && size < TWO64
    ensures ArrayIndex(n, size).Ok? <==> 0 - size <= n < size
    ensures ArrayIndex(n, size).Ok? ==> 0 <= ArrayIndex(n, size).value < size
    ensures ArrayIndex(n, size).Ok? ==> ArrayIndex(n, size).value == if n < 0 then size + n else n
  {
    UnsignedOf(n);
    if n < 0 {
      if n >= 0 - size {
        assert (size + n + TWO64) % TWO64 == size + n;
      } else {
        assert 0 <= size + Unsigned(n) < TWO64;
      }
    }
  }
}
