/** What each instruction of an encoded line does to registers, fields and pc, said without
    the functions that execute it. */
module Instructions {
  import opened Operands
  import opened Registers
  import opened Relocation

  // ---------------------------------------------------------------------------
  // Operands

  /** The operand that a field of type `t` stands for: register fields count words from `rbp`,
      a field access goes through the object in such a register. */
  predicate Names(t: OpType, d0: int, d1: int, rbp: int, b: Build, x: Operand) {
    match t
    case ADDR => x == Jump(d0)
    case SFX => x == Slot(rbp + d0, d1)
    case RN => x == Word(rbp + d0)
    case RO => x == Word(rbp + d0)
    case SFPIDX2 => x == Word(rbp + 2 * d0)
    case INT => x == Lit(if b.dbl then d0 + 0x1_0000_0000 * d1 else d0)
    case _ => true
  }

  /** Operands of the kinds that the instruction table gives. */
  predicate Kind(t: OpType, x: Operand) {
    match t
    case ADDR => x.Jump?
    case SFX => x.Slot?
    case RN => x.Word?
    case RO => x.Word?
    case SFPIDX2 => x.Word?
    case INT => x.Lit?
    case U => x.Lit?
    case _ => true
  }

  predicate Shaped(op: Opcode, xs: seq<Operand>) {
    |xs| == |Args(op)| && forall i :: 0 <= i < |xs| ==> Kind(Args(op)[i], xs[i])
  }

  lemma FetchedOperand(l: Line, rbp: int, b: Build, i: nat)
    requires WellSized(l, b) && i < |Args(l.op)|
    ensures var o := Offset(Args(l.op), b, i);
            && o + Width(Args(l.op)[i], b) <= |l.data|
            && Names(Args(l.op)[i], l.data[o], if Width(Args(l.op)[i], b) == 2 then l.data[o + 1] else 0, rbp, b,
                     Fetch(l, rbp, b)[i])
            && Kind(Args(l.op)[i], Fetch(l, rbp, b)[i])
  {
    var t, o := Args(l.op)[i], Offset(Args(l.op), b, i);
    OffsetMono(Args(l.op), b, i, |Args(l.op)|);
    assert Fetch(l, rbp, b)[i] == OperandAt(Args(l.op), l.data, b, rbp, i);
    ResolveNames(t, l.data[o], if Width(t, b) == 2 then l.data[o + 1] else 0, rbp, b);
  }

  lemma ResolveNames(t: OpType, d0: int, d1: int, rbp: int, b: Build)
    ensures Names(t, d0, d1, rbp, b, Resolve(t, d0, d1, rbp, b)) && Kind(t, Resolve(t, d0, d1, rbp, b))
  {
  }

  lemma FetchShaped(l: Line, rbp: int, b: Build)
    requires WellSized(l, b)
    ensures Shaped(l.op, Fetch(l, rbp, b))
  {
    forall i | 0 <= i < |Args(l.op)| ensures Kind(Args(l.op)[i], Fetch(l, rbp, b)[i]) {
      FetchedOperand(l, rbp, b, i);
    }
  }

  lemma KindsOf(op: Opcode, xs: seq<Operand>)
    requires Shaped(op, xs)
    ensures |xs| > 0 ==> Kind(Args(op)[0], xs[0])
    ensures |xs| > 1 ==> Kind(Args(op)[1], xs[1])
    ensures |xs| > 2 ==> Kind(Args(op)[2], xs[2])
    ensures |xs| > 3 ==> Kind(Args(op)[3], xs[3])
  {
  }

  /** Operand `x` exists and has the value `v`. */
  predicate Holds(m: Mem, x: Operand, v: Value) {
    match x
    case Word(w) => 0 <= w < |m.words| && m.words[w] == v
    case Slot(w, n) => IsField(m, w, n) && m.heap[m.words[w].ref][n] == v
    case Lit(n) => v == N(n)
    case Jump(_) => false
  }

  predicate IsField(m: Mem, w: int, n: int) {
    0 <= w < |m.words| && m.words[w].O? && m.words[w].ref in m.heap && 0 <= n < |m.heap[m.words[w].ref]|
  }

  /** `x` can be assigned. */
  predicate IsPlace(m: Mem, x: Operand) {
    match x
    case Word(w) => 0 <= w < |m.words|
    case Slot(w, n) => IsField(m, w, n)
    case _ => false
  }

  /** `x` has been assigned `v`, and nothing else has changed. */
  predicate Stored(m: Mem, m': Mem, x: Operand, v: Value) {
    match x
    case Word(w) =>
      0 <= w < |m.words| && m'.words == m.words[w := v] && m'.heap == m.heap && m'.probed == m.probed
    case Slot(w, n) =>
      && IsField(m, w, n) && m'.words == m.words && m'.probed == m.probed
      && m'.heap == m.heap[m.words[w].ref := m.heap[m.words[w].ref][n := v]]
    case _ => false
  }

  /** The instruction succeeds and its one effect is to give `x` the value `v`. */
  predicate Gives(op: Opcode, xs: seq<Operand>, m: Mem, x: Operand, v: Value)
    requires |xs| == |Args(op)| && !IsBranch(op)
  {
    Perform(op, xs, m).Ok? && Stored(m, Perform(op, xs, m).value, x, v)
  }

  // ---------------------------------------------------------------------------
  // Moves

  predicate IsMove(op: Opcode) {
    op.NSET? || op.NMOV? || op.NMOVx? || op.XNSET? || op.XNMOV? || op.XNMOVx?
    || op.OMOV? || op.OMOVx? || op.XMOV? || op.XMOVx?
  }

  /** Every set and move gives its first operand the value of its second. */
  lemma {:induction false} MoveGives(op: Opcode, xs: seq<Operand>, m: Mem, v: Value)
    requires IsMove(op) && Shaped(op, xs) && Holds(m, xs[1], v) && IsPlace(m, xs[0])
    ensures Gives(op, xs, m, xs[0], v)
  {
    KindsOf(op, xs);
  }

  // ---------------------------------------------------------------------------
  // Arithmetic

  /** `r` is a 64-bit number congruent to `exact`. */
  predicate Wraps(r: int, exact: int) {
    -TWO63 <= r < TWO63 && (r - exact) % TWO64 == 0
  }

  predicate IsInt64(n: int) {
    -TWO63 <= n < TWO63
  }

  /** Zero, or on the same side of zero. */
  predicate SameSign(r: int, a: int) {
    r == 0 || (r > 0 <==> a > 0)
  }

  /** What C's operators promise. */
  ghost predicate Computes(f: Arith, a: int, d: int, r: int) {
    match f
    case ADD => Wraps(r, a + d)
    case SUB => Wraps(r, a - d)
    case MUL => Wraps(r, a * d)
    case DIV => d != 0 && IsInt64(r) && Abs(a - d * r) < Abs(d) && SameSign(a - d * r, a)
    case MOD => d != 0 && IsInt64(r) && Abs(r) < Abs(d) && SameSign(r, a) && exists q :: a == d * q + r
  }

  predicate Traps(f: Arith, a: int, d: int) {
    (f == DIV || f == MOD) && (d == 0 || (a == -TWO63 && d == -1))
  }

  lemma WrapWraps(x: int)
    ensures Wraps(Wrap64(x), x)
  {
    var r := Wrap64(x);
    var k := (x + TWO63) / TWO64;
    assert x + TWO63 == TWO64 * k + (x + TWO63) % TWO64;
    assert r - x == TWO64 * -k;
    Multiple(-k);
  }

  lemma Multiple(k: int)
    ensures (TWO64 * k) % TWO64 == 0
  {
  }

  /** The law leaves no choice. */
  lemma WrapsUnique(r: int, s: int, x: int)
    requires Wraps(r, x) && Wraps(s, x)
    ensures r == s
  {
    assert (r - x) % TWO64 == 0 && (s - x) % TWO64 == 0;
    var i, j := (r - x) / TWO64, (s - x) / TWO64;
    assert r - s == TWO64 * (i - j);
  }

  /** Division of magnitudes. */
  lemma Magnitudes(n: nat, k: nat)
    requires k > 0
    ensures n == k * (n / k) + n % k && 0 <= n % k < k && n / k <= n
  {
    var q, more := n / k, k - 1;
    assert more * q >= 0;
    assert k * q == (more + 1) * q == more * q + q;
  }

  lemma Size(a: int, d: int)
    requires d != 0
    ensures Abs(TruncDiv(a, d)) == Abs(a) / Abs(d)
  {
    Magnitudes(Abs(a), Abs(d));
  }

  /** The quotient's sign makes up for the divisor's. */
  lemma SignedProduct(a: int, d: int, z: int)
    requires d != 0 && z >= 0
    ensures d * (if (a >= 0) == (d > 0) then z else -z) == if a >= 0 then Abs(d) * z else -(Abs(d) * z)
  {
    if d > 0 {
      assert d * -z == -(d * z);
    } else {
      assert d * -z == -d * z;
      assert d * z == -(-d * z);
    }
  }

  lemma Smaller(k: nat, z: nat)
    requires k >= 2 && z > 0
    ensures k * z > z
  {
    var more := k - 2;
    assert more * z >= 0;
    assert k * z == more * z + 2 * z;
  }

  /** The part of the magnitude that the divisor goes into. */
  lemma Whole(n: nat, k: nat) returns (p: nat)
    requires k > 0
    ensures p == k * (n / k) && 0 <= n - p < k
  {
    Magnitudes(n, k);
    p := n - n % k;
  }

  lemma TruncatedProduct(a: int, d: int) returns (p: nat)
    requires d != 0
    ensures d * TruncDiv(a, d) == (if a >= 0 then p else -(p as int)) && 0 <= Abs(a) - p < Abs(d)
  {
    p := Whole(Abs(a), Abs(d));
    SignedProduct(a, d, Abs(a) / Abs(d));
  }

  lemma {:induction false} Truncates(a: int, d: int)
    requires d != 0
    ensures var q := TruncDiv(a, d); Abs(a - d * q) < Abs(d) && SameSign(a - d * q, a)
  {
    var p := TruncatedProduct(a, d);
    Remainder(a, d, d * TruncDiv(a, d), p);
  }

  lemma {:induction false} Shrinks(a: int, d: int)
    requires d != 0
    ensures Abs(TruncDiv(a, d)) <= Abs(a)
    ensures Abs(d) > 1 && a != 0 ==> Abs(TruncDiv(a, d)) < Abs(a)
  {
    var n, k := Abs(a), Abs(d);
    var z: int := n / k;
    Magnitudes(n, k);
    Size(a, d);
    if k > 1 && z > 0 {
      Smaller(k, z);
    }
  }

  lemma Remainder(a: int, d: int, product: int, p: int)
    requires product == (if a >= 0 then p else -p) && 0 <= p && 0 <= Abs(a) - p < Abs(d)
    ensures Abs(a - product) < Abs(d) && SameSign(a - product, a)
  {
  }

  lemma {:induction false} QuotientFits(a: int, d: int)
    requires IsInt64(a) && d != 0 && !(a == -TWO63 && d == -1)
    ensures IsInt64(TruncDiv(a, d))
  {
    Shrinks(a, d);
    if a == -TWO63 && d == 1 {
      assert TruncDiv(a, d) == a;
    }
  }

  lemma {:induction false} AluComputes(f: Arith, a: int, d: int)
    requires IsInt64(a) && IsInt64(d)
    ensures Alu(f, a, d) == Err(Trap) <==> Traps(f, a, d)
    ensures !Traps(f, a, d) ==> Alu(f, a, d).Ok? && Computes(f, a, d, Alu(f, a, d).value)
  {
    WrapWraps(a + d);
    WrapWraps(a - d);
    WrapWraps(a * d);
    if d != 0 && !Traps(DIV, a, d) {
      Truncates(a, d);
      QuotientFits(a, d);
      var q := TruncDiv(a, d);
      assert a == d * q + (a - d * q);
    }
  }

  /** Arithmetic gives the destination what C promises of the two arguments, or traps. */
  lemma {:induction false} ArithmeticGives(op: Opcode, xs: seq<Operand>, m: Mem, a: int, d: int) returns (r: int)
    requires (op.iARITH? || op.iARITHC?) && Shaped(op, xs) && IsPlace(m, xs[0])
    requires Holds(m, xs[1], N(a)) && Holds(m, xs[2], N(d)) && IsInt64(a) && IsInt64(d)
    ensures Perform(op, xs, m) == Err(Trap) <==> Traps(op.f, a, d)
    ensures !Traps(op.f, a, d) ==> Gives(op, xs, m, xs[0], N(r)) && Computes(op.f, a, d, r)
  {
    KindsOf(op, xs);
    AluComputes(op.f, a, d);
    r := if Traps(op.f, a, d) then 0 else Alu(op.f, a, d).value;
  }

  /** Quotient and remainder of the same registers belong together. */
  lemma {:induction false} DivisionLaw(xs: seq<Operand>, m: Mem, a: int, d: int) returns (q: int, r: int)
    requires Shaped(iARITH(DIV), xs) && IsPlace(m, xs[0])
    requires Holds(m, xs[1], N(a)) && Holds(m, xs[2], N(d)) && IsInt64(a) && IsInt64(d) && !Traps(DIV, a, d)
    ensures Gives(iARITH(DIV), xs, m, xs[0], N(q)) && Gives(iARITH(MOD), xs, m, xs[0], N(r))
    ensures a == d * q + r && Abs(r) < Abs(d) && SameSign(r, a)
  {
    q := TruncDiv(a, d);
    r := a - d * q;
    Truncates(a, d);
    KindsOf(iARITH(DIV), xs);
  }

  /** iINC, iDEC and iNEG. */
  lemma {:induction false} CountGives(op: Opcode, xs: seq<Operand>, m: Mem, n: int) returns (r: int)
    requires (op.iINC? || op.iDEC? || op.iNEG?) && Shaped(op, xs) && IsPlace(m, xs[0])
    requires Holds(m, xs[|xs| - 1], N(n))
    ensures Gives(op, xs, m, xs[0], N(r))
    ensures Wraps(r, if op.iINC? then n + 1 else if op.iDEC? then n - 1 else 0 - n)
  {
    var exact := if op.iINC? then n + 1 else if op.iDEC? then n - 1 else 0 - n;
    KindsOf(op, xs);
    WrapWraps(exact);
    r := Wrap64(exact);
  }

  // ---------------------------------------------------------------------------
  // Truth values

  /** How `a` compares with `d`, read off their difference. */
  predicate Relates(c: Cmp, a: int, d: int) {
    match c
    case EQ => a - d == 0
    case NEQ => a - d > 0 || d - a > 0
    case LT => d - a > 0
    case LTE => d - a >= 0
    case GT => a - d > 0
    case GTE => a - d >= 0
  }

  /** The condition that `op` tests, in its arguments from `xs[1]` on. */
  ghost predicate Condition(op: Opcode, xs: seq<Operand>, m: Mem, t: bool)
    requires |xs| == |Args(op)|
  {
    match op
    case bNUL => Holds(m, xs[1], O(0)) == t && exists r :: Holds(m, xs[1], O(r))
    case bNN => Holds(m, xs[1], O(0)) == !t && exists r :: Holds(m, xs[1], O(r))
    case bNOT => Holds(m, xs[1], N(0)) == t && exists n :: Holds(m, xs[1], N(n))
    case iCMP(c) => exists a, d :: Holds(m, xs[1], N(a)) && Holds(m, xs[2], N(d)) && Relates(c, a, d) == t
    case iCMPC(c) => exists a, d :: Holds(m, xs[1], N(a)) && Holds(m, xs[2], N(d)) && Relates(c, a, d) == t
    case JMP => t == false
    case JMPF => Holds(m, xs[1], N(0)) == !t && exists n :: Holds(m, xs[1], N(n))
    case bJNUL => Holds(m, xs[1], O(0)) == t && exists r :: Holds(m, xs[1], O(r))
    case bJNN => Holds(m, xs[1], O(0)) == !t && exists r :: Holds(m, xs[1], O(r))
    case bJNOT => Holds(m, xs[1], N(0)) == t && exists n :: Holds(m, xs[1], N(n))
    case iJ(c) => exists a, d :: Holds(m, xs[1], N(a)) && Holds(m, xs[2], N(d)) && Relates(c, a, d) == t
    case iJC(c) => exists a, d :: Holds(m, xs[1], N(a)) && Holds(m, xs[2], N(d)) && Relates(c, a, d) == t
    case _ => false
  }

  /** Tests and compares give 1 or 0. */
  lemma {:induction false} FlagGives(op: Opcode, xs: seq<Operand>, m: Mem, t: bool)
    requires (op.bNUL? || op.bNN? || op.bNOT? || op.iCMP? || op.iCMPC?) && Shaped(op, xs) && IsPlace(m, xs[0])
    requires Condition(op, xs, m, t)
    ensures Gives(op, xs, m, xs[0], N(if t then 1 else 0))
  {
    KindsOf(op, xs);
  }

  lemma {:induction false} TestHolds(op: Opcode, xs: seq<Operand>, m: Mem, t: bool)
    requires IsBranch(op) && Shaped(op, xs) && Condition(op, xs, m, t)
    ensures Test(op, xs, m) == Ok(t)
  {
    KindsOf(op, xs);
  }

  /** A branch goes on behind itself when its condition holds and to its target otherwise. */
  lemma {:induction false} BranchSteps(code: seq<Line>, b: Build, rbp: int, c: Cpu, t: bool)
    requires WellSizedCode(code, b) && 0 <= c.pc < |code| && IsBranch(code[c.pc].op)
    requires Condition(code[c.pc].op, Fetch(code[c.pc], rbp, b), c.m, t)
    ensures Step(code, b, rbp, c) == Running(Cpu(c.m, if t then c.pc + 1 else code[c.pc].data[0]))
  {
    var l := code[c.pc];
    FetchShaped(l, rbp, b);
    FetchedOperand(l, rbp, b, 0);
    TestHolds(l.op, Fetch(l, rbp, b), c.m, t);
  }

  /** Any other instruction goes on behind itself, unless it faults. */
  lemma {:induction false} OtherSteps(code: seq<Line>, b: Build, rbp: int, c: Cpu, m: Mem)
    requires WellSizedCode(code, b) && 0 <= c.pc < |code| && !IsBranch(code[c.pc].op)
    requires Perform(code[c.pc].op, Fetch(code[c.pc], rbp, b), c.m) == Ok(m)
    ensures Step(code, b, rbp, c) == Running(Cpu(m, c.pc + 1))
  {
  }

  /** A fault stops the code. */
  lemma {:induction false} FaultStops(code: seq<Line>, b: Build, rbp: int, c: Cpu, e: Fault)
    requires WellSizedCode(code, b) && 0 <= c.pc < |code| && !IsBranch(code[c.pc].op)
    requires Perform(code[c.pc].op, Fetch(code[c.pc], rbp, b), c.m) == Err(e)
    ensures Step(code, b, rbp, c) == Stopped(e)
  {
  }

  /** A run is its first step and then the rest, until one stops. */
  lemma {:induction false} RunSteps(code: seq<Line>, b: Build, rbp: int, c: Cpu, n: nat)
    requires WellSizedCode(code, b)
    ensures Run(code, b, rbp, c, 0) == Running(c)
    ensures Step(code, b, rbp, c).Running? ==>
              Run(code, b, rbp, c, n + 1) == Run(code, b, rbp, Step(code, b, rbp, c).c, n)
    ensures Step(code, b, rbp, c).Stopped? ==> Run(code, b, rbp, c, n + 1) == Step(code, b, rbp, c)
  {
    var step: Cpu -> Outcome := c0 => Step(code, b, rbp, c0);
    StepsFrom(step, c, n);
  }

  lemma StepsFrom(step: Cpu -> Outcome, c: Cpu, n: nat)
    ensures Iterate(step, c, 0) == Running(c)
    ensures step(c).Running? ==> Iterate(step, c, n + 1) == Iterate(step, step(c).c, n)
    ensures step(c).Stopped? ==> Iterate(step, c, n + 1) == step(c)
  {
  }

  // ---------------------------------------------------------------------------
  // Elements

  /** Operand `x` holds the array object `r`, which has an element `n`. */
  predicate IsElement(m: Mem, x: Operand, r: nat, n: int) {
    Holds(m, x, O(r)) && r in m.heap && 0 <= n < |m.heap[r]| && n < TWO64
  }

  /** An array get gives the element. */
  lemma {:induction false} GetGives(op: Opcode, xs: seq<Operand>, m: Mem, r: nat, n: int)
    requires (op.NGETIDX? || op.NGETIDXC? || op.OGETIDX? || op.OGETIDXC?) && Shaped(op, xs) && IsPlace(m, xs[0])
    requires IsElement(m, xs[1], r, n) && Holds(m, xs[2], N(n))
    ensures Gives(op, xs, m, xs[0], m.heap[r][n])
  {
    KindsOf(op, xs);
    assert Unsigned(n) == n;
  }

  /** An array set gives the element and the destination the value, and changes nothing else. */
  lemma {:induction false} SetGives(op: Opcode, xs: seq<Operand>, m: Mem, r: nat, n: int, v: Value)
    requires (op.NSETIDX? || op.NSETIDXC? || op.OSETIDX? || op.OSETIDXC?) && Shaped(op, xs) && IsPlace(m, xs[0])
    requires IsElement(m, xs[1], r, n) && Holds(m, xs[2], N(n)) && Holds(m, xs[3], v)
    ensures Perform(op, xs, m)
         == Ok(Mem(m.words[xs[0].w := v], m.heap[r := m.heap[r][n := v]], m.probed))
  {
    KindsOf(op, xs);
    assert Unsigned(n) == n;
  }

  /** An index check passes without effect exactly for the elements of the array. */
  lemma {:induction false} CheckGives(op: Opcode, xs: seq<Operand>, m: Mem, r: nat, n: int)
    requires (op.CHKIDX? || op.CHKIDXC?) && Shaped(op, xs) && Holds(m, xs[0], O(r)) && r in m.heap
    requires Holds(m, xs[1], N(n)) && IsInt64(n) && |m.heap[r]| <= TWO63
    ensures Perform(op, xs, m) == if 0 <= n < |m.heap[r]| then Ok(m) else Err(OutOfRange)
  {
    KindsOf(op, xs);
    UnsignedOf(n);
  }

  lemma {:induction false} ProbeGives(xs: seq<Operand>, m: Mem, v: Value)
    requires Shaped(PROBE, xs) && Holds(m, xs[0], v)
    ensures Perform(PROBE, xs, m) == Ok(Mem(m.words, m.heap, m.probed + [v]))
  {
    KindsOf(PROBE, xs);
  }
}
