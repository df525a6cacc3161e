/** Relocated code means the same: shifting every line by `s` and running at base `rbp` is,
    step for step, the original code running at base `rbp + 2s`. */
module Relocation {
  import opened Operands
  import opened Registers

  function ShiftLine(l: Line, s: int, b: Build): Line
    requires WellSized(l, b)
  {
    EntriesLength(Args(l.op), b);
    Line(l.op, ShiftWords(Entries(Args(l.op), b), l.data, s))
  }

  predicate WellSizedCode(code: seq<Line>, b: Build) {
    forall i :: 0 <= i < |code| ==> WellSized(code[i], b)
  }

  function ShiftCode(code: seq<Line>, s: int, b: Build): (r: seq<Line>)
    requires WellSizedCode(code, b)
    ensures |r| == |code|
  {
    if code == [] then []
    else
      var n := |code| - 1;
      ShiftCode(code[..n], s, b) + [ShiftLine(code[n], s, b)]
  }

  lemma {:induction false} ShiftedAt(code: seq<Line>, s: int, b: Build, i: nat)
    requires WellSizedCode(code, b) && i < |code|
    ensures ShiftCode(code, s, b)[i] == ShiftLine(code[i], s, b)
    decreases |code|
  {
    if i < |code| - 1 {
      ShiftedAt(code[..|code| - 1], s, b, i);
    }
  }

  /** The inliner's step: copy a line, shift the copy in place. */
  method ShiftCopy(l: Line, s: int, b: Build) returns (r: Line)
    requires WellSized(l, b)
    ensures r == ShiftLine(l, s, b)
  {
    var data := new int[|l.data|](k requires 0 <= k < |l.data| => l.data[k]);
    assert data[..] == l.data;
    OpcodeShift(data, Args(l.op), b, s);
    r := Line(l.op, data[..]);
  }

  method ShiftAll(code: seq<Line>, s: int, b: Build) returns (r: seq<Line>)
    requires WellSizedCode(code, b)
    ensures r == ShiftCode(code, s, b)
  {
    r := [];
    for i := 0 to |code|
      invariant r == ShiftCode(code[..i], s, b)
    {
      assert code[..i + 1][..i] == code[..i];
      var l := ShiftCopy(code[i], s, b);
      r := r + [l];
    }
    assert code[..|code|] == code;
  }

  /** Every operand of every instruction line, whatever its type: fetched from the shifted
      words at `rbp` it is the operand fetched from the original words at `rbp + 2s`. */
  lemma OperandRelocates(args: seq<OpType>, data: seq<int>, b: Build, s: int, rbp: int, i: nat)
    requires i < |args| && Offset(args, b, |args|) <= |data|
    requires |Entries(args, b)| <= |data|
    ensures OperandAt(args, ShiftWords(Entries(args, b), data, s), b, rbp, i) == OperandAt(args, data, b, rbp + 2 * s, i)
  {
    OffsetMono(args, b, i, |args|);
    ShiftThroughFields(args, b, data, s, i);
    ResolveShifted(args[i], data, ShiftWords(Entries(args, b), data, s), Offset(args, b, i), b, s, rbp);
  }

  lemma ResolveShifted(t: OpType, data: seq<int>, shifted: seq<int>, o: nat, b: Build, s: int, rbp: int)
    requires o + Width(t, b) <= |data| == |shifted| && shifted[o] == data[o] + ShiftBy(t, s)
    requires Width(t, b) == 2 ==> shifted[o + 1] == data[o + 1]
    ensures Resolve(t, shifted[o], if Width(t, b) == 2 then shifted[o + 1] else 0, rbp, b)
         == Resolve(t, data[o], if Width(t, b) == 2 then data[o + 1] else 0, rbp + 2 * s, b)
  {
  }

  lemma FetchRelocates(l: Line, b: Build, s: int, rbp: int)
    requires WellSized(l, b)
    ensures WellSized(ShiftLine(l, s, b), b)
    ensures Fetch(ShiftLine(l, s, b), rbp, b) == Fetch(l, rbp + 2 * s, b)
  {
    EntriesLength(Args(l.op), b);
    forall i | 0 <= i < |Args(l.op)|
      ensures Fetch(ShiftLine(l, s, b), rbp, b)[i] == Fetch(l, rbp + 2 * s, b)[i]
    {
      OperandRelocates(Args(l.op), l.data, b, s, rbp, i);
    }
  }

  // ---------------------------------------------------------------------------
  // Linked code

  datatype Cpu = Cpu(m: Mem, pc: int)
  datatype Outcome = Running(c: Cpu) | Stopped(fault: Fault)

  /** One step of linked code at base `rbp`. */
  function Step(code: seq<Line>, b: Build, rbp: int, c: Cpu): Outcome
    requires WellSizedCode(code, b)
  {
    if !(0 <= c.pc < |code|) then Stopped(Undefined)
    else
      var l := code[c.pc];
      var xs := Fetch(l, rbp, b);
      if IsBranch(l.op) then
        match Test(l.op, xs, c.m)
        case Err(e) => Stopped(e)
        case Ok(true) => Running(c.(pc := c.pc + 1))
        case Ok(false) => Running(c.(pc := Target(xs[0])))
      else
        match Perform(l.op, xs, c.m)
        case Err(e) => Stopped(e)
        case Ok(m) => Running(Cpu(m, c.pc + 1))
  }

  function Target(x: Operand): int {
    if x.Jump? then x.target else 0
  }

  function Iterate(step: Cpu -> Outcome, c: Cpu, n: nat): Outcome
    decreases n
  {
    if n == 0 then Running(c)
    else
      match step(c)
      case Stopped(e) => Stopped(e)
      case Running(c1) => Iterate(step, c1, n - 1)
  }

  /** `n` steps of linked code. */
  function Run(code: seq<Line>, b: Build, rbp: int, c: Cpu, n: nat): Outcome
    requires WellSizedCode(code, b)
  {
    Iterate(c0 => Step(code, b, rbp, c0), c, n)
  }

  lemma {:induction false} IterateSame(f: Cpu -> Outcome, g: Cpu -> Outcome, c: Cpu, n: nat)
    requires forall c0 :: f(c0) == g(c0)
    ensures Iterate(f, c, n) == Iterate(g, c, n)
    decreases n
  {
    if n > 0 && f(c).Running? {
      IterateSame(f, g, f(c).c, n - 1);
    }
  }

  lemma StepRelocates(code: seq<Line>, b: Build, s: int, rbp: int, c: Cpu)
    requires WellSizedCode(code, b)
    ensures WellSizedCode(ShiftCode(code, s, b), b)
    ensures Step(ShiftCode(code, s, b), b, rbp, c) == Step(code, b, rbp + 2 * s, c)
  {
    forall i | 0 <= i < |code| ensures WellSized(ShiftCode(code, s, b)[i], b) {
      LineRelocates(code, b, s, rbp, i);
    }
    if 0 <= c.pc < |code| {
      LineRelocates(code, b, s, rbp, c.pc);
    }
  }

  lemma LineRelocates(code: seq<Line>, b: Build, s: int, rbp: int, i: nat)
    requires WellSizedCode(code, b) && i < |code|
    ensures var l := ShiftCode(code, s, b)[i];
            WellSized(l, b) && l.op == code[i].op && Fetch(l, rbp, b) == Fetch(code[i], rbp + 2 * s, b)
  {
    ShiftedAt(code, s, b, i);
    FetchRelocates(code[i], b, s, rbp);
  }

  /** Lockstep, for every program, every base, every state and every number of steps: equal
      memory, equal pc, equal faults.  The shift may be negative. */
  lemma RunRelocates(code: seq<Line>, b: Build, s: int, rbp: int, c: Cpu, n: nat)
    requires WellSizedCode(code, b)
    ensures WellSizedCode(ShiftCode(code, s, b), b)
    ensures Run(ShiftCode(code, s, b), b, rbp, c, n) == Run(code, b, rbp + 2 * s, c, n)
  {
    StepRelocates(code, b, s, rbp, c);
    var shifted: Cpu -> Outcome := c0 => Step(ShiftCode(code, s, b), b, rbp, c0);
    var original: Cpu -> Outcome := c0 => Step(code, b, rbp + 2 * s, c0);
    forall c0 ensures shifted(c0) == original(c0) {
      StepRelocates(code, b, s, rbp, c0);
    }
    IterateSame(shifted, original, c, n);
  }

  /** Relocating back is the identity on the words, so a shift loses nothing. */
  lemma {:induction false} ShiftBack(l: Line, s: int, b: Build)
    requires WellSized(l, b)
    ensures WellSized(ShiftLine(l, s, b), b)
    ensures ShiftLine(ShiftLine(l, s, b), -s, b) == l
  {
    EntriesLength(Args(l.op), b);
    var types := Entries(Args(l.op), b);
    forall k | 0 <= k < |l.data|
      ensures ShiftWords(types, ShiftWords(types, l.data, s), -s)[k] == l.data[k]
    {
    }
  }
}
