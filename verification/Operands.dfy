/** Operand layout of instruction lines: what `KCODE` computes from a line of the
    instruction table, and what the generated C code does with it. */
module Operands {

  /** Operand types as written in the table.  `VOID` marks second words and the end. */
  datatype OpType =
    | VOID | ADDR | SFPIDX | R | RN | RO | SFPIDX2 | SFX | U | I | F | CID | HCACHE
    | MTD | TMR | OBJECT | STRING | INT | FLOAT

  /** Whether a boxed-free int or float takes two words (`K_USING_DBLNDATA_`, 32-bit builds). */
  datatype Build = Build(dbl: bool)

  predicate IsOperand(t: OpType) {
    t != VOID
  }

  /** `VMTX_INT`, `VMTX_FLOAT` and the literal VOID after SFX. */
  function Extra(t: OpType, b: Build): nat {
    if t == SFX then 1
    else if (t == INT || t == FLOAT) && b.dbl then 1
    else 0
  }

  /** `getVMT`. */
  function Vmt(t: OpType, b: Build): seq<OpType> {
    if Extra(t, b) == 1 then [t, VOID] else [t]
  }

  function Entries(args: seq<OpType>, b: Build): seq<OpType> {
    if args == [] then [] else Entries(args[..|args| - 1], b) + Vmt(args[|args| - 1], b)
  }

  /** The loop of `KCODE.__init__`: the `types` initialiser and the `size` expression. */
  method Kcode(args: seq<OpType>, b: Build) returns (types: seq<OpType>, size: nat)
    requires forall i :: 0 <= i < |args| ==> IsOperand(args[i])
    ensures types == Entries(args, b) + [VOID]
    ensures size == |types| - 1
    ensures types[size] == VOID
  {
    types := [];
    size := |args|;
    for i := 0 to |args|
      invariant types == Entries(args[..i], b)
      invariant size == |args| + |types| - i
    {
      assert args[..i + 1][..i] == args[..i];
      types := types + Vmt(args[i], b);
      size := size + Extra(args[i], b);
    }
    assert args[..|args|] == args;
    types := types + [VOID];
  }

  // ---------------------------------------------------------------------------
  // The C structs, independently of the tables

  /** Words taken by the struct field of an operand: `ksfx_t` is two words, `kint_t` and
      `kfloat_t` are eight bytes, everything else is one pointer-sized word. */
  function Width(t: OpType, b: Build): nat {
    if t == SFX then 2
    else if t == INT || t == FLOAT then (if b.dbl then 2 else 1)
    else 1
  }

  /** Word index of field `i` in the operand part of the struct. */
  function Offset(args: seq<OpType>, b: Build, i: nat): nat
    requires i <= |args|
  {
    if i == 0 then 0 else Offset(args, b, i - 1) + Width(args[i - 1], b)
  }

  lemma {:induction false} OffsetPrefix(args: seq<OpType>, b: Build, n: nat, i: nat)
    requires i <= n <= |args|
    ensures Offset(args[..n], b, i) == Offset(args, b, i)
  {
    if i > 0 {
      OffsetPrefix(args, b, n, i - 1);
    }
  }

  lemma {:induction false} OffsetMono(args: seq<OpType>, b: Build, i: nat, j: nat)
    requires i <= j <= |args|
    ensures Offset(args, b, i) + (j - i) <= Offset(args, b, j)
    ensures i < j ==> Offset(args, b, i) + Width(args[i], b) <= Offset(args, b, j)
    decreases j
  {
    if i < j {
      OffsetMono(args, b, i, j - 1);
    }
  }

  lemma {:induction false} EntriesLength(args: seq<OpType>, b: Build)
    ensures |Entries(args, b)| == Offset(args, b, |args|)
    decreases |args|
  {
    if args != [] {
      var n := |args| - 1;
      EntriesLength(args[..n], b);
      OffsetPrefix(args, b, n, n);
    }
  }

  /** Operand `i` is described correctly: its type is at the word of its field, and its second
      word, if any, is VOID. */
  ghost predicate Described(args: seq<OpType>, b: Build, i: nat)
    requires i < |args|
  {
    var o := Offset(args, b, i);
    && o + Width(args[i], b) <= |Entries(args, b)|
    && Entries(args, b)[o] == args[i]
    && (Width(args[i], b) == 2 ==> Entries(args, b)[o + 1] == VOID)
  }

  lemma {:induction false} EntryAt(args: seq<OpType>, b: Build, i: nat)
    requires i < |args|
    ensures Described(args, b, i)
    decreases |args|
  {
    var n := |args| - 1;
    EntriesLength(args[..n], b);
    OffsetPrefix(args, b, n, n);
    if i < n {
      OffsetPrefix(args, b, n, i);
      EntryAt(args[..n], b, i);
      assert args[..n][i] == args[i];
    }
  }

  /** The table describes the struct, for every instruction line and both word sizes. */
  lemma LayoutAgrees(args: seq<OpType>, b: Build)
    ensures |Entries(args, b)| == Offset(args, b, |args|)
    ensures forall i :: 0 <= i < |args| ==> Described(args, b, i)
  {
    EntriesLength(args, b);
    forall i | 0 <= i < |args| ensures Described(args, b, i) {
      EntryAt(args, b, i);
    }
  }

  /** Conversely every table entry is the first word of an operand or a VOID second word. */
  lemma {:induction false} EntryOrigin(args: seq<OpType>, b: Build, k: nat) returns (i: nat)
    requires k < |Entries(args, b)|
    ensures i < |args|
    ensures (k == Offset(args, b, i) && Entries(args, b)[k] == args[i])
         || (k == Offset(args, b, i) + 1 && Width(args[i], b) == 2 && Entries(args, b)[k] == VOID)
    decreases |args|
  {
    var n := |args| - 1;
    EntriesLength(args[..n], b);
    OffsetPrefix(args, b, n, n);
    if k < |Entries(args[..n], b)| {
      i := EntryOrigin(args[..n], b, k);
      OffsetPrefix(args, b, n, i);
    } else {
      i := n;
    }
  }

  // ---------------------------------------------------------------------------
  // knh_opline_reftrace

  predicate IsTraced(t: OpType) {
    t == OBJECT || t == STRING
  }

  /** The object and string operands of a line, in order, read through the struct fields. */
  function ObjectOperands(args: seq<OpType>, b: Build, words: seq<int>, n: nat): seq<int>
    requires n <= |args| && Offset(args, b, n) <= |words|
  {
    if n == 0 then []
    else
      ObjectOperands(args, b, words, n - 1)
      + if IsTraced(args[n - 1]) then [words[Offset(args, b, n - 1)]] else []
  }

  /** What the loop has collected after `k` table entries. */
  function Traced(types: seq<OpType>, words: seq<int>, k: nat): seq<int>
    requires k <= |types| && k <= |words|
  {
    if k == 0 then []
    else Traced(types, words, k - 1) + if IsTraced(types[k - 1]) then [words[k - 1]] else []
  }

  lemma TracedField(types: seq<OpType>, words: seq<int>, k: nat, w: nat)
    requires 1 <= w <= 2 && k + w <= |types| <= |words| && (w == 2 ==> types[k + 1] == VOID)
    ensures Traced(types, words, k + w) == Traced(types, words, k) + if IsTraced(types[k]) then [words[k]] else []
  {
  }

  lemma {:induction false} TracedAt(args: seq<OpType>, b: Build, words: seq<int>, i: nat)
    requires i <= |args| && |Entries(args, b)| <= |words|
    ensures Offset(args, b, i) <= |Entries(args, b)|
    ensures Traced(Entries(args, b), words, Offset(args, b, i)) == ObjectOperands(args, b, words, i)
  {
    if i > 0 {
      EntryAt(args, b, i - 1);
      TracedAt(args, b, words, i - 1);
      TracedField(Entries(args, b), words, Offset(args, b, i - 1), Width(args[i - 1], b));
    }
  }

  /** `knh_opline_reftrace` visits exactly the object and string operands of `_CONST` ops. */
  method Reftrace(isConst: bool, args: seq<OpType>, b: Build, words: seq<int>) returns (refs: seq<int>)
    requires forall i :: 0 <= i < |args| ==> IsOperand(args[i])
    requires Offset(args, b, |args|) <= |words|
    ensures refs == if isConst then ObjectOperands(args, b, words, |args|) else []
  {
    refs := [];
    if isConst {
      var types, size := Kcode(args, b);
      EntriesLength(args, b);
      for i := 0 to size
        invariant refs == Traced(Entries(args, b), words, i)
      {
        var vtype := types[i];
        if vtype == OBJECT || vtype == STRING {
          refs := refs + [words[i]];
        }
      }
      TracedAt(args, b, words, |args|);
    }
  }

  // ---------------------------------------------------------------------------
  // knh_opcode_shift

  /** Operands counted in words from `rbp`. */
  predicate IsRegister(t: OpType) {
    t == SFPIDX || t == R || t == RN || t == RO || t == SFX
  }

  /** By how much one word of the given table type is moved. */
  function ShiftBy(t: OpType, s: int): int {
    if IsRegister(t) then 2 * s else if t == SFPIDX2 then s else 0
  }

  function ShiftWords(types: seq<OpType>, words: seq<int>, s: int): seq<int>
    requires |types| <= |words|
  {
    seq(|words|, k requires 0 <= k < |words| => words[k] + if k < |types| then ShiftBy(types[k], s) else 0)
  }

  /** `knh_opcode_shift`, on the operand words of one line. */
  method OpcodeShift(data: array<int>, args: seq<OpType>, b: Build, shift: int)
    requires forall i :: 0 <= i < |args| ==> IsOperand(args[i])
    requires Offset(args, b, |args|) <= data.Length
    modifies data
    ensures |Entries(args, b)| <= data.Length
    ensures data[..] == ShiftWords(Entries(args, b), old(data[..]), shift)
  {
    var types, size := Kcode(args, b);
    EntriesLength(args, b);
    ghost var before := data[..];
    for i := 0 to size
      invariant forall k :: 0 <= k < data.Length ==>
                  data[k] == before[k] + if k < i then ShiftBy(types[k], shift) else 0
    {
      if IsRegister(types[i]) {
        data[i] := data[i] + shift * 2;
      } else if types[i] == SFPIDX2 {
        data[i] := data[i] + shift;
      }
    }
  }

  /** Seen through the struct fields: register operands move by 2s words, SFPIDX2 operands
      by s pairs, literals, addresses and the field number of an `sfx` stay. */
  lemma {:induction false} ShiftThroughFields(args: seq<OpType>, b: Build, words: seq<int>, s: int, i: nat)
    requires i < |args| && |Entries(args, b)| <= |words|
    ensures Offset(args, b, i) + Width(args[i], b) <= |words|
    ensures ShiftWords(Entries(args, b), words, s)[Offset(args, b, i)] == words[Offset(args, b, i)] + ShiftBy(args[i], s)
    ensures Width(args[i], b) == 2 ==>
              ShiftWords(Entries(args, b), words, s)[Offset(args, b, i) + 1] == words[Offset(args, b, i) + 1]
  {
    EntryAt(args, b, i);
    ShiftField(Entries(args, b), words, s, Offset(args, b, i), Width(args[i], b));
  }

  lemma ShiftField(types: seq<OpType>, words: seq<int>, s: int, k: nat, w: nat)
    requires 1 <= w <= 2 && k + w <= |types| <= |words| && (w == 2 ==> types[k + 1] == VOID)
    ensures ShiftWords(types, words, s)[k] == words[k] + ShiftBy(types[k], s)
    ensures w == 2 ==> ShiftWords(types, words, s)[k + 1] == words[k + 1]
  {
  }
}
