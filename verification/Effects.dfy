/** What the instructions of the control VM do to single words and registers. */
module Effects {
  import opened Wrappers
  import opened Machine

  predicate At(p: Program, st: State, i: Instr) {
    0 <= st.pc < |p.code| && p.code[st.pc] == i
  }

  /** One word gets a value and control goes on; nothing else changes. */
  predicate Writes(o: Outcome, st: State, w: int, v: Word) {
    In(st.stack, w) && o == Next(State(st.stack[w := v], st.rbp, st.pc + 1, st.esp, st.hdrs, st.ehdr, st.pending, st.dflt))
  }

  /** Control goes to `pc`; nothing else changes. */
  predicate GoesTo(o: Outcome, st: State, pc: int) {
    o == Next(State(st.stack, st.rbp, pc, st.esp, st.hdrs, st.ehdr, st.pending, st.dflt))
  }

  /** NSET gives register `x` the number, a move the word of register `y`. */
  lemma {:induction false} MoveWrites(p: Program, st: State, env: Env, x: int, y: int, n: int)
    requires In(st.stack, st.rbp + x) && In(st.stack, st.rbp + y)
    ensures At(p, st, NSET(x, n)) ==> Writes(Step(p, st, env), st, st.rbp + x, Num(n))
    ensures At(p, st, NMOV(x, y)) || At(p, st, OMOV(x, y)) ==>
              Writes(Step(p, st, env), st, st.rbp + x, st.stack[st.rbp + y])
  {
  }

  /** JMPF jumps exactly when its register holds NULL or zero. */
  lemma {:induction false} JumpGoes(p: Program, st: State, env: Env, target: int, x: int)
    ensures At(p, st, JMP(target)) ==> GoesTo(Step(p, st, env), st, target)
    ensures At(p, st, JMPF(target, x)) && In(st.stack, st.rbp + x) ==>
              var w := st.stack[st.rbp + x];
              GoesTo(Step(p, st, env), st, if w == Null || w == Num(0) then target else st.pc + 1)
  {
  }

  /** CATCH takes the exception that matches, and goes on to the next clause otherwise. */
  lemma {:induction false} CatchTakes(p: Program, st: State, env: Env, target: int, en: int)
    requires At(p, st, CATCH(target, en)) && In(st.stack, st.rbp + en)
    ensures env.matches ==> Writes(Step(p, st, env), st.(pending := false), st.rbp + en, Obj(env.alloc))
    ensures !env.matches ==> GoesTo(Step(p, st, env), st, target)
  {
  }

  /** The method that a call instruction names: in the code, or prepared by the caller. */
  predicate Calls(p: Program, st: State, thisidx: int, espshift: int, mtd: nat) {
    || At(p, st, VCALL_(thisidx, espshift, mtd))
    || (At(p, st, VCALL(thisidx, espshift, mtd)) && st.rbp <= p.uplimit)
    || (At(p, st, CALL(thisidx, espshift)) && In(st.stack, st.rbp + thisidx - 1) && st.stack[st.rbp + thisidx - 1] == Mtd(mtd))
  }

  /** Shift, return pc and method have been written below the base `base`, each to its word. */
  predicate LinkedAt(s: seq<Word>, r: seq<Word>, base: int, shift: int, ret: int, mtd: nat) {
    && |r| == |s|
    && forall j :: 0 <= j < |s| ==>
         r[j] == if j == base - 5 then Num(shift) else if j == base - 3 then Pc(ret) else if j == base - 1 then Mtd(mtd) else s[j]
  }

  /** A call writes shift, return pc and method below the new base, each to its word, and
      nothing else; `esp` counts from the caller's base. */
  lemma {:induction false} CallWrites(p: Program, st: State, env: Env, thisidx: int, espshift: int, mtd: nat)
    requires Calls(p, st, thisidx, espshift, mtd) && mtd in p.entry
    requires LinkFits(st.stack, st.rbp + thisidx)
    ensures var base, o := st.rbp + thisidx, Step(p, st, env);
            && o.Next? && LinkedAt(st.stack, o.st.stack, base, thisidx, st.pc + 1, mtd)
            && o.st == State(o.st.stack, base, p.entry[mtd], st.rbp + espshift, st.hdrs, st.ehdr, st.pending, st.dflt)
  {
  }

  /** RET goes back by the words that the call wrote and clears the method word. */
  lemma {:induction false} RetReads(p: Program, st: State, env: Env, shift: int, ret: int)
    requires At(p, st, RET) && LinkFits(st.stack, st.rbp)
    requires st.stack[st.rbp - 5] == Num(shift) && st.stack[st.rbp - 3] == Pc(ret)
    ensures Step(p, st, env)
         == Next(State(st.stack[st.rbp - 1 := Null], st.rbp - shift, ret, st.esp, st.hdrs, st.ehdr, st.pending, st.dflt))
  {
  }

  /** The native method's writes land in order: a word has the last value written to it. */
  lemma {:induction false} WriteLands(stack: seq<Word>, base: int, ws: seq<(int, Word)>, i: nat)
    requires WritesFit(stack, base, ws) && i < |ws| && forall j :: i < j < |ws| ==> ws[j].0 != ws[i].0
    ensures WriteAll(stack, base, ws)[base + ws[i].0] == ws[i].1
    decreases |ws|
  {
    if i < |ws| - 1 {
      WriteLands(stack, base, ws[..|ws| - 1], i);
    }
  }

  /** Every word has what was last written to it, or what it had. */
  ghost predicate Landed(before: seq<Word>, after: seq<Word>, base: int, ws: seq<(int, Word)>) {
    && |after| == |before|
    && (forall i: nat {:trigger IsLast(ws, i)} :: IsLast(ws, i) && In(after, base + ws[i].0) ==> after[base + ws[i].0] == ws[i].1)
    && (forall j :: 0 <= j < |before| && !IsWritten(ws, j - base) ==> after[j] == before[j])
  }

  lemma {:induction false} WritesLand(stack: seq<Word>, base: int, ws: seq<(int, Word)>)
    requires WritesFit(stack, base, ws)
    ensures Landed(stack, WriteAll(stack, base, ws), base, ws)
  {
    forall i: nat | IsLast(ws, i)
      ensures WriteAll(stack, base, ws)[base + ws[i].0] == ws[i].1
    {
      WriteLands(stack, base, ws, i);
    }
    forall j | 0 <= j < |stack| && !IsWritten(ws, j - base)
      ensures WriteAll(stack, base, ws)[j] == stack[j]
    {
      assert forall i :: 0 <= i < |ws| ==> j != base + ws[i].0;
    }
  }

  /** SCALL of a method that returns: linkage, then the method's own writes, then the method
      word cleared; the handlers are as the method leaves them. */
  lemma {:induction false} NativeWrites(p: Program, st: State, env: Env, thisidx: int, espshift: int, mtd: nat)
    returns (linked: seq<Word>, written: seq<Word>)
    requires At(p, st, SCALL(thisidx, espshift, mtd)) && !env.throws
    requires LinkFits(st.stack, st.rbp + thisidx) && WritesFit(st.stack, st.rbp + thisidx, env.writes)
    ensures LinkedAt(st.stack, linked, st.rbp + thisidx, thisidx, st.pc + 1, mtd)
    ensures Landed(linked, written, st.rbp + thisidx, env.writes)
    ensures In(written, st.rbp + thisidx - 1)
    ensures Step(p, st, env)
         == Next(State(written[st.rbp + thisidx - 1 := Null], st.rbp, st.pc + 1, st.rbp + espshift,
                       env.after, st.ehdr, st.pending, st.dflt))
  {
    ScallIs(p, st, env, thisidx, espshift, mtd);
    linked := Linked(st.stack, st.rbp + thisidx, thisidx, st.pc + 1, mtd);
    written := Written(linked, st.rbp + thisidx, env.writes);
  }

  lemma Written(stack: seq<Word>, base: int, ws: seq<(int, Word)>) returns (written: seq<Word>)
    requires WritesFit(stack, base, ws)
    ensures written == WriteAll(stack, base, ws) && Landed(stack, written, base, ws)
  {
    written := WriteAll(stack, base, ws);
    WritesLand(stack, base, ws);
  }

  lemma Linked(s: seq<Word>, base: int, shift: int, ret: int, mtd: nat) returns (linked: seq<Word>)
    requires LinkFits(s, base)
    ensures linked == Link(s, base, shift, ret, mtd) && LinkedAt(s, linked, base, shift, ret, mtd)
  {
    linked := Link(s, base, shift, ret, mtd);
    LinkWrites(s, base, shift, ret, mtd);
  }

  lemma LinkWrites(s: seq<Word>, base: int, shift: int, ret: int, mtd: nat)
    requires LinkFits(s, base)
    ensures LinkedAt(s, Link(s, base, shift, ret, mtd), base, shift, ret, mtd)
  {
  }

  lemma ScallIs(p: Program, st: State, env: Env, thisidx: int, espshift: int, mtd: nat)
    requires At(p, st, SCALL(thisidx, espshift, mtd)) && !env.throws
    requires LinkFits(st.stack, st.rbp + thisidx) && WritesFit(st.stack, st.rbp + thisidx, env.writes)
    ensures var base := st.rbp + thisidx;
            var written := WriteAll(Link(st.stack, base, thisidx, st.pc + 1, mtd), base, env.writes);
            Step(p, st, env) == Next(State(written[base - 1 := Null], st.rbp, st.pc + 1, st.rbp + espshift,
                                           env.after, st.ehdr, st.pending, st.dflt))
  {
    assert Step(p, st, env) == StepScall(st, thisidx, espshift, mtd, env);
  }

  predicate IsWritten(ws: seq<(int, Word)>, x: int) {
    exists i :: 0 <= i < |ws| && ws[i].0 == x
  }

  predicate IsLast(ws: seq<(int, Word)>, i: nat) {
    i < |ws| && forall j :: i < j < |ws| ==> ws[j].0 != ws[i].0
  }
}
