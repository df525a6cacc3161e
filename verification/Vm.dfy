/** The VM as the imperative program it is: the macros update one word array and the
    interpreter's registers in place.  Every method is proved equal to the step function of
    `Machine`, so all results about runs apply to it. */
module Vm {
  import opened Wrappers
  import opened Machine
  import opened Refinement
  import opened Runs

  datatype Status = Running | Returned | Died

  /** The scan from pair `sp` for handler `h` has cleared the method words that it passed. */
  ghost predicate Cleared(s: seq<Word>, r: seq<Word>, sp: int, h: nat) {
    exists k :: FirstPair(s, sp, h, k) && Swept(s, r, 2 * k + 1, 2 * sp + 1)
  }

  lemma FoundCleared(s: seq<Word>, r: seq<Word>, sp: int, h: nat)
    requires 2 * sp + 1 < |s| && Unwind(s, sp, h) == Some(r)
    ensures Cleared(s, r, sp, h)
  {
    UnwindSpec(s, sp, h);
    var i :| 0 <= i <= sp && s[2 * i] == Obj(h);
    var k := FindFirstPair(s, sp, h, i);
    UnwindSweeps(s, sp, h, k);
  }

  class VirtualMachine {
    const program: Program
    var stack: array<Word>
    var rbp: int
    var pc: int
    var esp: int
    var hdrs: map<nat, Handler>
    var ehdr: Option<nat>
    var pending: bool
    const dflt: nat

    /** The state that `Machine` talks about. */
    function Snapshot(): State
      reads this, stack
    {
      State(stack[..], rbp, pc, esp, hdrs, ehdr, pending, dflt)
    }

    constructor (p: Program, words: array<Word>, base: int, start: int, top: int, default: nat)
      ensures program == p && stack == words
      ensures Snapshot() == State(words[..], base, start, top, map[], None, false, default)
    {
      program, stack, rbp, pc, esp := p, words, base, start, top;
      hdrs, ehdr, pending, dflt := map[], None, false, default;
    }

    /** `KLR_VCALL_`, and the tail of `KLR_VCALL` and `KLR_CALL`. */
    method Enter(thisidx: int, espshift: int, mtd: nat)
      requires EnterMethod(program, Snapshot(), thisidx, espshift, mtd).Next?
      modifies this, stack
      ensures stack == old(stack)
      ensures Next(Snapshot()) == old(EnterMethod(program, Snapshot(), thisidx, espshift, mtd))
    {
      esp := rbp + espshift;
      rbp := rbp + thisidx;
      stack[rbp + SHIFTIDX2] := Num(thisidx);
      stack[rbp + PCIDX2] := Pc(pc + 1);
      stack[rbp + MTDIDX2] := Mtd(mtd);
      pc := program.entry[mtd];
    }

    /** `KLR_RET`. */
    method Ret()
      requires StepRet(Snapshot()).Next?
      modifies this, stack
      ensures stack == old(stack)
      ensures Next(Snapshot()) == old(StepRet(Snapshot()))
    {
      var vshift := stack[rbp + SHIFTIDX2];
      var vpc := stack[rbp + PCIDX2];
      stack[rbp + MTDIDX2] := Null;
      rbp := rbp - vshift.n;
      pc := vpc.pc;
    }

    /** `KLR_VEXEC` and `KLR_ENTER`. */
    method Vexec()
      requires StepVexec(program, Snapshot()).Next?
      modifies this, stack
      ensures stack == old(stack)
      ensures Next(Snapshot()) == old(StepVexec(program, Snapshot()))
    {
      var vpc := pc + 1;
      pc := program.entry[stack[rbp + MTDIDX2].id];
      stack[rbp + SHIFTIDX2] := Num(0);
      stack[rbp + PCIDX2] := Pc(vpc);
    }

    /** `KLR_TRY`, first half. */
    method Try(target: int, hn: int, alloc: nat)
      requires StepTry(Snapshot(), target, hn, alloc).Next?
      modifies this, stack
      ensures stack == old(stack)
      ensures Next(Snapshot()) == old(StepTry(Snapshot(), target, hn, alloc))
    {
      var w := stack[rbp + hn];
      var h := alloc;
      if w.Obj? && w.id in hdrs {
        h := w.id;
      } else {
        stack[rbp + hn] := Obj(h);
      }
      hdrs := hdrs[h := Handler(target, rbp / 2, esp / 2, ehdr)];
      ehdr := Some(h);
      pc := pc + 1;
    }

    /** `KLR_TRYEND`. */
    method TryEnd(hn: int)
      requires StepTryEnd(Snapshot(), hn).Next?
      modifies this, stack
      ensures stack == old(stack)
      ensures Next(Snapshot()) == old(StepTryEnd(Snapshot(), hn))
    {
      ehdr := hdrs[stack[rbp + hn].id].parent;
      if dflt !in hdrs {
        hdrs := hdrs[dflt := BLANK];
      }
      stack[rbp + hn] := Obj(dflt);
      pc := pc + 1;
    }

    /** The scan loop of `knh_throw`. */
    method UnwindTo(start: int, h: nat) returns (found: bool)
      requires 2 * start + 1 < stack.Length
      modifies stack
      ensures found <==> Unwind(old(stack[..]), start, h).Some?
      ensures found ==> stack[..] == Unwind(old(stack[..]), start, h).value
      ensures found ==> Cleared(old(stack[..]), stack[..], start, h)
    {
      ghost var before0 := stack[..];
      var sp := start;
      while 0 <= sp
        invariant sp <= start || sp == start
        invariant 2 * sp + 1 < stack.Length
        invariant Unwind(stack[..], sp, h) == Unwind(old(stack[..]), start, h)
        decreases sp + 1
      {
        ghost var before := stack[..];
        if stack[2 * sp + 1].Mtd? {
          stack[2 * sp + 1] := Null;
        }
        assert stack[..] == if before[2 * sp + 1].Mtd? then before[2 * sp + 1 := Null] else before;
        if stack[2 * sp] == Obj(h) {
          FoundCleared(before0, stack[..], start, h);
          return true;
        }
        sp := sp - 1;
      }
      return false;
    }

    /** `knh_throw` and the resumed half of `KLR_TRY`.  When nothing catches, the process exits.
        Which words a caught throw clears is `ThrowSweeps`. */
    method Throw(sfp: int, start: int) returns (caught: bool)
      requires Machine.Throw(Snapshot(), sfp, start) != Stuck
      modifies this, stack
      ensures stack == old(stack)
      ensures caught <==> old(Machine.Throw(Snapshot(), sfp, start)).Next?
      ensures caught ==> Next(Snapshot()) == old(Machine.Throw(Snapshot(), sfp, start))
      ensures !caught ==> old(Machine.Throw(Snapshot(), sfp, start)) == Uncaught
    {
      if !pending {
        pc := pc + 1;
        return true;
      }
      if ehdr.None? {
        return false;
      }
      caught := UnwindTo(sfp / 2 + start / 2, ehdr.value);
      if caught {
        var hdr := hdrs[ehdr.value];
        pc := hdr.target;
        rbp := 2 * hdr.sfpidx;
        esp := 2 * hdr.espidx;
        ehdr := hdr.parent;
      }
    }

    /** Raising an exception and throwing it. */
    method Raise(sfp: int, start: int) returns (caught: bool)
      requires Machine.Raise(Snapshot(), sfp, start) != Stuck
      modifies this, stack
      ensures stack == old(stack)
      ensures caught ==> Next(Snapshot()) == old(Machine.Raise(Snapshot(), sfp, start))
      ensures !caught ==> old(Machine.Raise(Snapshot(), sfp, start)) == Uncaught
    {
      pending := true;
      caught := Throw(sfp, start);
    }

    /** The stack writes of a native method, one after the other. */
    method Native(base: int, ws: seq<(int, Word)>)
      requires WritesFit(stack[..], base, ws)
      modifies stack
      ensures stack[..] == WriteAll(old(stack[..]), base, ws)
    {
      assert ws[..0] == [];
      for i := 0 to |ws|
        invariant stack[..] == WriteAll(old(stack[..]), base, ws[..i])
      {
        assert ws[..i + 1][..i] == ws[..i];
        stack[base + ws[i].0] := ws[i].1;
      }
      assert ws[..|ws|] == ws;
    }

    /** `KLR_SCALL` up to the return of the native method. */
    method CallNative(base: int, shift: int, top: int, mtd: nat, env: Env)
      requires LinkFits(stack[..], base) && WritesFit(stack[..], base, env.writes)
      modifies this`esp, this`hdrs, stack
      ensures Snapshot() == old(NativeCall(Snapshot(), base, shift, top, mtd, env))
    {
      stack[base + SHIFTIDX2] := Num(shift);
      stack[base + PCIDX2] := Pc(pc + 1);
      stack[base + MTDIDX2] := Mtd(mtd);
      esp := top;
      Native(base, env.writes);
      hdrs := env.after;
    }

    /** `KLR_SCALL`. */
    method Scall(thisidx: int, espshift: int, mtd: nat, env: Env) returns (caught: bool)
      requires StepScall(Snapshot(), thisidx, espshift, mtd, env) != Stuck
      modifies this, stack
      ensures stack == old(stack)
      ensures caught ==> Next(Snapshot()) == old(StepScall(Snapshot(), thisidx, espshift, mtd, env))
      ensures !caught ==> old(StepScall(Snapshot(), thisidx, espshift, mtd, env)) == Uncaught
    {
      var base := rbp + thisidx;
      CallNative(base, thisidx, rbp + espshift, mtd, env);
      if env.throws {
        caught := Raise(base, 0);
      } else {
        ReturnNative(base);
        caught := true;
      }
    }

    /** `KLR_SCALL` behind the native method. */
    method ReturnNative(base: int)
      requires In(stack[..], base + MTDIDX2)
      modifies this`pc, stack
      ensures Snapshot() == old(Put(Snapshot(), base + MTDIDX2, Null).(pc := pc + 1))
    {
      stack[base + MTDIDX2] := Null;
      pc := pc + 1;
    }

    /** One turn of the dispatch loop. */
    method Execute(env: Env) returns (out: Status)
      requires Step(program, Snapshot(), env) != Stuck
      modifies this, stack
      ensures stack == old(stack)
      ensures out == Running ==> Next(Snapshot()) == old(Step(program, Snapshot(), env))
      ensures out == Returned ==> Exited(Snapshot()) == old(Step(program, Snapshot(), env))
      ensures out == Died ==> old(Step(program, Snapshot(), env)) == Uncaught
    {
      var ok := true;
      match program.code[pc] {
        case NSET(a, n) => stack[rbp + a] := Num(n); pc := pc + 1;
        case NMOV(a, b) => stack[rbp + a] := stack[rbp + b]; pc := pc + 1;
        case OMOV(a, b) => stack[rbp + a] := stack[rbp + b]; pc := pc + 1;
        case JMP(target) => pc := target;
        case JMPF(target, a) =>
          if Truth(stack[rbp + a]) {
            pc := pc + 1;
          } else {
            pc := target;
          }
        case VCALL(thisidx, espshift, mtd) =>
          if rbp > program.uplimit {
            esp := rbp + espshift;
            ok := Raise(rbp, 0);
          } else {
            Enter(thisidx, espshift, mtd);
          }
        case VCALL_(thisidx, espshift, mtd) => Enter(thisidx, espshift, mtd);
        case CALL(thisidx, espshift) => Enter(thisidx, espshift, stack[rbp + thisidx + MTDIDX2].id);
        case SCALL(thisidx, espshift, mtd) => ok := Scall(thisidx, espshift, mtd, env);
        case RET => Ret();
        case VEXEC => Vexec();
        case ENTER => Vexec();
        case EXIT => return Returned;
        case TRY(target, hn) => Try(target, hn, env.alloc);
        case TRYEND(hn) => TryEnd(hn);
        case THROW(start) => ok := Throw(rbp, start);
        case ERROR(start) => ok := Raise(rbp, start);
        case CATCH(target, en) =>
          if env.matches {
            stack[rbp + en] := Obj(env.alloc);
            pending := false;
            pc := pc + 1;
          } else {
            pc := target;
          }
      }
      out := if ok then Running else Died;
    }

    /** The dispatch loop along a run: the machine passes through its concrete states. */
    method ExecuteAll(envs: seq<Env>, ghost xs: seq<Both>)
      requires Runs.Run(program, xs, envs) && xs[0].st == Snapshot()
      modifies this, stack
      ensures stack == old(stack) && Snapshot() == xs[|envs|].st
    {
      for i := 0 to |envs|
        invariant stack == old(stack) && Snapshot() == xs[i].st
      {
        assert StepAt(program, xs, envs, i);
        var out := Execute(envs[i]);
      }
    }

    /** A call to its matching RET: the same frame, the next instruction, and no word of the
        caller below the callee's return slot has changed. */
    method ExecuteCall(envs: seq<Env>, thisidx: int, ghost xs: seq<Both>)
      requires Runs.Run(program, xs, envs) && |envs| >= 2 && Rel(xs[0].st, xs[0].a) && xs[0].st == Snapshot()
      requires IsCallTo(program, xs[0].a, thisidx)
      requires forall i :: 0 < i < |envs| ==> |xs[i].a.calls| > |xs[0].a.calls|
      requires |xs[|envs|].a.calls| == |xs[0].a.calls| && IsRet(program, xs[|envs| - 1].a)
      modifies this, stack
      ensures stack == old(stack) && rbp == old(rbp) && pc == old(pc) + 1
      ensures forall j :: 0 <= j < stack.Length && j < rbp + thisidx - 2 * CALLDELTA ==> stack[j] == old(stack[j])
    {
      CallReturns(program, xs, envs, thisidx);
      ExecuteAll(envs, xs);
      assert forall j :: 0 <= j < stack.Length ==> stack[j] == xs[|envs|].st.stack[j] && old(stack[j]) == xs[0].st.stack[j];
    }

    /** A TRY to the throw that it catches. */
    method ExecuteTry(envs: seq<Env>, ghost xs: seq<Both>)
      requires Guarded(program, xs, envs) && xs[0].st == Snapshot()
      requires |xs[|envs| - 1].a.guards| == |xs[0].a.guards| + 1 && Throws(program, xs[|envs| - 1], envs[|envs| - 1])
      modifies this, stack
      ensures stack == old(stack) && rbp == old(rbp) && esp == old(esp) && ehdr == old(ehdr)
      ensures 0 <= old(pc) < |program.code| && program.code[old(pc)].TRY? && pc == program.code[old(pc)].target
    {
      ThrowRestores(program, xs, envs);
      ExecuteAll(envs, xs);
    }
  }
}
