/** The control part of the register VM: one flat word stack, call linkage threaded through
    the words -5 (shift), -3 (return pc) and -1 (method) below each frame base, and
    exception handlers chained through heap objects. */
module Machine {
  import opened Wrappers

  /** One `krbp_t` word.  `sfp[i]` is the pair of words 2i (object) and 2i+1 (number). */
  datatype Word = Null | Num(n: int) | Pc(pc: int) | Mtd(id: nat) | Obj(id: nat)

  const SHIFTIDX2 := -5
  const PCIDX2 := -3
  const MTDIDX2 := -1
  const CALLDELTA := 4

  /** An ExceptionHandler object: the jump target of its TRY, and the frame, `esp` and
      parent handler recorded there (`sfpidx`, `espidx` count pairs of words). */
  datatype Handler = Handler(target: int, sfpidx: int, espidx: int, parent: Option<nat>)

  /** What a handler object holds before its first TRY. */
  const BLANK := Handler(0, 0, 0, None)

  /** `dflt` is the default value of the class ExceptionHandler: one shared object, which is
      itself a handler and comes into being when it is first asked for. */
  datatype State = State(
    stack: seq<Word>, rbp: int, pc: int, esp: int,
    hdrs: map<nat, Handler>, ehdr: Option<nat>, pending: bool, dflt: nat)

  datatype Instr =
    | NSET(a: int, n: int)
    | NMOV(a: int, b: int)
    | OMOV(a: int, b: int)
    | JMP(target: int)
    | JMPF(target: int, a: int)
    | VCALL(thisidx: int, espshift: int, mtd: nat)
    | VCALL_(thisidx: int, espshift: int, mtd: nat)
    | CALL(thisidx: int, espshift: int)
    | SCALL(thisidx: int, espshift: int, mtd: nat)
    | RET
    | VEXEC
    | ENTER
    | EXIT
    | TRY(target: int, hn: int)
    | TRYEND(hn: int)
    | THROW(start: int)
    | ERROR(start: int)
    | CATCH(target: int, en: int)

  datatype Program = Program(code: seq<Instr>, entry: map<nat, int>, uplimit: int)

  /** What a step takes from outside the VM: the identity of a newly allocated handler, the
      verdict of `isCATCH`, and what a native method does: its stack writes, its exception and
      the handler objects as it leaves them, for it may run the VM itself. */
  datatype Env = Env(alloc: nat, matches: bool, throws: bool, writes: seq<(int, Word)>, after: map<nat, Handler>)

  /** `Uncaught` is `knh_exit` in `knh_throw`; `Stuck` is behaviour the C code leaves undefined. */
  datatype Outcome = Next(st: State) | Exited(st: State) | Uncaught | Stuck

  predicate In(stack: seq<Word>, w: int) {
    0 <= w < |stack|
  }

  function Put(st: State, w: int, v: Word): State
    requires In(st.stack, w)
  {
    st.(stack := st.stack[w := v])
  }

  /** A word as a C truth value. */
  function Truth(w: Word): bool {
    !(w.Null? || w == Num(0))
  }

  // ---------------------------------------------------------------------------
  // Calls

  predicate LinkFits(stack: seq<Word>, base: int) {
    0 <= base + SHIFTIDX2 && base + MTDIDX2 < |stack|
  }

  /** The three linkage words written below the new base `base`. */
  function Link(stack: seq<Word>, base: int, shift: int, ret: int, mtd: nat): seq<Word>
    requires LinkFits(stack, base)
  {
    stack[base + SHIFTIDX2 := Num(shift)][base + PCIDX2 := Pc(ret)][base + MTDIDX2 := Mtd(mtd)]
  }

  function EnterMethod(p: Program, st: State, thisidx: int, espshift: int, mtd: nat): Outcome {
    var base := st.rbp + thisidx;
    if LinkFits(st.stack, base) && mtd in p.entry then
      Next(st.(stack := Link(st.stack, base, thisidx, st.pc + 1, mtd),
               rbp := base, pc := p.entry[mtd], esp := st.rbp + espshift))
    else Stuck
  }

  function StepCall(p: Program, st: State, thisidx: int, espshift: int): Outcome {
    var w := st.rbp + thisidx + MTDIDX2;
    if In(st.stack, w) && st.stack[w].Mtd? then
      EnterMethod(p, st, thisidx, espshift, st.stack[w].id)
    else Stuck
  }

  function StepRet(st: State): Outcome {
    if !LinkFits(st.stack, st.rbp) then Stuck
    else
      var vshift := st.stack[st.rbp + SHIFTIDX2];
      var vpc := st.stack[st.rbp + PCIDX2];
      if vshift.Num? && vpc.Pc? then
        Next(Put(st, st.rbp + MTDIDX2, Null).(rbp := st.rbp - vshift.n, pc := vpc.pc))
      else Stuck
  }

  function StepVexec(p: Program, st: State): Outcome {
    if LinkFits(st.stack, st.rbp) && st.stack[st.rbp + MTDIDX2].Mtd? && st.stack[st.rbp + MTDIDX2].id in p.entry then
      var start := p.entry[st.stack[st.rbp + MTDIDX2].id];
      Next(Put(Put(st, st.rbp + SHIFTIDX2, Num(0)), st.rbp + PCIDX2, Pc(st.pc + 1)).(pc := start))
    else Stuck
  }

  /** Stack writes of a native method, relative to its own base. */
  predicate WritesFit(stack: seq<Word>, base: int, ws: seq<(int, Word)>) {
    forall i :: 0 <= i < |ws| ==> In(stack, base + ws[i].0)
  }

  function WriteAll(stack: seq<Word>, base: int, ws: seq<(int, Word)>): (r: seq<Word>)
    requires WritesFit(stack, base, ws)
    ensures |r| == |stack|
    ensures forall j :: 0 <= j < |stack| && (forall i :: 0 <= i < |ws| ==> j != base + ws[i].0) ==> r[j] == stack[j]
  {
    if ws == [] then stack
    else
      var n := |ws| - 1;
      WriteAll(stack, base, ws[..n])[base + ws[n].0 := ws[n].1]
  }

  /** The state in which a native method returns or throws: linkage pushed, its own writes done. */
  function NativeCall(st: State, base: int, shift: int, esp: int, mtd: nat, env: Env): State
    requires LinkFits(st.stack, base) && WritesFit(st.stack, base, env.writes)
  {
    var linked := Link(st.stack, base, shift, st.pc + 1, mtd);
    st.(stack := WriteAll(linked, base, env.writes), hdrs := env.after, esp := esp)
  }

  function StepScall(st: State, thisidx: int, espshift: int, mtd: nat, env: Env): Outcome {
    var base := st.rbp + thisidx;
    if !LinkFits(st.stack, base) || !WritesFit(st.stack, base, env.writes) then Stuck
    else
      var st1 := NativeCall(st, base, thisidx, st.rbp + espshift, mtd, env);
      if env.throws then Raise(st1, base, 0)
      else Next(Put(st1, base + MTDIDX2, Null).(pc := st.pc + 1))
  }

  // ---------------------------------------------------------------------------
  // Exceptions

  /** The downward scan of `knh_throw`: it clears the method words it passes and stops at the
      pair whose object word is the handler. */
  function Unwind(stack: seq<Word>, sp: int, h: nat): (r: Option<seq<Word>>)
    requires 2 * sp + 1 < |stack|
    ensures r.Some? ==> |r.value| == |stack|
    decreases sp + 1
  {
    if sp < 0 then None
    else
      var s := if stack[2 * sp + 1].Mtd? then stack[2 * sp + 1 := Null] else stack;
      if s[2 * sp] == Obj(h) then Some(s) else Unwind(s, sp - 1, h)
  }

  /** `knh_throw` from `sfp + start`, followed by the resumed half of the handler's TRY. */
  function Throw(st: State, sfp: int, start: int): Outcome {
    if !st.pending then Next(st.(pc := st.pc + 1))
    else if st.ehdr.None? then Uncaught
    else
      var sp := sfp / 2 + start / 2;
      var h := st.ehdr.value;
      if h !in st.hdrs || 2 * sp + 1 >= |st.stack| then Stuck
      else
        match Unwind(st.stack, sp, h)
        case None => Uncaught
        case Some(stack) =>
          var hdr := st.hdrs[h];
          Next(st.(stack := stack, rbp := 2 * hdr.sfpidx, esp := 2 * hdr.espidx,
                   pc := hdr.target, ehdr := hdr.parent))
  }

  function Raise(st: State, sfp: int, start: int): Outcome {
    Throw(st.(pending := true), sfp, start)
  }

  function StepTry(st: State, target: int, hn: int, alloc: nat): Outcome {
    var w := st.rbp + hn;
    if !In(st.stack, w) then Stuck
    else
      var reuse := st.stack[w].Obj? && st.stack[w].id in st.hdrs;
      var h := if reuse then st.stack[w].id else alloc;
      var st1 := if reuse then st else Put(st, w, Obj(h));
      Next(st1.(hdrs := st.hdrs[h := Handler(target, st.rbp / 2, st.esp / 2, st.ehdr)],
                ehdr := Some(h), pc := st.pc + 1))
  }

  /** `KNH_TNULL(ExceptionHandler)`: the default handler, made on first use. */
  function WithDefault(st: State): map<nat, Handler> {
    if st.dflt in st.hdrs then st.hdrs else st.hdrs[st.dflt := BLANK]
  }

  /** TRYEND leaves the default handler in the register. */
  function StepTryEnd(st: State, hn: int): Outcome {
    var w := st.rbp + hn;
    if In(st.stack, w) && st.stack[w].Obj? && st.stack[w].id in st.hdrs then
      Next(Put(st, w, Obj(st.dflt)).(
             hdrs := WithDefault(st), ehdr := st.hdrs[st.stack[w].id].parent, pc := st.pc + 1))
    else Stuck
  }

  // ---------------------------------------------------------------------------

  function Step(p: Program, st: State, env: Env): Outcome {
    if !(0 <= st.pc < |p.code|) then Stuck
    else
      match p.code[st.pc]
      case NSET(a, n) =>
        if In(st.stack, st.rbp + a) then Next(Put(st, st.rbp + a, Num(n)).(pc := st.pc + 1)) else Stuck
      case NMOV(a, b) => StepMove(st, a, b)
      case OMOV(a, b) => StepMove(st, a, b)
      case JMP(target) => Next(st.(pc := target))
      case JMPF(target, a) =>
        if !In(st.stack, st.rbp + a) then Stuck
        else if Truth(st.stack[st.rbp + a]) then Next(st.(pc := st.pc + 1))
        else Next(st.(pc := target))
      case VCALL(thisidx, espshift, mtd) =>
        if st.rbp > p.uplimit then Raise(st.(esp := st.rbp + espshift), st.rbp, 0)
        else EnterMethod(p, st, thisidx, espshift, mtd)
      case VCALL_(thisidx, espshift, mtd) => EnterMethod(p, st, thisidx, espshift, mtd)
      case CALL(thisidx, espshift) => StepCall(p, st, thisidx, espshift)
      case SCALL(thisidx, espshift, mtd) => StepScall(st, thisidx, espshift, mtd, env)
      case RET => StepRet(st)
      case VEXEC => StepVexec(p, st)
      case ENTER => StepVexec(p, st)
      case EXIT => Exited(st)
      case TRY(target, hn) => StepTry(st, target, hn, env.alloc)
      case TRYEND(hn) => StepTryEnd(st, hn)
      case THROW(start) => Throw(st, st.rbp, start)
      case ERROR(start) => Raise(st, st.rbp, start)
      case CATCH(target, en) =>
        if !In(st.stack, st.rbp + en) then Stuck
        else if env.matches then Next(Put(st, st.rbp + en, Obj(env.alloc)).(pending := false, pc := st.pc + 1))
        else Next(st.(pc := target))
  }

  function StepMove(st: State, a: int, b: int): Outcome {
    if In(st.stack, st.rbp + a) && In(st.stack, st.rbp + b) then
      Next(Put(st, st.rbp + a, st.stack[st.rbp + b]).(pc := st.pc + 1))
    else Stuck
  }

  /** A run of one step for every entry of `envs`; it stops early where a step does not go on. */
  function Steps(p: Program, st: State, envs: seq<Env>): Outcome {
    if envs == [] then Next(st)
    else
      var o := Steps(p, st, envs[..|envs| - 1]);
      if o.Next? then Step(p, o.st, envs[|envs| - 1]) else o
  }
}
