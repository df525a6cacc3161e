/** Whole runs of the VM: calls return, throws restore, the handler chain is well founded. */
module Runs {
  import opened Wrappers
  import opened Machine
  import opened Refinement

  /** The concrete VM and the abstract machine side by side. */
  datatype Both = Both(st: State, a: Ctl)

  ghost predicate StepsTo(p: Program, x: Both, env: Env, y: Both) {
    && Disciplined(p, x.st, x.a, env)
    && Step(p, x.st, env) == Next(y.st)
    && AbsStep(p, x.st, x.a, env) == Some(y.a)
  }

  ghost predicate StepAt(p: Program, xs: seq<Both>, envs: seq<Env>, i: nat)
    requires |xs| == |envs| + 1 && i < |envs|
  {
    StepsTo(p, xs[i], envs[i], xs[i + 1])
  }

  /** A run: consecutive states are disciplined steps of both machines. */
  ghost predicate Run(p: Program, xs: seq<Both>, envs: seq<Env>) {
    |xs| == |envs| + 1 && forall i :: 0 <= i < |envs| ==> StepAt(p, xs, envs, i)
  }

  /** The abstract machine never gets stuck where the VM can go on: any concrete run that
      respects the discipline extends to a run of both. */
  lemma RunExtends(p: Program, x: Both, env: Env)
    requires Rel(x.st, x.a) && Disciplined(p, x.st, x.a, env) && Step(p, x.st, env).Next?
    ensures exists y :: StepsTo(p, x, env, y) && Rel(y.st, y.a)
  {
    StepRefines(p, x.st, x.a, env);
    var y := Both(Step(p, x.st, env).st, AbsStep(p, x.st, x.a, env).value);
    assert StepsTo(p, x, env, y);
  }

  /** Everything below this word belongs to older frames: the return slot of the frame at
      depth `k`, or at depth 0 the launcher's handler slot below it. */
  function Floor(a: Ctl, k: nat): int
    requires k <= |a.calls|
  {
    BaseAt(a.base, a.calls, k) - 2 * CALLDELTA - if k == 0 then 2 else 0
  }

  /** The records of the handlers of enclosing runs are what they were. */
  predicate OuterKept(a: Ctl, hdrs: map<nat, Handler>, hdrs': map<nat, Handler>) {
    forall h :: h in a.outer && h in hdrs ==> h in hdrs' && hdrs'[h] == hdrs[h]
  }

  /** What a step at depth at least `k` keeps: the outermost `k` calls, the frame at depth
      `k`, the outermost `m` handlers and those of enclosing runs, and every word below the
      floor. */
  ghost predicate Preserved(st: State, a: Ctl, st': State, a': Ctl, k: nat, m: nat)
    requires k <= |a.calls| && m <= |a.guards|
  {
    && k <= |a'.calls| && a'.calls[..k] == a.calls[..k]
    && BaseAt(a'.base, a'.calls, k) == BaseAt(a.base, a.calls, k)
    && m <= |a'.guards| && a'.guards[..m] == a.guards[..m]
    && a'.outer == a.outer && OuterKept(a, st.hdrs, st'.hdrs)
    && |st'.stack| == |st.stack|
    && forall j :: 0 <= j < |st.stack| && j < Floor(a, k) ==> st'.stack[j] == st.stack[j]
  }

  lemma PreservedTrans(x: Both, y: Both, z: Both, k: nat, m: nat)
    requires k <= |x.a.calls| && m <= |x.a.guards| && Preserved(x.st, x.a, y.st, y.a, k, m)
    requires Preserved(y.st, y.a, z.st, z.a, k, m)
    ensures Preserved(x.st, x.a, z.st, z.a, k, m)
  {
  }

  lemma FloorBelow(st: State, a: Ctl, k: nat)
    requires Rel(st, a) && k <= |a.calls|
    ensures BaseAt(a.base, a.calls, k) <= a.base
    ensures k < |a.calls| && k > 0 ==> BaseAt(a.base, a.calls, k) + 2 * CALLDELTA <= a.base
  {
    LinksPrefix(st.stack, a.base, a.calls, k);
    if 0 < k < |a.calls| {
      BasesGrow(st.stack, a.base, a.calls, k);
      LinksPrefix(st.stack, a.base, a.calls, k + 1);
    }
  }

  /** Popping a guard entered at depth `k` or deeper scans no word below the floor. */
  lemma ThrowPreserves(st: State, a: Ctl, sfp: int, start: int, k: nat, m: nat)
    requires Rel(st, a) && st.pending && ThrowOk(a, sfp, start) && Throw(st, sfp, start).Next?
    requires k <= |a.guards[|a.guards| - 1].calls| && m < |a.guards|
    ensures k <= |a.calls| && Preserved(st, a, Throw(st, sfp, start).st, AbsThrow(a).value, k, m)
  {
    var n := |a.guards| - 1;
    var g := a.guards[n];
    assert GuardOk(st, a, n);
    UnwindStops(st.stack, sfp / 2 + start / 2, g.hdr, g.slot / 2);
    GuardAbove(st, a, n, k);
  }

  /** A guard's frame and register lie above the floor of any depth it was entered at. */
  lemma GuardAbove(st: State, a: Ctl, n: nat, k: nat)
    requires Links(st.stack, a.base, a.calls) && n < |a.guards| && GuardOk(st, a, n) && k <= |a.guards[n].calls|
    ensures var g := a.guards[n];
            && k <= |a.calls| && g.calls[..k] == a.calls[..k] && BaseAt(g.base, g.calls, k) == BaseAt(a.base, a.calls, k)
            && Floor(a, k) <= g.slot
  {
    var g := a.guards[n];
    GuardLinks(st.stack, a, n);
    LinksPrefix(st.stack, g.base, g.calls, k);
    assert k < |g.calls| ==> a.calls[k] == g.calls[k];
  }

  lemma CallPreserves(p: Program, st: State, a: Ctl, env: Env, k: nat, m: nat)
    requires Rel(st, a) && Disciplined(p, st, a, env) && Step(p, st, env).Next? && AbsStep(p, st, a, env).Some?
    requires k <= |a.calls| && m <= |a.guards|
    requires p.code[a.pc].VCALL_? || (p.code[a.pc].VCALL? && a.base <= p.uplimit) || p.code[a.pc].CALL?
    ensures Preserved(st, a, Step(p, st, env).st, AbsStep(p, st, a, env).value, k, m)
  {
    FloorBelow(st, a, k);
  }

  lemma LocalPreserves(p: Program, st: State, a: Ctl, env: Env, k: nat, m: nat)
    requires Rel(st, a) && Disciplined(p, st, a, env) && Step(p, st, env).Next? && AbsStep(p, st, a, env).Some?
    requires k <= |a.calls| && m <= |a.guards|
    requires IsLocal(p.code[a.pc]) || IsJump(p.code[a.pc])
    ensures Preserved(st, a, Step(p, st, env).st, AbsStep(p, st, a, env).value, k, m)
  {
    FloorBelow(st, a, k);
  }

  lemma FramePreserves(p: Program, st: State, a: Ctl, env: Env, k: nat, m: nat)
    requires Rel(st, a) && Disciplined(p, st, a, env) && Step(p, st, env).Next? && AbsStep(p, st, a, env).Some?
    requires p.code[a.pc].RET? || p.code[a.pc].VEXEC? || p.code[a.pc].ENTER?
    requires k <= |a.calls| && k <= |AbsStep(p, st, a, env).value.calls| && m <= |a.guards|
    ensures Preserved(st, a, Step(p, st, env).st, AbsStep(p, st, a, env).value, k, m)
  {
    FloorBelow(st, a, k);
  }

  lemma TryPreserves(st: State, a: Ctl, target: int, hn: int, alloc: nat, k: nat, m: nat)
    requires Rel(st, a) && TryAllowed(st, a, hn, alloc) && k <= |a.calls| && m <= |a.guards|
    requires StepTry(st, target, hn, alloc).Next? && AbsTry(a, st.stack, st.hdrs.Keys, target, hn, alloc).Some?
    ensures Preserved(st, a, StepTry(st, target, hn, alloc).st,
                      AbsTry(a, st.stack, st.hdrs.Keys, target, hn, alloc).value, k, m)
  {
    FloorBelow(st, a, k);
    ChainIn(st.hdrs, Head(a.outer), a.outer);
  }

  lemma TryEndPreserves(st: State, a: Ctl, hn: int, k: nat, m: nat)
    requires Rel(st, a) && Find(a.guards, a.base + hn) >= 0 && StepTryEnd(st, hn).Next? && AbsTryEnd(a, hn).Some?
    requires |a.guards[Find(a.guards, a.base + hn)].calls| == |a.calls|
    requires k <= |a.calls| && m <= |AbsTryEnd(a, hn).value.guards|
    ensures Preserved(st, a, StepTryEnd(st, hn).st, AbsTryEnd(a, hn).value, k, m)
  {
    FloorBelow(st, a, k);
    assert GuardOk(st, a, Find(a.guards, a.base + hn));
  }

  lemma NativePreserves(st: State, a: Ctl, base: int, shift: int, esp: int, mtd: nat, env: Env, k: nat)
    requires Rel(st, a) && base >= a.base + 2 * CALLDELTA && k <= |a.calls|
    requires LinkFits(st.stack, base) && WritesFit(st.stack, base, env.writes)
    requires forall i :: 0 <= i < |env.writes| ==> OwnWrite(a, base, env.writes[i].0)
    ensures var s := NativeCall(st, base, shift, esp, mtd, env).stack;
            |s| == |st.stack| && forall j :: 0 <= j < |s| && j < Floor(a, k) ==> s[j] == st.stack[j]
  {
    FloorBelow(st, a, k);
    NativeSpares(a, Link(st.stack, base, shift, st.pc + 1, mtd), base, env.writes);
  }

  lemma ScallPreserves(st: State, a: Ctl, thisidx: int, espshift: int, mtd: nat, env: Env, k: nat, m: nat)
    requires Rel(st, a) && CallOk(thisidx, espshift) && !env.throws
    requires forall i :: 0 <= i < |env.writes| ==> OwnWrite(a, a.base + thisidx, env.writes[i].0)
    requires LiveKept(st, a, env.after)
    requires StepScall(st, thisidx, espshift, mtd, env).Next?
    requires k <= |a.calls| && m <= |a.guards|
    ensures Preserved(st, a, StepScall(st, thisidx, espshift, mtd, env).st, Advance(a.(esp := a.base + espshift)), k, m)
  {
    NativePreserves(st, a, a.base + thisidx, thisidx, a.base + espshift, mtd, env, k);
    OuterAreLive(st, a, env.after);
    FloorBelow(st, a, k);
  }

  lemma ScallThrowPreserves(st: State, a: Ctl, thisidx: int, espshift: int, mtd: nat, env: Env, k: nat, m: nat)
    requires Rel(st, a) && CallOk(thisidx, espshift) && env.throws && ThrowOk(a, a.base + thisidx, 0)
    requires forall i :: 0 <= i < |env.writes| ==> OwnWrite(a, a.base + thisidx, env.writes[i].0)
    requires LiveKept(st, a, env.after)
    requires StepScall(st, thisidx, espshift, mtd, env).Next?
    requires k <= |a.guards[|a.guards| - 1].calls| && m < |a.guards|
    ensures k <= |a.calls| && Preserved(st, a, StepScall(st, thisidx, espshift, mtd, env).st, AbsThrow(a).value, k, m)
  {
    GuardShallower(st, a, k);
    NativeThrowPreserves(st, a, a.base + thisidx, thisidx, a.base + espshift, mtd, env, k, m);
  }

  lemma NativeThrowPreserves(st: State, a: Ctl, base: int, shift: int, esp: int, mtd: nat, env: Env, k: nat, m: nat)
    requires Rel(st, a) && Even(base) && Even(esp) && base >= a.base + 2 * CALLDELTA && ThrowOk(a, base, 0)
    requires LinkFits(st.stack, base) && WritesFit(st.stack, base, env.writes)
    requires forall i :: 0 <= i < |env.writes| ==> OwnWrite(a, base, env.writes[i].0)
    requires LiveKept(st, a, env.after) && Raise(NativeCall(st, base, shift, esp, mtd, env), base, 0).Next?
    requires k <= |a.guards[|a.guards| - 1].calls| && k <= |a.calls| && m < |a.guards|
    ensures Preserved(st, a, Raise(NativeCall(st, base, shift, esp, mtd, env), base, 0).st, AbsThrow(a).value, k, m)
  {
    NativeKeeps(st, a, base, shift, esp, mtd, env);
    NativeState(st, a, base, shift, esp, mtd, env, k, m);
    RaiseAfter(st, a, NativeCall(st, base, shift, esp, mtd, env), esp, base, k, m);
  }

  lemma RaiseAfter(st: State, a: Ctl, st1: State, esp: int, base: int, k: nat, m: nat)
    requires Rel(st1, a.(esp := esp)) && ThrowOk(a, base, 0) && Raise(st1, base, 0).Next?
    requires k <= |a.guards[|a.guards| - 1].calls| && k <= |a.calls| && m < |a.guards|
    requires Preserved(st, a, st1, a.(esp := esp), k, m)
    ensures Preserved(st, a, Raise(st1, base, 0).st, AbsThrow(a).value, k, m)
  {
    var a1 := a.(esp := esp);
    RaisePreserves(st1, a1, base, 0, k, m);
    PreservedTrans(Both(st, a), Both(st1, a1), Both(Raise(st1, base, 0).st, AbsThrow(a1).value), k, m);
  }

  lemma OuterAreLive(st: State, a: Ctl, after: map<nat, Handler>)
    requires LiveKept(st, a, after)
    ensures OuterKept(a, st.hdrs, after)
  {
    assert forall h :: h in a.outer ==> IsLive(a, h);
  }

  lemma GuardShallower(st: State, a: Ctl, k: nat)
    requires Rel(st, a) && a.guards != [] && k <= |a.guards[|a.guards| - 1].calls|
    ensures k <= |a.calls|
  {
    assert GuardOk(st, a, |a.guards| - 1);
  }

  lemma NativeState(st: State, a: Ctl, base: int, shift: int, esp: int, mtd: nat, env: Env, k: nat, m: nat)
    requires Rel(st, a) && base >= a.base + 2 * CALLDELTA && k <= |a.calls| && m <= |a.guards|
    requires LinkFits(st.stack, base) && WritesFit(st.stack, base, env.writes)
    requires forall i :: 0 <= i < |env.writes| ==> OwnWrite(a, base, env.writes[i].0)
    requires LiveKept(st, a, env.after)
    ensures Preserved(st, a, NativeCall(st, base, shift, esp, mtd, env), a.(esp := esp), k, m)
  {
    NativePreserves(st, a, base, shift, esp, mtd, env, k);
    OuterAreLive(st, a, env.after);
  }

  lemma RaisePreserves(st: State, a: Ctl, sfp: int, start: int, k: nat, m: nat)
    requires Rel(st, a) && ThrowOk(a, sfp, start) && Raise(st, sfp, start).Next?
    requires k <= |a.guards[|a.guards| - 1].calls| && m < |a.guards|
    ensures k <= |a.calls| && Preserved(st, a, Raise(st, sfp, start).st, AbsThrow(a).value, k, m)
  {
    RelMoves(st, a, a.pc, a.esp, true);
    ThrowPreserves(st.(pending := true), a, sfp, start, k, m);
  }

  lemma RaisingPreserves(p: Program, st: State, a: Ctl, env: Env, k: nat, m: nat)
    requires Rel(st, a) && Disciplined(p, st, a, env) && Step(p, st, env).Next? && AbsStep(p, st, a, env).Some?
    requires k <= |a.calls| && k <= |AbsStep(p, st, a, env).value.calls|
    requires m <= |a.guards| && m <= |AbsStep(p, st, a, env).value.guards|
    requires (p.code[a.pc].VCALL? && a.base > p.uplimit) || p.code[a.pc].ERROR? || p.code[a.pc].THROW?
    ensures Preserved(st, a, Step(p, st, env).st, AbsStep(p, st, a, env).value, k, m)
  {
    match p.code[a.pc]
    case VCALL(_, e, _) =>
      RelMoves(st, a, a.pc, a.base + e, st.pending);
      RaisePreserves(st.(esp := a.base + e), a.(esp := a.base + e), a.base, 0, k, m);
    case ERROR(s) => RaisePreserves(st, a, a.base, s, k, m);
    case THROW(s) =>
      if st.pending {
        ThrowPreserves(st, a, a.base, s, k, m);
      }
  }

  lemma GuardedPreserves(p: Program, st: State, a: Ctl, env: Env, k: nat, m: nat)
    requires Rel(st, a) && Disciplined(p, st, a, env) && Step(p, st, env).Next? && AbsStep(p, st, a, env).Some?
    requires k <= |a.calls| && k <= |AbsStep(p, st, a, env).value.calls|
    requires m <= |a.guards| && m <= |AbsStep(p, st, a, env).value.guards|
    requires p.code[a.pc].SCALL? || p.code[a.pc].TRY? || p.code[a.pc].TRYEND?
    ensures Preserved(st, a, Step(p, st, env).st, AbsStep(p, st, a, env).value, k, m)
  {
    match p.code[a.pc]
    case SCALL(thisidx, espshift, mtd) =>
      if env.throws {
        ScallThrowPreserves(st, a, thisidx, espshift, mtd, env, k, m);
      } else {
        ScallPreserves(st, a, thisidx, espshift, mtd, env, k, m);
      }
    case TRY(target, hn) => TryPreserves(st, a, target, hn, env.alloc, k, m);
    case TRYEND(hn) => TryEndPreserves(st, a, hn, k, m);
  }

  /** One step keeps everything older than depth `k`, provided it ends at depth `k` or deeper. */
  lemma StepPreserves(p: Program, st: State, a: Ctl, env: Env, k: nat, m: nat)
    requires Rel(st, a) && Disciplined(p, st, a, env) && Step(p, st, env).Next? && AbsStep(p, st, a, env).Some?
    requires k <= |a.calls| && k <= |AbsStep(p, st, a, env).value.calls|
    requires m <= |a.guards| && m <= |AbsStep(p, st, a, env).value.guards|
    ensures Preserved(st, a, Step(p, st, env).st, AbsStep(p, st, a, env).value, k, m)
  {
    var i := p.code[a.pc];
    if IsLocal(i) || IsJump(i) {
      LocalPreserves(p, st, a, env, k, m);
    } else if i.VCALL_? || i.CALL? || (i.VCALL? && a.base <= p.uplimit) {
      CallPreserves(p, st, a, env, k, m);
    } else if i.SCALL? || i.TRY? || i.TRYEND? {
      GuardedPreserves(p, st, a, env, k, m);
    } else if i.VCALL? || i.ERROR? || i.THROW? {
      RaisingPreserves(p, st, a, env, k, m);
    } else if !i.EXIT? {
      FramePreserves(p, st, a, env, k, m);
    }
  }

  lemma StepKeeps(p: Program, x: Both, env: Env, y: Both, k: nat, m: nat)
    requires Rel(x.st, x.a) && StepsTo(p, x, env, y)
    requires k <= |x.a.calls| && k <= |y.a.calls| && m <= |x.a.guards| && m <= |y.a.guards|
    ensures Rel(y.st, y.a) && Preserved(x.st, x.a, y.st, y.a, k, m) && y.a.outer == x.a.outer
  {
    StepRefines(p, x.st, x.a, env);
    StepPreserves(p, x.st, x.a, env, k, m);
  }

  /** Refinement over any run, and safety of everything older: while the call depth stays at
      `k` or more and `m` handlers stay live, older frames, calls and handlers are untouched. */
  lemma {:induction false} RunPreserves(p: Program, xs: seq<Both>, envs: seq<Env>, lo: nat, hi: nat, k: nat, m: nat)
    requires Run(p, xs, envs) && lo <= hi < |xs| && Rel(xs[lo].st, xs[lo].a)
    requires forall i :: lo <= i <= hi ==> k <= |xs[i].a.calls| && m <= |xs[i].a.guards|
    ensures Rel(xs[hi].st, xs[hi].a)
    ensures Preserved(xs[lo].st, xs[lo].a, xs[hi].st, xs[hi].a, k, m)
    ensures xs[hi].a.outer == xs[lo].a.outer
    decreases hi
  {
    if lo < hi {
      RunPreserves(p, xs, envs, lo, hi - 1, k, m);
      assert StepAt(p, xs, envs, hi - 1);
      StepKeeps(p, xs[hi - 1], envs[hi - 1], xs[hi], k, m);
      PreservedTrans(xs[lo], xs[hi - 1], xs[hi], k, m);
    }
  }

  // ---------------------------------------------------------------------------
  // Main results

  predicate IsCallTo(p: Program, a: Ctl, thisidx: int) {
    && 0 <= a.pc < |p.code|
    && match p.code[a.pc]
       case VCALL(t, _, _) => t == thisidx && a.base <= p.uplimit
       case VCALL_(t, _, _) => t == thisidx
       case CALL(t, _) => t == thisidx
       case _ => false
  }

  predicate IsRet(p: Program, a: Ctl) {
    0 <= a.pc < |p.code| && p.code[a.pc].RET?
  }

  predicate IsTryEnd(p: Program, a: Ctl) {
    0 <= a.pc < |p.code| && p.code[a.pc].TRYEND?
  }

  lemma CallStep(p: Program, x: Both, env: Env, y: Both, thisidx: int)
    requires x.st.rbp == x.a.base && x.st.pc == x.a.pc && StepsTo(p, x, env, y) && IsCallTo(p, x.a, thisidx)
    ensures y.a.calls == x.a.calls + [Call(x.a.base, x.a.pc + 1)] && y.a.base == x.a.base + thisidx
    ensures |y.st.stack| == |x.st.stack|
    ensures forall j :: 0 <= j < |x.st.stack| && j < x.a.base + thisidx - 2 * CALLDELTA ==> y.st.stack[j] == x.st.stack[j]
  {
  }

  lemma StepRel(p: Program, x: Both, env: Env, y: Both)
    requires Rel(x.st, x.a) && StepsTo(p, x, env, y)
    ensures Rel(y.st, y.a) && y.a.outer == x.a.outer
  {
    StepRefines(p, x.st, x.a, env);
    OuterStays(p, x.st, x.a, env);
  }

  /** A step does not touch the list of enclosing handlers. */
  lemma OuterStays(p: Program, st: State, a: Ctl, env: Env)
    requires AbsStep(p, st, a, env).Some?
    ensures AbsStep(p, st, a, env).value.outer == a.outer
  {
  }

  lemma RetStep(p: Program, x: Both, env: Env, y: Both)
    requires Rel(x.st, x.a) && StepsTo(p, x, env, y) && IsRet(p, x.a)
    ensures x.a.calls != []
    ensures var c := x.a.calls[|x.a.calls| - 1]; y.st.rbp == c.caller && y.st.pc == c.ret
    ensures In(x.st.stack, x.a.base + MTDIDX2) && y.st.stack == x.st.stack[x.a.base + MTDIDX2 := Null]
  {
    RetRefines(x.st, x.a);
  }

  /** A call and its matching RET: whatever happens in between, nested calls and caught throws
      included, the caller's base comes back, execution resumes after the call, and no word
      of the caller below the callee's return slot has changed. */
  lemma CallReturns(p: Program, xs: seq<Both>, envs: seq<Env>, thisidx: int)
    requires Run(p, xs, envs) && |envs| >= 2 && Rel(xs[0].st, xs[0].a)
    requires IsCallTo(p, xs[0].a, thisidx)
    requires forall i :: 0 < i < |envs| ==> |xs[i].a.calls| > |xs[0].a.calls|
    requires |xs[|envs|].a.calls| == |xs[0].a.calls| && IsRet(p, xs[|envs| - 1].a)
    ensures var st, end := xs[0].st, xs[|envs|].st;
            && end.rbp == st.rbp && end.pc == st.pc + 1 && |end.stack| == |st.stack|
            && In(end.stack, st.rbp + thisidx + MTDIDX2) && end.stack[st.rbp + thisidx + MTDIDX2] == Null
            && forall j :: 0 <= j < |st.stack| && j < st.rbp + thisidx - 2 * CALLDELTA ==> end.stack[j] == st.stack[j]
  {
    var n, k := |envs|, |xs[0].a.calls| + 1;
    CallFirst(p, xs, envs, thisidx);
    RunPreserves(p, xs, envs, 1, n - 1, k, 0);
    RunLast(p, xs, envs);
    CallEnds(p, xs[1], xs[n - 1], envs[n - 1], xs[n], k);
  }

  lemma CallFirst(p: Program, xs: seq<Both>, envs: seq<Env>, thisidx: int)
    requires Run(p, xs, envs) && |envs| >= 1 && Rel(xs[0].st, xs[0].a) && IsCallTo(p, xs[0].a, thisidx)
    ensures var x, y := xs[0], xs[1];
            && Rel(y.st, y.a) && x.st.rbp == x.a.base && x.st.pc == x.a.pc
            && y.a.calls == x.a.calls + [Call(x.a.base, x.a.pc + 1)] && y.a.base == x.a.base + thisidx
            && |y.st.stack| == |x.st.stack|
            && forall j :: 0 <= j < |x.st.stack| && j < x.a.base + thisidx - 2 * CALLDELTA ==> y.st.stack[j] == x.st.stack[j]
  {
    assert StepAt(p, xs, envs, 0);
    StepRel(p, xs[0], envs[0], xs[1]);
    CallStep(p, xs[0], envs[0], xs[1], thisidx);
  }

  lemma RunLast(p: Program, xs: seq<Both>, envs: seq<Env>)
    requires Run(p, xs, envs) && |envs| >= 1
    ensures StepsTo(p, xs[|envs| - 1], envs[|envs| - 1], xs[|envs|])
  {
    assert StepAt(p, xs, envs, |envs| - 1);
  }

  lemma CallEnds(p: Program, y: Both, z: Both, env: Env, end: Both, k: nat)
    requires Rel(z.st, z.a) && StepsTo(p, z, env, end) && IsRet(p, z.a)
    requires |y.a.calls| == k > 0 && Preserved(y.st, y.a, z.st, z.a, k, 0) && |end.a.calls| == k - 1
    ensures var c := y.a.calls[k - 1];
            && end.st.rbp == c.caller && end.st.pc == c.ret
            && In(y.st.stack, y.a.base + MTDIDX2) && |end.st.stack| == |y.st.stack|
            && end.st.stack[y.a.base + MTDIDX2] == Null
            && forall j :: 0 <= j < |y.st.stack| && j < y.a.base - 2 * CALLDELTA ==> end.st.stack[j] == y.st.stack[j]
  {
    RetStep(p, z, env, end);
    RetDepth(p, z, env, end);
    assert z.a.calls[k - 1] == z.a.calls[..k][k - 1];
  }

  lemma RetDepth(p: Program, x: Both, env: Env, y: Both)
    requires StepsTo(p, x, env, y) && IsRet(p, x.a)
    ensures |x.a.calls| == |y.a.calls| + 1
  {
  }

  /** A step that raises an exception: THROW, ERROR, a native method, or a stack overflow. */
  predicate Throws(p: Program, x: Both, env: Env) {
    && 0 <= x.a.pc < |p.code|
    && match p.code[x.a.pc]
       case THROW(_) => x.st.pending
       case ERROR(_) => true
       case SCALL(_, _, _) => env.throws
       case VCALL(_, _, _) => x.a.base > p.uplimit
       case _ => false
  }

  /** `a1` is `a` with one more live TRY of the current frame. */
  ghost predicate Entered(a: Ctl, a1: Ctl, target: int) {
    && |a1.guards| == |a.guards| + 1 && a1.guards[..|a.guards|] == a.guards && a1.outer == a.outer
    && var g := a1.guards[|a.guards|];
       g.base == a.base && g.esp == a.esp && g.calls == a.calls && g.target == target
  }

  lemma TryStep(p: Program, x: Both, env: Env, y: Both)
    requires Rel(x.st, x.a) && StepsTo(p, x, env, y) && p.code[x.a.pc].TRY?
    ensures Rel(y.st, y.a) && Entered(x.a, y.a, p.code[x.a.pc].target)
  {
    StepRel(p, x, env, y);
  }

  lemma ThrowStep(p: Program, x: Both, env: Env, y: Both)
    requires Rel(x.st, x.a) && StepsTo(p, x, env, y) && Throws(p, x, env)
    ensures Rel(y.st, y.a) && x.a.guards != []
    ensures var g := x.a.guards[|x.a.guards| - 1];
            y.a == Ctl(g.base, g.target, g.esp, g.calls, x.a.guards[..|x.a.guards| - 1], x.a.outer)
  {
    StepRefines(p, x.st, x.a, env);
  }

  lemma SamePrefix(x: seq<Guard>, y: seq<Guard>, n: nat)
    requires n + 1 <= |x| && n + 1 <= |y| && x[..n + 1] == y[..n + 1]
    ensures x[..n] == y[..n] && x[n] == y[n]
  {
    assert x[..n] == x[..n + 1][..n];
    assert x[n] == x[..n + 1][n];
  }

  /** A run that starts with a TRY and keeps its handler live. */
  ghost predicate Guarded(p: Program, xs: seq<Both>, envs: seq<Env>) {
    && Run(p, xs, envs) && |envs| >= 2 && Rel(xs[0].st, xs[0].a)
    && 0 <= xs[0].a.pc < |p.code| && p.code[xs[0].a.pc].TRY?
    && forall i :: 0 < i < |envs| ==> |xs[i].a.guards| > |xs[0].a.guards|
  }

  lemma StaysLive(p: Program, xs: seq<Both>, envs: seq<Env>)
    requires Guarded(p, xs, envs)
    ensures var last := xs[|envs| - 1];
            && Rel(last.st, last.a) && StepsTo(p, last, envs[|envs| - 1], xs[|envs|])
            && GuardHeld(xs[0].a, last.a, p.code[xs[0].a.pc].target)
  {
    var n, m := |envs|, |xs[0].a.guards|;
    RunLast(p, xs, envs);
    TryFirst(p, xs, envs);
    RunPreserves(p, xs, envs, 1, n - 1, 0, m + 1);
    GuardSurvives(xs[0].a, xs[1], xs[n - 1], p.code[xs[0].a.pc].target);
  }

  lemma TryFirst(p: Program, xs: seq<Both>, envs: seq<Env>)
    requires Run(p, xs, envs) && |envs| >= 1 && Rel(xs[0].st, xs[0].a)
    requires 0 <= xs[0].a.pc < |p.code| && p.code[xs[0].a.pc].TRY?
    ensures Rel(xs[1].st, xs[1].a) && Entered(xs[0].a, xs[1].a, p.code[xs[0].a.pc].target)
  {
    assert StepAt(p, xs, envs, 0);
    TryStep(p, xs[0], envs[0], xs[1]);
  }

  /** The guard pushed by the TRY at `a`, and all older ones, are still in `last`. */
  ghost predicate GuardHeld(a: Ctl, last: Ctl, target: int) {
    && |last.guards| > |a.guards|
    && last.outer == a.outer && last.guards[..|a.guards|] == a.guards
    && var g := last.guards[|a.guards|];
       g.base == a.base && g.esp == a.esp && g.calls == a.calls && g.target == target
  }

  lemma GuardSurvives(a: Ctl, y: Both, z: Both, target: int)
    requires Entered(a, y.a, target) && Preserved(y.st, y.a, z.st, z.a, 0, |a.guards| + 1) && z.a.outer == y.a.outer
    ensures GuardHeld(a, z.a, target)
  {
    SamePrefix(z.a.guards, y.a.guards, |a.guards|);
  }

  /** TRY ... throw: if a TRY stays live until a throw for which it is the innermost one, the
      throw restores the frame, `esp`, the abstract call stack and the handler chain of the
      TRY, and continues at the TRY's jump target. */
  lemma ThrowRestores(p: Program, xs: seq<Both>, envs: seq<Env>)
    requires Guarded(p, xs, envs)
    requires |xs[|envs| - 1].a.guards| == |xs[0].a.guards| + 1 && Throws(p, xs[|envs| - 1], envs[|envs| - 1])
    ensures var st, end := xs[0].st, xs[|envs|].st;
            && end.rbp == st.rbp && end.esp == st.esp && end.ehdr == st.ehdr
            && end.pc == p.code[st.pc].target
    ensures xs[|envs|].a == xs[0].a.(pc := p.code[xs[0].a.pc].target) && Rel(xs[|envs|].st, xs[|envs|].a)
  {
    var n := |envs|;
    StaysLive(p, xs, envs);
    ThrowStep(p, xs[n - 1], envs[n - 1], xs[n]);
  }

  lemma TryEndStep(p: Program, x: Both, env: Env, y: Both, m: nat)
    requires Rel(x.st, x.a) && StepsTo(p, x, env, y) && IsTryEnd(p, x.a) && |y.a.guards| == m
    ensures Rel(y.st, y.a) && m < |x.a.guards| && y.a.guards == x.a.guards[..m] && y.a.outer == x.a.outer
  {
    StepRefines(p, x.st, x.a, env);
  }

  /** TRY ... TRYEND: the chain is the one from just before the TRY, even when TRYs entered
      in between have not been ended. */
  lemma TryEndRestores(p: Program, xs: seq<Both>, envs: seq<Env>)
    requires Guarded(p, xs, envs)
    requires IsTryEnd(p, xs[|envs| - 1].a) && |xs[|envs|].a.guards| == |xs[0].a.guards|
    ensures xs[|envs|].st.ehdr == xs[0].st.ehdr
    ensures xs[|envs|].a.guards == xs[0].a.guards && Rel(xs[|envs|].st, xs[|envs|].a)
  {
    var n := |envs|;
    StaysLive(p, xs, envs);
    TryEndStep(p, xs[n - 1], envs[n - 1], xs[n], |xs[0].a.guards|);
  }
}
