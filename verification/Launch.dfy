/** `KNH_SCALL`: a C caller runs a Konoha method through the precompiled VEXEC; EXIT code. */
module Launch {
  import opened Machine
  import opened Refinement
  import opened Runs
  import opened Handlers

  /** Word index of the frame base of `sfp`. */
  function Words(sfp: int): int { 2 * sfp }

  /** `KNH_SCALL` up to entering the VM.  The number word of `sfp[thisidx - 1]` is word -1 of
      the new frame, which is where VEXEC looks for the method. */
  function ScallEnter(st: State, lsfp: int, rtnidx: int, mtd: nat, argc: nat, vexec: int): State
    requires In(st.stack, Words(lsfp + rtnidx + CALLDELTA - 1) + 1)
  {
    var thisidx := lsfp + rtnidx + CALLDELTA;
    Put(st, Words(thisidx - 1) + 1, Mtd(mtd)).(
      esp := Words(thisidx + argc + 1), rbp := Words(thisidx), pc := vexec)
  }

  /** `KNH_SCALL` after the VM has returned. */
  function ScallLeave(st: State, lsfp: int, rtnidx: int): State
    requires In(st.stack, Words(lsfp + rtnidx + CALLDELTA - 1) + 1)
  {
    Put(st, Words(lsfp + rtnidx + CALLDELTA - 1) + 1, Null).(esp := Words(lsfp + rtnidx))
  }

  /** The words of the object and the number of `sfp`. */
  predicate Below(sfp: int, esp: int) {
    Words(sfp) + 1 < esp
  }

  /** `esp` lies right above the last argument: the receiver and all `argc` arguments, both
      words of each, are below it, and no further slot is. */
  lemma {:induction false} ArgumentsBelow(st: State, lsfp: int, rtnidx: int, mtd: nat, argc: nat, vexec: int)
    requires In(st.stack, Words(lsfp + rtnidx + CALLDELTA - 1) + 1)
    ensures var s, this_ := ScallEnter(st, lsfp, rtnidx, mtd, argc, vexec), lsfp + rtnidx + CALLDELTA;
            && s.rbp == Words(this_) && s.pc == vexec
            && (forall i :: this_ <= i <= this_ + argc ==> Below(i, s.esp))
            && (forall i :: i > this_ + argc ==> !Below(i, s.esp))
            && s.stack == st.stack[s.rbp - 1 := Mtd(mtd)]
  {
  }

  /** The abstract machine of a fresh VM run: no calls and no handlers of its own, inside runs
      whose live handlers are `outer`. */
  function Fresh(st: State, outer: seq<nat>): Ctl {
    Ctl(st.rbp, st.pc, st.esp, [], [], outer)
  }

  lemma FreshRel(st: State, outer: seq<nat>, lsfp: int, rtnidx: int, mtd: nat, argc: nat, vexec: int)
    requires In(st.stack, Words(lsfp + rtnidx + CALLDELTA - 1) + 1) && Chain(st.hdrs, st.ehdr, outer)
    ensures var s := ScallEnter(st, lsfp, rtnidx, mtd, argc, vexec); Rel(s, Fresh(s, outer))
  {
  }

  lemma VexecStep(p: Program, x: Both, env: Env, y: Both)
    requires x.st.rbp == x.a.base && x.st.pc == x.a.pc && StepsTo(p, x, env, y)
    requires 0 <= x.a.pc < |p.code| && p.code[x.a.pc].VEXEC?
    ensures x.a.calls == [] && y.a.guards == x.a.guards && y.a.outer == x.a.outer && y.a.base == x.a.base
    ensures y.a.calls == [Call(x.a.base, x.a.pc + 1)]
    ensures In(x.st.stack, x.a.base + MTDIDX2) && x.st.stack[x.a.base + MTDIDX2].Mtd?
    ensures x.st.stack[x.a.base + MTDIDX2].id in p.entry && y.st.pc == p.entry[x.st.stack[x.a.base + MTDIDX2].id]
    ensures |y.st.stack| == |x.st.stack|
    ensures forall j :: 0 <= j < |x.st.stack| && j < x.a.base - 2 * CALLDELTA ==> y.st.stack[j] == x.st.stack[j]
  {
  }

  /** While the launched method runs, every live handler was entered inside it. */
  ghost predicate AllInside(a: Ctl) {
    forall i :: 0 <= i < |a.guards| ==> |a.guards[i].calls| >= 1
  }

  lemma InsideStep(p: Program, x: Both, env: Env, y: Both)
    requires StepsTo(p, x, env, y) && AllInside(x.a) && |x.a.calls| >= 1
    ensures AllInside(y.a)
  {
  }

  lemma {:induction false} InsideRun(p: Program, xs: seq<Both>, envs: seq<Env>, n: nat)
    requires Run(p, xs, envs) && 1 <= n < |xs| && AllInside(xs[1].a)
    requires forall i :: 1 <= i < n ==> |xs[i].a.calls| >= 1
    ensures AllInside(xs[n].a)
    decreases n
  {
    if n > 1 {
      InsideRun(p, xs, envs, n - 1);
      assert StepAt(p, xs, envs, n - 1);
      InsideStep(p, xs[n - 1], envs[n - 1], xs[n]);
    }
  }

  lemma RetLeavesNoGuard(p: Program, x: Both, env: Env, y: Both)
    requires StepsTo(p, x, env, y) && IsRet(p, x.a) && |x.a.calls| == 1 && AllInside(x.a)
    ensures y.a.guards == []
  {
    if |x.a.guards| > 0 {
      RetGuardShallow(p, x, env, y, 0);
    }
  }

  lemma RetGuardShallow(p: Program, x: Both, env: Env, y: Both, i: nat)
    requires StepsTo(p, x, env, y) && IsRet(p, x.a) && i < |x.a.guards|
    ensures |x.a.guards[i].calls| < |x.a.calls|
  {
  }

  /** A launched run: KNH_SCALL's VEXEC, a body at depth one or more, and the matching RET. */
  ghost predicate Launched(p: Program, st: State, outer: seq<nat>, lsfp: int, rtnidx: int, mtd: nat, argc: nat, vexec: int, xs: seq<Both>, envs: seq<Env>) {
    && In(st.stack, Words(lsfp + rtnidx + CALLDELTA - 1) + 1) && Chain(st.hdrs, st.ehdr, outer)
    && 0 <= vexec < |p.code| && p.code[vexec] == VEXEC
    && Run(p, xs, envs) && |envs| >= 2
    && xs[0].st == ScallEnter(st, lsfp, rtnidx, mtd, argc, vexec) && xs[0].a == Fresh(xs[0].st, outer)
    && (forall i :: 0 < i < |envs| ==> |xs[i].a.calls| >= 1)
    && xs[|envs|].a.calls == [] && IsRet(p, xs[|envs| - 1].a)
  }

  lemma LaunchFirst(p: Program, st: State, outer: seq<nat>, lsfp: int, rtnidx: int, mtd: nat, argc: nat, vexec: int, xs: seq<Both>, envs: seq<Env>)
    requires Launched(p, st, outer, lsfp, rtnidx, mtd, argc, vexec, xs, envs)
    ensures Rel(xs[0].st, xs[0].a) && Rel(xs[1].st, xs[1].a)
    ensures mtd in p.entry && xs[1].st.pc == p.entry[mtd]
    ensures var base := Words(lsfp + rtnidx + CALLDELTA);
            && xs[1].a.base == base && xs[1].a.calls == [Call(base, vexec + 1)] && xs[1].a.guards == []
            && xs[1].a.outer == outer && OuterKept(xs[1].a, st.hdrs, xs[1].st.hdrs) && |xs[1].st.stack| == |st.stack|
            && forall j :: 0 <= j < |st.stack| && j < base - 2 * CALLDELTA ==> xs[1].st.stack[j] == st.stack[j]
  {
    FreshRel(st, outer, lsfp, rtnidx, mtd, argc, vexec);
    assert StepAt(p, xs, envs, 0);
    VexecStep(p, xs[0], envs[0], xs[1]);
    StepRel(p, xs[0], envs[0], xs[1]);
  }

  /** KNH_SCALL agrees with the VM's view of linkage: VEXEC enters the very method that
      KNH_SCALL stored, the matching RET comes back to the op after VEXEC with `rbp`
      unchanged, the handler chain is the caller's, record by record, nothing below the return slot
      `lsfp[rtnidx]` has changed, and at the end `esp` is `lsfp + rtnidx` and the method
      word is NULL. */
  lemma ScallReturns(p: Program, st: State, outer: seq<nat>, lsfp: int, rtnidx: int, mtd: nat, argc: nat, vexec: int, xs: seq<Both>, envs: seq<Env>)
    requires Launched(p, st, outer, lsfp, rtnidx, mtd, argc, vexec, xs, envs)
    ensures mtd in p.entry && xs[1].st.pc == p.entry[mtd]
    ensures xs[|envs|].st.pc == vexec + 1 && xs[|envs|].st.rbp == xs[0].st.rbp && xs[|envs|].st.ehdr == st.ehdr
    ensures OuterKept(Fresh(st, outer), st.hdrs, xs[|envs|].st.hdrs) && Chain(xs[|envs|].st.hdrs, st.ehdr, outer)
    ensures |xs[|envs|].st.stack| == |st.stack|
    ensures var end := ScallLeave(xs[|envs|].st, lsfp, rtnidx);
            && end.esp == Words(lsfp + rtnidx)
            && end.stack[Words(lsfp + rtnidx + CALLDELTA - 1) + 1] == Null
            && forall j :: 0 <= j < |st.stack| && j < Words(lsfp + rtnidx) ==> end.stack[j] == st.stack[j]
  {
    LaunchFirst(p, st, outer, lsfp, rtnidx, mtd, argc, vexec, xs, envs);
    BodyReturns(p, xs, envs);
    BodyEnds(p, xs, envs);
  }

  /** From the state after VEXEC to the matching RET, at depth one or more in between. */
  ghost predicate Body(p: Program, xs: seq<Both>, envs: seq<Env>) {
    && Run(p, xs, envs) && |envs| >= 2 && Rel(xs[1].st, xs[1].a)
    && |xs[1].a.calls| == 1 && xs[1].a.guards == []
    && (forall i :: 0 < i < |envs| ==> |xs[i].a.calls| >= 1)
    && xs[|envs|].a.calls == [] && IsRet(p, xs[|envs| - 1].a)
  }

  lemma BodyReturns(p: Program, xs: seq<Both>, envs: seq<Env>)
    requires Body(p, xs, envs)
    ensures var y, end := xs[1], xs[|envs|];
            && OuterKept(y.a, y.st.hdrs, end.st.hdrs)
            && end.st.rbp == y.a.calls[0].caller && end.st.pc == y.a.calls[0].ret
            && |end.st.stack| == |y.st.stack| && In(y.st.stack, y.a.base + MTDIDX2)
            && forall j :: 0 <= j < |y.st.stack| && j < y.a.base - 2 * CALLDELTA ==> end.st.stack[j] == y.st.stack[j]
  {
    var n := |envs|;
    RunPreserves(p, xs, envs, 1, n - 1, 1, 0);
    RunLast(p, xs, envs);
    CallEnds(p, xs[1], xs[n - 1], envs[n - 1], xs[n], 1);
    RetHandlers(p, xs[n - 1], envs[n - 1], xs[n]);
  }

  lemma BodyEnds(p: Program, xs: seq<Both>, envs: seq<Env>)
    requires Body(p, xs, envs)
    ensures var y, end := xs[1], xs[|envs|];
            Rel(end.st, end.a) && end.a.guards == [] && end.a.outer == y.a.outer
  {
    var n := |envs|;
    RunPreserves(p, xs, envs, 1, n - 1, 1, 0);
    RunLast(p, xs, envs);
    InsideRun(p, xs, envs, n - 1);
    RetDepth(p, xs[n - 1], envs[n - 1], xs[n]);
    RetLeavesNoGuard(p, xs[n - 1], envs[n - 1], xs[n]);
    StepRel(p, xs[n - 1], envs[n - 1], xs[n]);
  }

  lemma RetHandlers(p: Program, x: Both, env: Env, y: Both)
    requires Rel(x.st, x.a) && StepsTo(p, x, env, y) && IsRet(p, x.a)
    ensures y.st.hdrs == x.st.hdrs
  {
  }

  /** A VM run started by a native method is what the calling run expects of a native method:
      it leaves every handler that is live there as it was, writes nothing below its own
      launching slot, and gives the chain back when its own handlers are gone. */
  lemma NestedIsNative(p: Program, st: State, a: Ctl, xs: seq<Both>, envs: seq<Env>)
    requires Rel(st, a) && Run(p, xs, envs) && Rel(xs[0].st, xs[0].a)
    requires xs[0].st.hdrs == st.hdrs && xs[0].a.outer == Ids(a.guards) + a.outer && xs[0].a.calls == []
    ensures var end := xs[|envs|];
            && LiveKept(st, a, end.st.hdrs)
            && (end.a.guards == [] ==> end.st.ehdr == st.ehdr)
            && |end.st.stack| == |xs[0].st.stack|
            && forall j :: 0 <= j < |xs[0].st.stack| && j < xs[0].a.base - 2 * (CALLDELTA + 1) ==>
                 end.st.stack[j] == xs[0].st.stack[j]
  {
    RunPreserves(p, xs, envs, 0, |envs|, 0, 0);
    ChainMirrors(st, a);
    forall h | IsLive(a, h)
      ensures h in xs[0].a.outer
    {
      if h !in a.outer {
        var i :| 0 <= i < |a.guards| && a.guards[i].hdr == h;
        LiveIn(a.guards, i);
      }
    }
  }

  // ---------------------------------------------------------------------------
  // A throw that leaves a nested run

  /** `st'` has all that the run in state `st` needs to go on: its frames, the registers and
      records of its handlers, and the chain. */
  ghost predicate Inside(st: State, a: Ctl, st': State) {
    && |st'.stack| == |st.stack| && st'.ehdr == st.ehdr && st'.dflt == st.dflt && LiveKept(st, a, st'.hdrs)
    && forall j :: 0 <= j < |st.stack| && (j < a.base || IsSlot(a.guards, j)) ==> st'.stack[j] == st.stack[j]
  }

  /** A run at `base` keeps off the frame at `a.base` and the registers of the handlers there. */
  predicate Above(a: Ctl, base: int) {
    && a.base <= base - 2 * (CALLDELTA + 1)
    && forall i :: 0 <= i < |a.guards| ==> a.guards[i].slot < base - 2 * (CALLDELTA + 1)
  }

  /** `x` begins a run inside the run that is in state `st`. */
  ghost predicate Begins(st: State, a: Ctl, x: Both) {
    && x.a.calls == [] && x.a.guards == [] && x.a.outer == Ids(a.guards) + a.outer
    && Rel(x.st, x.a) && Inside(st, a, x.st) && Above(a, x.a.base)
  }

  /** A native method has what is needed inside. */
  lemma NativeInside(st: State, a: Ctl, base: int, shift: int, esp: int, mtd: nat, env: Env)
    requires Rel(st, a) && Even(base) && base >= a.base + 2 * CALLDELTA
    requires LinkFits(st.stack, base) && WritesFit(st.stack, base, env.writes)
    requires forall i :: 0 <= i < |env.writes| ==> OwnWrite(a, base, env.writes[i].0)
    requires LiveKept(st, a, env.after)
    ensures Inside(st, a, NativeCall(st, base, shift, esp, mtd, env))
  {
    var linked := Link(st.stack, base, shift, st.pc + 1, mtd);
    LinkKeepsEven(st.stack, base, shift, st.pc + 1, mtd);
    NativeSpares(a, linked, base, env.writes);
    forall j | 0 <= j < |st.stack| && IsSlot(a.guards, j)
      ensures WriteAll(linked, base, env.writes)[j] == st.stack[j]
    {
      var i :| 0 <= i < |a.guards| && a.guards[i].slot == j;
      assert GuardOk(st, a, i);
    }
  }

  /** `KNH_SCALL` from inside begins a run inside. */
  lemma ScallBegins(st: State, a: Ctl, st1: State, lsfp: int, rtnidx: int, mtd: nat, argc: nat, vexec: int)
    requires Rel(st, a) && Inside(st, a, st1) && Above(a, Words(lsfp + rtnidx + CALLDELTA))
    requires In(st1.stack, Words(lsfp + rtnidx + CALLDELTA - 1) + 1)
    ensures var s := ScallEnter(st1, lsfp, rtnidx, mtd, argc, vexec);
            Begins(st, a, Both(s, Fresh(s, Ids(a.guards) + a.outer)))
  {
    ChainMirrors(st, a);
    KeptChain(st, a, st1.hdrs);
    FreshRel(st1, Ids(a.guards) + a.outer, lsfp, rtnidx, mtd, argc, vexec);
  }

  lemma LiveInChain(a: Ctl, h: nat)
    ensures h in Ids(a.guards) + a.outer <==> IsLive(a, h)
  {
    if h in Ids(a.guards) {
      IdsLive(a.guards, h);
    }
    if i :| 0 <= i < |a.guards| && a.guards[i].hdr == h {
      LiveIn(a.guards, i);
    }
  }

  lemma {:induction false} IdsLive(guards: seq<Guard>, h: nat)
    requires h in Ids(guards)
    ensures exists i :: 0 <= i < |guards| && guards[i].hdr == h
  {
    var n := |guards| - 1;
    if guards[n].hdr != h {
      IdsLive(guards[..n], h);
      var i :| 0 <= i < n && guards[..n][i].hdr == h;
      assert guards[i].hdr == h;
    }
  }

  /** The chain of live handlers survives what keeps the live ones. */
  lemma KeptChain(st: State, a: Ctl, after: map<nat, Handler>)
    requires Chain(st.hdrs, st.ehdr, Ids(a.guards) + a.outer) && LiveKept(st, a, after)
    ensures Chain(after, st.ehdr, Ids(a.guards) + a.outer)
  {
    forall h | h in Ids(a.guards) + a.outer && h in st.hdrs
      ensures h in after && after[h] == st.hdrs[h]
    {
      LiveInChain(a, h);
      assert IsLive(a, h);
    }
    ChainFrame(st.hdrs, after, st.ehdr, Ids(a.guards) + a.outer);
  }

  lemma DefaultStep(p: Program, st: State, env: Env)
    requires Step(p, st, env).Next?
    ensures Step(p, st, env).st.dflt == st.dflt
  {
  }

  lemma {:induction false} DefaultStays(p: Program, xs: seq<Both>, envs: seq<Env>, n: nat)
    requires Run(p, xs, envs) && n <= |envs|
    ensures xs[n].st.dflt == xs[0].st.dflt
  {
    if n > 0 {
      DefaultStays(p, xs, envs, n - 1);
      assert StepAt(p, xs, envs, n - 1);
      DefaultStep(p, xs[n - 1].st, envs[n - 1]);
    }
  }

  /** As long as no handler of its own is live, a run inside leaves all that is needed there. */
  lemma StaysInside(p: Program, st: State, a: Ctl, xs: seq<Both>, envs: seq<Env>)
    requires Rel(st, a) && Run(p, xs, envs) && Begins(st, a, xs[0]) && xs[|envs|].a.guards == []
    ensures Inside(st, a, xs[|envs|].st) && Rel(xs[|envs|].st, xs[|envs|].a)
    ensures xs[0].a.base <= xs[|envs|].a.base && xs[|envs|].a.outer == Ids(a.guards) + a.outer
  {
    var x, end := xs[0], xs[|envs|];
    RunPreserves(p, xs, envs, 0, |envs|, 0, 0);
    FloorBelow(end.st, end.a, 0);
    DefaultStays(p, xs, envs, |envs|);
    assert end.st.ehdr == Head(x.a.outer) == x.st.ehdr;
    LiveStaysKept(st, a, x, end.st);
  }

  lemma LiveStaysKept(st: State, a: Ctl, x: Both, end: State)
    requires Rel(st, a) && Begins(st, a, x) && OuterKept(x.a, x.st.hdrs, end.hdrs)
    ensures LiveKept(st, a, end.hdrs)
  {
    forall h | h in st.hdrs && IsLive(a, h) ensures h in end.hdrs && end.hdrs[h] == st.hdrs[h] {
      LiveInChain(a, h);
      assert h in x.a.outer;
    }
  }

  /** Inside a run without handlers of its own one is inside the run around it. */
  lemma InsideTrans(st: State, a: Ctl, x: Both, st': State)
    requires Inside(st, a, x.st) && x.a.guards == [] && x.a.outer == Ids(a.guards) + a.outer && Above(a, x.a.base)
    requires Inside(x.st, x.a, st')
    ensures Inside(st, a, st')
  {
    forall j | 0 <= j < |st.stack| && (j < a.base || IsSlot(a.guards, j)) ensures st'.stack[j] == st.stack[j] {
      assert j < x.a.base;
    }
    forall h | h in st.hdrs && IsLive(a, h) ensures h in st'.hdrs && st'.hdrs[h] == st.hdrs[h] {
      LiveInChain(a, h);
      assert IsLive(x.a, h);
    }
  }

  /** Seen from the run around, nothing but the registers has moved. */
  lemma InsideRel(st: State, a: Ctl, st': State)
    requires Rel(st, a) && Inside(st, a, st')
    ensures Rel(st'.(rbp := a.base, pc := a.pc, esp := a.esp, pending := true), a)
  {
    var st1, st2 := st.(stack := st'.stack), st'.(rbp := a.base, pc := a.pc, esp := a.esp, pending := true);
    NativeLinks(st.stack, st'.stack, a.base, a.calls);
    forall i | 0 <= i < |a.guards| && GuardOk(st, a, i) ensures st'.stack[a.guards[i].slot] == st.stack[a.guards[i].slot] {
      assert IsSlot(a.guards, a.guards[i].slot);
    }
    GuardsKeep(st, a, st1, a);
    HandlersKeep(st1, a, st'.hdrs);
    GuardsKeep(st1.(hdrs := st'.hdrs), a, st2, a);
  }

  /** A throw inside is caught by the innermost TRY of the run around: that run goes on as if
      its native method had thrown. */
  lemma ThrowFromInside(st: State, a: Ctl, st': State, sfp: int, start: int)
    requires Rel(st, a) && Inside(st, a, st') && ThrowOk(a, sfp, start)
    requires 2 * (sfp / 2 + start / 2) + 1 < |st.stack|
    ensures Raise(st', sfp, start).Next? && AbsThrow(a).Some?
    ensures Rel(Raise(st', sfp, start).st, AbsThrow(a).value)
  {
    InsideRel(st, a, st');
    var st1 := st'.(rbp := a.base, pc := a.pc, esp := a.esp, pending := true);
    ThrowRefines(st1, a, sfp, start);
    assert Throw(st1, sfp, start) == Raise(st', sfp, start);
  }

  /** An error at the end of a nested run without a handler of its own, raised at or above its
      frame, continues at the innermost TRY of the run that the nested one was started in,
      whose frames and handlers are as that TRY recorded them. */
  lemma NestedThrow(p: Program, st: State, a: Ctl, xs: seq<Both>, envs: seq<Env>, sfp: int, start: int)
    requires Rel(st, a) && Run(p, xs, envs) && Begins(st, a, xs[0]) && xs[|envs|].a.guards == []
    requires a.guards != [] && sfp >= xs[|envs|].a.base && start >= 0
    requires 2 * (sfp / 2 + start / 2) + 1 < |st.stack|
    ensures var o := Raise(xs[|envs|].st, sfp, start);
            o.Next? && AbsThrow(a).Some? && Rel(o.st, AbsThrow(a).value)
  {
    StaysInside(p, st, a, xs, envs);
    ScanReaches(a, xs[0].a.base, sfp, start);
    ThrowFromInside(st, a, xs[|envs|].st, sfp, start);
  }

  lemma ScanReaches(a: Ctl, base: int, sfp: int, start: int)
    requires a.guards != [] && Above(a, base) && sfp >= base && start >= 0
    ensures ThrowOk(a, sfp, start)
  {
    assert a.guards[|a.guards| - 1].slot < base;
    assert 2 * (sfp / 2) >= sfp - 1;
  }
}
