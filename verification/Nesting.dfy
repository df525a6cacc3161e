/** Properly ended TRYs, in any frames and any nested VM runs.  TRYEND leaves the one shared
    default handler in its register, and the next TRY there takes it up again; this module
    says exactly when that is harmless. */
module Nesting {
  import opened Wrappers
  import opened Machine
  import opened Refinement
  import opened Handlers

  /** A TRY or TRYEND executed in the frame at `base`. */
  datatype Op = Enter(base: int, hn: int, target: int, alloc: nat) | Leave(base: int, hn: int)

  function Slot(op: Op): int {
    op.base + op.hn
  }

  function Do(st: State, op: Op): Outcome {
    match op
    case Enter(base, hn, target, alloc) => StepTry(st.(rbp := base), target, hn, alloc)
    case Leave(base, hn) => StepTryEnd(st.(rbp := base), hn)
  }

  function DoAll(st: State, ops: seq<Op>): Outcome {
    if ops == [] then Next(st)
    else
      var o := DoAll(st, ops[..|ops| - 1]);
      if o.Next? then Do(o.st, ops[|ops| - 1]) else o
  }

  // ---------------------------------------------------------------------------
  // What can be seen in the program text

  /** A TRY that has not been ended; `again` says that an earlier TRY on its register has. */
  datatype Live = Live(slot: int, again: bool)

  /** Live TRYs, innermost first, and registers on which a TRY has been ended. */
  datatype Hist = Hist(open: seq<Live>, ended: set<int>)

  /** Properly ended: a TRYEND is for the innermost live TRY. */
  function Track(h: Hist, op: Op): Option<Hist> {
    var w := Slot(op);
    if op.Enter? then Some(h.(open := [Live(w, w in h.ended)] + h.open))
    else if h.open != [] && h.open[0].slot == w then Some(Hist(h.open[1..], h.ended + {w}))
    else None
  }

  function TrackAll(h: Hist, ops: seq<Op>): Option<Hist> {
    if ops == [] then Some(h)
    else
      match TrackAll(h, ops[..|ops| - 1])
      case None => None
      case Some(h1) => Track(h1, ops[|ops| - 1])
  }

  /** The TRY is on the register of a live TRY, or would be the second live one that takes up
      the default handler; `taken` says that an enclosing run already has it live. */
  predicate Clashes(h: Hist, taken: bool, w: int) {
    || (exists i :: 0 <= i < |h.open| && h.open[i].slot == w)
    || (w in h.ended && (taken || exists i :: 0 <= i < |h.open| && h.open[i].again))
  }

  predicate ClashAt(h: Hist, taken: bool, ops: seq<Op>, n: nat)
    requires n < |ops|
  {
    var now := TrackAll(h, ops[..n]);
    ops[n].Enter? && now.Some? && Clashes(now.value, taken, Slot(ops[n]))
  }

  // ---------------------------------------------------------------------------
  // Start states

  /** A word that holds no handler and nothing that will become one. */
  predicate Foreign(st: State, ops: seq<Op>, w: int)
    requires In(st.stack, w)
  {
    st.stack[w].Obj? ==>
      && st.stack[w].id !in st.hdrs && st.stack[w].id != st.dflt
      && forall k :: 0 <= k < |ops| && ops[k].Enter? ==> ops[k].alloc != st.stack[w].id
  }

  /** New handlers get new identities. */
  predicate NewIds(st: State, ops: seq<Op>, n: nat) {
    && (forall k :: n <= k < |ops| && ops[k].Enter? ==> ops[k].alloc !in st.hdrs && ops[k].alloc != st.dflt)
    && (forall i, k :: 0 <= i < k < |ops| && ops[i].Enter? && ops[k].Enter? ==> ops[i].alloc != ops[k].alloc)
  }

  /** `outer` are the live handlers; registers on which a TRY was ended before hold the default
      handler, all others no handler at all. */
  ghost predicate Ready(st: State, ended: set<int>, outer: seq<nat>, ops: seq<Op>) {
    && Chain(st.hdrs, st.ehdr, outer)
    && (forall w :: w in ended ==> In(st.stack, w) && st.stack[w] == Obj(st.dflt) && st.dflt in st.hdrs)
    && (forall k :: 0 <= k < |ops| ==> In(st.stack, Slot(ops[k])) && (Slot(ops[k]) in ended || Foreign(st, ops, Slot(ops[k]))))
    && NewIds(st, ops, 0)
  }

  // ---------------------------------------------------------------------------
  // The invariant while nothing clashes

  predicate IsOpen(h: Hist, w: int) {
    exists i :: 0 <= i < |h.open| && h.open[i].slot == w
  }

  /** A register of the program holds the default handler, that of a live TRY, or none. */
  predicate RegisterOk(st: State, h: Hist, ops: seq<Op>, w: int) {
    In(st.stack, w) && (w in h.ended || IsOpen(h, w) || Foreign(st, ops, w))
  }

  predicate OpenOk(st: State, h: Hist, ids: seq<nat>) {
    && |ids| == |h.open|
    && (forall i :: 0 <= i < |ids| ==>
          In(st.stack, h.open[i].slot) && st.stack[h.open[i].slot] == Obj(ids[i])
          && (h.open[i].again <==> ids[i] == st.dflt))
    && (forall i, j :: 0 <= i < j < |h.open| ==> h.open[i].slot != h.open[j].slot)
  }

  ghost predicate Inv(st: State, h: Hist, ids: seq<nat>, outer: seq<nat>, ops: seq<Op>, n: nat) {
    && Chain(st.hdrs, st.ehdr, ids + outer)
    && OpenOk(st, h, ids)
    && (forall w :: w in h.ended ==> In(st.stack, w) && st.stack[w] == Obj(st.dflt) && st.dflt in st.hdrs)
    && (forall k :: 0 <= k < |ops| ==> RegisterOk(st, h, ops, Slot(ops[k])))
    && NewIds(st, ops, n)
  }

  /** Without a clash TRY puts its handler in front of the chain. */
  lemma {:induction false} EnterChain(st: State, h: Hist, ids: seq<nat>, outer: seq<nat>, ops: seq<Op>, n: nat) returns (id: nat)
    requires n < |ops| && ops[n].Enter? && Inv(st, h, ids, outer, ops, n)
    requires !Clashes(h, st.dflt in outer, Slot(ops[n]))
    ensures id == (if Slot(ops[n]) in h.ended then st.dflt else ops[n].alloc) && !IsOpen(h, Slot(ops[n]))
    ensures Do(st, ops[n]).Next?
    ensures var st' := Do(st, ops[n]).st;
            && Chain(st'.hdrs, st'.ehdr, [id] + ids + outer)
            && st'.stack == st.stack[Slot(ops[n]) := Obj(id)]
            && st'.dflt == st.dflt && st'.hdrs.Keys == st.hdrs.Keys + {id}
  {
    var st0 := st.(rbp := ops[n].base);
    id := TryHandler(st0, ops[n].hn, ops[n].alloc);
    NotLive(st, h, ids, outer, ops, n);
    assert RegisterOk(st, h, ops, Slot(ops[n]));
    TryEffect(st, ops[n]);
    TryAcyclicIff(st0, ids + outer, ops[n].target, ops[n].hn, ops[n].alloc);
    assert [id] + ids + outer == [id] + (ids + outer);
  }

  lemma TryEffect(st: State, op: Op)
    requires op.Enter? && In(st.stack, Slot(op))
    ensures Do(st, op).Next?
    ensures var st', id := Do(st, op).st, TryHandler(st.(rbp := op.base), op.hn, op.alloc);
            && st'.stack == st.stack[Slot(op) := Obj(id)]
            && st'.dflt == st.dflt && st'.hdrs.Keys == st.hdrs.Keys + {id}
  {
  }

  lemma {:induction false} EnterKeeps(st: State, h: Hist, ids: seq<nat>, outer: seq<nat>, ops: seq<Op>, n: nat)
    returns (ids': seq<nat>)
    requires n < |ops| && ops[n].Enter? && Inv(st, h, ids, outer, ops, n)
    requires !Clashes(h, st.dflt in outer, Slot(ops[n]))
    ensures Do(st, ops[n]).Next? && Do(st, ops[n]).st.dflt == st.dflt
    ensures Inv(Do(st, ops[n]).st, Track(h, ops[n]).value, ids', outer, ops, n + 1)
  {
    var id := EnterChain(st, h, ids, outer, ops, n);
    ids' := [id] + ids;
    assert RegisterOk(st, h, ops, Slot(ops[n]));
    OpenPush(st, h, ids, id, Slot(ops[n]));
    forall k | 0 <= k < |ops|
      ensures RegisterOk(Do(st, ops[n]).st, Track(h, ops[n]).value, ops, Slot(ops[k]))
    {
      RegisterKeeps(st, h, Do(st, ops[n]).st, ops, n, id, Slot(ops[k]));
    }
  }

  /** Without a clash the handler that TRY takes up is not live. */
  lemma {:induction false} NotLive(st: State, h: Hist, ids: seq<nat>, outer: seq<nat>, ops: seq<Op>, n: nat)
    requires n < |ops| && ops[n].Enter? && Inv(st, h, ids, outer, ops, n)
    requires !Clashes(h, st.dflt in outer, Slot(ops[n]))
    ensures var id := TryHandler(st.(rbp := ops[n].base), ops[n].hn, ops[n].alloc);
            && id !in ids + outer && !IsOpen(h, Slot(ops[n]))
            && id == (if Slot(ops[n]) in h.ended then st.dflt else ops[n].alloc)
  {
    ChainIn(st.hdrs, st.ehdr, ids + outer);
    assert Slot(ops[n]) in h.ended ==> st.dflt !in ids + outer;
  }

  lemma OpenPush(st: State, h: Hist, ids: seq<nat>, id: nat, w: int)
    requires OpenOk(st, h, ids) && In(st.stack, w) && !IsOpen(h, w)
    requires id == st.dflt <==> w in h.ended
    ensures OpenOk(Put(st, w, Obj(id)), h.(open := [Live(w, w in h.ended)] + h.open), [id] + ids)
  {
  }

  lemma RegisterKeeps(st: State, h: Hist, st': State, ops: seq<Op>, n: nat, id: nat, v: int)
    requires n < |ops| && ops[n].Enter? && id == (if Slot(ops[n]) in h.ended then st.dflt else ops[n].alloc)
    requires RegisterOk(st, h, ops, v) && In(st.stack, Slot(ops[n])) && st'.dflt == st.dflt
    requires st'.stack == st.stack[Slot(ops[n]) := Obj(id)] && st'.hdrs.Keys == st.hdrs.Keys + {id}
    ensures RegisterOk(st', Track(h, ops[n]).value, ops, v)
  {
    OpenStays(h, Slot(ops[n]), v);
  }

  lemma OpenStays(h: Hist, w: int, v: int)
    ensures var h' := h.(open := [Live(w, w in h.ended)] + h.open);
            IsOpen(h', v) <==> IsOpen(h, v) || v == w
  {
    var h' := h.(open := [Live(w, w in h.ended)] + h.open);
    assert h'.open[0].slot == w;
    if IsOpen(h, v) {
      var i :| 0 <= i < |h.open| && h.open[i].slot == v;
      assert h'.open[i + 1].slot == v;
    }
  }

  /** TRYEND on the innermost live TRY takes it off the chain. */
  lemma {:induction false} LeaveChain(st: State, h: Hist, ids: seq<nat>, outer: seq<nat>, op: Op)
    requires op.Leave? && Chain(st.hdrs, st.ehdr, ids + outer) && OpenOk(st, h, ids) && Track(h, op).Some?
    ensures Do(st, op).Next? && ids != []
    ensures var st' := Do(st, op).st;
            && Chain(st'.hdrs, st'.ehdr, ids[1..] + outer)
            && st'.stack == st.stack[Slot(op) := Obj(st.dflt)]
            && st'.dflt == st.dflt && st'.hdrs.Keys == st.hdrs.Keys + {st.dflt}
  {
    var all, st0 := ids + outer, st.(rbp := op.base);
    assert all[0] == ids[0] && all[1..] == ids[1..] + outer;
    ChainTail(st.hdrs, WithDefault(st0), st.ehdr, all);
  }

  /** What is behind the first handler of a chain stays a chain when handlers are added. */
  lemma ChainTail(m: map<nat, Handler>, m': map<nat, Handler>, e: Option<nat>, ids: seq<nat>)
    requires Chain(m, e, ids) && ids != [] && forall h :: h in m ==> h in m' && m'[h] == m[h]
    ensures ids[0] in m && Chain(m', m[ids[0]].parent, ids[1..])
  {
    ChainFrame(m, m', m[ids[0]].parent, ids[1..]);
  }

  lemma LeaveOpen(st: State, h: Hist, ids: seq<nat>, st': State, op: Op)
    requires op.Leave? && OpenOk(st, h, ids) && Track(h, op).Some?
    requires st'.stack == st.stack[Slot(op) := Obj(st.dflt)] && st'.dflt == st.dflt
    ensures OpenOk(st', Track(h, op).value, ids[1..])
  {
  }

  lemma LeaveRegister(st: State, h: Hist, st': State, ops: seq<Op>, op: Op, w: int)
    requires op.Leave? && RegisterOk(st, h, ops, w) && In(st.stack, Slot(op)) && Track(h, op).Some?
    requires st'.stack == st.stack[Slot(op) := Obj(st.dflt)] && st'.dflt == st.dflt
    requires st'.hdrs.Keys == st.hdrs.Keys + {st.dflt}
    ensures RegisterOk(st', Track(h, op).value, ops, w)
  {
    if IsOpen(h, w) && w != Slot(op) {
      var i :| 0 <= i < |h.open| && h.open[i].slot == w;
      assert Track(h, op).value.open[i - 1].slot == w;
    }
  }

  lemma {:induction false} LeaveKeeps(st: State, h: Hist, ids: seq<nat>, outer: seq<nat>, ops: seq<Op>, n: nat)
    requires n < |ops| && ops[n].Leave? && Inv(st, h, ids, outer, ops, n) && Track(h, ops[n]).Some?
    ensures Do(st, ops[n]).Next? && Do(st, ops[n]).st.dflt == st.dflt && ids != []
    ensures Inv(Do(st, ops[n]).st, Track(h, ops[n]).value, ids[1..], outer, ops, n + 1)
  {
    LeaveChain(st, h, ids, outer, ops[n]);
    var st' := Do(st, ops[n]).st;
    LeaveOpen(st, h, ids, st', ops[n]);
    forall k | 0 <= k < |ops|
      ensures RegisterOk(st', Track(h, ops[n]).value, ops, Slot(ops[k]))
    {
      LeaveRegister(st, h, st', ops, ops[n], Slot(ops[k]));
    }
  }

  lemma {:induction false} TrackPrefix(h: Hist, ops: seq<Op>, n: nat)
    requires TrackAll(h, ops).Some? && n <= |ops|
    ensures TrackAll(h, ops[..n]).Some?
    decreases |ops|
  {
    if n < |ops| {
      assert ops[..|ops| - 1][..n] == ops[..n];
      TrackPrefix(h, ops[..|ops| - 1], n);
    } else {
      assert ops[..n] == ops;
    }
  }

  lemma DoAllStep(st: State, ops: seq<Op>, n: nat)
    requires n < |ops| && DoAll(st, ops[..n]).Next?
    ensures DoAll(st, ops[..n + 1]) == Do(DoAll(st, ops[..n]).st, ops[n])
  {
    assert ops[..n + 1][..n] == ops[..n];
  }

  lemma TrackAllStep(h: Hist, ops: seq<Op>, n: nat)
    requires n < |ops| && TrackAll(h, ops).Some?
    ensures TrackAll(h, ops[..n]).Some? && Track(TrackAll(h, ops[..n]).value, ops[n]).Some?
    ensures TrackAll(h, ops[..n + 1]) == Track(TrackAll(h, ops[..n]).value, ops[n])
  {
    TrackPrefix(h, ops, n);
    TrackPrefix(h, ops, n + 1);
    assert ops[..n + 1][..n] == ops[..n];
  }

  lemma StepKeeps(st: State, h: Hist, ids: seq<nat>, outer: seq<nat>, ops: seq<Op>, n: nat)
    returns (ids': seq<nat>)
    requires n < |ops| && Inv(st, h, ids, outer, ops, n) && Track(h, ops[n]).Some?
    requires ops[n].Enter? ==> !Clashes(h, st.dflt in outer, Slot(ops[n]))
    ensures Do(st, ops[n]).Next? && Do(st, ops[n]).st.dflt == st.dflt
    ensures Inv(Do(st, ops[n]).st, Track(h, ops[n]).value, ids', outer, ops, n + 1)
  {
    if ops[n].Enter? {
      ids' := EnterKeeps(st, h, ids, outer, ops, n);
    } else {
      LeaveKeeps(st, h, ids, outer, ops, n);
      ids' := ids[1..];
    }
  }

  lemma Begins(st: State, ended: set<int>, outer: seq<nat>, ops: seq<Op>)
    requires Ready(st, ended, outer, ops)
    ensures Inv(st, Hist([], ended), [], outer, ops, 0)
  {
    assert [] + outer == outer;
  }

  lemma {:induction false} RunKeeps(st: State, ended: set<int>, outer: seq<nat>, ops: seq<Op>, n: nat)
    returns (ids: seq<nat>)
    requires Ready(st, ended, outer, ops) && n <= |ops| && TrackAll(Hist([], ended), ops).Some?
    requires forall k :: 0 <= k < n ==> !ClashAt(Hist([], ended), st.dflt in outer, ops, k)
    ensures DoAll(st, ops[..n]).Next? && TrackAll(Hist([], ended), ops[..n]).Some?
    ensures DoAll(st, ops[..n]).st.dflt == st.dflt
    ensures Inv(DoAll(st, ops[..n]).st, TrackAll(Hist([], ended), ops[..n]).value, ids, outer, ops, n)
    decreases n
  {
    if n == 0 {
      ids := [];
      Begins(st, ended, outer, ops);
    } else {
      ids := RunKeeps(st, ended, outer, ops, n - 1);
      DoAllStep(st, ops, n - 1);
      TrackAllStep(Hist([], ended), ops, n - 1);
      var s, h := DoAll(st, ops[..n - 1]).st, TrackAll(Hist([], ended), ops[..n - 1]).value;
      assert !ClashAt(Hist([], ended), st.dflt in outer, ops, n - 1);
      ids := StepKeeps(s, h, ids, outer, ops, n - 1);
    }
  }

  /** A clash closes the chain into a cycle at once. */
  lemma {:induction false} ClashCycles(st: State, h: Hist, ids: seq<nat>, outer: seq<nat>, ops: seq<Op>, n: nat)
    requires n < |ops| && ops[n].Enter? && Inv(st, h, ids, outer, ops, n)
    requires Clashes(h, st.dflt in outer, Slot(ops[n]))
    ensures Do(st, ops[n]).Next? && !Acyclic(Do(st, ops[n]).st.hdrs, Do(st, ops[n]).st.ehdr)
  {
    var st0 := st.(rbp := ops[n].base);
    ChainIn(st.hdrs, st.ehdr, ids + outer);
    if IsOpen(h, Slot(ops[n])) {
      var i :| 0 <= i < |h.open| && h.open[i].slot == Slot(ops[n]);
      assert (ids + outer)[i] == ids[i];
    } else if st.dflt !in outer {
      var i :| 0 <= i < |h.open| && h.open[i].again;
      assert (ids + outer)[i] == ids[i];
    }
    TryAcyclicIff(st0, ids + outer, ops[n].target, ops[n].hn, ops[n].alloc);
  }

  ghost predicate AcyclicAt(st: State, ops: seq<Op>, n: nat)
    requires n <= |ops|
  {
    var o := DoAll(st, ops[..n]);
    o.Next? && Acyclic(o.st.hdrs, o.st.ehdr)
  }

  /** Properly ended TRYs keep the handler chain acyclic throughout exactly when no TRY is on
      the register of a live one and at most one live TRY, enclosing runs included, is on a
      register on which a TRY was ended before. */
  lemma {:induction false} ProperlyEndedIff(st: State, ended: set<int>, outer: seq<nat>, ops: seq<Op>)
    requires Ready(st, ended, outer, ops) && TrackAll(Hist([], ended), ops).Some?
    ensures (forall n :: 0 <= n <= |ops| ==> AcyclicAt(st, ops, n))
       <==> forall n :: 0 <= n < |ops| ==> !ClashAt(Hist([], ended), st.dflt in outer, ops, n)
  {
    if forall n :: 0 <= n < |ops| ==> !ClashAt(Hist([], ended), st.dflt in outer, ops, n) {
      forall n | 0 <= n <= |ops|
        ensures AcyclicAt(st, ops, n)
      {
        var ids := RunKeeps(st, ended, outer, ops, n);
        assert Chain(DoAll(st, ops[..n]).st.hdrs, DoAll(st, ops[..n]).st.ehdr, ids + outer);
      }
    } else {
      var n := CycleAtFirstClash(st, ended, outer, ops);
      assert !AcyclicAt(st, ops, n + 1);
    }
  }

  lemma {:induction false} CycleAtFirstClash(st: State, ended: set<int>, outer: seq<nat>, ops: seq<Op>) returns (n: nat)
    requires Ready(st, ended, outer, ops) && TrackAll(Hist([], ended), ops).Some?
    requires exists k :: 0 <= k < |ops| && ClashAt(Hist([], ended), st.dflt in outer, ops, k)
    ensures n < |ops| && !AcyclicAt(st, ops, n + 1)
  {
    n := FirstClash(Hist([], ended), st.dflt in outer, ops, |ops|);
    var ids := RunKeeps(st, ended, outer, ops, n);
    ClashCycles(DoAll(st, ops[..n]).st, TrackAll(Hist([], ended), ops[..n]).value, ids, outer, ops, n);
    assert ops[..n + 1][..n] == ops[..n];
  }

  lemma {:induction false} FirstClash(h: Hist, taken: bool, ops: seq<Op>, m: nat) returns (n: nat)
    requires m <= |ops| && exists k :: 0 <= k < m && ClashAt(h, taken, ops, k)
    ensures n < m && ClashAt(h, taken, ops, n) && forall k :: 0 <= k < n ==> !ClashAt(h, taken, ops, k)
    decreases m
  {
    if exists k :: 0 <= k < m - 1 && ClashAt(h, taken, ops, k) {
      n := FirstClash(h, taken, ops, m - 1);
    } else {
      n := m - 1;
    }
  }

  const SIX := Program([TRY(9, 0), TRYEND(0), TRY(9, 2), TRYEND(2), TRY(9, 0), TRY(9, 2)], map[], 100)
  const NEXT := QUIET.(alloc := 101)

  lemma StepIsTry(p: Program, st: State, env: Env)
    requires 0 <= st.pc < |p.code| && p.code[st.pc].TRY?
    ensures Step(p, st, env) == StepTry(st, p.code[st.pc].target, p.code[st.pc].hn, env.alloc)
  {
  }

  lemma StepIsTryEnd(p: Program, st: State, env: Env)
    requires 0 <= st.pc < |p.code| && p.code[st.pc].TRYEND?
    ensures Step(p, st, env) == StepTryEnd(st, p.code[st.pc].hn)
  {
  }

  /** TRY and TRYEND on a register: the chain is back and the register holds the default handler. */
  lemma PairEffect(st: State, target: int, hn: int, alloc: nat) returns (s: State)
    requires In(st.stack, st.rbp + hn)
    ensures StepTry(st, target, hn, alloc).Next? && StepTryEnd(StepTry(st, target, hn, alloc).st, hn) == Next(s)
    ensures StepTry(st, target, hn, alloc).st.pc == st.pc + 1 && StepTry(st, target, hn, alloc).st.rbp == st.rbp
    ensures s.pc == st.pc + 2 && s.rbp == st.rbp && s.ehdr == st.ehdr && s.dflt == st.dflt && s.dflt in s.hdrs
    ensures s.stack == st.stack[st.rbp + hn := Obj(s.dflt)]
  {
    s := StepTryEnd(StepTry(st, target, hn, alloc).st, hn).st;
  }

  lemma TryPair(p: Program, st: State, envs: seq<Env>, s0: State, hn: int, env: Env) returns (s: State)
    requires Steps(p, st, envs) == Next(s0)
    requires 0 <= s0.pc < |p.code| - 1 && p.code[s0.pc] == TRY(9, hn) && p.code[s0.pc + 1] == TRYEND(hn)
    requires In(s0.stack, s0.rbp + hn)
    ensures Steps(p, st, envs + [env] + [QUIET]) == Next(s)
    ensures s.pc == s0.pc + 2 && s.rbp == s0.rbp && s.ehdr == s0.ehdr && s.dflt == s0.dflt && s.dflt in s.hdrs
    ensures s.stack == s0.stack[s0.rbp + hn := Obj(s.dflt)]
  {
    s := PairEffect(s0, 9, hn, env.alloc);
    StepIsTry(p, s0, env);
    OneMore(p, st, envs, env);
    StepIsTryEnd(p, StepTry(s0, 9, hn, env.alloc).st, QUIET);
    OneMore(p, st, envs + [env], QUIET);
  }

  lemma OneEnded() returns (s: State)
    ensures Steps(SIX, Start(4), [QUIET, QUIET]) == Next(s)
    ensures s.pc == 2 && s.rbp == 0 && s.ehdr == None && s.dflt == 7 && 7 in s.hdrs
    ensures |s.stack| == 4 && s.stack[0] == Obj(7)
  {
    s := TryPair(SIX, Start(4), [], Start(4), 0, QUIET);
    assert [] + [QUIET] + [QUIET] == [QUIET, QUIET];
  }

  /** TRY and TRYEND on two registers leave the default handler in both. */
  lemma {:induction false} TwoEnded() returns (s: State)
    ensures Steps(SIX, Start(4), [QUIET, QUIET, NEXT, QUIET]) == Next(s)
    ensures s.pc == 4 && s.rbp == 0 && s.ehdr == None && s.dflt == 7 && 7 in s.hdrs
    ensures |s.stack| == 4 && s.stack[0] == Obj(7) == s.stack[2]
  {
    var s1 := OneEnded();
    s := TryPair(SIX, Start(4), [QUIET, QUIET], s1, 2, NEXT);
    assert [QUIET, QUIET] + [NEXT] + [QUIET] == [QUIET, QUIET, NEXT, QUIET];
  }

  /** Six instructions with every TRYEND in its place: TRY on both registers again makes the
      default handler its own parent. */
  lemma {:induction false} SharedDefault()
    ensures var o := Steps(SIX, Start(4), [QUIET, QUIET, NEXT, QUIET, QUIET, QUIET]);
            && o.Next? && o.st.ehdr == Some(7) && 7 in o.st.hdrs && o.st.hdrs[7].parent == Some(7)
            && !Acyclic(o.st.hdrs, o.st.ehdr)
  {
    var s := TwoEnded();
    var envs := [QUIET, QUIET, NEXT, QUIET];
    OneMore(SIX, Start(4), envs, QUIET);
    StepIsTry(SIX, s, QUIET);
    var s5 := StepTry(s, 9, 0, 100).st;
    OneMore(SIX, Start(4), envs + [QUIET], QUIET);
    StepIsTry(SIX, s5, QUIET);
    assert envs + [QUIET] + [QUIET] == [QUIET, QUIET, NEXT, QUIET, QUIET, QUIET];
    assert Chain(s5.hdrs, s5.ehdr, [7]);
    TryAcyclicIff(s5, [7], 9, 2, 100);
  }
}
