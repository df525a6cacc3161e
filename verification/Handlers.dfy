/** The handler chain as a linked structure: when it is well founded, when a TRY makes it
    cyclic, and when a throw is caught. */
module Handlers {
  import opened Wrappers
  import opened Machine
  import opened Refinement

  ghost predicate Acyclic(hdrs: map<nat, Handler>, e: Option<nat>) {
    exists ids :: Chain(hdrs, e, ids)
  }

  /** Handler identities of the abstract list, innermost first. */
  function Ids(guards: seq<Guard>): seq<nat> {
    if guards == [] then [] else [guards[|guards| - 1].hdr] + Ids(guards[..|guards| - 1])
  }

  /** In every related state the chain is acyclic and mirrors the abstract handler list, the
      handlers of enclosing runs included. */
  lemma ChainMirrors(st: State, a: Ctl)
    requires Rel(st, a)
    ensures Chain(st.hdrs, st.ehdr, Ids(a.guards) + a.outer)
    ensures Acyclic(st.hdrs, st.ehdr)
  {
    ChainFrom(st, a, |a.guards|);
    assert a.guards[..|a.guards|] == a.guards;
  }

  lemma {:induction false} ChainFrom(st: State, a: Ctl, n: nat)
    requires Guards(st, a) && n <= |a.guards|
    ensures Chain(st.hdrs, ParentOf(a.guards, a.outer, n), Ids(a.guards[..n]) + a.outer)
    decreases n
  {
    if n > 0 {
      assert GuardOk(st, a, n - 1);
      assert a.guards[..n][..n - 1] == a.guards[..n - 1];
      ChainFrom(st, a, n - 1);
      assert (Ids(a.guards[..n]) + a.outer)[1..] == Ids(a.guards[..n - 1]) + a.outer;
    } else {
      assert Ids(a.guards[..n]) + a.outer == a.outer;
    }
  }

  lemma {:induction false} LiveIn(guards: seq<Guard>, i: nat)
    requires i < |guards|
    ensures guards[i].hdr in Ids(guards)
  {
    if i < |guards| - 1 {
      LiveIn(guards[..|guards| - 1], i);
    }
  }

  /** The handler object that TRY uses: the one already in the register, or a new one. */
  function TryHandler(st: State, hn: int, alloc: nat): nat
    requires In(st.stack, st.rbp + hn)
  {
    var w := st.stack[st.rbp + hn];
    if w.Obj? && w.id in st.hdrs then w.id else alloc
  }

  /** A TRY keeps the chain acyclic exactly when its handler object is not already in it.
      TRY reuses the object in its register without asking whether it is live. */
  lemma {:induction false} TryAcyclicIff(st: State, ids: seq<nat>, target: int, hn: int, alloc: nat)
    requires In(st.stack, st.rbp + hn) && Chain(st.hdrs, st.ehdr, ids)
    ensures StepTry(st, target, hn, alloc).Next?
    ensures var st' := StepTry(st, target, hn, alloc).st;
            && (Acyclic(st'.hdrs, st'.ehdr) <==> TryHandler(st, hn, alloc) !in ids)
            && (TryHandler(st, hn, alloc) !in ids ==> Chain(st'.hdrs, st'.ehdr, [TryHandler(st, hn, alloc)] + ids))
  {
    var h := TryHandler(st, hn, alloc);
    var st' := StepTry(st, target, hn, alloc).st;
    if h !in ids {
      ChainFrame(st.hdrs, st'.hdrs, st.ehdr, ids);
      assert ([h] + ids)[1..] == ids;
      assert Chain(st'.hdrs, st'.ehdr, [h] + ids);
    } else {
      var k := FirstOf(ids, h);
      forall ids' ensures !Chain(st'.hdrs, st'.ehdr, ids') {
        NoWayOut(st.hdrs, st'.hdrs, st.ehdr, ids, h, k, ids');
      }
    }
  }

  function FirstOf(ids: seq<nat>, h: nat): (k: nat)
    requires h in ids
    ensures k < |ids| && ids[k] == h && h !in ids[..k]
  {
    if ids[0] == h then 0 else
      var k := 1 + FirstOf(ids[1..], h);
      assert forall j :: 0 <= j < k ==> ids[j] == (if j == 0 then ids[0] else ids[1..][j - 1]);
      assert forall j :: 0 < j < k ==> ids[1..][..k - 1][j - 1] == ids[j];
      k
  }

  /** Any chain from `e` under the updated objects first runs through `ids[..k]`, back to `h`. */
  lemma {:induction false} Follow(m: map<nat, Handler>, m': map<nat, Handler>, e: Option<nat>, ids: seq<nat>, h: nat, k: nat, ids': seq<nat>)
    requires Chain(m, e, ids) && k < |ids| && ids[k] == h && h !in ids[..k]
    requires forall x :: x in m && x != h ==> x in m' && m'[x] == m[x]
    requires Chain(m', e, ids')
    ensures k < |ids'| && Chain(m', Some(h), ids'[k..])
    decreases k
  {
    assert ids' != [];
    if k > 0 {
      assert ids[0] == ids[..k][0];
      assert ids[1..][..k - 1] == ids[..k][1..];
      Follow(m, m', m[ids[0]].parent, ids[1..], h, k - 1, ids'[1..]);
      assert ids'[1..][k - 1..] == ids'[k..];
    } else {
      assert ids'[0..] == ids';
    }
  }

  lemma {:induction false} NoWayOut(m: map<nat, Handler>, m': map<nat, Handler>, e: Option<nat>, ids: seq<nat>, h: nat, k: nat, ids': seq<nat>)
    requires Chain(m, e, ids) && k < |ids| && ids[k] == h && h !in ids[..k]
    requires forall x :: x in m && x != h ==> x in m' && m'[x] == m[x]
    requires h in m' && m'[h].parent == e
    ensures !Chain(m', Some(h), ids')
    decreases |ids'|
  {
    if Chain(m', Some(h), ids') {
      Follow(m, m', e, ids, h, k, ids'[1..]);
      NoWayOut(m, m', e, ids, h, k, ids'[1..][k..]);
    }
  }

  /** A throw is caught exactly when some pair of words at or below the start of its scan holds
      the innermost live handler; otherwise the process exits, live handler or not. */
  lemma {:induction false} CaughtIff(st: State, sfp: int, start: int)
    requires st.pending && st.ehdr.Some? && st.ehdr.value in st.hdrs
    requires 2 * (sfp / 2 + start / 2) + 1 < |st.stack|
    ensures var found := exists k :: 0 <= k <= sfp / 2 + start / 2 && st.stack[2 * k] == Obj(st.ehdr.value);
            && (Throw(st, sfp, start).Next? <==> found)
            && (Throw(st, sfp, start) == Uncaught <==> !found)
  {
    UnwindSpec(st.stack, sfp / 2 + start / 2, st.ehdr.value);
  }

  /** Leaving a frame is safe exactly when no TRY entered in it is still live: otherwise the
      abstract handler list refers to a frame that no longer exists. */
  lemma {:induction false} RetKeepsIff(st: State, a: Ctl)
    requires Rel(st, a) && a.calls != []
    ensures StepRet(st).Next? && AbsRet(a).Some?
    ensures Rel(StepRet(st).st, AbsRet(a).value)
       <==> forall i :: 0 <= i < |a.guards| ==> |a.guards[i].calls| < |a.calls|
  {
    if forall i :: 0 <= i < |a.guards| ==> |a.guards[i].calls| < |a.calls| {
      RetRefines(st, a);
    } else {
      var i :| 0 <= i < |a.guards| && |a.guards[i].calls| >= |a.calls|;
      assert !GuardOk(StepRet(st).st, AbsRet(a).value, i);
    }
  }

  // ---------------------------------------------------------------------------
  // Runs in which the conditions fail

  const QUIET := Env(100, false, false, [], map[])

  function Start(words: nat): State {
    State(seq(words, _ => Null), 0, 0, 0, map[], None, false, 7)
  }

  /** Entering the same register twice: the handler becomes its own parent. */
  lemma ReenteredTry()
    ensures var o := Steps(Program([TRY(9, 0), TRY(9, 0)], map[], 100), Start(2), [QUIET, QUIET]);
            o.Next? && o.st.ehdr == Some(100) && o.st.hdrs[100].parent == Some(100) && !Acyclic(o.st.hdrs, o.st.ehdr)
  {
    var p, envs := Program([TRY(9, 0), TRY(9, 0)], map[], 100), [QUIET, QUIET];
    assert envs[..1] == [QUIET] && envs[..0] == [] == envs[..1][..0];
    var s1 := Step(p, Start(2), QUIET).st;
    assert Steps(p, Start(2), [QUIET]) == Next(s1);
    assert Chain(s1.hdrs, s1.ehdr, [100]);
    TryAcyclicIff(s1, [100], 9, 0, 100);
    assert Steps(p, Start(2), envs) == Step(p, s1, QUIET);
  }

  /** A live handler in a register above the start of the scan: nothing is caught. */
  lemma {:induction false} HandlerAbove()
    ensures var p := Program([TRY(9, 4), ERROR(0)], map[], 100);
            && Steps(p, Start(6), [QUIET]).Next? && Steps(p, Start(6), [QUIET]).st.ehdr == Some(100)
            && Steps(p, Start(6), [QUIET, QUIET]) == Uncaught
  {
    var p, envs := Program([TRY(9, 4), ERROR(0)], map[], 100), [QUIET, QUIET];
    assert envs[..1] == [QUIET] && [QUIET][..0] == [];
    var s1 := Step(p, Start(6), QUIET).st;
    assert Steps(p, Start(6), [QUIET]) == Next(s1);
    CaughtIff(s1.(pending := true), 0, 0);
    assert forall k :: 0 <= k <= 0 ==> s1.stack[2 * k] == Null;
  }

  lemma OneMore(p: Program, st: State, envs: seq<Env>, env: Env)
    requires Steps(p, st, envs).Next?
    ensures Steps(p, st, envs + [env]) == Step(p, Steps(p, st, envs).st, env)
  {
    assert (envs + [env])[..|envs|] == envs;
  }

  const LEAVES := Program([VCALL_(8, 8, 1), ERROR(8), TRY(5, 0), RET], map[1 := 2], 100)

  lemma CalleeEntered() returns (s: State)
    ensures Steps(LEAVES, Start(12), [QUIET, QUIET]) == Next(s)
    ensures s.pc == 3 && s.rbp == 8 && s.ehdr == Some(100) && s.hdrs == map[100 := Handler(5, 4, 4, None)]
    ensures |s.stack| == 12 && s.stack[8] == Obj(100) && s.stack[3] == Num(8) && s.stack[5] == Pc(1)
  {
    var s1 := Step(LEAVES, Start(12), QUIET).st;
    s := Step(LEAVES, s1, QUIET).st;
    OneMore(LEAVES, Start(12), [], QUIET);
    OneMore(LEAVES, Start(12), [QUIET], QUIET);
    assert [] + [QUIET] == [QUIET] && [QUIET] + [QUIET] == [QUIET, QUIET];
  }

  /** A call whose callee enters a TRY and returns without TRYEND. */
  lemma LeavesFrame() returns (s: State)
    ensures Steps(LEAVES, Start(12), [QUIET, QUIET, QUIET]) == Next(s)
    ensures s.rbp == 0 && s.pc == 1 && s.ehdr == Some(100) && s.hdrs == map[100 := Handler(5, 4, 4, None)]
    ensures |s.stack| == 12 && s.stack[8] == Obj(100)
  {
    var s2 := CalleeEntered();
    s := Step(LEAVES, s2, QUIET).st;
    OneMore(LEAVES, Start(12), [QUIET, QUIET], QUIET);
    assert [QUIET, QUIET] + [QUIET] == [QUIET, QUIET, QUIET];
  }

  /** An error in the caller then resumes in the callee's frame, which is gone. */
  lemma ResumesDeadFrame()
    ensures var o := Steps(LEAVES, Start(12), [QUIET, QUIET, QUIET, QUIET]);
            o.Next? && o.st.rbp == 8 && o.st.pc == 5
  {
    var s := LeavesFrame();
    CaughtIff(s.(pending := true), 0, 8);
    assert s.stack[2 * 4] == Obj(100);
    OneMore(LEAVES, Start(12), [QUIET, QUIET, QUIET], QUIET);
    assert [QUIET, QUIET, QUIET] + [QUIET] == [QUIET, QUIET, QUIET, QUIET];
  }
}
