/** The abstract control machine: an explicit list of calls and an explicit list of live
    handlers.  It reads neither linkage words nor handler objects.  `Rel` ties it to the
    concrete VM and `StepRefines` shows that every disciplined step keeps the two together. */
module Refinement {
  import opened Wrappers
  import opened Machine

  /** One call in progress: the caller's base and the pc to resume there. */
  datatype Call = Call(caller: int, ret: int)

  /** One live TRY: where its handler register is, and everything to be restored. */
  datatype Guard = Guard(slot: int, hdr: nat, base: int, esp: int, target: int, calls: seq<Call>)

  /** `outer` lists the live handlers of the enclosing VM runs, innermost first. */
  datatype Ctl = Ctl(base: int, pc: int, esp: int, calls: seq<Call>, guards: seq<Guard>, outer: seq<nat>)

  // ---------------------------------------------------------------------------
  // Abstract steps.  `stack` is used for data only: the tested register of JMPF and the
  // method word that a caller prepared for CALL and VEXEC.

  function Advance(a: Ctl): Ctl {
    a.(pc := a.pc + 1)
  }

  function AbsEnter(p: Program, a: Ctl, thisidx: int, espshift: int, mtd: nat): Option<Ctl> {
    if mtd in p.entry then
      Some(a.(base := a.base + thisidx, pc := p.entry[mtd], esp := a.base + espshift,
              calls := a.calls + [Call(a.base, a.pc + 1)]))
    else None
  }

  function AbsRet(a: Ctl): Option<Ctl> {
    if a.calls == [] then None
    else
      var n := |a.calls| - 1;
      Some(a.(base := a.calls[n].caller, pc := a.calls[n].ret, calls := a.calls[..n]))
  }

  function AbsVexec(p: Program, a: Ctl, stack: seq<Word>): Option<Ctl> {
    var w := a.base + MTDIDX2;
    if In(stack, w) && stack[w].Mtd? && stack[w].id in p.entry then
      Some(a.(pc := p.entry[stack[w].id], calls := a.calls + [Call(a.base, a.pc + 1)]))
    else None
  }

  function AbsThrow(a: Ctl): Option<Ctl> {
    if a.guards == [] then None
    else
      var n := |a.guards| - 1;
      var g := a.guards[n];
      Some(Ctl(g.base, g.target, g.esp, g.calls, a.guards[..n], a.outer))
  }

  function AbsTry(a: Ctl, stack: seq<Word>, hdrs: set<nat>, target: int, hn: int, alloc: nat): Option<Ctl> {
    var w := a.base + hn;
    if !In(stack, w) then None
    else
      var h := if stack[w].Obj? && stack[w].id in hdrs then stack[w].id else alloc;
      Some(Advance(a.(guards := a.guards + [Guard(w, h, a.base, a.esp, target, a.calls)])))
  }

  /** The live TRY that used register word `w`, or -1. */
  function Find(guards: seq<Guard>, w: int): (i: int)
    ensures -1 <= i < |guards|
    ensures i >= 0 ==> guards[i].slot == w
    ensures i == -1 ==> forall k :: 0 <= k < |guards| ==> guards[k].slot != w
  {
    if guards == [] then -1
    else
      var n := |guards| - 1;
      if guards[n].slot == w then n else Find(guards[..n], w)
  }

  function AbsTryEnd(a: Ctl, hn: int): Option<Ctl> {
    var i := Find(a.guards, a.base + hn);
    if i < 0 then None else Some(Advance(a.(guards := a.guards[..i])))
  }

  function AbsStep(p: Program, st: State, a: Ctl, env: Env): Option<Ctl> {
    if !(0 <= a.pc < |p.code|) then None
    else
      match p.code[a.pc]
      case NSET(_, _) => Some(Advance(a))
      case NMOV(_, _) => Some(Advance(a))
      case OMOV(_, _) => Some(Advance(a))
      case JMP(target) => Some(a.(pc := target))
      case JMPF(target, r) =>
        if !In(st.stack, a.base + r) then None
        else if Truth(st.stack[a.base + r]) then Some(Advance(a)) else Some(a.(pc := target))
      case VCALL(thisidx, espshift, mtd) =>
        if a.base > p.uplimit then AbsThrow(a) else AbsEnter(p, a, thisidx, espshift, mtd)
      case VCALL_(thisidx, espshift, mtd) => AbsEnter(p, a, thisidx, espshift, mtd)
      case CALL(thisidx, espshift) =>
        var w := a.base + thisidx + MTDIDX2;
        if In(st.stack, w) && st.stack[w].Mtd? then AbsEnter(p, a, thisidx, espshift, st.stack[w].id) else None
      case SCALL(_, espshift, _) =>
        if env.throws then AbsThrow(a) else Some(Advance(a.(esp := a.base + espshift)))
      case RET => AbsRet(a)
      case VEXEC => AbsVexec(p, a, st.stack)
      case ENTER => AbsVexec(p, a, st.stack)
      case EXIT => None
      case TRY(target, hn) => AbsTry(a, st.stack, st.hdrs.Keys, target, hn, env.alloc)
      case TRYEND(hn) => AbsTryEnd(a, hn)
      case THROW(_) => if st.pending then AbsThrow(a) else Some(Advance(a))
      case ERROR(_) => AbsThrow(a)
      case CATCH(target, _) => if env.matches then Some(Advance(a)) else Some(a.(pc := target))
  }

  // ---------------------------------------------------------------------------
  // Discipline

  predicate IsSlot(guards: seq<Guard>, w: int) {
    exists i :: 0 <= i < |guards| && guards[i].slot == w
  }

  predicate IsLive(a: Ctl, h: nat) {
    h in a.outer || exists i :: 0 <= i < |a.guards| && a.guards[i].hdr == h
  }

  /** A method writes its own frame or its return slot, never the register of a live handler. */
  predicate OwnWrite(a: Ctl, base: int, x: int) {
    (x >= 0 || x == -2 * CALLDELTA || x == -2 * CALLDELTA + 1) && !IsSlot(a.guards, base + x)
  }

  predicate Even(x: int) { x % 2 == 0 }

  predicate CallOk(thisidx: int, espshift: int) {
    thisidx >= 2 * CALLDELTA && Even(thisidx) && Even(espshift)
  }

  /** A throw starts its scan at or above the pair that holds the innermost handler. */
  predicate ThrowOk(a: Ctl, sfp: int, start: int) {
    a.guards != [] && a.guards[|a.guards| - 1].slot <= 2 * (sfp / 2 + start / 2)
  }

  /** TRY uses a register of its frame (or the launcher's slot below the return slot), and the
      handler object it is about to overwrite is not live. */
  predicate TryAllowed(st: State, a: Ctl, hn: int, alloc: nat) {
    && Even(hn) && (hn >= 0 || (hn == -2 * (CALLDELTA + 1) && a.calls == []))
    && In(st.stack, a.base + hn)
    && var w := st.stack[a.base + hn];
       if w.Obj? && w.id in st.hdrs then !IsLive(a, w.id) else alloc !in st.hdrs && alloc != st.dflt
  }

  /** A native method that runs the VM itself leaves the handlers that are live now alone. */
  predicate LiveKept(st: State, a: Ctl, after: map<nat, Handler>) {
    forall h {:trigger IsLive(a, h)} :: h in st.hdrs && IsLive(a, h) ==> h in after && after[h] == st.hdrs[h]
  }

  /** What the compiler has to respect: call frames start at least eight words up, writes stay
      in the frame, VEXEC only launches, a frame is not left and a handler not re-entered
      while its TRY is live, and TRYEND closes a live TRY of its own frame. */
  predicate Disciplined(p: Program, st: State, a: Ctl, env: Env) {
    0 <= a.pc < |p.code| &&
    match p.code[a.pc]
    case NSET(x, _) => OwnWrite(a, a.base, x)
    case NMOV(x, _) => OwnWrite(a, a.base, x)
    case OMOV(x, _) => OwnWrite(a, a.base, x)
    case JMP(_) => true
    case JMPF(_, _) => true
    case VCALL(thisidx, espshift, _) =>
      CallOk(thisidx, espshift) && (a.base > p.uplimit ==> ThrowOk(a, a.base, 0))
    case VCALL_(thisidx, espshift, _) => CallOk(thisidx, espshift)
    case CALL(thisidx, espshift) => CallOk(thisidx, espshift)
    case SCALL(thisidx, espshift, _) =>
      && CallOk(thisidx, espshift)
      && (forall i :: 0 <= i < |env.writes| ==> OwnWrite(a, a.base + thisidx, env.writes[i].0))
      && LiveKept(st, a, env.after)
      && (env.throws ==> ThrowOk(a, a.base + thisidx, 0))
    case RET => a.calls != [] && forall i :: 0 <= i < |a.guards| ==> |a.guards[i].calls| < |a.calls|
    case VEXEC => a.calls == []
    case ENTER => a.calls == []
    case EXIT => true
    case TRY(_, hn) => TryAllowed(st, a, hn, env.alloc)
    case TRYEND(hn) =>
      var i := Find(a.guards, a.base + hn);
      i >= 0 && |a.guards[i].calls| == |a.calls|
    case THROW(start) => st.pending ==> ThrowOk(a, a.base, start)
    case ERROR(start) => ThrowOk(a, a.base, start)
    case CATCH(_, en) => OwnWrite(a, a.base, en)
  }

  // ---------------------------------------------------------------------------
  // The relation

  /** Following the shift and pc words from `base` yields exactly `calls`, innermost last. */
  ghost predicate Links(stack: seq<Word>, base: int, calls: seq<Call>)
    decreases |calls|
  {
    && Even(base)
    && (calls != [] ==>
          var n := |calls| - 1;
          var c := calls[n];
          && 0 <= base + SHIFTIDX2 && base + MTDIDX2 < |stack|
          && stack[base + SHIFTIDX2] == Num(base - c.caller)
          && stack[base + PCIDX2] == Pc(c.ret)
          && (c.caller + 2 * CALLDELTA <= base || (c.caller == base && n == 0))
          && Links(stack, c.caller, calls[..n]))
  }

  /** The base of the frame at call depth `k`. */
  function BaseAt(base: int, calls: seq<Call>, k: nat): int
    requires k <= |calls|
  {
    if k == |calls| then base else calls[k].caller
  }

  function Head(ids: seq<nat>): Option<nat> {
    if ids == [] then None else Some(ids[0])
  }

  function ParentOf(guards: seq<Guard>, outer: seq<nat>, i: nat): Option<nat>
    requires i <= |guards|
  {
    if i == 0 then Head(outer) else Some(guards[i - 1].hdr)
  }

  /** Following `parentNC` from `e` visits exactly `ids` and then ends. */
  ghost predicate Chain(hdrs: map<nat, Handler>, e: Option<nat>, ids: seq<nat>)
    decreases |ids|
  {
    e == Head(ids) && (ids != [] ==> ids[0] in hdrs && Chain(hdrs, hdrs[ids[0]].parent, ids[1..]))
  }

  /** Guard `i` is faithfully recorded in its handler object and its register. */
  ghost predicate GuardOk(st: State, a: Ctl, i: nat)
    requires i < |a.guards|
  {
    var g := a.guards[i];
    && g.hdr in st.hdrs
    && st.hdrs[g.hdr] == Handler(g.target, g.base / 2, g.esp / 2, ParentOf(a.guards, a.outer, i))
    && Even(g.base) && Even(g.esp) && Even(g.slot)
    && In(st.stack, g.slot) && st.stack[g.slot] == Obj(g.hdr)
    && (g.calls != [] ==> g.base <= g.slot)
    && (g.base <= g.slot || g.slot == g.base - 2 * (CALLDELTA + 1))
    && g.calls <= a.calls
    && g.base == BaseAt(a.base, a.calls, |g.calls|)
    && g.hdr !in a.outer
  }

  ghost predicate Guards(st: State, a: Ctl) {
    && st.ehdr == ParentOf(a.guards, a.outer, |a.guards|)
    && Chain(st.hdrs, Head(a.outer), a.outer)
    && (forall i :: 0 <= i < |a.guards| ==> GuardOk(st, a, i))
    && Nested(a.guards)
  }

  /** Handlers are distinct objects, and inner ones were entered at least as deep as outer ones. */
  ghost predicate Nested(guards: seq<Guard>) {
    forall i, j :: 0 <= i < j < |guards| ==>
      guards[i].hdr != guards[j].hdr && |guards[i].calls| <= |guards[j].calls|
  }

  ghost predicate Rel(st: State, a: Ctl) {
    && st.rbp == a.base && st.pc == a.pc && st.esp == a.esp && Even(st.esp)
    && Links(st.stack, a.base, a.calls)
    && Guards(st, a)
  }

  // ---------------------------------------------------------------------------
  // Linkage under writes

  /** Linkage words are at odd addresses below the base; anything else may change. */
  lemma {:induction false} LinksFrame(s: seq<Word>, s': seq<Word>, base: int, calls: seq<Call>)
    requires Links(s, base, calls) && |s| == |s'|
    requires forall j :: 0 <= j < |s| && j < base && !Even(j) && j != base + MTDIDX2 && j != base - 2 * CALLDELTA + 1 ==>
               s[j] == s'[j] || (s[j].Mtd? && s'[j].Null?) || (calls == [] && j >= base - 2 * CALLDELTA)
    ensures Links(s', base, calls)
    decreases |calls|
  {
    if calls != [] {
      var n := |calls| - 1;
      var c := calls[n];
      assert Even(base) && !Even(base + SHIFTIDX2) && !Even(base + PCIDX2);
      if c.caller == base && n == 0 {
        assert calls[..n] == [];
      } else {
        LinksFrame(s, s', c.caller, calls[..n]);
      }
    }
  }

  lemma {:induction false} LinksPrefix(s: seq<Word>, base: int, calls: seq<Call>, k: nat)
    requires Links(s, base, calls) && k <= |calls|
    ensures Links(s, BaseAt(base, calls, k), calls[..k])
    ensures BaseAt(base, calls, k) <= base
    decreases |calls|
  {
    if k == |calls| {
      assert calls[..k] == calls;
    } else {
      var n := |calls| - 1;
      assert calls[..n][..k] == calls[..k];
      LinksPrefix(s, calls[n].caller, calls[..n], k);
    }
  }

  /** Bases grow with depth, by at least eight words except at the launching VEXEC. */
  lemma {:induction false} BasesGrow(s: seq<Word>, base: int, calls: seq<Call>, k: nat)
    requires Links(s, base, calls) && k < |calls|
    ensures BaseAt(base, calls, k) + 2 * CALLDELTA <= BaseAt(base, calls, k + 1)
         || (k == 0 && BaseAt(base, calls, k) == BaseAt(base, calls, k + 1))
  {
    LinksPrefix(s, base, calls, k + 1);
    assert calls[..k + 1][..k] == calls[..k];
  }

  lemma {:induction false} UnwindSpec(s: seq<Word>, sp: int, h: nat)
    requires 2 * sp + 1 < |s|
    ensures Unwind(s, sp, h).Some? <==> exists k :: 0 <= k <= sp && s[2 * k] == Obj(h)
    ensures Unwind(s, sp, h).Some? ==>
      forall j :: 0 <= j < |s| ==>
        Unwind(s, sp, h).value[j] == s[j] || (s[j].Mtd? && Unwind(s, sp, h).value[j].Null? && !Even(j))
    decreases sp + 1
  {
    if sp >= 0 {
      var s1 := if s[2 * sp + 1].Mtd? then s[2 * sp + 1 := Null] else s;
      if s1[2 * sp] != Obj(h) {
        UnwindSpec(s1, sp - 1, h);
        assert forall k :: 0 <= k <= sp - 1 ==> s1[2 * k] == s[2 * k];
        if exists k :: 0 <= k <= sp && s[2 * k] == Obj(h) {
          var k :| 0 <= k <= sp && s[2 * k] == Obj(h);
          assert k <= sp - 1 && s1[2 * k] == Obj(h);
        }
      } else {
        assert s[2 * sp] == Obj(h);
      }
    }
  }

  /** The pair at or below `sp` where a scan for `h` stops. */
  predicate FirstPair(s: seq<Word>, sp: int, h: nat, k: int) {
    && 0 <= k <= sp && 2 * sp + 1 < |s| && s[2 * k] == Obj(h)
    && forall i :: k < i <= sp ==> s[2 * i] != Obj(h)
  }

  /** The method words among the number words from `lo` to `hi` are cleared, and no other word
      has changed. */
  predicate Swept(s: seq<Word>, r: seq<Word>, lo: int, hi: int) {
    && |r| == |s|
    && forall j :: 0 <= j < |s| ==> r[j] == if lo <= j <= hi && !Even(j) && s[j].Mtd? then Null else s[j]
  }

  /** The scan clears exactly the method words that it passes, that of the handler's pair
      included. */
  lemma {:induction false} UnwindSweeps(s: seq<Word>, sp: int, h: nat, k: int)
    requires FirstPair(s, sp, h, k)
    ensures Unwind(s, sp, h).Some? && Swept(s, Unwind(s, sp, h).value, 2 * k + 1, 2 * sp + 1)
    decreases sp
  {
    var s1 := if s[2 * sp + 1].Mtd? then s[2 * sp + 1 := Null] else s;
    if k < sp {
      assert forall i :: 0 <= i <= sp - 1 ==> s1[2 * i] == s[2 * i];
      UnwindSweeps(s1, sp - 1, h, k);
      SweptFurther(s, s1, Unwind(s, sp, h).value, 2 * k + 1, sp);
    }
  }

  lemma SweptFurther(s: seq<Word>, s1: seq<Word>, r: seq<Word>, lo: int, sp: int)
    requires 0 <= sp && 2 * sp + 1 < |s| && lo <= 2 * sp - 1
    requires s1 == if s[2 * sp + 1].Mtd? then s[2 * sp + 1 := Null] else s
    requires Swept(s1, r, lo, 2 * sp - 1)
    ensures Swept(s, r, lo, 2 * sp + 1)
  {
    assert Even(2 * sp) && !Even(2 * sp + 1);
  }

  lemma {:induction false} FindFirstPair(s: seq<Word>, sp: int, h: nat, i: int) returns (k: int)
    requires 0 <= i <= sp && 2 * sp + 1 < |s| && s[2 * i] == Obj(h)
    ensures FirstPair(s, sp, h, k)
    decreases sp
  {
    if s[2 * sp] == Obj(h) {
      k := sp;
    } else {
      k := FindFirstPair(s, sp - 1, h, i);
    }
  }

  /** A caught throw clears the method words from where it is raised down to the handler's
      register, and nothing else on the stack. */
  lemma {:induction false} ThrowSweeps(st: State, sfp: int, start: int) returns (k: int)
    requires st.pending && Throw(st, sfp, start).Next?
    ensures st.ehdr.Some? && FirstPair(st.stack, sfp / 2 + start / 2, st.ehdr.value, k)
    ensures Swept(st.stack, Throw(st, sfp, start).st.stack, 2 * k + 1, 2 * (sfp / 2 + start / 2) + 1)
  {
    var sp, h := sfp / 2 + start / 2, st.ehdr.value;
    UnwindSpec(st.stack, sp, h);
    var i :| 0 <= i <= sp && st.stack[2 * i] == Obj(h);
    k := FindFirstPair(st.stack, sp, h, i);
    UnwindSweeps(st.stack, sp, h, k);
  }

  /** The scan leaves everything below the handler's own register alone. */
  lemma {:induction false} UnwindStops(s: seq<Word>, sp: int, h: nat, k: int)
    requires 0 <= k <= sp && 2 * sp + 1 < |s| && s[2 * k] == Obj(h)
    ensures Unwind(s, sp, h).Some?
    ensures forall j :: 0 <= j < 2 * k ==> Unwind(s, sp, h).value[j] == s[j]
    decreases sp
  {
    var s1 := if s[2 * sp + 1].Mtd? then s[2 * sp + 1 := Null] else s;
    if s1[2 * sp] != Obj(h) {
      UnwindStops(s1, sp - 1, h, k);
    }
  }

  // ---------------------------------------------------------------------------
  // The handler chain under updates

  /** A chain survives changes to handlers that are not on it. */
  lemma {:induction false} ChainFrame(m: map<nat, Handler>, m': map<nat, Handler>, e: Option<nat>, ids: seq<nat>)
    requires Chain(m, e, ids)
    requires forall h :: h in ids && h in m ==> h in m' && m'[h] == m[h]
    ensures Chain(m', e, ids)
    decreases |ids|
  {
    if ids != [] {
      ChainFrame(m, m', m[ids[0]].parent, ids[1..]);
    }
  }

  lemma {:induction false} ChainIn(m: map<nat, Handler>, e: Option<nat>, ids: seq<nat>)
    requires Chain(m, e, ids)
    ensures forall h :: h in ids ==> h in m
    decreases |ids|
  {
    if ids != [] {
      ChainIn(m, m[ids[0]].parent, ids[1..]);
    }
  }

  // ---------------------------------------------------------------------------
  // One step

  /** Guards survive as long as their registers, handler objects and frames do. */
  lemma GuardsKeep(st: State, a: Ctl, st': State, a': Ctl)
    requires Guards(st, a)
    requires a'.guards == a.guards && a'.outer == a.outer
    requires st'.hdrs == st.hdrs && st'.ehdr == st.ehdr && |st'.stack| == |st.stack|
    requires forall i :: 0 <= i < |a.guards| && GuardOk(st, a, i) ==>
               && st'.stack[a.guards[i].slot] == st.stack[a.guards[i].slot]
               && a.guards[i].calls <= a'.calls
               && BaseAt(a'.base, a'.calls, |a.guards[i].calls|) == a.guards[i].base
    ensures Guards(st', a')
  {
    forall i | 0 <= i < |a.guards| ensures GuardOk(st', a', i) {
      assert GuardOk(st, a, i);
    }
  }

  /** Moving pc and esp, or raising an exception flag, keeps the relation. */
  lemma RelMoves(st: State, a: Ctl, pc: int, esp: int, b: bool)
    requires Rel(st, a) && Even(esp)
    ensures Rel(st.(pc := pc, esp := esp, pending := b), a.(pc := pc, esp := esp))
  {
    GuardsKeep(st, a, st.(pc := pc, esp := esp, pending := b), a.(pc := pc, esp := esp));
  }

  lemma OwnWriteKeeps(st: State, a: Ctl, x: int, v: Word)
    requires Rel(st, a) && OwnWrite(a, a.base, x) && In(st.stack, a.base + x)
    ensures Rel(Put(st, a.base + x, v), a)
  {
    LinksFrame(st.stack, st.stack[a.base + x := v], a.base, a.calls);
    GuardsKeep(st, a, Put(st, a.base + x, v), a);
  }

  /** An instruction that writes one word of its own frame and moves on. */
  lemma WriteRefines(st: State, a: Ctl, x: int, v: Word, b: bool)
    requires Rel(st, a) && OwnWrite(a, a.base, x) && In(st.stack, a.base + x)
    ensures Rel(Put(st, a.base + x, v).(pending := b, pc := st.pc + 1), Advance(a))
  {
    OwnWriteKeeps(st, a, x, v);
    RelMoves(Put(st, a.base + x, v), a, a.pc + 1, a.esp, b);
  }

  /** One more call above the frame at `a.base` leaves every guard where it was. */
  lemma CallGuards(st: State, a: Ctl, st': State, a': Ctl, ret: int)
    requires Guards(st, a)
    requires a'.guards == a.guards && a'.outer == a.outer && a'.calls == a.calls + [Call(a.base, ret)]
    requires st'.hdrs == st.hdrs && st'.ehdr == st.ehdr && |st'.stack| == |st.stack|
    requires forall j :: 0 <= j < |st.stack| && Even(j) ==> st'.stack[j] == st.stack[j]
    ensures Guards(st', a')
  {
    forall i | 0 <= i < |a.guards| ensures GuardOk(st', a', i) {
      assert GuardOk(st, a, i);
      BasePushed(a.base, a'.base, a.calls, a.guards[i].calls, ret);
    }
  }

  lemma BasePushed(base: int, base': int, calls: seq<Call>, inner: seq<Call>, ret: int)
    requires inner <= calls
    ensures inner <= calls + [Call(base, ret)]
    ensures BaseAt(base', calls + [Call(base, ret)], |inner|) == BaseAt(base, calls, |inner|)
  {
  }

  /** Pushing a frame: the new linkage extends the chain and disturbs nothing older. */
  lemma EnterRefines(p: Program, st: State, a: Ctl, thisidx: int, espshift: int, mtd: nat)
    requires Rel(st, a) && CallOk(thisidx, espshift)
    requires EnterMethod(p, st, thisidx, espshift, mtd).Next?
    ensures AbsEnter(p, a, thisidx, espshift, mtd).Some?
    ensures Rel(EnterMethod(p, st, thisidx, espshift, mtd).st, AbsEnter(p, a, thisidx, espshift, mtd).value)
  {
    EnterRel(st, a, EnterMethod(p, st, thisidx, espshift, mtd).st, AbsEnter(p, a, thisidx, espshift, mtd).value, thisidx, mtd);
  }

  lemma EnterRel(st: State, a: Ctl, st': State, a': Ctl, thisidx: int, mtd: nat)
    requires Rel(st, a) && thisidx >= 2 * CALLDELTA && Even(thisidx) && LinkFits(st.stack, a.base + thisidx)
    requires st'.stack == Link(st.stack, a.base + thisidx, thisidx, a.pc + 1, mtd)
    requires st'.hdrs == st.hdrs && st'.ehdr == st.ehdr
    requires st'.rbp == a'.base == a.base + thisidx && st'.pc == a'.pc && st'.esp == a'.esp && Even(a'.esp)
    requires a'.guards == a.guards && a'.outer == a.outer && a'.calls == a.calls + [Call(a.base, a.pc + 1)]
    ensures Rel(st', a')
  {
    LinkExtends(st.stack, a.base, a.calls, thisidx, a.pc + 1, mtd);
    EvenSum(a.base, thisidx);
    EnterGuards(st, a, st', a', thisidx, mtd);
    RelOfParts(st', a');
  }

  lemma RelOfParts(st: State, a: Ctl)
    requires st.rbp == a.base && st.pc == a.pc && st.esp == a.esp && Even(st.esp)
    requires Links(st.stack, a.base, a.calls) && Guards(st, a)
    ensures Rel(st, a)
  {
  }

  lemma EvenSum(x: int, y: int)
    requires Even(x) && Even(y)
    ensures Even(x + y)
  {
  }

  lemma EnterGuards(st: State, a: Ctl, st': State, a': Ctl, thisidx: int, mtd: nat)
    requires Guards(st, a) && Even(a.base + thisidx) && LinkFits(st.stack, a.base + thisidx)
    requires st'.stack == Link(st.stack, a.base + thisidx, thisidx, a.pc + 1, mtd)
    requires st'.hdrs == st.hdrs && st'.ehdr == st.ehdr
    requires a'.guards == a.guards && a'.outer == a.outer && a'.calls == a.calls + [Call(a.base, a.pc + 1)]
    ensures Guards(st', a')
  {
    LinkKeepsEven(st.stack, a.base + thisidx, thisidx, a.pc + 1, mtd);
    CallGuards(st, a, st', a', a.pc + 1);
  }

  lemma LinkExtends(s: seq<Word>, base: int, calls: seq<Call>, shift: int, ret: int, mtd: nat)
    requires Links(s, base, calls) && shift >= 2 * CALLDELTA && Even(shift) && LinkFits(s, base + shift)
    ensures Links(Link(s, base + shift, shift, ret, mtd), base + shift, calls + [Call(base, ret)])
  {
    LinksFrame(s, Link(s, base + shift, shift, ret, mtd), base, calls);
    assert (calls + [Call(base, ret)])[..|calls|] == calls;
  }

  lemma LinkKeepsEven(s: seq<Word>, base: int, shift: int, ret: int, mtd: nat)
    requires LinkFits(s, base) && Even(base)
    ensures forall j :: 0 <= j < |s| && (Even(j) || j < base + SHIFTIDX2) ==> Link(s, base, shift, ret, mtd)[j] == s[j]
  {
    OddBelow(base);
  }

  lemma ClearKeepsLinks(s: seq<Word>, base: int, calls: seq<Call>)
    requires Links(s, base, calls) && In(s, base + MTDIDX2)
    ensures Links(s[base + MTDIDX2 := Null], base, calls)
  {
    LinksFrame(s, s[base + MTDIDX2 := Null], base, calls);
  }

  lemma RetGuards(st: State, a: Ctl)
    requires Rel(st, a) && a.calls != []
    requires forall i :: 0 <= i < |a.guards| ==> |a.guards[i].calls| < |a.calls|
    ensures Guards(StepRet(st).st, AbsRet(a).value)
  {
    OddBelow(a.base);
    var st' := StepRet(st).st;
    GuardsKeepEven(st, a, st');
    forall i | 0 <= i < |a.guards| ensures GuardOk(st', AbsRet(a).value, i) {
      assert GuardOk(st', a, i);
    }
  }

  lemma RetRefines(st: State, a: Ctl)
    requires Rel(st, a) && a.calls != []
    requires forall i :: 0 <= i < |a.guards| ==> |a.guards[i].calls| < |a.calls|
    ensures StepRet(st).Next? && AbsRet(a).Some?
    ensures Rel(StepRet(st).st, AbsRet(a).value)
  {
    var st' := StepRet(st).st;
    var a' := AbsRet(a).value;
    ClearKeepsLinks(st.stack, a.base, a.calls);
    LinksPrefix(st'.stack, a.base, a.calls, |a.calls| - 1);
    RetGuards(st, a);
  }

  lemma VexecLinks(s: seq<Word>, base: int, ret: int)
    requires Even(base) && LinkFits(s, base)
    ensures var s' := s[base + SHIFTIDX2 := Num(0)][base + PCIDX2 := Pc(ret)];
            && Links(s', base, [] + [Call(base, ret)])
            && forall j :: 0 <= j < |s| && Even(j) ==> s'[j] == s[j]
  {
    var calls := [Call(base, ret)];
    assert [] + calls == calls && calls[..0] == [];
    OddBelow(base);
  }

  lemma VexecRefines(p: Program, st: State, a: Ctl)
    requires Rel(st, a) && a.calls == [] && StepVexec(p, st).Next?
    ensures AbsVexec(p, a, st.stack).Some?
    ensures Rel(StepVexec(p, st).st, AbsVexec(p, a, st.stack).value)
  {
    VexecLinks(st.stack, a.base, a.pc + 1);
    CallGuards(st, a, StepVexec(p, st).st, AbsVexec(p, a, st.stack).value, a.pc + 1);
  }

  /** The scan of a throw finds the innermost handler's register. */
  lemma ThrowFinds(st: State, a: Ctl, sp: int)
    requires Rel(st, a) && a.guards != [] && a.guards[|a.guards| - 1].slot <= 2 * sp && 2 * sp + 1 < |st.stack|
    ensures var h := a.guards[|a.guards| - 1].hdr;
            && st.ehdr == Some(h) && h in st.hdrs
            && Unwind(st.stack, sp, h).Some?
            && Links(Unwind(st.stack, sp, h).value, a.base, a.calls)
            && (forall j :: 0 <= j < |st.stack| && Even(j) ==> Unwind(st.stack, sp, h).value[j] == st.stack[j])
  {
    var n := |a.guards| - 1;
    assert GuardOk(st, a, n);
    ScanKeeps(st.stack, a.base, a.calls, sp, a.guards[n].hdr, a.guards[n].slot / 2);
  }

  lemma ScanKeeps(s: seq<Word>, base: int, calls: seq<Call>, sp: int, h: nat, k: int)
    requires Links(s, base, calls) && 0 <= k <= sp && 2 * sp + 1 < |s| && s[2 * k] == Obj(h)
    ensures Unwind(s, sp, h).Some? && Links(Unwind(s, sp, h).value, base, calls)
    ensures forall j :: 0 <= j < |s| && Even(j) ==> Unwind(s, sp, h).value[j] == s[j]
  {
    UnwindSpec(s, sp, h);
    LinksFrame(s, Unwind(s, sp, h).value, base, calls);
  }

  /** Dropping all guards from index `n` on, together with the frames above guard `n`. */
  lemma GuardsDrop(st: State, a: Ctl, n: nat, st': State, a': Ctl)
    requires Guards(st, a) && n < |a.guards|
    requires a'.guards == a.guards[..n] && a'.outer == a.outer
    requires a'.calls == a.guards[n].calls && a'.base == a.guards[n].base
    requires st'.hdrs == st.hdrs && st'.ehdr == ParentOf(a.guards, a.outer, n) && |st'.stack| == |st.stack|
    requires forall j :: 0 <= j < |st.stack| && Even(j) ==> st'.stack[j] == st.stack[j]
    ensures Guards(st', a')
  {
    var g := a.guards[n];
    assert GuardOk(st, a, n);
    forall i | 0 <= i < n ensures GuardOk(st', a', i) {
      assert GuardOk(st, a, i);
      var gi := a.guards[i];
      assert gi.calls <= g.calls;
      assert |gi.calls| < |g.calls| ==> a.calls[|gi.calls|] == g.calls[|gi.calls|];
    }
  }

  /** The frames recorded by a guard are still linked. */
  lemma GuardLinks(s: seq<Word>, a: Ctl, n: nat)
    requires Links(s, a.base, a.calls) && n < |a.guards|
    requires a.guards[n].calls <= a.calls && a.guards[n].base == BaseAt(a.base, a.calls, |a.guards[n].calls|)
    ensures Links(s, a.guards[n].base, a.guards[n].calls)
  {
    LinksPrefix(s, a.base, a.calls, |a.guards[n].calls|);
    assert a.calls[..|a.guards[n].calls|] == a.guards[n].calls;
  }

  /** A caught throw restores base, esp, calls and handlers of the innermost TRY, and
      continues at that TRY's jump target. */
  lemma ThrowRefines(st: State, a: Ctl, sfp: int, start: int)
    requires Rel(st, a) && st.pending && ThrowOk(a, sfp, start)
    requires 2 * (sfp / 2 + start / 2) + 1 < |st.stack|
    ensures Throw(st, sfp, start).Next? && AbsThrow(a).Some?
    ensures Rel(Throw(st, sfp, start).st, AbsThrow(a).value)
  {
    var n := |a.guards| - 1;
    var g := a.guards[n];
    assert GuardOk(st, a, n);
    ThrowFinds(st, a, sfp / 2 + start / 2);
    ThrowRel(st, a, Throw(st, sfp, start).st);
  }

  /** The state after the scan: the frame of the innermost TRY, with its handler taken off. */
  lemma ThrowRel(st: State, a: Ctl, st': State)
    requires Rel(st, a) && a.guards != [] && Links(st'.stack, a.base, a.calls) && |st'.stack| == |st.stack|
    requires forall j :: 0 <= j < |st.stack| && Even(j) ==> st'.stack[j] == st.stack[j]
    requires var n := |a.guards| - 1;
             var g := a.guards[n];
             && st'.hdrs == st.hdrs && st'.ehdr == ParentOf(a.guards, a.outer, n)
             && st'.rbp == g.base && st'.esp == g.esp && st'.pc == g.target
    ensures Rel(st', AbsThrow(a).value)
  {
    var n := |a.guards| - 1;
    assert GuardOk(st, a, n);
    GuardLinks(st'.stack, a, n);
    GuardsDrop(st, a, n, st', AbsThrow(a).value);
  }

  lemma TryRefines(st: State, a: Ctl, target: int, hn: int, alloc: nat)
    requires Rel(st, a) && TryAllowed(st, a, hn, alloc)
    ensures StepTry(st, target, hn, alloc).Next?
    ensures AbsTry(a, st.stack, st.hdrs.Keys, target, hn, alloc).Some?
    ensures Rel(StepTry(st, target, hn, alloc).st, AbsTry(a, st.stack, st.hdrs.Keys, target, hn, alloc).value)
  {
    var st' := StepTry(st, target, hn, alloc).st;
    var a' := AbsTry(a, st.stack, st.hdrs.Keys, target, hn, alloc).value;
    TryLinks(st.stack, a.base, a.calls, hn, st'.stack[a.base + hn]);
    assert st'.stack == st.stack[a.base + hn := st'.stack[a.base + hn]];
    TryGuards(st, a, target, hn, alloc);
  }

  lemma TryLinks(s: seq<Word>, base: int, calls: seq<Call>, hn: int, v: Word)
    requires Links(s, base, calls) && Even(hn) && In(s, base + hn)
    ensures Links(s[base + hn := v], base, calls)
  {
    LinksFrame(s, s[base + hn := v], base, calls);
  }

  lemma TryGuards(st: State, a: Ctl, target: int, hn: int, alloc: nat)
    requires Guards(st, a) && TryAllowed(st, a, hn, alloc) && st.rbp == a.base && st.esp == a.esp
    requires Even(a.base) && Even(a.esp)
    ensures Guards(StepTry(st, target, hn, alloc).st, AbsTry(a, st.stack, st.hdrs.Keys, target, hn, alloc).value)
  {
    var st' := StepTry(st, target, hn, alloc).st;
    var a' := AbsTry(a, st.stack, st.hdrs.Keys, target, hn, alloc).value;
    var n := |a.guards|;
    forall i | 0 <= i < n
      ensures GuardOk(st', a', i) && a'.guards[i] == a.guards[i]
      ensures a.guards[i].hdr != a'.guards[n].hdr && |a.guards[i].calls| <= |a.calls|
    {
      TryOldGuard(st, a, target, hn, alloc, i);
    }
    TryNewGuard(st, a, target, hn, alloc);
    TryOuter(st, a, target, hn, alloc);
    GuardsPush(st, a, st', a', a'.guards[n]);
  }

  lemma TryOuter(st: State, a: Ctl, target: int, hn: int, alloc: nat)
    requires Guards(st, a) && TryAllowed(st, a, hn, alloc) && st.rbp == a.base
    ensures Chain(StepTry(st, target, hn, alloc).st.hdrs, Head(a.outer), a.outer)
  {
    ChainIn(st.hdrs, Head(a.outer), a.outer);
    ChainFrame(st.hdrs, StepTry(st, target, hn, alloc).st.hdrs, Head(a.outer), a.outer);
  }

  lemma GuardsPush(st: State, a: Ctl, st': State, a': Ctl, g: Guard)
    requires Guards(st, a) && a'.guards == a.guards + [g] && st'.ehdr == Some(g.hdr)
    requires Chain(st'.hdrs, Head(a'.outer), a'.outer)
    requires forall i :: 0 <= i < |a.guards| ==>
               GuardOk(st', a', i) && a.guards[i].hdr != g.hdr && |a.guards[i].calls| <= |g.calls|
    requires GuardOk(st', a', |a.guards|)
    ensures Guards(st', a')
  {
    NestedPush(a.guards, g);
    assert a'.guards[|a.guards|] == g;
    forall i | 0 <= i < |a'.guards| ensures GuardOk(st', a', i) {
      assert i < |a.guards| || i == |a.guards|;
    }
  }

  lemma NestedPush(guards: seq<Guard>, g: Guard)
    requires Nested(guards)
    requires forall i :: 0 <= i < |guards| ==> guards[i].hdr != g.hdr && |guards[i].calls| <= |g.calls|
    ensures Nested(guards + [g])
  {
    var gs := guards + [g];
    forall i, j | 0 <= i < j < |gs| ensures gs[i].hdr != gs[j].hdr && |gs[i].calls| <= |gs[j].calls| {
      assert gs[i] == guards[i];
    }
  }

  lemma TryNewGuard(st: State, a: Ctl, target: int, hn: int, alloc: nat)
    requires Guards(st, a) && TryAllowed(st, a, hn, alloc) && st.rbp == a.base && st.esp == a.esp
    requires Even(a.base) && Even(a.esp)
    ensures GuardOk(StepTry(st, target, hn, alloc).st, AbsTry(a, st.stack, st.hdrs.Keys, target, hn, alloc).value, |a.guards|)
  {
    ChainIn(st.hdrs, Head(a.outer), a.outer);
  }

  lemma TryOldGuard(st: State, a: Ctl, target: int, hn: int, alloc: nat, i: nat)
    requires Guards(st, a) && TryAllowed(st, a, hn, alloc) && st.rbp == a.base && i < |a.guards|
    ensures var st' := StepTry(st, target, hn, alloc).st;
            var a' := AbsTry(a, st.stack, st.hdrs.Keys, target, hn, alloc).value;
            && GuardOk(st', a', i) && a'.guards[i] == a.guards[i]
            && a.guards[i].hdr != a'.guards[|a.guards|].hdr && |a.guards[i].calls| <= |a.calls|
  {
    assert GuardOk(st, a, i);
    var a' := AbsTry(a, st.stack, st.hdrs.Keys, target, hn, alloc).value;
    assert a'.guards[i] == a.guards[i];
    assert ParentOf(a'.guards, a'.outer, i) == ParentOf(a.guards, a.outer, i);
    assert IsLive(a, a.guards[i].hdr);
  }

  lemma TryEndGuard(st: State, a: Ctl, k: nat, st': State, a': Ctl, i: nat)
    requires Guards(st, a) && i < k < |a.guards| && a'.guards == a.guards[..k] && a'.outer == a.outer
    requires a'.calls == a.calls && a'.base == a.base
    requires In(st.stack, a.guards[k].slot) && st'.stack == st.stack[a.guards[k].slot := Obj(st.dflt)]
    requires st'.hdrs == WithDefault(st)
    ensures GuardOk(st', a', i)
  {
    assert GuardOk(st, a, i) && GuardOk(st, a, k);
    assert a.guards[i].hdr != a.guards[k].hdr;
  }

  lemma TryEndGuards(st: State, a: Ctl, k: nat, st': State, a': Ctl)
    requires Guards(st, a) && k < |a.guards| && a'.guards == a.guards[..k] && a'.outer == a.outer
    requires a'.calls == a.calls && a'.base == a.base && In(st.stack, a.guards[k].slot)
    requires st'.stack == st.stack[a.guards[k].slot := Obj(st.dflt)]
    requires st'.hdrs == WithDefault(st) && st'.ehdr == ParentOf(a.guards, a.outer, k)
    ensures Guards(st', a')
  {
    ChainIn(st.hdrs, Head(a.outer), a.outer);
    ChainFrame(st.hdrs, st'.hdrs, Head(a.outer), a.outer);
    forall i | 0 <= i < |a'.guards| ensures GuardOk(st', a', i) {
      TryEndGuard(st, a, k, st', a', i);
    }
  }

  /** TRYEND reinstates the chain from just before its TRY, whatever inner TRYs are still open. */
  lemma TryEndRefines(st: State, a: Ctl, hn: int)
    requires Rel(st, a) && Find(a.guards, a.base + hn) >= 0
    ensures StepTryEnd(st, hn).Next? && AbsTryEnd(a, hn).Some?
    ensures Rel(StepTryEnd(st, hn).st, AbsTryEnd(a, hn).value)
  {
    var k := Find(a.guards, a.base + hn);
    assert GuardOk(st, a, k);
    TryLinks(st.stack, a.base, a.calls, hn, Obj(st.dflt));
    TryEndGuards(st, a, k, StepTryEnd(st, hn).st, AbsTryEnd(a, hn).value);
  }

  /** State of an SCALL after the native method has written, before it returns or throws. */
  lemma NativeKeeps(st: State, a: Ctl, base: int, shift: int, esp: int, mtd: nat, env: Env)
    requires Rel(st, a) && Even(base) && base >= a.base + 2 * CALLDELTA && Even(esp)
    requires LinkFits(st.stack, base) && WritesFit(st.stack, base, env.writes)
    requires forall i :: 0 <= i < |env.writes| ==> OwnWrite(a, base, env.writes[i].0)
    requires LiveKept(st, a, env.after)
    ensures Rel(NativeCall(st, base, shift, esp, mtd, env), a.(esp := esp))
  {
    LinkKeeps(st, a, base, shift, mtd);
    var st1 := st.(stack := Link(st.stack, base, shift, st.pc + 1, mtd));
    WritesKeep(st1, a, base, env.writes);
    var st2 := st1.(stack := WriteAll(st1.stack, base, env.writes));
    HandlersKeep(st2, a, env.after);
    RelMoves(st2.(hdrs := env.after), a, a.pc, esp, st.pending);
  }

  /** Handlers that are not live do not matter. */
  lemma HandlersKeep(st: State, a: Ctl, after: map<nat, Handler>)
    requires Rel(st, a) && LiveKept(st, a, after)
    ensures Rel(st.(hdrs := after), a)
  {
    assert forall h :: h in a.outer ==> IsLive(a, h);
    ChainFrame(st.hdrs, after, Head(a.outer), a.outer);
    forall i | 0 <= i < |a.guards| ensures GuardOk(st.(hdrs := after), a, i) {
      assert GuardOk(st, a, i);
      assert IsLive(a, a.guards[i].hdr);
    }
  }

  lemma LinkKeeps(st: State, a: Ctl, base: int, shift: int, mtd: nat)
    requires Rel(st, a) && Even(base) && base >= a.base + 2 * CALLDELTA && LinkFits(st.stack, base)
    ensures Rel(st.(stack := Link(st.stack, base, shift, st.pc + 1, mtd)), a)
  {
    var linked := Link(st.stack, base, shift, st.pc + 1, mtd);
    LinkKeepsEven(st.stack, base, shift, st.pc + 1, mtd);
    NativeLinks(st.stack, linked, a.base, a.calls);
    GuardsKeepEven(st, a, st.(stack := linked));
  }

  lemma WritesKeep(st: State, a: Ctl, base: int, ws: seq<(int, Word)>)
    requires Rel(st, a) && base >= a.base + 2 * CALLDELTA && WritesFit(st.stack, base, ws)
    requires forall i :: 0 <= i < |ws| ==> OwnWrite(a, base, ws[i].0)
    ensures Rel(st.(stack := WriteAll(st.stack, base, ws)), a)
  {
    NativeSpares(a, st.stack, base, ws);
    NativeLinks(st.stack, WriteAll(st.stack, base, ws), a.base, a.calls);
    GuardsKeep(st, a, st.(stack := WriteAll(st.stack, base, ws)), a);
  }

  lemma NativeLinks(s: seq<Word>, s': seq<Word>, base: int, calls: seq<Call>)
    requires Links(s, base, calls) && |s| == |s'| && forall j :: 0 <= j < |s| && j < base ==> s'[j] == s[j]
    ensures Links(s', base, calls)
  {
    LinksFrame(s, s', base, calls);
  }

  lemma NativeSpares(a: Ctl, s: seq<Word>, base: int, ws: seq<(int, Word)>)
    requires base >= a.base + 2 * CALLDELTA && WritesFit(s, base, ws)
    requires forall i :: 0 <= i < |ws| ==> OwnWrite(a, base, ws[i].0)
    ensures forall j :: 0 <= j < |s| && j < a.base ==> WriteAll(s, base, ws)[j] == s[j]
    ensures forall i :: 0 <= i < |a.guards| && In(s, a.guards[i].slot) ==>
              WriteAll(s, base, ws)[a.guards[i].slot] == s[a.guards[i].slot]
  {
    forall j | 0 <= j < |s| && (j < a.base || IsSlot(a.guards, j)) ensures WriteAll(s, base, ws)[j] == s[j] {
      assert forall i :: 0 <= i < |ws| ==> j != base + ws[i].0;
    }
    forall i | 0 <= i < |a.guards| && In(s, a.guards[i].slot)
      ensures WriteAll(s, base, ws)[a.guards[i].slot] == s[a.guards[i].slot]
    {
      assert IsSlot(a.guards, a.guards[i].slot);
    }
  }

  /** Clearing the method word of a finished native call. */
  lemma ClearMethodKeeps(st: State, a: Ctl, base: int)
    requires Rel(st, a) && Even(base) && base >= a.base + 2 * CALLDELTA && In(st.stack, base + MTDIDX2)
    ensures Rel(Put(st, base + MTDIDX2, Null), a)
  {
    NativeLinks(st.stack, Put(st, base + MTDIDX2, Null).stack, a.base, a.calls);
    OddBelow(base);
    GuardsKeepEven(st, a, Put(st, base + MTDIDX2, Null));
  }

  /** The linkage words below a base are at odd addresses. */
  lemma OddBelow(base: int)
    requires Even(base)
    ensures !Even(base + SHIFTIDX2) && !Even(base + PCIDX2) && !Even(base + MTDIDX2)
  {
  }

  lemma GuardsKeepEven(st: State, a: Ctl, st': State)
    requires Guards(st, a)
    requires st'.hdrs == st.hdrs && st'.ehdr == st.ehdr && |st'.stack| == |st.stack|
    requires forall j :: 0 <= j < |st.stack| && Even(j) ==> st'.stack[j] == st.stack[j]
    ensures Guards(st', a)
  {
    forall i | 0 <= i < |a.guards| ensures GuardOk(st', a, i) {
      assert GuardOk(st, a, i);
    }
  }

  lemma ScallRefines(st: State, a: Ctl, thisidx: int, espshift: int, mtd: nat, env: Env)
    requires Rel(st, a) && CallOk(thisidx, espshift)
    requires forall i :: 0 <= i < |env.writes| ==> OwnWrite(a, a.base + thisidx, env.writes[i].0)
    requires LiveKept(st, a, env.after)
    requires env.throws ==> ThrowOk(a, a.base + thisidx, 0)
    requires StepScall(st, thisidx, espshift, mtd, env).Next?
    ensures env.throws ==> AbsThrow(a).Some? && Rel(StepScall(st, thisidx, espshift, mtd, env).st, AbsThrow(a).value)
    ensures !env.throws ==> Rel(StepScall(st, thisidx, espshift, mtd, env).st, Advance(a.(esp := a.base + espshift)))
  {
    var base, esp := a.base + thisidx, a.base + espshift;
    NativeKeeps(st, a, base, thisidx, esp, mtd, env);
    ScallEnds(NativeCall(st, base, thisidx, esp, mtd, env), a, esp, base, env.throws);
  }

  /** The native method has written; it throws or returns. */
  lemma ScallEnds(st: State, a: Ctl, esp: int, base: int, throws: bool)
    requires Rel(st, a.(esp := esp)) && Even(base) && base >= a.base + 2 * CALLDELTA && In(st.stack, base + MTDIDX2)
    requires throws ==> ThrowOk(a, base, 0) && Raise(st, base, 0).Next?
    ensures throws ==> AbsThrow(a).Some? && Rel(Raise(st, base, 0).st, AbsThrow(a).value)
    ensures !throws ==> Rel(Put(st, base + MTDIDX2, Null).(pc := st.pc + 1), Advance(a.(esp := esp)))
  {
    if throws {
      NativeThrows(st, a, esp, base);
    } else {
      NativeReturns(st, a.(esp := esp), base);
    }
  }

  lemma NativeThrows(st: State, a: Ctl, esp: int, base: int)
    requires Rel(st, a.(esp := esp)) && ThrowOk(a, base, 0) && Raise(st, base, 0).Next?
    ensures AbsThrow(a).Some? && Rel(Raise(st, base, 0).st, AbsThrow(a).value)
  {
    RaiseAt(st, a.(esp := esp), base, 0);
  }

  lemma NativeReturns(st: State, a: Ctl, base: int)
    requires Rel(st, a) && Even(base) && base >= a.base + 2 * CALLDELTA && In(st.stack, base + MTDIDX2)
    ensures Rel(Put(st, base + MTDIDX2, Null).(pc := st.pc + 1), Advance(a))
  {
    ClearMethodKeeps(st, a, base);
    RelMoves(Put(st, base + MTDIDX2, Null), a, a.pc + 1, a.esp, st.pending);
  }

  lemma RaiseAt(st: State, a: Ctl, sfp: int, start: int)
    requires Rel(st, a) && ThrowOk(a, sfp, start) && Raise(st, sfp, start).Next?
    ensures AbsThrow(a).Some? && Rel(Raise(st, sfp, start).st, AbsThrow(a).value)
  {
    RelMoves(st, a, a.pc, a.esp, true);
    ThrowFits(st.(pending := true), a, sfp, start);
    ThrowRefines(st.(pending := true), a, sfp, start);
  }

  lemma RaiseRefines(st: State, a: Ctl, esp: int, start: int)
    requires Rel(st, a) && Even(esp) && ThrowOk(a, a.base, start)
    requires Raise(st.(esp := esp), a.base, start).Next?
    ensures AbsThrow(a).Some? && Rel(Raise(st.(esp := esp), a.base, start).st, AbsThrow(a).value)
  {
    RelMoves(st, a, a.pc, esp, st.pending);
    RaiseAt(st.(esp := esp), a.(esp := esp), a.base, start);
  }

  lemma ThrowFits(st: State, a: Ctl, sfp: int, start: int)
    requires Rel(st, a) && st.pending && a.guards != [] && Throw(st, sfp, start).Next?
    ensures 2 * (sfp / 2 + start / 2) + 1 < |st.stack|
  {
  }

  predicate IsLocal(i: Instr) {
    i.NSET? || i.NMOV? || i.OMOV?
  }

  predicate IsJump(i: Instr) {
    i.JMP? || i.JMPF? || i.CATCH?
  }

  predicate IsCall(i: Instr) {
    i.VCALL? || i.VCALL_? || i.CALL?
  }

  lemma LocalRefines(p: Program, st: State, a: Ctl, env: Env)
    requires Rel(st, a) && Disciplined(p, st, a, env) && Step(p, st, env).Next? && IsLocal(p.code[a.pc])
    ensures AbsStep(p, st, a, env).Some?
    ensures Rel(Step(p, st, env).st, AbsStep(p, st, a, env).value)
  {
    match p.code[a.pc]
    case NSET(x, n) => WriteRefines(st, a, x, Num(n), st.pending);
    case NMOV(x, y) => MoveRefines(st, a, x, y);
    case OMOV(x, y) => MoveRefines(st, a, x, y);
  }

  lemma MoveRefines(st: State, a: Ctl, x: int, y: int)
    requires Rel(st, a) && OwnWrite(a, a.base, x) && StepMove(st, x, y).Next?
    ensures Rel(StepMove(st, x, y).st, Advance(a))
  {
    WriteRefines(st, a, x, st.stack[a.base + y], st.pending);
  }

  lemma JumpRefines(p: Program, st: State, a: Ctl, env: Env)
    requires Rel(st, a) && Disciplined(p, st, a, env) && Step(p, st, env).Next? && IsJump(p.code[a.pc])
    ensures AbsStep(p, st, a, env).Some?
    ensures Rel(Step(p, st, env).st, AbsStep(p, st, a, env).value)
  {
    match p.code[a.pc]
    case JMP(t) => RelMoves(st, a, t, a.esp, st.pending);
    case JMPF(t, _) => RelMoves(st, a, t, a.esp, st.pending); RelMoves(st, a, a.pc + 1, a.esp, st.pending);
    case CATCH(t, en) =>
      if env.matches {
        WriteRefines(st, a, en, Obj(env.alloc), false);
      } else {
        RelMoves(st, a, t, a.esp, st.pending);
      }
  }

  lemma CallRefines(p: Program, st: State, a: Ctl, env: Env)
    requires Rel(st, a) && Disciplined(p, st, a, env) && Step(p, st, env).Next? && IsCall(p.code[a.pc])
    ensures AbsStep(p, st, a, env).Some?
    ensures Rel(Step(p, st, env).st, AbsStep(p, st, a, env).value)
  {
    match p.code[a.pc]
    case VCALL(t, e, m) =>
      if a.base > p.uplimit {
        RaiseRefines(st, a, a.base + e, 0);
      } else {
        EnterRefines(p, st, a, t, e, m);
      }
    case VCALL_(t, e, m) => EnterRefines(p, st, a, t, e, m);
    case CALL(t, e) => EnterRefines(p, st, a, t, e, st.stack[a.base + t + MTDIDX2].id);
  }

  lemma HandlerRefines(p: Program, st: State, a: Ctl, env: Env)
    requires Rel(st, a) && Disciplined(p, st, a, env) && Step(p, st, env).Next?
    requires p.code[a.pc].TRY? || p.code[a.pc].TRYEND? || p.code[a.pc].THROW? || p.code[a.pc].ERROR?
    ensures AbsStep(p, st, a, env).Some?
    ensures Rel(Step(p, st, env).st, AbsStep(p, st, a, env).value)
  {
    match p.code[a.pc]
    case TRY(t, hn) => TryRefines(st, a, t, hn, env.alloc);
    case TRYEND(hn) => TryEndRefines(st, a, hn);
    case THROW(s) =>
      if st.pending {
        ThrowFits(st, a, a.base, s);
        ThrowRefines(st, a, a.base, s);
      } else {
        RelMoves(st, a, a.pc + 1, a.esp, false);
      }
    case ERROR(s) => RaiseRefines(st, a, a.esp, s);
  }

  /** Every disciplined step of the concrete VM is a step of the abstract machine. */
  lemma {:induction false} StepRefines(p: Program, st: State, a: Ctl, env: Env)
    requires Rel(st, a) && Disciplined(p, st, a, env) && Step(p, st, env).Next?
    ensures AbsStep(p, st, a, env).Some?
    ensures Rel(Step(p, st, env).st, AbsStep(p, st, a, env).value)
  {
    if IsLocal(p.code[a.pc]) {
      LocalRefines(p, st, a, env);
    } else if IsJump(p.code[a.pc]) {
      JumpRefines(p, st, a, env);
    } else if IsCall(p.code[a.pc]) {
      CallRefines(p, st, a, env);
    } else {
      match p.code[a.pc]
      case SCALL(t, e, m) => ScallRefines(st, a, t, e, m, env);
      case RET => RetRefines(st, a);
      case VEXEC => VexecRefines(p, st, a);
      case ENTER => VexecRefines(p, st, a);
      case EXIT =>
      case _ => HandlerRefines(p, st, a, env);
    }
  }
}
