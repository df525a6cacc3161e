/** The peephole inside a whole control-flow graph: with a liveness certificate for the dropped
    registers, complete runs take the same path and end in the same memory. */
module FusionRuns {
  import opened Wrappers
  import opened Registers
  import opened Fusion

  // ---------------------------------------------------------------------------
  // Reads and writes

  /** Instructions whose first operand is a register that is only written. */
  predicate WritesFirst(op: Opcode) {
    !(op.XNSET? || op.XNMOV? || op.XNMOVx? || op.XMOV? || op.XMOVx? || op.iINC? || op.iDEC?
      || op.CHKIDX? || op.CHKIDXC? || op.PROBE?)
  }

  predicate Avoids(x: Operand, dead: set<int>) {
    (x.Word? ==> x.w !in dead) && (x.Slot? ==> x.w !in dead)
  }

  predicate ReadsAvoid(i: Ins, dead: set<int>) {
    forall j :: (if WritesFirst(i.op) then 1 else 0) <= j < |i.xs| ==> Avoids(i.xs[j], dead)
  }

  function Written(i: Ins): set<int> {
    if !IsBranch(i.op) && WritesFirst(i.op) && i.xs != [] then WordOf(i.xs[0]) else {}
  }

  lemma GetAgrees(x: Operand, m: Mem, m': Mem, dead: set<int>)
    requires AgreeOff(m, m', dead) && Avoids(x, dead)
    ensures Get(m, x) == Get(m', x) && GetN(m, x) == GetN(m', x) && GetO(m, x) == GetO(m', x) && GetX(m, x) == GetX(m', x)
  {
  }

  /** Two results that agree: the same fault, or memories that agree off `dead`. */
  ghost predicate Same(r: Result<Mem>, r': Result<Mem>, dead: set<int>) {
    match (r, r')
    case (Ok(m), Ok(m')) => AgreeOff(m, m', dead)
    case (Err(e), Err(e')) => e == e'
    case _ => false
  }

  lemma SetAgrees(x: Operand, v: Value, m: Mem, m': Mem, dead: set<int>)
    requires AgreeOff(m, m', dead)
    ensures Same(Set(m, x, v), Set(m', x, v), dead - WordOf(x))
  {
  }

  lemma SetXAgrees(x: Operand, v: Value, m: Mem, m': Mem, dead: set<int>)
    requires AgreeOff(m, m', dead) && Avoids(x, dead)
    ensures Same(SetX(m, x, v), SetX(m', x, v), dead)
  {
    if x.Slot? {
      GetAgrees(Word(x.w), m, m', dead);
    }
  }

  lemma IndexAgrees(c: Operand, x: Operand, n: int, v: Operand, m: Mem, m': Mem, dead: set<int>)
    requires AgreeOff(m, m', dead) && Avoids(x, dead)
    ensures Same(GetIndex(m, c, x, n), GetIndex(m', c, x, n), dead - WordOf(c))
    ensures Same(CheckIndex(m, x, n), CheckIndex(m', x, n), dead)
    ensures Avoids(v, dead) ==> Same(SetIndex(m, c, x, n, v), SetIndex(m', c, x, n, v), dead - WordOf(c))
  {
    GetAgrees(x, m, m', dead);
    if Avoids(v, dead) {
      GetAgrees(v, m, m', dead);
    }
    if GetO(m, x).Ok? {
      var r := GetO(m, x).value;
      if ElemAt(m, r, Unsigned(n)).Ok? {
        SetAgrees(c, ElemAt(m, r, Unsigned(n)).value, m, m', dead);
      }
      if Avoids(v, dead) && Get(m, v).Ok? && SetElem(m, r, Unsigned(n), Get(m, v).value).Ok? {
        var e := Get(m, v).value;
        SetAgrees(c, e, SetElem(m, r, Unsigned(n), e).value, SetElem(m', r, Unsigned(n), e).value, dead);
      }
    }
  }

  predicate IsCheck(op: Opcode) {
    op.CHKIDX? || op.CHKIDXC?
  }

  predicate IsGet(op: Opcode) {
    op.NGETIDX? || op.NGETIDXC? || op.OGETIDX? || op.OGETIDXC?
  }

  predicate IsPut(op: Opcode) {
    op.NSETIDX? || op.NSETIDXC? || op.OSETIDX? || op.OSETIDXC?
  }

  predicate IsIndexed(op: Opcode) {
    IsCheck(op) || IsGet(op) || IsPut(op)
  }

  predicate IsFieldStore(op: Opcode) {
    op.XNSET? || op.XNMOV? || op.XNMOVx? || op.XMOV? || op.XMOVx?
  }

  lemma IndexedAgrees(i: Ins, m: Mem, m': Mem, dead: set<int>)
    requires Complete(i) && IsIndexed(i.op) && AgreeOff(m, m', dead) && ReadsAvoid(i, dead)
    ensures Same(Exec(i, m), Exec(i, m'), dead - Written(i))
  {
    if IsCheck(i.op) {
      CheckAgrees(i, m, m', dead);
    } else {
      GetAgrees(i.xs[2], m, m', dead);
      var n := if GetN(m, i.xs[2]).Ok? then GetN(m, i.xs[2]).value else 0;
      if IsGet(i.op) {
        FetchAgrees(i, m, m', dead, n);
      } else {
        PutAgrees(i, m, m', dead, n);
      }
    }
  }

  lemma CheckAgrees(i: Ins, m: Mem, m': Mem, dead: set<int>)
    requires Complete(i) && IsCheck(i.op) && AgreeOff(m, m', dead) && ReadsAvoid(i, dead)
    ensures Same(Exec(i, m), Exec(i, m'), dead - Written(i))
  {
    GetAgrees(i.xs[1], m, m', dead);
    var n := if GetN(m, i.xs[1]).Ok? then GetN(m, i.xs[1]).value else 0;
    IndexAgrees(i.xs[0], i.xs[0], n, i.xs[0], m, m', dead);
    IndexAgrees(i.xs[0], i.xs[0], Lits(i.xs[1]), i.xs[0], m, m', dead);
  }

  lemma FetchAgrees(i: Ins, m: Mem, m': Mem, dead: set<int>, n: int)
    requires Complete(i) && IsGet(i.op) && AgreeOff(m, m', dead) && ReadsAvoid(i, dead)
    requires GetN(m, i.xs[2]) == GetN(m', i.xs[2]) && (GetN(m, i.xs[2]).Ok? ==> GetN(m, i.xs[2]).value == n)
    ensures Same(Exec(i, m), Exec(i, m'), dead - Written(i))
  {
    IndexAgrees(i.xs[0], i.xs[1], n, i.xs[1], m, m', dead);
    IndexAgrees(i.xs[0], i.xs[1], Lits(i.xs[2]), i.xs[1], m, m', dead);
  }

  lemma PutAgrees(i: Ins, m: Mem, m': Mem, dead: set<int>, n: int)
    requires Complete(i) && IsPut(i.op) && AgreeOff(m, m', dead) && ReadsAvoid(i, dead)
    requires GetN(m, i.xs[2]) == GetN(m', i.xs[2]) && (GetN(m, i.xs[2]).Ok? ==> GetN(m, i.xs[2]).value == n)
    ensures Same(Exec(i, m), Exec(i, m'), dead - Written(i))
  {
    IndexAgrees(i.xs[0], i.xs[1], n, i.xs[3], m, m', dead);
    IndexAgrees(i.xs[0], i.xs[1], Lits(i.xs[2]), i.xs[3], m, m', dead);
  }

  lemma FieldStoreAgrees(i: Ins, m: Mem, m': Mem, dead: set<int>)
    requires Complete(i) && IsFieldStore(i.op) && AgreeOff(m, m', dead) && ReadsAvoid(i, dead)
    ensures Same(Exec(i, m), Exec(i, m'), dead - Written(i))
  {
    GetAgrees(i.xs[1], m, m', dead);
    SetXAgrees(i.xs[0], N(Lits(i.xs[1])), m, m', dead);
    if Get(m, i.xs[1]).Ok? {
      SetXAgrees(i.xs[0], Get(m, i.xs[1]).value, m, m', dead);
    }
    if GetX(m, i.xs[1]).Ok? {
      SetXAgrees(i.xs[0], GetX(m, i.xs[1]).value, m, m', dead);
    }
  }

  /** The value a register-writing instruction computes. */
  function Computed(i: Ins, m: Mem): Result<Value>
    requires Complete(i) && !IsBranch(i.op) && !IsIndexed(i.op) && !IsFieldStore(i.op) && !i.op.PROBE?
  {
    match i.op
    case NSET => Ok(N(Lits(i.xs[1])))
    case NMOV => Get(m, i.xs[1])
    case OMOV => Get(m, i.xs[1])
    case NMOVx => GetX(m, i.xs[1])
    case OMOVx => GetX(m, i.xs[1])
    case iINC => var n :- GetN(m, i.xs[0]); Ok(N(Wrap64(n + 1)))
    case iDEC => var n :- GetN(m, i.xs[0]); Ok(N(Wrap64(n - 1)))
    case iNEG => var n :- GetN(m, i.xs[1]); Ok(N(Wrap64(-n)))
    case bNUL => var r :- GetO(m, i.xs[1]); Ok(Bool(r == 0))
    case bNN => var r :- GetO(m, i.xs[1]); Ok(Bool(r != 0))
    case bNOT => var n :- GetN(m, i.xs[1]); Ok(Bool(n == 0))
    case iARITH(f) => var a :- GetN(m, i.xs[1]); var d :- GetN(m, i.xs[2]); var r :- Alu(f, a, d); Ok(N(r))
    case iARITHC(f) => var a :- GetN(m, i.xs[1]); var r :- Alu(f, a, Lits(i.xs[2])); Ok(N(r))
    case iCMP(c) => var a :- GetN(m, i.xs[1]); var d :- GetN(m, i.xs[2]); Ok(Bool(Compare(c, a, d)))
    case iCMPC(c) => var a :- GetN(m, i.xs[1]); Ok(Bool(Compare(c, a, Lits(i.xs[2]))))
  }

  lemma ExecIsComputed(i: Ins, m: Mem)
    requires Complete(i) && !IsBranch(i.op) && !IsIndexed(i.op) && !IsFieldStore(i.op) && !i.op.PROBE?
    ensures Exec(i, m) == match Computed(i, m) case Ok(v) => Set(m, i.xs[0], v) case Err(e) => Err(e)
  {
  }

  lemma ComputedAgrees(i: Ins, m: Mem, m': Mem, dead: set<int>)
    requires Complete(i) && !IsBranch(i.op) && !IsIndexed(i.op) && !IsFieldStore(i.op) && !i.op.PROBE?
    requires AgreeOff(m, m', dead) && ReadsAvoid(i, dead)
    ensures Computed(i, m) == Computed(i, m')
  {
    var first := if WritesFirst(i.op) then 1 else 0;
    forall j | first <= j < |i.xs|
      ensures Get(m, i.xs[j]) == Get(m', i.xs[j]) && GetN(m, i.xs[j]) == GetN(m', i.xs[j])
      ensures GetO(m, i.xs[j]) == GetO(m', i.xs[j]) && GetX(m, i.xs[j]) == GetX(m', i.xs[j])
    {
      GetAgrees(i.xs[j], m, m', dead);
    }
  }

  /** An instruction that reads no dead word cannot tell the two memories apart. */
  lemma ExecAgrees(i: Ins, m: Mem, m': Mem, dead: set<int>)
    requires Complete(i) && !IsBranch(i.op) && AgreeOff(m, m', dead) && ReadsAvoid(i, dead)
    ensures Same(Exec(i, m), Exec(i, m'), dead - Written(i))
  {
    if IsIndexed(i.op) {
      IndexedAgrees(i, m, m', dead);
    } else if IsFieldStore(i.op) {
      FieldStoreAgrees(i, m, m', dead);
    } else if i.op.PROBE? {
      GetAgrees(i.xs[0], m, m', dead);
    } else {
      ExecIsComputed(i, m);
      ExecIsComputed(i, m');
      ComputedAgrees(i, m, m', dead);
      if Computed(i, m).Ok? {
        SetAgrees(i.xs[0], Computed(i, m).value, m, m', dead);
        if !WritesFirst(i.op) {
          assert Avoids(i.xs[0], dead);
        }
      }
    }
  }

  lemma TestAgrees(i: Ins, m: Mem, m': Mem, dead: set<int>)
    requires Branching(i) && AgreeOff(m, m', dead) && ReadsAvoid(i, dead)
    ensures Test(i.op, i.xs, m) == Test(i.op, i.xs, m')
  {
    forall j | 1 <= j < |i.xs| ensures GetN(m, i.xs[j]) == GetN(m', i.xs[j]) && GetO(m, i.xs[j]) == GetO(m', i.xs[j]) {
      GetAgrees(i.xs[j], m, m', dead);
    }
  }

  // ---------------------------------------------------------------------------
  // Liveness of a block

  /** Words still dead after the body, if they were before. */
  function DeadAfter(body: seq<Ins>, dead: set<int>): set<int>
    decreases |body|
  {
    if body == [] then dead else DeadAfter(body[..|body| - 1], dead) - Written(body[|body| - 1])
  }

  predicate BodySafe(body: seq<Ins>, dead: set<int>)
    decreases |body|
  {
    body == [] ||
    (BodySafe(body[..|body| - 1], dead) && ReadsAvoid(body[|body| - 1], DeadAfter(body[..|body| - 1], dead)))
  }

  lemma {:induction false} BodyAgrees(body: seq<Ins>, m: Mem, m': Mem, dead: set<int>)
    requires Straight(body) && AgreeOff(m, m', dead) && BodySafe(body, dead)
    ensures Same(RunBody(body, m), RunBody(body, m'), DeadAfter(body, dead))
    decreases |body|
  {
    if body != [] {
      var n := |body| - 1;
      BodyAgrees(body[..n], m, m', dead);
      if RunBody(body[..n], m).Ok? {
        ExecAgrees(body[n], RunBody(body[..n], m).value, RunBody(body[..n], m').value, DeadAfter(body[..n], dead));
      }
    }
  }

  // ---------------------------------------------------------------------------
  // Control-flow graphs

  type Graph = map<nat, Block>

  ghost predicate WellFormed(g: Graph) {
    forall l :: l in g ==> Straight(g[l].body) && Branching(g[l].branch)
  }

  /** `dead[l]` are words nobody reads from the entry of block `l` on. */
  ghost predicate DeadOk(g: Graph, dead: map<nat, set<int>>) {
    forall l :: l in g ==> l in dead && BlockDead(g[l], dead[l], dead)
  }

  ghost predicate BlockDead(k: Block, entry: set<int>, dead: map<nat, set<int>>) {
    && BodySafe(k.body, entry) && ReadsAvoid(k.branch, DeadAfter(k.body, entry))
    && k.jump in dead && DeadAfter(k.body, entry) <= dead[k.jump]
    && k.next in dead && DeadAfter(k.body, entry) <= dead[k.next]
  }

  datatype Point = Point(at: nat, m: Mem)

  function StepBlock(k: Block, m: Mem): Result<Point>
    requires Straight(k.body) && Branching(k.branch)
  {
    var m1 :- RunBody(k.body, m);
    var t :- Test(k.branch.op, k.branch.xs, m1);
    Ok(Point(if t then k.next else k.jump, m1))
  }

  /** One block from any point; `None` when control has left the graph. */
  function Blocks(g: Graph): Point -> Option<Result<Point>>
    requires WellFormed(g)
  {
    (p: Point) => if p.at in g then Some(StepBlock(g[p.at], p.m)) else None
  }

  function RunWith(step: Point -> Option<Result<Point>>, p: Point, n: nat): Result<Point>
    decreases n
  {
    if n == 0 then Ok(p)
    else
      match step(p)
      case None => Ok(p)
      case Some(Ok(q)) => RunWith(step, q, n - 1)
      case Some(Err(e)) => Err(e)
  }

  /** `n` blocks from `p`; control that has left the graph stays where it is. */
  function Run(g: Graph, p: Point, n: nat): Result<Point>
    requires WellFormed(g)
  {
    RunWith(Blocks(g), p, n)
  }

  /** A run is its first block and then the rest, until control leaves the graph or a fault. */
  lemma {:induction false} RunGoesOn(g: Graph, p: Point, n: nat)
    requires WellFormed(g)
    ensures Run(g, p, 0) == Ok(p) && (p.at !in g ==> Run(g, p, n) == Ok(p))
    ensures p.at in g && StepBlock(g[p.at], p.m).Ok? ==> Run(g, p, n + 1) == Run(g, StepBlock(g[p.at], p.m).value, n)
    ensures p.at in g && StepBlock(g[p.at], p.m).Err? ==> Run(g, p, n + 1) == Err(StepBlock(g[p.at], p.m).fault)
  {
    RunWithGoesOn(Blocks(g), p, n);
  }

  lemma RunWithGoesOn(step: Point -> Option<Result<Point>>, p: Point, n: nat)
    ensures RunWith(step, p, 0) == Ok(p) && (step(p).None? ==> RunWith(step, p, n) == Ok(p))
    ensures step(p).Some? && step(p).value.Ok? ==> RunWith(step, p, n + 1) == RunWith(step, step(p).value.value, n)
    ensures step(p).Some? && step(p).value.Err? ==> RunWith(step, p, n + 1) == Err(step(p).value.fault)
  {
  }

  /** Faults of the original: an index error or a trap is kept; `Undefined` is C's. */
  ghost predicate Simulates(r: Result<Point>, r': Result<Point>, dead: map<nat, set<int>>) {
    match r
    case Ok(p) => r'.Ok? && r'.value.at == p.at && p.at in dead && AgreeOff(p.m, r'.value.m, dead[p.at])
    case Err(e) => e != Undefined ==> r' == Err(e)
  }

  lemma BlockSimulates(k: Block, entry: set<int>, dead: map<nat, set<int>>, m: Mem, m': Mem)
    requires Straight(k.body) && Branching(k.branch) && BlockDead(k, entry, dead) && AgreeOff(m, m', entry)
    ensures Simulates(StepBlock(k, m), StepBlock(k, m'), dead)
  {
    BodyAgrees(k.body, m, m', entry);
    if RunBody(k.body, m).Ok? {
      TestAgrees(k.branch, RunBody(k.body, m).value, RunBody(k.body, m').value, DeadAfter(k.body, entry));
    }
  }

  lemma {:induction false} FuseFaults(ls: seq<Ins>, a: Operand, swap: bool, m: Mem)
    requires Straight(ls) && RunBody(ls, m).Err? && RunBody(ls, m).fault != Undefined
    ensures Straight(Fuse(ls, a, swap).0) && RunBody(Fuse(ls, a, swap).0, m) == RunBody(ls, m)
    decreases |ls|
  {
    FuseWellFormed(ls, a, swap);
    var k := |ls| - 1;
    if ls != [] && (ls[k].op.bNOT? || IsCompare(ls[k].op)) {
      if RunBody(ls[..k], m).Ok? {
        OnlyUndefined(ls[k], RunBody(ls[..k], m).value);
      }
      if ls[k].op.bNOT? {
        FuseFaults(ls[..k], ls[k].xs[1], !swap, m);
      }
    }
  }

  lemma OnlyUndefined(i: Ins, m: Mem)
    requires Complete(i) && (i.op.bNOT? || IsCompare(i.op))
    ensures Exec(i, m).Err? ==> Exec(i, m).fault == Undefined
  {
  }

  /** The fused block against the plain one, from the same memory. */
  lemma FusedBlockSimulates(ls: seq<Ins>, a: Operand, jump: nat, next: nat, dead: map<nat, set<int>>, m: Mem)
    requires Straight(ls) && Matches(ls, a)
    requires jump in dead && next in dead && Dropped(ls) <= dead[jump] && Dropped(ls) <= dead[next]
    ensures Straight(FusedBlock(ls, a, jump, next).body) && Branching(FusedBlock(ls, a, jump, next).branch)
    ensures Simulates(StepBlock(PlainBlock(ls, a, jump, next), m), StepBlock(FusedBlock(ls, a, jump, next), m), dead)
  {
    FuseWellFormed(ls, a, false);
    match RunBody(ls, m)
    case Err(e) =>
      if e != Undefined {
        FuseFaults(ls, a, false, m);
      }
    case Ok(m1) =>
      if GetN(m1, a).Ok? {
        var t, m' := FuseDecides(ls, a, false, m, m1, GetN(m1, a).value);
      } else {
        GetNUndefined(m1, a);
      }
  }

  lemma GetNUndefined(m: Mem, a: Operand)
    requires GetN(m, a).Err?
    ensures GetN(m, a).fault == Undefined
  {
  }

  lemma SimulatesTrans(r: Result<Point>, s: Result<Point>, t: Result<Point>, dead: map<nat, set<int>>)
    requires Simulates(r, s, dead) && Simulates(s, t, dead)
    ensures Simulates(r, t, dead)
  {
  }

  /** Block `k'` simulates block `k` from any two memories that agree off `entry`. */
  ghost predicate BlockSim(k: Block, k': Block, entry: set<int>, dead: map<nat, set<int>>) {
    && Straight(k.body) && Branching(k.branch) && Straight(k'.body) && Branching(k'.branch)
    && forall m, m' :: AgreeOff(m, m', entry) ==> Simulates(StepBlock(k, m), StepBlock(k', m'), dead)
  }

  ghost predicate GraphSim(g: Graph, g': Graph, dead: map<nat, set<int>>) {
    g.Keys == g'.Keys && forall l :: l in g ==> l in dead && BlockSim(g[l], g'[l], dead[l], dead)
  }

  /** Points at the same block whose memories agree off the words dead there. */
  ghost predicate Alike(p: Point, p': Point, dead: map<nat, set<int>>) {
    p'.at == p.at && p.at in dead && AgreeOff(p.m, p'.m, dead[p.at])
  }

  ghost predicate StepSim(o: Option<Result<Point>>, o': Option<Result<Point>>, dead: map<nat, set<int>>) {
    match o
    case None => o'.None?
    case Some(r) => o'.Some? && Simulates(r, o'.value, dead)
  }

  ghost predicate StepsSim(step: Point -> Option<Result<Point>>, step': Point -> Option<Result<Point>>, dead: map<nat, set<int>>) {
    forall p, p' :: Alike(p, p', dead) ==> StepSim(step(p), step'(p'), dead)
  }

  /** Steps that simulate each other make runs that do. */
  lemma {:induction false} RunSimulates(step: Point -> Option<Result<Point>>, step': Point -> Option<Result<Point>>,
                                        dead: map<nat, set<int>>, p: Point, p': Point, n: nat)
    requires StepsSim(step, step', dead) && Alike(p, p', dead)
    ensures Simulates(RunWith(step, p, n), RunWith(step', p', n), dead)
    decreases n
  {
    if n > 0 {
      assert StepSim(step(p), step'(p'), dead);
      if step(p).Some? && step(p).value.Ok? {
        RunSimulates(step, step', dead, step(p).value.value, step'(p').value.value, n - 1);
      }
    }
  }

  lemma GraphSteps(g: Graph, g': Graph, dead: map<nat, set<int>>)
    requires WellFormed(g) && WellFormed(g') && GraphSim(g, g', dead)
    ensures StepsSim(Blocks(g), Blocks(g'), dead)
  {
    forall p: Point, p': Point | Alike(p, p', dead)
      ensures StepSim(Blocks(g)(p), Blocks(g')(p'), dead)
    {
      if p.at in g {
        assert BlockSim(g[p.at], g'[p.at], dead[p.at], dead);
        BlockSteps(g[p.at], g'[p.at], dead[p.at], dead, p.m, p'.m);
      }
    }
  }

  lemma BlockSteps(k: Block, k': Block, entry: set<int>, dead: map<nat, set<int>>, m: Mem, m': Mem)
    requires BlockSim(k, k', entry, dead) && AgreeOff(m, m', entry)
    ensures Simulates(StepBlock(k, m), StepBlock(k', m'), dead)
  {
  }

  lemma SameBlockSim(k: Block, entry: set<int>, dead: map<nat, set<int>>)
    requires Straight(k.body) && Branching(k.branch) && BlockDead(k, entry, dead)
    ensures BlockSim(k, k, entry, dead)
  {
    forall m, m' | AgreeOff(m, m', entry) ensures Simulates(StepBlock(k, m), StepBlock(k, m'), dead) {
      BlockSimulates(k, entry, dead, m, m');
    }
  }

  /** Block `k'` simulates block `k` from the same memory. */
  ghost predicate SelfSim(k: Block, k': Block, dead: map<nat, set<int>>) {
    && Straight(k.body) && Branching(k.branch) && Straight(k'.body) && Branching(k'.branch)
    && forall m :: Simulates(StepBlock(k, m), StepBlock(k', m), dead)
  }

  lemma FusedBlockSelf(ls: seq<Ins>, a: Operand, jump: nat, next: nat, dead: map<nat, set<int>>)
    requires Straight(ls) && Matches(ls, a)
    requires jump in dead && next in dead && Dropped(ls) <= dead[jump] && Dropped(ls) <= dead[next]
    ensures SelfSim(PlainBlock(ls, a, jump, next), FusedBlock(ls, a, jump, next), dead)
  {
    FuseWellFormed(ls, a, false);
    var k, k' := PlainBlock(ls, a, jump, next), FusedBlock(ls, a, jump, next);
    forall m ensures Simulates(StepBlock(k, m), StepBlock(k', m), dead) {
      FusedBlockSimulates(ls, a, jump, next, dead, m);
    }
  }

  lemma FusedBlockSim(ls: seq<Ins>, a: Operand, jump: nat, next: nat, entry: set<int>, dead: map<nat, set<int>>)
    requires Straight(ls) && Matches(ls, a) && BlockDead(PlainBlock(ls, a, jump, next), entry, dead)
    requires Dropped(ls) <= dead[jump] && Dropped(ls) <= dead[next]
    ensures BlockSim(PlainBlock(ls, a, jump, next), FusedBlock(ls, a, jump, next), entry, dead)
  {
    FusedBlockSelf(ls, a, jump, next, dead);
    AnyPairSimulates(PlainBlock(ls, a, jump, next), FusedBlock(ls, a, jump, next), entry, dead);
  }

  lemma AnyPairSimulates(k: Block, k': Block, entry: set<int>, dead: map<nat, set<int>>)
    requires SelfSim(k, k', dead) && BlockDead(k, entry, dead)
    ensures BlockSim(k, k', entry, dead)
  {
    forall m, m' | AgreeOff(m, m', entry) ensures Simulates(StepBlock(k, m), StepBlock(k', m'), dead) {
      PairSimulates(k, k', entry, dead, m, m');
    }
  }

  lemma PairSimulates(k: Block, k': Block, entry: set<int>, dead: map<nat, set<int>>, m: Mem, m': Mem)
    requires Straight(k.body) && Branching(k.branch) && Straight(k'.body) && Branching(k'.branch)
    requires BlockDead(k, entry, dead) && AgreeOff(m, m', entry)
    requires Simulates(StepBlock(k, m'), StepBlock(k', m'), dead)
    ensures Simulates(StepBlock(k, m), StepBlock(k', m'), dead)
  {
    BlockSimulates(k, entry, dead, m, m');
    SimulatesTrans(StepBlock(k, m), StepBlock(k, m'), StepBlock(k', m'), dead);
  }

  /** Whole runs: replace one compare-and-JMPF block by its fused form.  If the dropped
      registers are dead at both exits, then from memories that differ only in dead words
      every run takes the same path of blocks, raises the same exceptions and ends in
      memories that differ only in dead words. */
  lemma FusePreservesRuns(g: Graph, at: nat, ls: seq<Ins>, a: Operand, jump: nat, next: nat, dead: map<nat, set<int>>, p: Point, p': Point, n: nat)
    requires WellFormed(g) && DeadOk(g, dead) && at in g && g[at] == PlainBlock(ls, a, jump, next)
    requires Matches(ls, a) && Dropped(ls) <= dead[jump] && Dropped(ls) <= dead[next]
    requires Alike(p, p', dead)
    ensures WellFormed(g[at := FusedBlock(ls, a, jump, next)])
    ensures Simulates(Run(g, p, n), Run(g[at := FusedBlock(ls, a, jump, next)], p', n), dead)
  {
    FuseWellFormed(ls, a, false);
    var g' := g[at := FusedBlock(ls, a, jump, next)];
    forall l | l in g ensures BlockSim(g[l], g'[l], dead[l], dead) {
      assert BlockDead(g[l], dead[l], dead);
      if l == at {
        FusedBlockSim(ls, a, jump, next, dead[at], dead);
      } else {
        SameBlockSim(g[l], dead[l], dead);
      }
    }
    GraphSteps(g, g', dead);
    RunSimulates(Blocks(g), Blocks(g'), dead, p, p', n);
  }
}
