/** Reference counts in the RCGC build.
    `klr_mov` increments the new object, decrements the old one, hands it to
    `knh_Object_RCfree` when its count is zero, and only then overwrites the slot.
    `RCfree` releases a whole cascade with an explicit stack.  The invariant says that
    the stored counts are exact in every state between two instructions and that the
    live objects are precisely the ones that something still points to. */
module RefCounts {

  type Ref = nat

  ghost function Occurs(s: seq<Ref>, o: Ref): nat {
    multiset(s)[o]
  }

  /** Number of fields of the first `n` objects, live ones only, that point to `o`. */
  ghost function HeapRefs(fields: seq<seq<Ref>>, alive: seq<bool>, n: nat, o: Ref): nat
    requires n <= |fields| == |alive|
  {
    if n == 0 then 0
    else HeapRefs(fields, alive, n - 1, o) + if alive[n - 1] then Occurs(fields[n - 1], o) else 0
  }

  /** Everything that points to `o`: registers, fields and elements of live objects, and
      the fixed number `ext[o]` of pointers the VM does not manage. */
  ghost function Pointers(regs: seq<Ref>, fields: seq<seq<Ref>>, alive: seq<bool>, ext: seq<nat>, o: Ref): nat
    requires |fields| == |alive| == |ext| && o < |ext|
  {
    Occurs(regs, o) + HeapRefs(fields, alive, |fields|, o) + ext[o]
  }

  function Put(s: seq<Ref>, k: nat, v: Ref): seq<Ref>
    requires k < |s|
  {
    s[k := v]
  }

  ghost predicate InHeap(s: seq<Ref>, n: nat) {
    forall i :: 0 <= i < |s| ==> s[i] < n
  }

  /** Every stored count is exact, and released objects have count zero. */
  ghost predicate Counted(regs: seq<Ref>, fields: seq<seq<Ref>>, alive: seq<bool>, refc: seq<int>, ext: seq<nat>) {
    && |fields| == |alive| == |refc| == |ext|
    && InHeap(regs, |ext|)
    && (forall p :: 0 <= p < |fields| ==> InHeap(fields[p], |ext|))
    && (forall o :: 0 <= o < |ext| ==> refc[o] == Pointers(regs, fields, alive, ext, o))
    && (forall o :: 0 <= o < |ext| && !alive[o] ==> refc[o] == 0)
  }

  // ---------------------------------------------------------------------------
  // Sums over the heap

  lemma {:induction false} HeapRefsAtLeast(fields: seq<seq<Ref>>, alive: seq<bool>, n: nat, p: nat, o: Ref)
    requires p < n <= |fields| == |alive| && alive[p]
    ensures Occurs(fields[p], o) <= HeapRefs(fields, alive, n, o)
  {
    if p < n - 1 {
      HeapRefsAtLeast(fields, alive, n - 1, p, o);
    }
  }

  lemma {:induction false} HeapRefsRelease(fields: seq<seq<Ref>>, alive: seq<bool>, n: nat, p: nat, o: Ref)
    requires n <= |fields| == |alive| && p < |fields| && alive[p]
    ensures HeapRefs(fields, alive[p := false], n, o)
         == HeapRefs(fields, alive, n, o) - if p < n then Occurs(fields[p], o) else 0
  {
    if n > 0 {
      HeapRefsRelease(fields, alive, n - 1, p, o);
    }
  }

  lemma {:induction false} HeapRefsWrite(fields: seq<seq<Ref>>, alive: seq<bool>, n: nat, p: nat, k: nat, v: Ref, o: Ref)
    requires n <= |fields| == |alive| && p < |fields| && alive[p] && k < |fields[p]|
    ensures HeapRefs(fields[p := Put(fields[p], k, v)], alive, n, o)
         == HeapRefs(fields, alive, n, o)
            + if p < n then (if v == o then 1 else 0) - (if fields[p][k] == o then 1 else 0) else 0
  {
    if n > 0 {
      HeapRefsWrite(fields, alive, n - 1, p, k, v, o);
      if p == n - 1 {
        OccursWrite(fields[p], k, v, o);
      }
    }
  }

  lemma OccursWrite(s: seq<Ref>, k: nat, v: Ref, o: Ref)
    requires k < |s|
    ensures Occurs(s[k := v], o) == Occurs(s, o) + (if v == o then 1 else 0) - if s[k] == o then 1 else 0
  {
    assert s == s[..k] + [s[k]] + s[k + 1..];
    assert s[k := v] == s[..k] + [v] + s[k + 1..];
  }

  lemma OccursIn(s: seq<Ref>, o: Ref)
    ensures o in s <==> Occurs(s, o) > 0
  {
  }

  /** Safety: nothing that is still in use points to a released object. */
  lemma {:induction false} NoDangling(regs: seq<Ref>, fields: seq<seq<Ref>>, alive: seq<bool>, refc: seq<int>, ext: seq<nat>)
    requires Counted(regs, fields, alive, refc, ext)
    ensures forall o :: o in regs ==> alive[o]
    ensures forall p, k :: 0 <= p < |fields| && alive[p] && 0 <= k < |fields[p]| ==> alive[fields[p][k]]
  {
    forall o | o in regs ensures alive[o] {
      OccursIn(regs, o);
      assert refc[o] == Pointers(regs, fields, alive, ext, o);
    }
    forall p, k | 0 <= p < |fields| && alive[p] && 0 <= k < |fields[p]| ensures alive[fields[p][k]] {
      var o := fields[p][k];
      OccursIn(fields[p], o);
      HeapRefsAtLeast(fields, alive, |fields|, p, o);
      assert refc[o] == Pointers(regs, fields, alive, ext, o);
    }
  }

  // ---------------------------------------------------------------------------
  // Slots and instructions

  /** A place that holds an object pointer: register `Ro_(r)`, or a field or element. */
  datatype Slot = Reg(r: nat) | Field(p: Ref, k: nat)

  /** What the registers and objects hold, without any counts. */
  datatype Graph = Graph(regs: seq<Ref>, nums: seq<int>, fields: seq<seq<Ref>>) {
    predicate Has(s: Slot) {
      match s
      case Reg(r) => r < |regs|
      case Field(p, k) => p in regs && p < |fields| && k < |fields[p]|
    }

    function At(s: Slot): Ref
      requires Has(s)
    {
      match s
      case Reg(r) => regs[r]
      case Field(p, k) => fields[p][k]
    }

    function Write(s: Slot, v: Ref): Graph
      requires Has(s)
    {
      match s
      case Reg(r) => this.(regs := regs[r := v])
      case Field(p, k) => this.(fields := fields[p := Put(fields[p], k, v)])
    }
  }

  /** Object-moving instructions.  `xi`/`xn` are the two words of an `sfx` operand. */
  datatype Instr =
    | OSET(a: nat, v: Ref)
    | OSET2(a: nat, v: Ref, v2: Ref)
    | OSET3(a: nat, v: Ref, v2: Ref, v3: Ref)
    | OSET4(a: nat, v: Ref, v2: Ref, v3: Ref, v4: Ref)
    | OMOV(a: nat, b: nat)
    | OOMOV(a: nat, b: nat, c: nat, d: nat)
    | ONMOV(a: nat, b: nat, c: nat, d: nat)
    | OMOVx(a: nat, xi: nat, xn: nat)
    | XMOV(xi: nat, xn: nat, b: nat)
    | XOSET(xi: nat, xn: nat, v: Ref)
    | XMOVx(xi: nat, xn: nat, yi: nat, yn: nat)
    | OGETIDXC(c: nat, a: nat, n: nat)
    | OGETIDX(c: nat, a: nat, nr: nat)
    | OSETIDXC(c: nat, a: nat, n: nat, b: nat)
    | OSETIDX(c: nat, a: nat, nr: nat, b: nat)

  /** A single counted move.  A source is a literal of the code or another slot. */
  datatype Source = Lit(v: Ref) | From(s: Slot)
  datatype Move = Move(dst: Slot, src: Source)

  predicate SourceOk(g: Graph, ext: seq<nat>, src: Source) {
    match src
    case Lit(v) => v < |ext| && ext[v] > 0   // literals are counted when the code is built
    case From(s) => g.Has(s)
  }

  function Value(g: Graph, src: Source): Ref
    requires src.From? ==> g.Has(src.s)
  {
    match src
    case Lit(v) => v
    case From(s) => g.At(s)
  }

  predicate MoveOk(g: Graph, ext: seq<nat>, m: Move) {
    g.Has(m.dst) && SourceOk(g, ext, m.src)
  }

  function Base(g: Graph, r: nat): Ref {
    if r < |g.regs| then g.regs[r] else 0
  }

  function Index(g: Graph, nr: nat): nat {
    if nr < |g.nums| && g.nums[nr] >= 0 then g.nums[nr] else 0
  }

  /** The counted moves of one instruction, in the order the macro makes them.  All slots
      are fixed by the registers before the first move, because no macro overwrites a base
      or index register before its last use. */
  function Moves(g: Graph, i: Instr): seq<Move> {
    match i
    case OSET(a, v) => [Move(Reg(a), Lit(v))]
    case OSET2(a, v, v2) => [Move(Reg(a), Lit(v)), Move(Reg(a + 1), Lit(v2))]
    case OSET3(a, v, v2, v3) => [Move(Reg(a), Lit(v)), Move(Reg(a + 1), Lit(v2)), Move(Reg(a + 2), Lit(v3))]
    case OSET4(a, v, v2, v3, v4) =>
      [Move(Reg(a), Lit(v)), Move(Reg(a + 1), Lit(v2)), Move(Reg(a + 2), Lit(v3)), Move(Reg(a + 3), Lit(v4))]
    case OMOV(a, b) => [Move(Reg(a), From(Reg(b)))]
    case OOMOV(a, b, c, d) => [Move(Reg(a), From(Reg(b))), Move(Reg(c), From(Reg(d)))]
    case ONMOV(a, b, _, _) => [Move(Reg(a), From(Reg(b)))]
    case OMOVx(a, xi, xn) => [Move(Reg(a), From(Field(Base(g, xi), xn)))]
    case XMOV(xi, xn, b) => [Move(Field(Base(g, xi), xn), From(Reg(b)))]
    case XOSET(xi, xn, v) => [Move(Field(Base(g, xi), xn), Lit(v))]
    case XMOVx(xi, xn, yi, yn) => [Move(Field(Base(g, xi), xn), From(Field(Base(g, yi), yn)))]
    case OGETIDXC(c, a, n) => [Move(Reg(c), From(Field(Base(g, a), n)))]
    case OGETIDX(c, a, nr) => [Move(Reg(c), From(Field(Base(g, a), Index(g, nr))))]
    case OSETIDXC(c, a, n, b) => [Move(Field(Base(g, a), n), From(Reg(b))), Move(Reg(c), From(Reg(b)))]
    case OSETIDX(c, a, nr, b) => [Move(Field(Base(g, a), Index(g, nr)), From(Reg(b))), Move(Reg(c), From(Reg(b)))]
  }

  /** The plain effect of an instruction on its number registers. */
  function Numbers(nums: seq<int>, i: Instr): seq<int> {
    match i
    case ONMOV(_, _, c, d) => if c < |nums| && d < |nums| then nums[c := nums[d]] else nums
    case _ => nums
  }

  predicate MovesOk(g: Graph, ext: seq<nat>, ms: seq<Move>)
    decreases |ms|
  {
    ms == [] || (MoveOk(g, ext, ms[0]) && MovesOk(Moved(g, ms[0]), ext, ms[1..]))
  }

  function Moved(g: Graph, m: Move): Graph
    requires g.Has(m.dst) && (m.src.From? ==> g.Has(m.src.s))
  {
    g.Write(m.dst, Value(g, m.src))
  }

  function MovedAll(g: Graph, ext: seq<nat>, ms: seq<Move>): Graph
    requires MovesOk(g, ext, ms)
    decreases |ms|
  {
    if ms == [] then g else MovedAll(Moved(g, ms[0]), ext, ms[1..])
  }

  predicate BasesExist(g: Graph, i: Instr) {
    match i
    case OMOVx(_, xi, _) => xi < |g.regs|
    case XMOV(xi, _, _) => xi < |g.regs|
    case XOSET(xi, _, _) => xi < |g.regs|
    case XMOVx(xi, _, yi, _) => xi < |g.regs| && yi < |g.regs|
    case OGETIDXC(_, a, _) => a < |g.regs|
    case OGETIDX(_, a, _) => a < |g.regs|
    case OSETIDXC(_, a, _, _) => a < |g.regs|
    case OSETIDX(_, a, _, _) => a < |g.regs|
    case _ => true
  }

  /** An instruction is well formed in `g`: registers and literals exist, base registers
      hold objects with that field, indexes were checked by a preceding CHKIDX. */
  predicate Ok(g: Graph, ext: seq<nat>, i: Instr) {
    && BasesExist(g, i)
    && MovesOk(g, ext, Moves(g, i))
    && (i.OGETIDX? || i.OSETIDX? ==> i.nr < |g.nums| && g.nums[i.nr] >= 0)
    && (i.ONMOV? ==> i.c < |g.nums| && i.d < |g.nums|)
  }

  /** The instruction as plain assignments, with no counting at all. */
  function Apply(g: Graph, ext: seq<nat>, i: Instr): Graph
    requires Ok(g, ext, i)
  {
    var g' := MovedAll(g, ext, Moves(g, i));
    g'.(nums := Numbers(g'.nums, i))
  }

  // ---------------------------------------------------------------------------
  // What the instructions do, without the moves they are made of

  predicate HasField(g: Graph, p: Ref, k: nat) {
    p < |g.fields| && k < |g.fields[p]|
  }

  /** Registers, numbers and fields after the instruction. */
  predicate Effect(g: Graph, i: Instr, g': Graph) {
    match i
    case OSET(a, v) => a < |g.regs| && g' == Graph(g.regs[a := v], g.nums, g.fields)
    case OSET2(a, v, v2) => a + 1 < |g.regs| && g' == Graph(g.regs[a := v][a + 1 := v2], g.nums, g.fields)
    case OSET3(a, v, v2, v3) =>
      a + 2 < |g.regs| && g' == Graph(g.regs[a := v][a + 1 := v2][a + 2 := v3], g.nums, g.fields)
    case OSET4(a, v, v2, v3, v4) =>
      a + 3 < |g.regs| && g' == Graph(g.regs[a := v][a + 1 := v2][a + 2 := v3][a + 3 := v4], g.nums, g.fields)
    case OMOV(a, b) =>
      a < |g.regs| && b < |g.regs| && g' == Graph(g.regs[a := g.regs[b]], g.nums, g.fields)
    case OOMOV(a, b, c, d) =>   // the second move reads after the first has written
      && a < |g.regs| && b < |g.regs| && c < |g.regs| && d < |g.regs|
      && var r := g.regs[a := g.regs[b]];
         g' == Graph(r[c := r[d]], g.nums, g.fields)
    case ONMOV(a, b, c, d) =>
      && a < |g.regs| && b < |g.regs| && c < |g.nums| && d < |g.nums|
      && g' == Graph(g.regs[a := g.regs[b]], g.nums[c := g.nums[d]], g.fields)
    case OMOVx(a, xi, xn) =>
      && a < |g.regs| && xi < |g.regs| && HasField(g, g.regs[xi], xn)
      && g' == Graph(g.regs[a := g.fields[g.regs[xi]][xn]], g.nums, g.fields)
    case XMOV(xi, xn, b) =>
      && xi < |g.regs| && b < |g.regs| && HasField(g, g.regs[xi], xn)
      && g' == Graph(g.regs, g.nums, FieldSet(g, g.regs[xi], xn, g.regs[b]))
    case XOSET(xi, xn, v) =>
      && xi < |g.regs| && HasField(g, g.regs[xi], xn)
      && g' == Graph(g.regs, g.nums, FieldSet(g, g.regs[xi], xn, v))
    case XMOVx(xi, xn, yi, yn) =>
      && xi < |g.regs| && yi < |g.regs| && HasField(g, g.regs[xi], xn) && HasField(g, g.regs[yi], yn)
      && g' == Graph(g.regs, g.nums, FieldSet(g, g.regs[xi], xn, g.fields[g.regs[yi]][yn]))
    case OGETIDXC(c, a, n) =>
      && c < |g.regs| && a < |g.regs| && HasField(g, g.regs[a], n)
      && g' == Graph(g.regs[c := g.fields[g.regs[a]][n]], g.nums, g.fields)
    case OGETIDX(c, a, nr) =>
      && c < |g.regs| && a < |g.regs| && nr < |g.nums| && g.nums[nr] >= 0 && HasField(g, g.regs[a], g.nums[nr])
      && g' == Graph(g.regs[c := g.fields[g.regs[a]][g.nums[nr]]], g.nums, g.fields)
    case OSETIDXC(c, a, n, b) =>
      && c < |g.regs| && a < |g.regs| && b < |g.regs| && HasField(g, g.regs[a], n)
      && g' == Graph(g.regs[c := g.regs[b]], g.nums, FieldSet(g, g.regs[a], n, g.regs[b]))
    case OSETIDX(c, a, nr, b) =>
      && c < |g.regs| && a < |g.regs| && b < |g.regs| && nr < |g.nums| && g.nums[nr] >= 0
      && HasField(g, g.regs[a], g.nums[nr])
      && g' == Graph(g.regs[c := g.regs[b]], g.nums, FieldSet(g, g.regs[a], g.nums[nr], g.regs[b]))
  }

  /** Field `k` of object `p` replaced, and no other. */
  function FieldSet(g: Graph, p: Ref, k: nat, v: Ref): (r: seq<seq<Ref>>)
    requires HasField(g, p, k)
    ensures |r| == |g.fields| && forall q :: 0 <= q < |r| ==> |r[q]| == |g.fields[q]|
    ensures forall q, j :: 0 <= q < |r| && 0 <= j < |r[q]| ==> r[q][j] == if q == p && j == k then v else g.fields[q][j]
  {
    g.fields[p := Put(g.fields[p], k, v)]
  }

  lemma OneMove(g: Graph, ext: seq<nat>, m: Move)
    requires MovesOk(g, ext, [m])
    ensures MoveOk(g, ext, m) && MovedAll(g, ext, [m]) == Moved(g, m)
  {
    assert [m][1..] == [];
  }

  lemma TwoMoves(g: Graph, ext: seq<nat>, m: Move, n: Move)
    requires MovesOk(g, ext, [m, n])
    ensures MoveOk(g, ext, m) && MoveOk(Moved(g, m), ext, n)
    ensures MovedAll(g, ext, [m, n]) == Moved(Moved(g, m), n)
  {
    assert [m, n][1..] == [n];
    OneMove(Moved(g, m), ext, n);
  }

  lemma ThreeMoves(g: Graph, ext: seq<nat>, m: Move, n: Move, o: Move)
    requires MovesOk(g, ext, [m, n, o])
    ensures MoveOk(g, ext, m) && MoveOk(Moved(g, m), ext, n) && MoveOk(Moved(Moved(g, m), n), ext, o)
    ensures MovedAll(g, ext, [m, n, o]) == Moved(Moved(Moved(g, m), n), o)
  {
    assert [m, n, o][1..] == [n, o];
    TwoMoves(Moved(g, m), ext, n, o);
  }

  lemma FourMoves(g: Graph, ext: seq<nat>, m: Move, n: Move, o: Move, p: Move)
    requires MovesOk(g, ext, [m, n, o, p])
    ensures MoveOk(g, ext, m) && MoveOk(Moved(g, m), ext, n) && MoveOk(Moved(Moved(g, m), n), ext, o)
    ensures MoveOk(Moved(Moved(Moved(g, m), n), o), ext, p)
    ensures MovedAll(g, ext, [m, n, o, p]) == Moved(Moved(Moved(Moved(g, m), n), o), p)
  {
    assert [m, n, o, p][1..] == [n, o, p];
    ThreeMoves(Moved(g, m), ext, n, o, p);
  }

  /** Every instruction does what it is said to do. */
  lemma {:induction false} ApplyEffect(g: Graph, ext: seq<nat>, i: Instr)
    requires Ok(g, ext, i)
    ensures Effect(g, i, Apply(g, ext, i))
  {
    if |Moves(g, i)| == 1 {
      OneMoveEffect(g, ext, i);
    } else {
      MoreMovesEffect(g, ext, i);
    }
  }

  lemma {:induction false} OneMoveEffect(g: Graph, ext: seq<nat>, i: Instr)
    requires Ok(g, ext, i) && |Moves(g, i)| == 1
    ensures Effect(g, i, Apply(g, ext, i))
  {
    var ms := Moves(g, i);
    assert ms == [ms[0]];
    OneMove(g, ext, ms[0]);
  }

  lemma {:induction false} MoreMovesEffect(g: Graph, ext: seq<nat>, i: Instr)
    requires Ok(g, ext, i) && |Moves(g, i)| > 1
    ensures Effect(g, i, Apply(g, ext, i))
  {
    var ms := Moves(g, i);
    if |ms| == 2 {
      assert ms == [ms[0], ms[1]];
      TwoMoves(g, ext, ms[0], ms[1]);
    } else if |ms| == 3 {
      assert ms == [ms[0], ms[1], ms[2]];
      ThreeMoves(g, ext, ms[0], ms[1], ms[2]);
    } else {
      assert ms == [ms[0], ms[1], ms[2], ms[3]];
      FourMoves(g, ext, ms[0], ms[1], ms[2], ms[3]);
    }
  }

  /** The instructions of `code`, one after the other, lead from `g` to `g'`. */
  ghost predicate Leads(g: Graph, code: seq<Instr>, g': Graph)
    decreases |code|
  {
    if code == [] then g' == g else exists g1 :: Effect(g, code[0], g1) && Leads(g1, code[1..], g')
  }

  lemma {:induction false} RunLeads(g: Graph, ext: seq<nat>, code: seq<Instr>)
    requires RunOk(g, ext, code)
    ensures Leads(g, code, ApplyAll(g, ext, code))
    decreases |code|
  {
    if code != [] {
      ApplyEffect(g, ext, code[0]);
      RunLeads(Apply(g, ext, code[0]), ext, code[1..]);
    }
  }

  predicate RunOk(g: Graph, ext: seq<nat>, code: seq<Instr>)
    decreases |code|
  {
    code == [] || (Ok(g, ext, code[0]) && RunOk(Apply(g, ext, code[0]), ext, code[1..]))
  }

  function ApplyAll(g: Graph, ext: seq<nat>, code: seq<Instr>): Graph
    requires RunOk(g, ext, code)
    decreases |code|
  {
    if code == [] then g else ApplyAll(Apply(g, ext, code[0]), ext, code[1..])
  }

  // ---------------------------------------------------------------------------
  // The stack of the release cascade

  ghost predicate NoRepeats(s: seq<Ref>) {
    forall i, j :: 0 <= i < j < |s| ==> s[i] != s[j]
  }

  /** The stack of `RCfree` holds exactly the live objects whose count has dropped to zero. */
  ghost predicate Pending(ostack: seq<Ref>, alive: seq<bool>, refc: seq<int>)
    requires |alive| == |refc|
  {
    && InHeap(ostack, |alive|) && NoRepeats(ostack)
    && forall p :: 0 <= p < |alive| ==> (p in ostack <==> alive[p] && refc[p] <= 0)
  }

  /** The same except for the object `ref` that is just being freed. */
  ghost predicate PendingBut(ostack: seq<Ref>, ref: Ref, alive: seq<bool>, refc: seq<int>)
    requires |alive| == |refc|
  {
    && InHeap(ostack, |alive|) && NoRepeats(ostack) && ref !in ostack
    && forall p :: 0 <= p < |alive| && p != ref ==> (p in ostack <==> alive[p] && refc[p] <= 0)
  }

  lemma Popped(ostack: seq<Ref>, ref: Ref, alive: seq<bool>, refc: seq<int>)
    requires |alive| == |refc| && Pending(ostack + [ref], alive, refc)
    ensures ref < |alive| && alive[ref] && refc[ref] <= 0 && PendingBut(ostack, ref, alive, refc)
  {
    var all := ostack + [ref];
    assert all[|ostack|] == ref;
    assert ref in all;
    assert forall k :: 0 <= k < |ostack| ==> all[k] == ostack[k];
  }

  /** No object has fewer pointers than one object's fields hold, and every field leads to a
      live object. */
  lemma TracedCounts(g: Graph, alive: seq<bool>, refc: seq<int>, ext: seq<nat>, ref: Ref)
    requires Counted(g.regs, g.fields, alive, refc, ext) && ref < |ext| && alive[ref]
    ensures forall q :: 0 <= q < |ext| ==> refc[q] >= Occurs(g.fields[ref], q)
    ensures forall k :: 0 <= k < |g.fields[ref]| ==> g.fields[ref][k] < |ext| && alive[g.fields[ref][k]]
  {
    forall q | 0 <= q < |ext| ensures refc[q] >= Occurs(g.fields[ref], q) {
      HeapRefsAtLeast(g.fields, alive, |g.fields|, ref, q);
      assert refc[q] == Pointers(g.regs, g.fields, alive, ext, q);
    }
    NoDangling(g.regs, g.fields, alive, refc, ext);
  }

  // ---------------------------------------------------------------------------
  // The counting machine

  class Heap {
    var g: Graph
    var refc: seq<int>
    var alive: seq<bool>
    ghost const ext: seq<nat>

    /** Conservation: counts are exact, and live means counted. */
    ghost predicate Valid()
      reads this
    {
      && Counted(g.regs, g.fields, alive, refc, ext)
      && forall o :: 0 <= o < |ext| ==> (alive[o] <==> refc[o] > 0)
    }

    constructor (graph: Graph, counts: seq<int>, live: seq<bool>, ghost external: seq<nat>)
      requires Counted(graph.regs, graph.fields, live, counts, external)
      requires forall o :: 0 <= o < |external| ==> (live[o] <==> counts[o] > 0)
      ensures Valid() && g == graph && alive == live && refc == counts && ext == external
    {
      g, refc, alive, ext := graph, counts, live, external;
    }

    /** `knh_Object_RCfree`.  The slot that is being overwritten still holds the old pointer
        here, so counts are stated against the graph `g'` that the caller is about to have. */
    method RCfree(o: Ref, ghost g': Graph)
      requires Counted(g'.regs, g'.fields, alive, refc, ext)
      requires |g.fields| == |ext|
      requires forall p :: 0 <= p < |ext| ==> g.fields[p] == g'.fields[p] || p in g'.regs
      requires o < |ext| && alive[o] && refc[o] == 0
      requires forall p :: 0 <= p < |ext| && alive[p] && p != o ==> refc[p] > 0
      modifies this`refc, this`alive
      ensures Counted(g'.regs, g'.fields, alive, refc, ext)
      ensures forall p :: 0 <= p < |ext| ==> (alive[p] <==> refc[p] > 0)
      ensures forall p :: 0 <= p < |ext| && alive[p] ==> old(alive[p])
      ensures !alive[o]
    {
      var ostack := [o];
      while ostack != []
        invariant Counted(g'.regs, g'.fields, alive, refc, ext)
        invariant Pending(ostack, alive, refc)
        invariant forall p :: 0 <= p < |ext| && alive[p] ==> old(alive[p])
        invariant alive[o] ==> o in ostack
        decreases set p | 0 <= p < |alive| && alive[p]
      {
        var ref := ostack[|ostack| - 1];
        ostack := ostack[..|ostack| - 1];
        ghost var before := set p | 0 <= p < |alive| && alive[p];
        ostack := FreeOne(ref, ostack, g');
        assert ref in before && ref !in (set p | 0 <= p < |alive| && alive[p]);
      }
    }

    /** One turn of the cascade: an object taken off the stack is traced and freed. */
    method FreeOne(ref: Ref, stack0: seq<Ref>, ghost g': Graph) returns (ostack: seq<Ref>)
      requires Counted(g'.regs, g'.fields, alive, refc, ext)
      requires |g.fields| == |ext|
      requires forall p :: 0 <= p < |ext| ==> g.fields[p] == g'.fields[p] || p in g'.regs
      requires Pending(stack0 + [ref], alive, refc)
      modifies this`refc, this`alive
      ensures ref < |ext| && old(alive[ref]) && alive == old(alive)[ref := false]
      ensures Counted(g'.regs, g'.fields, alive, refc, ext)
      ensures Pending(ostack, alive, refc) && stack0 <= ostack
    {
      Popped(stack0, ref, alive, refc);
      Unreferenced(g', alive, refc, ext, ref);
      ghost var before := refc;
      ostack := ReleaseFields(ref, stack0, g');
      Released(g', alive, before, refc, ext, ref);
      alive := alive[ref := false];
    }

    /** The loop over the traced references of one object, last one first. */
    method ReleaseFields(ref: Ref, stack0: seq<Ref>, ghost g': Graph) returns (ostack: seq<Ref>)
      requires Counted(g'.regs, g'.fields, alive, refc, ext)
      requires |g.fields| == |ext| && ref < |ext| && alive[ref] && refc[ref] == 0
      requires g.fields[ref] == g'.fields[ref]
      requires Occurs(g'.fields[ref], ref) == 0
      requires PendingBut(stack0, ref, alive, refc)
      modifies this`refc
      ensures |refc| == |ext|
      ensures forall q :: 0 <= q < |ext| ==> refc[q] == old(refc[q]) - Occurs(g'.fields[ref], q)
      ensures forall q :: 0 <= q < |ext| ==> refc[q] >= 0
      ensures refc[ref] == 0
      ensures forall q :: 0 <= q < |ext| && !alive[q] ==> refc[q] == 0
      ensures PendingBut(ostack, ref, alive, refc)
      ensures stack0 <= ostack
    {
      var refs := g.fields[ref];
      ostack := stack0;
      var i := |refs|;
      assert refs[i..] == [];
      TracedCounts(g', alive, refc, ext, ref);
      while i > 0
        invariant 0 <= i <= |refs| && |refc| == |ext|
        invariant forall q :: 0 <= q < |ext| ==> refc[q] == old(refc[q]) - Occurs(refs[i..], q)
        invariant PendingBut(ostack, ref, alive, refc) && stack0 <= ostack
      {
        i := i - 1;
        SuffixOccurs(refs, i);
        ostack := DerefOstack(refs[i], ref, ostack);
      }
      assert refs[0..] == refs;
    }

    /** `deref_ostack`.  `knh_Object_RCdec` yields the count before the decrement, so 1 means that
        no pointer is left. */
    method DerefOstack(c: Ref, ghost ref: Ref, stack0: seq<Ref>) returns (ostack: seq<Ref>)
      requires |alive| == |refc| && PendingBut(stack0, ref, alive, refc)
      requires c < |refc| && c != ref && alive[c] && refc[c] > 0
      modifies this`refc
      ensures refc == old(refc)[c := old(refc)[c] - 1]
      ensures PendingBut(ostack, ref, alive, refc) && stack0 <= ostack
    {
      var before := refc[c];
      refc := refc[c := before - 1];
      ostack := if before == 1 then stack0 + [c] else stack0;
    }

    /** `klr_mov(ctx, slot, v2)`. */
    method KlrMov(slot: Slot, v2: Ref)
      requires Valid() && g.Has(slot) && v2 < |ext| && alive[v2]
      modifies this
      ensures Valid() && g == old(g).Write(slot, v2)
      ensures forall o :: 0 <= o < |ext| && alive[o] ==> old(alive[o])
      ensures old(g).At(slot) == v2 ==> alive == old(alive) && refc == old(refc)
    {
      ghost var g' := g.Write(slot, v2);
      var v1 := g.At(slot);
      NoDangling(g.regs, g.fields, alive, refc, ext);
      PointersAfterWrite(g, slot, v2, alive, refc, ext);
      refc := refc[v2 := refc[v2] + 1];
      refc := refc[v1 := refc[v1] - 1];
      if refc[v1] == 0 {
        RCfree(v1, g');
      }
      match slot {
        case Reg(r) => g := g.(regs := g.regs[r := v2]);
        case Field(p, k) => g := g.(fields := g.fields[p := Put(g.fields[p], k, v2)]);
      }
    }

    /** The moves of one instruction, in order. */
    method DoMoves(ms: seq<Move>)
      requires Valid() && MovesOk(g, ext, ms)
      modifies this
      ensures Valid() && g == MovedAll(old(g), ext, ms)
      ensures forall o :: 0 <= o < |ext| && alive[o] ==> old(alive[o])
      decreases |ms|
    {
      if ms != [] {
        SourceAlive(g, alive, refc, ext, ms[0].src);
        KlrMov(ms[0].dst, Value(g, ms[0].src));
        DoMoves(ms[1..]);
      }
    }

    method Exec(i: Instr)
      requires Valid() && Ok(g, ext, i)
      modifies this
      ensures Valid() && g == Apply(old(g), ext, i) && Effect(old(g), i, g)
      ensures forall o :: 0 <= o < |ext| && alive[o] ==> old(alive[o])
    {
      ApplyEffect(g, ext, i);
      DoMoves(Moves(g, i));
      g := g.(nums := Numbers(g.nums, i));
    }

    /** Any run: the counted machine computes the plain assignments, its counts stay exact,
        and the objects released are exactly the ones nothing points to at the end. */
    method Run(code: seq<Instr>)
      requires Valid() && RunOk(g, ext, code)
      modifies this
      ensures Valid() && g == ApplyAll(old(g), ext, code) && Leads(old(g), code, g)
      ensures forall o :: 0 <= o < |ext| && old(alive[o]) ==>
                (!alive[o] <==> Pointers(g.regs, g.fields, alive, ext, o) == 0)
      ensures forall o :: 0 <= o < |ext| && alive[o] ==> old(alive[o])
    {
      var pc := 0;
      RunLeads(g, ext, code);
      assert code[0..] == code;
      while pc < |code|
        invariant 0 <= pc <= |code|
        invariant Valid() && RunOk(g, ext, code[pc..])
        invariant ApplyAll(g, ext, code[pc..]) == ApplyAll(old(g), ext, code)
        invariant forall o :: 0 <= o < |ext| && alive[o] ==> old(alive[o])
      {
        assert code[pc..][0] == code[pc] && code[pc..][1..] == code[pc + 1..];
        Exec(code[pc]);
        pc := pc + 1;
      }
      assert forall o :: 0 <= o < |ext| ==> refc[o] == Pointers(g.regs, g.fields, alive, ext, o);
    }
  }

  lemma SuffixOccurs(s: seq<Ref>, i: nat)
    requires i < |s|
    ensures forall q :: Occurs(s[i..], q) == Occurs(s[i + 1..], q) + if q == s[i] then 1 else 0
    ensures Occurs(s, s[i]) >= Occurs(s[i + 1..], s[i]) + 1
  {
    assert s[i..] == [s[i]] + s[i + 1..];
    assert s == s[..i] + s[i..];
  }

  /** A live object with count zero is not referenced, in particular not by itself, and is
      not the object whose field is being overwritten. */
  lemma {:induction false} Unreferenced(g: Graph, alive: seq<bool>, refc: seq<int>, ext: seq<nat>, o: Ref)
    requires Counted(g.regs, g.fields, alive, refc, ext)
    requires o < |ext| && alive[o] && refc[o] <= 0
    ensures refc[o] == 0 && o !in g.regs
    ensures forall p :: 0 <= p < |g.fields| && alive[p] ==> Occurs(g.fields[p], o) == 0
  {
    assert refc[o] == Pointers(g.regs, g.fields, alive, ext, o);
    OccursIn(g.regs, o);
    forall p | 0 <= p < |g.fields| && alive[p] ensures Occurs(g.fields[p], o) == 0 {
      HeapRefsAtLeast(g.fields, alive, |g.fields|, p, o);
    }
  }

  /** Releasing an object whose fields have been counted down keeps every count exact. */
  lemma Released(g: Graph, alive: seq<bool>, before: seq<int>, after: seq<int>, ext: seq<nat>, ref: Ref)
    requires Counted(g.regs, g.fields, alive, before, ext)
    requires ref < |ext| && alive[ref] && |after| == |ext| && after[ref] == 0
    requires forall q :: 0 <= q < |ext| ==> after[q] == before[q] - Occurs(g.fields[ref], q)
    requires forall q :: 0 <= q < |ext| && !alive[q] ==> after[q] == 0
    ensures Counted(g.regs, g.fields, alive[ref := false], after, ext)
  {
    forall q | 0 <= q < |ext|
      ensures after[q] == Pointers(g.regs, g.fields, alive[ref := false], ext, q)
    {
      HeapRefsRelease(g.fields, alive, |g.fields|, ref, q);
      assert before[q] == Pointers(g.regs, g.fields, alive, ext, q);
    }
  }

  /** Overwriting one slot moves one pointer from the old object to the new one. */
  lemma PointersAfterWrite(g: Graph, slot: Slot, v: Ref, alive: seq<bool>, refc: seq<int>, ext: seq<nat>)
    requires Counted(g.regs, g.fields, alive, refc, ext)
    requires forall o :: 0 <= o < |ext| && refc[o] > 0 ==> alive[o]
    requires g.Has(slot) && v < |ext| && alive[v]
    ensures var v1 := g.At(slot);
            && v1 < |ext| && alive[v1] && refc[v1] > 0
            && Counted(g.Write(slot, v).regs, g.Write(slot, v).fields, alive,
                       refc[v := refc[v] + 1][v1 := refc[v := refc[v] + 1][v1] - 1], ext)
            && (slot.Field? ==> slot.p in g.Write(slot, v).regs)
  {
    NoDangling(g.regs, g.fields, alive, refc, ext);
    var v1 := g.At(slot);
    var g' := g.Write(slot, v);
    var refc' := refc[v := refc[v] + 1][v1 := refc[v := refc[v] + 1][v1] - 1];
    assert slot.Field? ==> alive[slot.p];
    match slot {
      case Reg(r) => OccursIn(g.regs, v1);
      case Field(p, k) => OccursIn(g.fields[p], v1); HeapRefsAtLeast(g.fields, alive, |g.fields|, p, v1);
    }
    assert refc[v1] == Pointers(g.regs, g.fields, alive, ext, v1);
    forall o | 0 <= o < |ext|
      ensures refc'[o] == Pointers(g'.regs, g'.fields, alive, ext, o)
    {
      assert refc[o] == Pointers(g.regs, g.fields, alive, ext, o);
      match slot
      case Reg(r) => OccursWrite(g.regs, r, v, o);
      case Field(p, k) => HeapRefsWrite(g.fields, alive, |g.fields|, p, k, v, o);
    }
  }

  lemma SourceAlive(g: Graph, alive: seq<bool>, refc: seq<int>, ext: seq<nat>, src: Source)
    requires Counted(g.regs, g.fields, alive, refc, ext) && SourceOk(g, ext, src)
    ensures Value(g, src) < |ext| && alive[Value(g, src)]
  {
    NoDangling(g.regs, g.fields, alive, refc, ext);
    var v := Value(g, src);
    match src
    case Lit(_) => assert refc[v] == Pointers(g.regs, g.fields, alive, ext, v);
    case From(s) =>
      match s
      case Reg(r) => assert v in g.regs;
      case Field(p, k) => assert alive[p];
  }
}
