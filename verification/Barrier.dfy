/** The write barrier of the generational build: which stores into old objects are remembered. */
module Barrier {
  import opened Wrappers

  type Ref = nat

  datatype Heap = Heap(regs: seq<Ref>, fields: seq<seq<Ref>>, tenured: seq<bool>, remset: seq<Ref>) {
    predicate WellFormed() {
      && |fields| == |tenured|
      && (forall r :: 0 <= r < |regs| ==> regs[r] < |fields|)
      && (forall p, k :: 0 <= p < |fields| && 0 <= k < |fields[p]| ==> fields[p][k] < |fields|)
    }

    predicate HasField(p: Ref, k: nat) {
      p < |fields| && k < |fields[p]|
    }
  }

  /** Pointer-moving instructions, plus the C-level barrier macros on field `k` of `p`. */
  datatype Op =
    | OMOV(a: nat, b: nat)
    | OSET(a: nat, v: Ref)
    | OMOVx(a: nat, xi: nat, xn: nat)
    | OGETIDX(c: nat, a: nat, n: nat)
    | XMOV(xi: nat, xn: nat, b: nat)
    | XOSET(xi: nat, xn: nat, v: Ref)
    | XMOVx(xi: nat, xn: nat, yi: nat, yn: nat)
    | SETv_withWB(p: Ref, k: nat, v: Ref)
    | OSETIDX(c: nat, a: nat, n: nat, b: nat)

  predicate Ok(h: Heap, op: Op) {
    match op
    case OMOV(a, b) => a < |h.regs| && b < |h.regs|
    case OSET(a, v) => a < |h.regs| && v < |h.fields|
    case OMOVx(a, xi, xn) => a < |h.regs| && xi < |h.regs| && h.HasField(h.regs[xi], xn)
    case OGETIDX(c, a, n) => c < |h.regs| && a < |h.regs| && h.HasField(h.regs[a], n)
    case XMOV(xi, xn, b) => xi < |h.regs| && h.HasField(h.regs[xi], xn) && b < |h.regs|
    case XOSET(xi, xn, v) => xi < |h.regs| && h.HasField(h.regs[xi], xn) && v < |h.fields|
    case XMOVx(xi, xn, yi, yn) =>
      xi < |h.regs| && h.HasField(h.regs[xi], xn) && yi < |h.regs| && h.HasField(h.regs[yi], yn)
    case SETv_withWB(p, k, v) => h.HasField(p, k) && v < |h.fields|
    case OSETIDX(c, a, n, b) => c < |h.regs| && a < |h.regs| && h.HasField(h.regs[a], n) && b < |h.regs|
  }

  function Put(s: seq<Ref>, k: nat, v: Ref): seq<Ref>
    requires k < |s|
  {
    s[k := v]
  }

  function Store(h: Heap, p: Ref, k: nat, v: Ref): Heap
    requires h.HasField(p, k)
  {
    h.(fields := h.fields[p := Put(h.fields[p], k, v)])
  }

  /** `knh_writeBarrier(parent, o)`: it is the stored object that is remembered. */
  function Remember(h: Heap, p: Ref, v: Ref): Heap
    requires p < |h.tenured|
  {
    if h.tenured[p] then h.(remset := h.remset + [v]) else h
  }

  function SetReg(h: Heap, a: nat, v: Ref): Heap
    requires a < |h.regs|
  {
    h.(regs := h.regs[a := v])
  }

  /** Field store through `klr_xmov`: barrier first, then the store. */
  function BarrierStore(h: Heap, p: Ref, k: nat, v: Ref): Heap
    requires h.WellFormed() && h.HasField(p, k)
  {
    Store(Remember(h, p, v), p, k, v)
  }

  function Step(h: Heap, op: Op): Heap
    requires h.WellFormed() && Ok(h, op)
  {
    match op
    case OMOV(a, b) => SetReg(h, a, h.regs[b])
    case OSET(a, v) => SetReg(h, a, v)
    case OMOVx(a, xi, xn) => SetReg(h, a, h.fields[h.regs[xi]][xn])
    case OGETIDX(c, a, n) => SetReg(h, c, h.fields[h.regs[a]][n])
    case XMOV(xi, xn, b) => BarrierStore(h, h.regs[xi], xn, h.regs[b])
    case XOSET(xi, xn, v) => BarrierStore(h, h.regs[xi], xn, v)
    case XMOVx(xi, xn, yi, yn) => BarrierStore(h, h.regs[xi], xn, h.fields[h.regs[yi]][yn])
    case SETv_withWB(p, k, v) => BarrierStore(h, p, k, v)
    case OSETIDX(c, a, n, b) => SetReg(Store(h, h.regs[a], n, h.regs[b]), c, h.regs[b])  // klr_mov: no barrier
  }

  predicate Unchanged(h: Heap, h': Heap) {
    h'.fields == h.fields && h'.tenured == h.tenured && h'.remset == h.remset
  }

  /** Field `k` of `p` holds `v`; if `p` is old, `v` has been remembered.  No other field differs. */
  predicate FieldStored(h: Heap, h': Heap, p: Ref, k: nat, v: Ref) {
    && h.HasField(p, k) && p < |h.tenured| && h'.tenured == h.tenured && ElementStored(h, h', p, k, v)
    && h'.remset == h.remset + if h.tenured[p] then [v] else []
  }

  predicate ElementStored(h: Heap, h': Heap, p: Ref, k: nat, v: Ref) {
    && h.HasField(p, k) && |h'.fields| == |h.fields|
    && (forall q :: 0 <= q < |h.fields| ==> |h'.fields[q]| == |h.fields[q]|)
    && (forall q, j :: 0 <= q < |h.fields| && 0 <= j < |h.fields[q]| ==>
          h'.fields[q][j] == if q == p && j == k then v else h.fields[q][j])
  }

  /** Registers, fields and the remembered set after each instruction. */
  lemma {:induction false} StepEffect(h: Heap, op: Op)
    requires h.WellFormed() && Ok(h, op)
    ensures var h' := Step(h, op);
            match op
            case OMOV(a, b) => h'.regs == h.regs[a := h.regs[b]] && Unchanged(h, h')
            case OSET(a, v) => h'.regs == h.regs[a := v] && Unchanged(h, h')
            case OMOVx(a, xi, xn) => h'.regs == h.regs[a := h.fields[h.regs[xi]][xn]] && Unchanged(h, h')
            case OGETIDX(c, a, n) => h'.regs == h.regs[c := h.fields[h.regs[a]][n]] && Unchanged(h, h')
            case XMOV(xi, xn, b) => h'.regs == h.regs && FieldStored(h, h', h.regs[xi], xn, h.regs[b])
            case XOSET(xi, xn, v) => h'.regs == h.regs && FieldStored(h, h', h.regs[xi], xn, v)
            case XMOVx(xi, xn, yi, yn) =>
              h'.regs == h.regs && FieldStored(h, h', h.regs[xi], xn, h.fields[h.regs[yi]][yn])
            case SETv_withWB(p, k, v) => h'.regs == h.regs && FieldStored(h, h', p, k, v)
            case OSETIDX(c, a, n, b) =>
              && h'.regs == h.regs[c := h.regs[b]] && ElementStored(h, h', h.regs[a], n, h.regs[b])
              && h'.tenured == h.tenured && h'.remset == h.remset
  {
  }

  class Machine {
    var h: Heap

    constructor (start: Heap)
      ensures h == start
    {
      h := start;
    }

    /** `klr_xmov` and `KNH_SETv_withWB`: inline barrier, then the assignment. */
    method Xmov(parent: Ref, k: nat, v2: Ref)
      requires h.WellFormed() && h.HasField(parent, k)
      modifies this
      ensures h == BarrierStore(old(h), parent, k, v2)
    {
      if h.tenured[parent] {
        h := h.(remset := h.remset + [v2]);
      }
      h := h.(fields := h.fields[parent := Put(h.fields[parent], k, v2)]);
    }

    method Execute(op: Op)
      requires h.WellFormed() && Ok(h, op)
      modifies this
      ensures h == Step(old(h), op)
    {
      match op
      case OMOV(a, b) => h := h.(regs := h.regs[a := h.regs[b]]);
      case OSET(a, v) => h := h.(regs := h.regs[a := v]);
      case OMOVx(a, xi, xn) => h := h.(regs := h.regs[a := h.fields[h.regs[xi]][xn]]);
      case OGETIDX(c, a, n) => h := h.(regs := h.regs[c := h.fields[h.regs[a]][n]]);
      case XMOV(xi, xn, b) => Xmov(h.regs[xi], xn, h.regs[b]);
      case XOSET(xi, xn, v) => Xmov(h.regs[xi], xn, v);
      case XMOVx(xi, xn, yi, yn) => Xmov(h.regs[xi], xn, h.fields[h.regs[yi]][yn]);
      case SETv_withWB(p, k, v) => Xmov(p, k, v);
      case OSETIDX(c, a, n, b) =>
        h := h.(fields := h.fields[h.regs[a] := Put(h.fields[h.regs[a]], n, h.regs[b])]);
        h := h.(regs := h.regs[c := h.regs[b]]);
    }
  }

  // ---------------------------------------------------------------------------
  // Runs

  ghost predicate RunOk(h: Heap, ops: seq<Op>)
    decreases |ops|
  {
    ops == [] || (h.WellFormed() && Ok(h, ops[0]) && RunOk(Step(h, ops[0]), ops[1..]))
  }

  ghost function Run(h: Heap, ops: seq<Op>): Heap
    requires RunOk(h, ops)
    decreases |ops|
  {
    if ops == [] then h else Run(Step(h, ops[0]), ops[1..])
  }

  /** One store into slot `k` of `parent`; array stores are those without a barrier. */
  datatype Write = Write(parent: Ref, k: nat, v: Ref, barrier: bool)

  function WriteOf(h: Heap, op: Op): Option<Write>
    requires h.WellFormed() && Ok(h, op)
  {
    match op
    case XMOV(xi, xn, b) => Some(Write(h.regs[xi], xn, h.regs[b], true))
    case XOSET(xi, xn, v) => Some(Write(h.regs[xi], xn, v, true))
    case XMOVx(xi, xn, yi, yn) => Some(Write(h.regs[xi], xn, h.fields[h.regs[yi]][yn], true))
    case SETv_withWB(p, k, v) => Some(Write(p, k, v, true))
    case OSETIDX(c, a, n, b) => Some(Write(h.regs[a], n, h.regs[b], false))
    case _ => None
  }

  /** All stores along a run. */
  ghost function Writes(h: Heap, ops: seq<Op>): set<Write>
    requires RunOk(h, ops)
    decreases |ops|
  {
    if ops == [] then {}
    else
      var w := WriteOf(h, ops[0]);
      (if w.Some? then {w.value} else {}) + Writes(Step(h, ops[0]), ops[1..])
  }

  /** A field store that put `v` into an old object. */
  predicate PutInOld(h: Heap, w: Write, v: Ref) {
    w.barrier && w.parent < |h.tenured| && h.tenured[w.parent] && w.v == v
  }

  /** Some field store put `v` into an old object. */
  ghost predicate StoredInOld(h: Heap, ops: seq<Op>, v: Ref)
    requires RunOk(h, ops)
  {
    exists w :: w in Writes(h, ops) && PutInOld(h, w, v)
  }

  /** A run remembers exactly the objects that its field stores put into old objects, whether
      or not they are still there at the end. */
  lemma {:induction false} RunRemembers(h: Heap, ops: seq<Op>, v: Ref)
    requires RunOk(h, ops)
    ensures v in Run(h, ops).remset <==> v in h.remset || StoredInOld(h, ops, v)
    decreases |ops|
  {
    if ops != [] {
      var h1 := Step(h, ops[0]);
      RunRemembers(h1, ops[1..], v);
      StepRemembers(h, ops[0], v);
      StoredFirst(h, ops, v);
    }
  }

  lemma StoredFirst(h: Heap, ops: seq<Op>, v: Ref)
    requires RunOk(h, ops) && ops != []
    ensures StoredInOld(h, ops, v) <==>
            (WriteOf(h, ops[0]).Some? && PutInOld(h, WriteOf(h, ops[0]).value, v)) || StoredInOld(Step(h, ops[0]), ops[1..], v)
  {
    var w, h1 := WriteOf(h, ops[0]), Step(h, ops[0]);
    assert h1.tenured == h.tenured;
    assert w.Some? ==> w.value in Writes(h, ops);
    assert forall x :: PutInOld(h, x, v) <==> PutInOld(h1, x, v);
  }

  lemma StepRemembers(h: Heap, op: Op, v: Ref)
    requires h.WellFormed() && Ok(h, op)
    ensures v in Step(h, op).remset <==> v in h.remset || (WriteOf(h, op).Some? && PutInOld(h, WriteOf(h, op).value, v))
  {
  }

  /** Slots written by array stores along a run. */
  ghost function ArrayStores(h: Heap, ops: seq<Op>): set<(Ref, nat)>
    requires RunOk(h, ops)
  {
    set w | w in Writes(h, ops) && !w.barrier :: (w.parent, w.k)
  }

  /** Every slot of an old object that has changed since `start` holds a remembered object,
      except possibly the slots in `loose`. */
  ghost predicate Covered(start: Heap, h: Heap, loose: set<(Ref, nat)>) {
    && |h.fields| == |start.fields| && h.tenured == start.tenured
    && forall p, k :: 0 <= p < |h.fields| && p < |h.tenured| && h.tenured[p] && 0 <= k < |h.fields[p]|
         && (k < |start.fields[p]| ==> h.fields[p][k] != start.fields[p][k]) && (p, k) !in loose
         ==> h.fields[p][k] in h.remset
  }

  lemma StepCovered(start: Heap, h: Heap, loose: set<(Ref, nat)>, op: Op)
    requires h.WellFormed() && Ok(h, op) && Covered(start, h, loose)
    ensures Covered(start, Step(h, op), loose + if op.OSETIDX? then {(h.regs[op.a], op.n)} else {})
  {
  }

  /** Over any run, an unremembered new pointer in an old object can only have been put there
      by an array store. */
  lemma {:induction false} RunCovered(start: Heap, h: Heap, loose: set<(Ref, nat)>, ops: seq<Op>)
    requires RunOk(h, ops) && Covered(start, h, loose)
    ensures Covered(start, Run(h, ops), loose + ArrayStores(h, ops))
    decreases |ops|
  {
    if ops == [] {
      assert loose + {} == loose;
    } else {
      var here := if ops[0].OSETIDX? then {(h.regs[ops[0].a], ops[0].n)} else {};
      StepCovered(start, h, loose, ops[0]);
      RunCovered(start, Step(h, ops[0]), loose + here, ops[1..]);
      ArrayStoresFirst(h, ops);
      assert (loose + here) + ArrayStores(Step(h, ops[0]), ops[1..]) == loose + ArrayStores(h, ops);
    }
  }

  lemma ArrayStoresFirst(h: Heap, ops: seq<Op>)
    requires RunOk(h, ops) && ops != []
    ensures ArrayStores(h, ops)
         == (if ops[0].OSETIDX? then {(h.regs[ops[0].a], ops[0].n)} else {}) + ArrayStores(Step(h, ops[0]), ops[1..])
  {
    var rest := Writes(Step(h, ops[0]), ops[1..]);
    if ops[0].OSETIDX? {
      var w := Write(h.regs[ops[0].a], ops[0].n, h.regs[ops[0].b], false);
      assert Writes(h, ops) == {w} + rest;
    }
  }

  /** The invariant itself: after a run without array stores every slot of an old object holds
      what it held at the start or a remembered object. */
  lemma FieldStoresCovered(h: Heap, ops: seq<Op>)
    requires RunOk(h, ops) && |h.fields| == |h.tenured|
    requires forall i :: 0 <= i < |ops| ==> !ops[i].OSETIDX?
    ensures Covered(h, Run(h, ops), {})
  {
    NoArrayStores(h, ops);
    RunCovered(h, h, {}, ops);
  }

  lemma {:induction false} NoArrayStores(h: Heap, ops: seq<Op>)
    requires RunOk(h, ops)
    requires forall i :: 0 <= i < |ops| ==> !ops[i].OSETIDX?
    ensures ArrayStores(h, ops) == {}
    decreases |ops|
  {
    if ops != [] {
      NoArrayStores(Step(h, ops[0]), ops[1..]);
    }
  }

  /** Array stores are outside the claim, and this is exactly when one breaks it: the array is
      old, and the object is neither remembered nor what the slot held at the start. */
  lemma {:induction false} ArrayStoreCoveredIff(start: Heap, h: Heap, op: Op)
    requires h.WellFormed() && Ok(h, op) && op.OSETIDX? && Covered(start, h, {})
    ensures var p := h.regs[op.a];
            Covered(start, Step(h, op), {}) <==>
            !h.tenured[p] || h.regs[op.b] in h.remset
            || (op.n < |start.fields[p]| && h.regs[op.b] == start.fields[p][op.n])
  {
    var p, v, h' := h.regs[op.a], h.regs[op.b], Step(h, op);
    assert h'.fields[p][op.n] == v;
    if h.tenured[p] && v !in h.remset && !(op.n < |start.fields[p]| && v == start.fields[p][op.n]) {
      assert h'.fields[p][op.n] !in h'.remset;
    }
  }

  /** Storing a new object in an old array leaves it unremembered. */
  lemma {:induction false} UnrememberedElement()
    ensures var h, op := Heap([0, 1], [[0], []], [true, false], []), OSETIDX(1, 0, 0, 1);
            && h.WellFormed() && Ok(h, op) && Covered(h, h, {})
            && !Covered(h, Step(h, op), {})
  {
    var h, op := Heap([0, 1], [[0], []], [true, false], []), OSETIDX(1, 0, 0, 1);
    ArrayStoreCoveredIff(h, h, op);
  }
}
