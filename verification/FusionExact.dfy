/** The peephole never compares the register that JMPF tests with the destinations it drops.
    For any chain of bNOTs, with or without a compare in front, this module says exactly when
    that goes well: when what JMPF finally tests is what the fused branch tests. */
module FusionExact {
  import opened Registers
  import opened Fusion
  import opened FusionRuns

  predicate InRange(x: Operand) {
    x.Word? && x.w >= 0
  }

  /** A compare or bNOT, then bNOTs, all on registers. */
  predicate Chain(ls: seq<Ins>) {
    Straight(ls) && forall k :: 0 <= k < |ls| ==> Link(ls[k], k == 0)
  }

  predicate Link(i: Ins, first: bool)
    requires Complete(i)
  {
    && (i.op.bNOT? || (first && IsCompare(i.op)))
    && InRange(i.xs[0]) && InRange(i.xs[1]) && (i.op.iCMP? ==> InRange(i.xs[2]))
  }

  /** Where the plain block exits, the fused one exits to the same place. */
  ghost predicate SameExit(k: Block, k': Block, m: Mem)
    requires Straight(k.body) && Branching(k.branch) && Straight(k'.body) && Branching(k'.branch)
  {
    StepBlock(k, m).Ok? ==> StepBlock(k', m).Ok? && StepBlock(k', m).value.at == StepBlock(k, m).value.at
  }

  ghost predicate SameExits(k: Block, k': Block)
    requires Straight(k.body) && Branching(k.branch) && Straight(k'.body) && Branching(k'.branch)
  {
    forall m :: SameExit(k, k', m)
  }

  ghost predicate AlwaysSameExit(ls: seq<Ins>, a: Operand, jump: nat, next: nat)
    requires Straight(ls)
  {
    FuseWellFormed(ls, a, false);
    SameExits(PlainBlock(ls, a, jump, next), FusedBlock(ls, a, jump, next))
  }

  // ---------------------------------------------------------------------------
  // What is tested, in terms of the memory before the chain

  /** A register or the outcome of a compare, possibly negated. */
  datatype Tested = Reg(w: int, neg: bool) | Outcome(i: Ins, neg: bool)

  predicate Proper(s: Tested) {
    s.Outcome? ==> Complete(s.i) && IsCompare(s.i.op) && Link(s.i, true)
  }

  /** By JMPF on `a`, if `neg` negations are still to come: follow `a` back through the
      instructions that write it. */
  function Plainly(ls: seq<Ins>, a: Operand, neg: bool): (s: Tested)
    requires Chain(ls) && InRange(a)
    ensures Proper(s)
  {
    if ls == [] then Reg(a.w, neg)
    else
      var init, l := ls[..|ls| - 1], ls[|ls| - 1];
      if l.xs[0] != a then Plainly(init, a, neg)
      else if l.op.bNOT? then Plainly(init, l.xs[1], !neg)
      else Outcome(l, neg)
  }

  /** By the fused branch: every bNOT counts, whatever it writes. */
  function FusedTest(ls: seq<Ins>, a: Operand, neg: bool): (s: Tested)
    requires Chain(ls) && InRange(a)
    ensures Proper(s)
  {
    if ls == [] then Reg(a.w, neg)
    else
      var init, l := ls[..|ls| - 1], ls[|ls| - 1];
      if l.op.bNOT? then FusedTest(init, l.xs[1], !neg) else Outcome(l, neg)
  }

  function Val(s: Tested, m: Mem): Result<bool>
    requires Proper(s)
  {
    match s
    case Reg(w, neg) => var n :- GetN(m, Word(w)); Ok((n != 0) != neg)
    case Outcome(i, neg) => var t :- Test(FusedIns(i).op, FusedIns(i).xs, m); Ok(t != neg)
  }

  /** The plain test is worth what JMPF finds in `a`. */
  lemma {:induction false} PlainlyHolds(ls: seq<Ins>, a: Operand, neg: bool, m: Mem, m1: Mem, n: int)
    requires Chain(ls) && InRange(a) && RunBody(ls, m) == Ok(m1) && GetN(m1, a) == Ok(n)
    ensures Val(Plainly(ls, a, neg), m) == Ok((n != 0) != neg)
    decreases |ls|
  {
    if ls != [] {
      var init, l := ls[..|ls| - 1], ls[|ls| - 1];
      var m0 := RunSnoc(ls, m, m1);
      if l.xs[0] != a {
        OtherKept(l, m0, m1, a);
        PlainlyHolds(init, a, neg, m, m0, n);
      } else if l.op.bNOT? {
        NotStep(l, m0, m1);
        PlainlyHolds(init, l.xs[1], !neg, m, m0, GetN(m0, l.xs[1]).value);
      } else {
        assert init == [];
        var t := CompareStep(l, m0, m1);
      }
    }
  }

  lemma OtherKept(l: Ins, m0: Mem, m1: Mem, a: Operand)
    requires Complete(l) && (l.op.bNOT? || IsCompare(l.op)) && InRange(a) && InRange(l.xs[0]) && l.xs[0] != a
    requires Exec(l, m0) == Ok(m1)
    ensures GetN(m1, a) == GetN(m0, a)
  {
    if l.op.bNOT? {
      NotStep(l, m0, m1);
    } else {
      var t := CompareStep(l, m0, m1);
    }
  }

  /** The fused branch tests what it is said to test, with nothing left in front of it. */
  lemma {:induction false} FusedHolds(ls: seq<Ins>, a: Operand, swap: bool, m: Mem, m1: Mem) returns (t: bool)
    requires Chain(ls) && InRange(a) && RunBody(ls, m) == Ok(m1) && GetN(m1, a).Ok?
    ensures Fuse(ls, a, swap).0 == [] && Branching(Fuse(ls, a, swap).1)
    ensures Test(Fuse(ls, a, swap).1.op, Fuse(ls, a, swap).1.xs, m) == Ok(t)
    ensures Val(FusedTest(ls, a, swap), m) == Ok(t != Fuse(ls, a, swap).2)
    decreases |ls|
  {
    if ls == [] {
      t := GetN(m, a).value != 0;
    } else {
      var init, l := ls[..|ls| - 1], ls[|ls| - 1];
      var m0 := RunSnoc(ls, m, m1);
      FuseLast(ls, a, swap);
      if l.op.bNOT? {
        NotStep(l, m0, m1);
        t := FusedHolds(init, l.xs[1], !swap, m, m0);
      } else {
        assert init == [];
        t := CompareStep(l, m0, m1);
      }
    }
  }

  /** Both exits, as far as the plain block gets to one. */
  lemma Exits(ls: seq<Ins>, a: Operand, jump: nat, next: nat, m: Mem, m1: Mem, n: int)
    returns (v: bool)
    requires Chain(ls) && InRange(a) && RunBody(ls, m) == Ok(m1) && GetN(m1, a) == Ok(n)
    ensures Val(Plainly(ls, a, false), m) == Ok(n != 0) && Val(FusedTest(ls, a, false), m) == Ok(v)
    ensures StepBlock(PlainBlock(ls, a, jump, next), m) == Ok(Point(if n != 0 then next else jump, m1))
    ensures var k' := FusedBlock(ls, a, jump, next);
            Straight(k'.body) && Branching(k'.branch) && StepBlock(k', m) == Ok(Point(if v then next else jump, m))
  {
    PlainlyHolds(ls, a, false, m, m1, n);
    var t := FusedHolds(ls, a, false, m, m1);
    v := t != Fuse(ls, a, false).2;
  }

  // ---------------------------------------------------------------------------
  // Two tests that always agree

  /** Two tests are the same, or one is a comparison with zero that is the other. */
  predicate Agree(s: Tested, f: Tested)
    requires Proper(s) && Proper(f)
  {
    s == f || (s.Reg? && f.Outcome? && ComparesWithZero(f.i, s.w, s.neg != f.neg))
  }

  /** The outcome is `w != 0`, or `w == 0` if `neg`. */
  predicate ComparesWithZero(i: Ins, w: int, neg: bool)
    requires Complete(i)
  {
    i.op.iCMPC? && i.xs[1] == Word(w) && Lits(i.xs[2]) == 0 && i.op.c == if neg then EQ else NEQ
  }

  lemma AgreeSuffices(s: Tested, f: Tested, m: Mem)
    requires Proper(s) && Proper(f) && Agree(s, f) && Val(s, m).Ok? && Val(f, m).Ok?
    ensures Val(s, m) == Val(f, m)
  {
  }

  /** The value of a test when register `w` holds `g(w)`. */
  function ValOf(s: Tested, g: int -> int): bool
    requires Proper(s)
  {
    match s
    case Reg(w, neg) => (g(w) != 0) != neg
    case Outcome(i, neg) => Compares(i, g) != neg
  }

  predicate Compares(i: Ins, g: int -> int)
    requires Complete(i) && IsCompare(i.op) && i.xs[1].Word? && (i.op.iCMP? ==> i.xs[2].Word?)
  {
    Compare(i.op.c, g(i.xs[1].w), if i.op.iCMP? then g(i.xs[2].w) else Lits(i.xs[2]))
  }

  function Negated(c: Cmp): (r: Cmp)
    ensures forall x, y :: Compare(r, x, y) <==> !Compare(c, x, y)
  {
    match c
    case EQ => NEQ
    case NEQ => EQ
    case LT => GTE
    case LTE => GT
    case GT => LTE
    case GTE => LT
  }

  /** Registers on which testing `a` and comparing `x` with `y` disagree. */
  function Witness(c: Cmp, a: int, x: int, y: int): int -> int {
    var flip := c == EQ || c == LTE || c == GTE;
    if a != x && a != y then w => if w == a then (if flip then 0 else 1) else 0
    else if a == x && a == y then w => if flip then 0 else 1
    else if a == x then w => if w == x then 1 else if w == y then (match c case EQ => 0 case NEQ => 1 case LT => 1 case LTE => 0 case GT => 1 case GTE => 2) else 0
    else w => if w == y then 1 else if w == x then (match c case EQ => 0 case NEQ => 1 case LT => 1 case LTE => 2 case GT => 1 case GTE => 0) else 0
  }

  lemma WitnessWorks(c: Cmp, a: int, x: int, y: int)
    ensures var g := Witness(c, a, x, y); (g(a) != 0) != Compare(c, g(x), g(y))
  {
  }

  /** A value `v` for which `v != 0` and the comparison of `v` with `k` disagree. */
  function Odd(c: Cmp, k: int): int {
    match c
    case EQ => if k == 1 then 2 else 1
    case NEQ => k
    case LT => if k > 0 then 0 else 1
    case LTE => if k >= 0 then 0 else 1
    case GT => if k < 0 then 0 else -1
    case GTE => if k <= 0 then 0 else -1
  }

  function ConstWitness(c: Cmp, a: int, x: int, k: int): int -> int {
    if a == x then w => if w == a then Odd(c, k) else 0
    else w => if w == a && !Compare(c, 0, k) then 1 else 0
  }

  lemma ConstWitnessWorks(c: Cmp, a: int, x: int, k: int)
    requires !(a == x && c == NEQ && k == 0)
    ensures var g := ConstWitness(c, a, x, k); (g(a) != 0) != Compare(c, g(x), k)
  {
  }

  /** A register and a comparison that do not always agree are told apart by some values. */
  lemma RegAgainstOutcome(w: int, neg: bool, i: Ins) returns (g: int -> int)
    requires Complete(i) && IsCompare(i.op) && InRange(i.xs[1]) && (i.op.iCMP? ==> InRange(i.xs[2]))
    requires !ComparesWithZero(i, w, neg)
    ensures ((g(w) != 0) != neg) != Compares(i, g)
  {
    var c := if neg then Negated(i.op.c) else i.op.c;
    if i.op.iCMP? {
      g := Witness(c, w, i.xs[1].w, i.xs[2].w);
      WitnessWorks(c, w, i.xs[1].w, i.xs[2].w);
    } else {
      g := ConstWitness(c, w, i.xs[1].w, Lits(i.xs[2]));
      ConstWitnessWorks(c, w, i.xs[1].w, Lits(i.xs[2]));
    }
  }

  /** Tests that do not agree are told apart by some values of the registers. */
  lemma ToldApart(s: Tested, f: Tested) returns (g: int -> int)
    requires Proper(s) && Proper(f) && !Agree(s, f)
    requires s.Outcome? ==> f.Outcome? && s.i == f.i
    ensures ValOf(s, g) != ValOf(f, g)
  {
    if s.Reg? && f.Outcome? {
      g := RegAgainstOutcome(s.w, s.neg != f.neg, f.i);
    } else if s.Reg? && s.w != f.w {
      var w := s.w;
      var x, y := if s.neg then 0 else 1, if f.neg then 1 else 0;
      g := v => if v == w then x else y;
    } else {
      g := v => 0;
    }
  }

  // ---------------------------------------------------------------------------
  // A memory for every choice of values

  function Numbers(size: nat, g: int -> int): Mem {
    Mem(seq(size, w requires 0 <= w < size => N(g(w))), map[], [])
  }

  predicate Below(x: Operand, size: nat) {
    x.Word? && 0 <= x.w < size
  }

  predicate LinkBelow(i: Ins, size: nat)
    requires Complete(i) && Link(i, true)
  {
    Below(i.xs[0], size) && Below(i.xs[1], size) && (i.op.iCMP? ==> Below(i.xs[2], size))
  }

  /** All registers of the chain exist. */
  predicate Fits(ls: seq<Ins>, size: nat)
    requires Chain(ls)
  {
    forall k :: 0 <= k < |ls| ==> LinkBelow(ls[k], size)
  }

  /** The words that an instruction of a chain needs. */
  function Extent(i: Ins): (size: nat)
    requires Complete(i) && Link(i, true)
    ensures LinkBelow(i, size)
  {
    i.xs[0].w + i.xs[1].w + 1 + if i.op.iCMP? then i.xs[2].w else 0
  }

  function Size(ls: seq<Ins>, a: Operand): nat
    requires Chain(ls) && InRange(a)
  {
    if ls == [] then a.w + 1 else Size(ls[..|ls| - 1], a) + Extent(ls[|ls| - 1])
  }

  lemma LinkGrows(i: Ins, size: nat, bigger: nat)
    requires Complete(i) && Link(i, true) && LinkBelow(i, size) && size <= bigger
    ensures LinkBelow(i, bigger)
  {
  }

  lemma {:induction false} SizeFits(ls: seq<Ins>, a: Operand)
    requires Chain(ls) && InRange(a)
    ensures Below(a, Size(ls, a)) && Fits(ls, Size(ls, a))
    decreases |ls|
  {
    if ls != [] {
      var init, l := ls[..|ls| - 1], ls[|ls| - 1];
      SizeFits(init, a);
      LinkGrows(l, Extent(l), Size(ls, a));
      forall k | 0 <= k < |init| ensures LinkBelow(ls[k], Size(ls, a)) {
        assert LinkBelow(init[k], Size(init, a));
        LinkGrows(ls[k], Size(init, a), Size(ls, a));
      }
    }
  }

  lemma {:induction false} ChainRuns(ls: seq<Ins>, m: Mem, a: Operand) returns (m1: Mem, n: int)
    requires Chain(ls) && Fits(ls, |m.words|) && forall w :: 0 <= w < |m.words| ==> m.words[w].N?
    requires Below(a, |m.words|)
    ensures RunBody(ls, m) == Ok(m1) && |m1.words| == |m.words| && GetN(m1, a) == Ok(n)
    ensures forall w :: 0 <= w < |m1.words| ==> m1.words[w].N?
    decreases |ls|
  {
    m1 := m;
    if ls != [] {
      var l := ls[|ls| - 1];
      var m0, n0 := ChainRuns(ls[..|ls| - 1], m, l.xs[1]);
      if l.op.iCMP? {
        assert ls[..|ls| - 1] == [];
      }
      m1 := Exec(l, m0).value;
    }
    n := m1.words[a.w].n;
  }

  /** Tests are about the registers of the chain and the compare in front. */
  predicate About(s: Tested, ls: seq<Ins>, size: nat) {
    if s.Reg? then 0 <= s.w < size else ls != [] && s.i == ls[0]
  }

  lemma {:induction false} PlainlyAbout(ls: seq<Ins>, a: Operand, neg: bool, size: nat)
    requires Chain(ls) && Below(a, size) && Fits(ls, size)
    ensures About(Plainly(ls, a, neg), ls, size)
    decreases |ls|
  {
    if ls != [] {
      var init, l := ls[..|ls| - 1], ls[|ls| - 1];
      PlainlyAbout(init, a, neg, size);
      PlainlyAbout(init, l.xs[1], !neg, size);
    }
  }

  lemma {:induction false} FusedAbout(ls: seq<Ins>, a: Operand, neg: bool, size: nat)
    requires Chain(ls) && Below(a, size) && Fits(ls, size)
    ensures About(FusedTest(ls, a, neg), ls, size)
    ensures ls != [] && IsCompare(ls[0].op) ==> FusedTest(ls, a, neg).Outcome?
    decreases |ls|
  {
    if ls != [] {
      FusedAbout(ls[..|ls| - 1], ls[|ls| - 1].xs[1], !neg, size);
    }
  }

  lemma ValOfNumbers(s: Tested, ls: seq<Ins>, size: nat, g: int -> int)
    requires Chain(ls) && Fits(ls, size) && Proper(s) && About(s, ls, size)
    ensures Val(s, Numbers(size, g)) == Ok(ValOf(s, g))
  {
  }

  /** Some memory tells tests that do not agree apart. */
  lemma Apart(ls: seq<Ins>, a: Operand) returns (m: Mem, m1: Mem, n: int)
    requires Chain(ls) && InRange(a) && !Agree(Plainly(ls, a, false), FusedTest(ls, a, false))
    ensures RunBody(ls, m) == Ok(m1) && GetN(m1, a) == Ok(n)
    ensures Val(Plainly(ls, a, false), m) != Val(FusedTest(ls, a, false), m)
  {
    var s, f, size := Plainly(ls, a, false), FusedTest(ls, a, false), Size(ls, a);
    SizeFits(ls, a);
    PlainlyAbout(ls, a, false, size);
    FusedAbout(ls, a, false, size);
    var g := ToldApart(s, f);
    ValOfNumbers(s, ls, size, g);
    ValOfNumbers(f, ls, size, g);
    m := Numbers(size, g);
    m1, n := ChainRuns(ls, m, a);
  }

  lemma SameExitIff(ls: seq<Ins>, a: Operand, jump: nat, next: nat, m: Mem, m1: Mem, n: int)
    requires Chain(ls) && InRange(a) && RunBody(ls, m) == Ok(m1) && GetN(m1, a) == Ok(n) && jump != next
    ensures var k' := FusedBlock(ls, a, jump, next);
            Straight(k'.body) && Branching(k'.branch) &&
            (SameExit(PlainBlock(ls, a, jump, next), k', m) <==> Val(Plainly(ls, a, false), m) == Val(FusedTest(ls, a, false), m))
  {
    var v := Exits(ls, a, jump, next, m, m1, n);
  }

  lemma AgreeingExits(ls: seq<Ins>, a: Operand, jump: nat, next: nat, m: Mem)
    requires Chain(ls) && InRange(a) && Agree(Plainly(ls, a, false), FusedTest(ls, a, false)) && jump != next
    ensures var k' := FusedBlock(ls, a, jump, next);
            Straight(k'.body) && Branching(k'.branch) && SameExit(PlainBlock(ls, a, jump, next), k', m)
  {
    FuseWellFormed(ls, a, false);
    if StepBlock(PlainBlock(ls, a, jump, next), m).Ok? {
      var m1 := RunBody(ls, m).value;
      var n := GetN(m1, a).value;
      var v := Exits(ls, a, jump, next, m, m1, n);
      AgreeSuffices(Plainly(ls, a, false), FusedTest(ls, a, false), m);
    }
  }

  /** The peephole keeps the exits of a block that is such a chain exactly when the register
      that JMPF tests, followed back through the chain, is what the fused branch tests, with
      the same polarity. */
  lemma ChainIff(ls: seq<Ins>, a: Operand, jump: nat, next: nat)
    requires Chain(ls) && InRange(a) && jump != next
    ensures AlwaysSameExit(ls, a, jump, next) <==> Agree(Plainly(ls, a, false), FusedTest(ls, a, false))
  {
    FuseWellFormed(ls, a, false);
    if Agree(Plainly(ls, a, false), FusedTest(ls, a, false)) {
      forall m ensures SameExit(PlainBlock(ls, a, jump, next), FusedBlock(ls, a, jump, next), m) {
        AgreeingExits(ls, a, jump, next, m);
      }
    } else {
      var m, m1, n := Apart(ls, a);
      SameExitIff(ls, a, jump, next, m, m1, n);
      assert !SameExit(PlainBlock(ls, a, jump, next), FusedBlock(ls, a, jump, next), m);
    }
  }

  /** In particular: one dropped bNOT or register compare must have written the tested register,
      one dropped compare with a constant may also be the test `a != 0` itself. */
  lemma MatchIff(i: Ins, a: Operand, jump: nat, next: nat)
    requires Complete(i) && Chain([i]) && InRange(a) && jump != next
    ensures AlwaysSameExit([i], a, jump, next) <==> i.xs[0] == a || ComparesWithZero(i, a.w, false)
  {
    ChainIff([i], a, jump, next);
    assert [i][0] == i && [i][..0] == [];
  }

  /** Chains in which every bNOT and compare wrote what comes to be tested are among them. */
  lemma {:induction false} MatchingChain(ls: seq<Ins>, a: Operand, neg: bool)
    requires Chain(ls) && InRange(a) && Matches(ls, a)
    ensures Plainly(ls, a, neg) == FusedTest(ls, a, neg)
    decreases |ls|
  {
    if ls != [] && ls[|ls| - 1].op.bNOT? {
      MatchingChain(ls[..|ls| - 1], ls[|ls| - 1].xs[1], !neg);
    }
  }

  /** Two bNOTs of different registers: JMPF tests the second one's outcome, the fused branch
      the first one's argument. */
  lemma UnrelatedNots(jump: nat, next: nat)
    requires jump != next
    ensures !AlwaysSameExit([Ins(bNOT, [Word(1), Word(0)]), Ins(bNOT, [Word(3), Word(2)])], Word(3), jump, next)
  {
    var ls := [Ins(bNOT, [Word(1), Word(0)]), Ins(bNOT, [Word(3), Word(2)])];
    var init := [ls[0]];
    assert ls[..1] == init && init[..0] == [];
    ChainIff(ls, Word(3), jump, next);
    assert Plainly(init, Word(2), true) == Reg(2, true);
    assert FusedTest(init, Word(2), true) == Reg(0, false);
  }
}
