/** `genlang.py`: the numbering of terms, operators and operator methods, and the generated
    functions that look them up by position. */
module Terms {
  import opened Wrappers

  /** A token or operator row; `mark` is the macro, or anything else for the default one. */
  datatype TokenRow = TokenRow(name: string, mark: string, flag: string, to: Option<string>)
  datatype OpRow = OpRow(name: string, mark: string, flag: string, pri: string, mn: string)

  /** The tables, blank and comment lines removed. */
  datatype Input = Input(tstmt: seq<string>, pstmt: seq<string>, token: seq<TokenRow>, optoken: seq<OpRow>,
                         vtoken: seq<string>)

  /** `Stmt` and `Term`: number, macro, printed name and the rest of the generated row. */
  datatype Term = Term(name: string, tt: nat, macro: string, cname: string, flag: string, to: string, pri: string)

  function Upper(s: string): (r: string)
    ensures |r| == |s|
    ensures forall i :: 0 <= i < |s| ==> r[i] as int == if 'a' <= s[i] <= 'z' then s[i] as int - 32 else s[i] as int
  {
    seq(|s|, i requires 0 <= i < |s| => if 'a' <= s[i] <= 'z' then s[i] - 'a' + 'A' else s[i])
  }

  predicate StartsWith(s: string, prefix: string) {
    prefix <= s
  }

  function TokenMacro(name: string, mark: string): string {
    if StartsWith(mark, "TT_") then mark else "TT_" + Upper(name)
  }

  // ---------------------------------------------------------------------------
  // What readData collects

  function StmtTerm(name: string, tt: nat): Term {
    Term(name, tt, "STT_" + Upper(name), name, "0", "-1", "")
  }

  /** The names of the first `n` rows of PSTMT that are not statements yet. */
  function ExtraNames(tstmt: seq<string>, pstmt: seq<string>, n: nat): seq<string>
    requires n <= |pstmt|
  {
    if n == 0 then []
    else
      var names := ExtraNames(tstmt, pstmt, n - 1);
      if pstmt[n - 1] in tstmt || pstmt[n - 1] in names then names else names + [pstmt[n - 1]]
  }

  function Stmts(inp: Input, n: nat): seq<Term>
    requires n <= |inp.pstmt|
  {
    var extra := ExtraNames(inp.tstmt, inp.pstmt, n);
    seq(|inp.tstmt|, i requires 0 <= i < |inp.tstmt| => StmtTerm(inp.tstmt[i], i))
    + seq(|extra|, i requires 0 <= i < |extra| => StmtTerm(extra[i], |inp.tstmt| + i).(cname := "*" + extra[i]))
  }

  function AllStmts(inp: Input): seq<Term> {
    Stmts(inp, |inp.pstmt|)
  }

  /** A keyword that starts a statement leads to that statement, unless a fourth column says otherwise. */
  function TokenTerm(r: TokenRow, stmts: seq<Term>, tt: nat): Term {
    Term(r.name, tt, TokenMacro(r.name, r.mark), r.name, r.flag,
         if r.to.Some? then r.to.value
         else if IsStmt(r.name, stmts) then "STT_" + Upper(r.name)
         else "-1", "")
  }

  predicate IsStmt(name: string, stmts: seq<Term>) {
    exists i :: 0 <= i < |stmts| && stmts[i].name == name
  }

  function OpTerm(r: OpRow, tt: nat): Term {
    Term(r.name, tt, TokenMacro(r.name, r.mark), r.name, r.flag, r.mn, r.pri)
  }

  function ValueTerm(name: string, tt: nat): Term {
    Term(name, tt, "TT_" + Upper(name), name, "0", "-1", "")
  }

  function Tokens(inp: Input): seq<Term> {
    var stmts := AllStmts(inp);
    seq(|inp.token|, i requires 0 <= i < |inp.token| => TokenTerm(inp.token[i], stmts, |stmts| + i))
  }

  function Ops(inp: Input): seq<Term> {
    var base := |AllStmts(inp)| + |inp.token|;
    seq(|inp.optoken|, i requires 0 <= i < |inp.optoken| => OpTerm(inp.optoken[i], base + i))
  }

  function Values(inp: Input): seq<Term> {
    var base := |AllStmts(inp)| + |inp.token| + |inp.optoken|;
    seq(|inp.vtoken|, i requires 0 <= i < |inp.vtoken| => ValueTerm(inp.vtoken[i], base + i))
  }

  /** All terms: statements, tokens, operators, values. */
  function AllTerms(inp: Input): seq<Term> {
    AllStmts(inp) + Tokens(inp) + Ops(inp) + Values(inp)
  }

  /** The operators that have a method name. */
  function Named(ops: seq<Term>): seq<Term> {
    if ops == [] then []
    else
      var init := Named(ops[..|ops| - 1]);
      if ops[|ops| - 1].to != "MN_NONAME" then init + [ops[|ops| - 1]] else init
  }

  function Methods(ops: seq<Term>): seq<string> {
    seq(|ops|, i requires 0 <= i < |ops| => ops[i].to)
  }

  /** Terms are numbered contiguously: the number of a term is its position. */
  lemma NumberedByPosition(inp: Input, i: nat)
    requires i < |AllTerms(inp)|
    ensures AllTerms(inp)[i].tt == i
  {
  }

  lemma {:induction false} NamedIndex(ops: seq<Term>, i: nat) returns (n: nat)
    requires i < |ops| && ops[i].to != "MN_NONAME"
    ensures n < |Named(ops)| && Named(ops)[n] == ops[i]
  {
    if i == |ops| - 1 {
      n := |Named(ops)| - 1;
    } else {
      n := NamedIndex(ops[..|ops| - 1], i);
    }
  }

  lemma {:induction false} NamedOrigin(ops: seq<Term>, n: nat) returns (i: nat)
    requires n < |Named(ops)|
    ensures i < |ops| && Named(ops)[n] == ops[i] && ops[i].to != "MN_NONAME"
  {
    if n == |Named(ops)| - 1 && ops[|ops| - 1].to != "MN_NONAME" {
      i := |ops| - 1;
    } else {
      i := NamedOrigin(ops[..|ops| - 1], n);
    }
  }

  // ---------------------------------------------------------------------------
  // The generated header

  datatype Define = Define(name: string, value: nat)
  datatype TermData = TermData(name: string, flag: string, to: string)
  datatype OpData = OpData(pri: string, mn: string)
  datatype Header = Header(defines: seq<Define>, termData: seq<TermData>, opData: seq<OpData>, opName: seq<string>)

  function TermRow(t: Term): TermData {
    TermData(t.cname, t.flag, t.to)
  }

  function MethodDefines(mns: seq<string>): seq<Define> {
    seq(|mns|, n requires 0 <= n < |mns| => Define(mns[n], n))
  }

  function TermDefines(terms: seq<Term>): seq<Define> {
    seq(|terms|, i requires 0 <= i < |terms| => Define(terms[i].macro, terms[i].tt))
  }

  function TermRows(terms: seq<Term>): seq<TermData> {
    seq(|terms|, i requires 0 <= i < |terms| => TermRow(terms[i]))
  }

  function OpRows(ops: seq<Term>): seq<OpData> {
    seq(|ops|, i requires 0 <= i < |ops| => OpData(ops[i].pri, ops[i].to))
  }

  function CNames(ops: seq<Term>): seq<string> {
    seq(|ops|, i requires 0 <= i < |ops| => ops[i].cname)
  }

  function HeaderOf(inp: Input): Header {
    Header(MethodDefines(Methods(Named(Ops(inp)))) + TermDefines(AllTerms(inp)),
           TermRows(AllTerms(inp)), OpRows(Ops(inp)), CNames(Named(Ops(inp))))
  }

  /** The module-level lists. */
  class Lists {
    var stt: map<string, Term>
    var stmtList: seq<Term>
    var tokenList: seq<Term>
    var mn: seq<string>
    var mnList: seq<Term>
    var opList: seq<Term>

    constructor ()
      ensures stt == map[] && stmtList == tokenList == mnList == opList == [] && mn == []
    {
      stt, stmtList, tokenList, mn, mnList, opList := map[], [], [], [], [], [];
    }

    ghost predicate SttOk()
      reads `stt, `stmtList
    {
      && (forall k :: k in stt ==> IsStmt(k, stmtList) && stt[k].macro == "STT_" + Upper(k))
      && (forall i :: 0 <= i < |stmtList| ==> stmtList[i].name in stt)
    }

    /** The loop of `readData` over TSTMT. */
    method ReadTStmts(tstmt: seq<string>) returns (tt: nat)
      requires stt == map[] && stmtList == []
      modifies `stt, `stmtList
      ensures tt == |stmtList| == |tstmt| && SttOk()
      ensures forall i :: 0 <= i < |tstmt| ==> stmtList[i] == StmtTerm(tstmt[i], i)
    {
      tt := 0;
      for n := 0 to |tstmt|
        invariant tt == n == |stmtList| && SttOk()
        invariant forall i :: 0 <= i < n ==> stmtList[i] == StmtTerm(tstmt[i], i)
      {
        AddStmt(StmtTerm(tstmt[n], tt));
        tt := tt + 1;
      }
    }

    /** The loop over PSTMT: only names that are new take a number. */
    method ReadPStmts(inp: Input, tt0: nat) returns (tt: nat)
      requires stmtList == Stmts(inp, 0) && SttOk() && tt0 == |stmtList|
      modifies `stt, `stmtList
      ensures stmtList == AllStmts(inp) && tt == |stmtList| && SttOk()
    {
      tt := tt0;
      for n := 0 to |inp.pstmt|
        invariant stmtList == Stmts(inp, n) && tt == |stmtList| && SttOk()
      {
        var name := inp.pstmt[n];
        StmtsStep(inp, n);
        KnownIff(name);
        if name !in stt {
          AddStmt(StmtTerm(name, tt).(cname := "*" + name));
          tt := tt + 1;
        }
      }
    }

    lemma KnownIff(name: string)
      requires SttOk()
      ensures name in stt <==> IsStmt(name, stmtList)
    {
    }

    method AddStmt(stmt: Term)
      requires SttOk() && stmt.macro == "STT_" + Upper(stmt.name)
      modifies `stt, `stmtList
      ensures SttOk() && stmtList == old(stmtList) + [stmt]
    {
      stt := stt[stmt.name := stmt];
      stmtList := stmtList + [stmt];
      forall k | k in stt
        ensures IsStmt(k, stmtList)
      {
        if k == stmt.name {
          assert stmtList[|stmtList| - 1].name == k;
        } else {
          assert IsStmt(k, old(stmtList));
          var i :| 0 <= i < |old(stmtList)| && old(stmtList)[i].name == k;
          assert stmtList[i].name == k;
        }
      }
    }

    /** The loop over TOKEN. */
    method ReadTokens(token: seq<TokenRow>, tt0: nat) returns (tt: nat)
      requires SttOk() && tokenList == [] && tt0 == |stmtList|
      modifies `tokenList
      ensures tt == tt0 + |token| && |tokenList| == |token|
      ensures forall i :: 0 <= i < |token| ==> tokenList[i] == TokenTerm(token[i], stmtList, tt0 + i)
    {
      tt := tt0;
      for n := 0 to |token|
        invariant tt == tt0 + n && |tokenList| == n
        invariant forall i :: 0 <= i < n ==> tokenList[i] == TokenTerm(token[i], stmtList, tt0 + i)
      {
        var r := token[n];
        var tr := ToColumn(r);
        tokenList := tokenList + [Term(r.name, tt, TokenMacro(r.name, r.mark), r.name, r.flag, tr, "")];
        tt := tt + 1;
      }
    }

    /** Where a token leads: to its statement, unless the row says otherwise. */
    method ToColumn(r: TokenRow) returns (tr: string)
      requires SttOk()
      ensures forall tt :: Term(r.name, tt, TokenMacro(r.name, r.mark), r.name, r.flag, tr, "") == TokenTerm(r, stmtList, tt)
    {
      tr := "-1";
      KnownIff(r.name);
      if r.name in stt {
        tr := stt[r.name].macro;
      }
      if r.to.Some? {
        tr := r.to.value;
      }
    }

    method AddOp(tk: Term)
      requires mn == Methods(mnList)
      modifies `tokenList, `opList, `mnList, `mn
      ensures tokenList == old(tokenList) + [tk] && opList == old(opList) + [tk]
      ensures mnList == old(mnList) + (if tk.to != "MN_NONAME" then [tk] else []) && mn == Methods(mnList)
    {
      tokenList := tokenList + [tk];
      opList := opList + [tk];
      if tk.to != "MN_NONAME" {
        mn := mn + [tk.to];
        mnList := mnList + [tk];
      }
    }

    /** The loop over OPTOKEN. */
    method ReadOps(optoken: seq<OpRow>, ghost ops: seq<Term>, tt0: nat) returns (tt: nat)
      requires mnList == opList == [] && mn == [] && |ops| == |optoken|
      requires forall i :: 0 <= i < |ops| ==> ops[i] == OpTerm(optoken[i], tt0 + i)
      modifies `tokenList, `opList, `mnList, `mn
      ensures tt == tt0 + |optoken| && tokenList == old(tokenList) + ops && opList == ops
      ensures mnList == Named(ops) && mn == Methods(mnList)
    {
      tt := tt0;
      for n := 0 to |optoken|
        invariant tt == tt0 + n && tokenList == old(tokenList) + ops[..n] && opList == ops[..n]
        invariant mnList == Named(ops[..n]) && mn == Methods(mnList)
      {
        var r := optoken[n];
        var tk := Term(r.name, tt, TokenMacro(r.name, r.mark), r.name, r.flag, r.mn, r.pri);
        assert tk == ops[n];
        NamedStep(ops, n);
        tt := tt + 1;
        AddOp(tk);
      }
      assert ops[..|optoken|] == ops;
    }

    /** The loop over VTOKEN. */
    method ReadValues(vtoken: seq<string>, ghost values: seq<Term>, tt0: nat)
      requires |values| == |vtoken| && forall i :: 0 <= i < |values| ==> values[i] == ValueTerm(vtoken[i], tt0 + i)
      modifies `tokenList
      ensures tokenList == old(tokenList) + values
    {
      var tt := tt0;
      for n := 0 to |vtoken|
        invariant tt == tt0 + n && tokenList == old(tokenList) + values[..n]
      {
        tokenList := tokenList + [ValueTerm(vtoken[n], tt)];
        tt := tt + 1;
      }
      assert values[..|vtoken|] == values;
    }

    /** `readData`. */
    method ReadData(inp: Input)
      requires stt == map[] && stmtList == tokenList == mnList == opList == [] && mn == []
      modifies this
      ensures stmtList == AllStmts(inp) && tokenList == Tokens(inp) + Ops(inp) + Values(inp)
      ensures opList == Ops(inp) && mnList == Named(Ops(inp)) && mn == Methods(mnList)
    {
      var tt := ReadTStmts(inp.tstmt);
      StmtsAre(inp, stmtList);
      tt := ReadPStmts(inp, tt);
      tt := ReadTokens(inp.token, tt);
      TokensAre(inp, tokenList);
      OpsAre(inp);
      tt := ReadOps(inp.optoken, Ops(inp), tt);
      ValuesAre(inp);
      ReadValues(inp.vtoken, Values(inp), tt);
    }

    /** The tables of `write_hfile`. */
    method WriteHfile() returns (h: Header)
      ensures h == Header(MethodDefines(mn) + TermDefines(stmtList + tokenList), TermRows(stmtList + tokenList),
                          OpRows(opList), CNames(mnList))
    {
      var defines: seq<Define> := [];
      for n := 0 to |mn|
        invariant defines == MethodDefines(mn[..n])
      {
        defines := defines + [Define(mn[n], n)];
      }
      assert mn[..|mn|] == mn;
      ghost var all := stmtList + tokenList;
      for i := 0 to |stmtList|
        invariant defines == MethodDefines(mn) + TermDefines(all)[..i]
      {
        defines := defines + [Define(stmtList[i].macro, stmtList[i].tt)];
      }
      for i := 0 to |tokenList|
        invariant defines == MethodDefines(mn) + TermDefines(all)[..|stmtList| + i]
      {
        defines := defines + [Define(tokenList[i].macro, tokenList[i].tt)];
      }
      var termData: seq<TermData> := [];
      for i := 0 to |stmtList|
        invariant termData == TermRows(stmtList)[..i]
      {
        termData := termData + [TermRow(stmtList[i])];
      }
      for i := 0 to |tokenList|
        invariant termData == TermRows(all)[..|stmtList| + i]
      {
        termData := termData + [TermRow(tokenList[i])];
      }
      var opData: seq<OpData> := [];
      for i := 0 to |opList|
        invariant opData == OpRows(opList)[..i]
      {
        opData := opData + [OpData(opList[i].pri, opList[i].to)];
      }
      var opName: seq<string> := [];
      for i := 0 to |mnList|
        invariant opName == CNames(mnList)[..i]
      {
        opName := opName + [mnList[i].cname];
      }
      h := Header(defines, termData, opData, opName);
    }
  }

  lemma StmtsAre(inp: Input, stmts: seq<Term>)
    requires |stmts| == |inp.tstmt| && forall i :: 0 <= i < |stmts| ==> stmts[i] == StmtTerm(inp.tstmt[i], i)
    ensures stmts == Stmts(inp, 0)
  {
  }

  lemma TokensAre(inp: Input, tokens: seq<Term>)
    requires |tokens| == |inp.token|
    requires forall i :: 0 <= i < |tokens| ==> tokens[i] == TokenTerm(inp.token[i], AllStmts(inp), |AllStmts(inp)| + i)
    ensures tokens == Tokens(inp)
  {
  }

  lemma OpsAre(inp: Input)
    ensures |Ops(inp)| == |inp.optoken|
    ensures forall i :: 0 <= i < |Ops(inp)| ==> Ops(inp)[i] == OpTerm(inp.optoken[i], |AllStmts(inp)| + |inp.token| + i)
  {
  }

  lemma ValuesAre(inp: Input)
    ensures |Values(inp)| == |inp.vtoken|
    ensures forall i :: 0 <= i < |Values(inp)| ==>
              Values(inp)[i] == ValueTerm(inp.vtoken[i], |AllStmts(inp)| + |inp.token| + |inp.optoken| + i)
  {
  }

  lemma NamedStep(ops: seq<Term>, n: nat)
    requires n < |ops|
    ensures ops[..n + 1] == ops[..n] + [ops[n]]
    ensures Named(ops[..n + 1]) == Named(ops[..n]) + if ops[n].to != "MN_NONAME" then [ops[n]] else []
  {
    assert ops[..n + 1][..n] == ops[..n];
  }

  /** Row `n` of PSTMT adds a statement when its name is new. */
  lemma StmtsStep(inp: Input, n: nat)
    requires n < |inp.pstmt|
    ensures var stmts, name := Stmts(inp, n), inp.pstmt[n];
            Stmts(inp, n + 1) == if IsStmt(name, stmts) then stmts
                                 else stmts + [StmtTerm(name, |stmts|).(cname := "*" + name)]
  {
    var stmts, extra, name := Stmts(inp, n), ExtraNames(inp.tstmt, inp.pstmt, n), inp.pstmt[n];
    if name in inp.tstmt {
      var i :| 0 <= i < |inp.tstmt| && inp.tstmt[i] == name;
      assert stmts[i].name == name;
    } else if name in extra {
      var i :| 0 <= i < |extra| && extra[i] == name;
      assert stmts[|inp.tstmt| + i].name == name;
    }
  }

  /** Generating the header: read, then write. */
  method Generate(inp: Input) returns (h: Header)
    ensures h == HeaderOf(inp)
  {
    var lists := new Lists();
    lists.ReadData(inp);
    h := lists.WriteHfile();
    assert AllStmts(inp) + (Tokens(inp) + Ops(inp) + Values(inp)) == AllTerms(inp);
  }

  // ---------------------------------------------------------------------------
  // Looking things up in the generated header

  /** What the preprocessor makes of a macro: its last definition. */
  function Value(defines: seq<Define>, name: string): Option<nat> {
    if defines == [] then None
    else if defines[|defines| - 1].name == name then Some(defines[|defines| - 1].value)
    else Value(defines[..|defines| - 1], name)
  }

  lemma {:induction false} LastDefinition(defines: seq<Define>, name: string, i: nat) returns (j: nat)
    requires i < |defines| && defines[i].name == name
    ensures i <= j < |defines| && defines[j].name == name && Value(defines, name) == Some(defines[j].value)
  {
    j := |defines| - 1;
    if defines[j].name != name {
      j := LastDefinition(defines[..j], name, i);
    }
  }

  lemma {:induction false} NoDefinition(a: seq<Define>, b: seq<Define>, name: string)
    requires forall i :: 0 <= i < |b| ==> b[i].name != name
    ensures Value(a + b, name) == Value(a, name)
  {
    if b == [] {
      assert a + b == a;
    } else {
      assert (a + b)[..|a + b| - 1] == a + b[..|b| - 1];
      NoDefinition(a, b[..|b| - 1], name);
    }
  }

  /** The row of a number describes the term with that number. */
  lemma {:induction false} RowDescribesTerm(inp: Input, i: nat)
    requires i < |AllTerms(inp)|
    ensures var t := AllTerms(inp)[i];
            && t.tt < |HeaderOf(inp).termData|
            && HeaderOf(inp).termData[t.tt] == TermData(t.cname, t.flag, t.to)
  {
    NumberedByPosition(inp, i);
  }

  /** Row `i` of the term data and a definition of number `i`. */
  predicate RowIs(inp: Input, i: nat, row: TermData, macro: string) {
    var h := HeaderOf(inp);
    i < |h.termData| && h.termData[i] == row && Define(macro, i) in h.defines
  }

  lemma RowIsTerm(inp: Input, i: nat)
    requires i < |AllTerms(inp)|
    ensures var t := AllTerms(inp)[i]; RowIs(inp, i, TermData(t.cname, t.flag, t.to), t.macro)
  {
    RowDescribesTerm(inp, i);
    NumberedByPosition(inp, i);
    var mns := MethodDefines(Methods(Named(Ops(inp))));
    assert TermDefines(AllTerms(inp))[i] == Define(AllTerms(inp)[i].macro, i);
    assert HeaderOf(inp).defines[|mns| + i] == Define(AllTerms(inp)[i].macro, i);
  }

  /** The row of a statement of TSTMT. */
  lemma {:induction false} StatementRow(inp: Input, i: nat)
    requires i < |inp.tstmt|
    ensures RowIs(inp, i, TermData(inp.tstmt[i], "0", "-1"), "STT_" + Upper(inp.tstmt[i]))
  {
    RowIsTerm(inp, i);
  }

  /** A keyword is a statement exactly when TSTMT or PSTMT has it. */
  lemma {:induction false} StatementIff(inp: Input, name: string)
    ensures IsStmt(name, AllStmts(inp)) <==> name in inp.tstmt || name in inp.pstmt
  {
    var extra := ExtraNames(inp.tstmt, inp.pstmt, |inp.pstmt|);
    ExtraIff(inp.tstmt, inp.pstmt, |inp.pstmt|, name);
    assert inp.pstmt[..|inp.pstmt|] == inp.pstmt;
    StatementNames(inp);
    assert IsStmt(name, AllStmts(inp)) <==> name in inp.tstmt + extra by {
      NamesFind(AllStmts(inp), inp.tstmt + extra, name);
    }
  }

  lemma StatementNames(inp: Input)
    ensures var names := inp.tstmt + ExtraNames(inp.tstmt, inp.pstmt, |inp.pstmt|);
            |AllStmts(inp)| == |names| && forall i :: 0 <= i < |names| ==> AllStmts(inp)[i].name == names[i]
  {
  }

  lemma NamesFind(stmts: seq<Term>, names: seq<string>, name: string)
    requires |stmts| == |names| && forall i :: 0 <= i < |names| ==> stmts[i].name == names[i]
    ensures IsStmt(name, stmts) <==> name in names
  {
  }

  lemma {:induction false} ExtraIff(tstmt: seq<string>, pstmt: seq<string>, n: nat, name: string)
    requires n <= |pstmt|
    ensures name in ExtraNames(tstmt, pstmt, n) <==> name in pstmt[..n] && name !in tstmt
  {
    if n > 0 {
      ExtraIff(tstmt, pstmt, n - 1, name);
      assert pstmt[..n] == pstmt[..n - 1] + [pstmt[n - 1]];
    }
  }

  /** Tokens follow the statements; a keyword that is a statement leads to it unless its row
      says otherwise. */
  lemma {:induction false} TokenRowIs(inp: Input, i: nat)
    requires i < |inp.token|
    ensures var r := inp.token[i];
            RowIs(inp, |AllStmts(inp)| + i,
                  TermData(r.name, r.flag,
                           if r.to.Some? then r.to.value
                           else if r.name in inp.tstmt || r.name in inp.pstmt then "STT_" + Upper(r.name)
                           else "-1"),
                  if "TT_" <= r.mark then r.mark else "TT_" + Upper(r.name))
  {
    StatementIff(inp, inp.token[i].name);
    TokenAt(inp, i);
    RowIsTerm(inp, |AllStmts(inp)| + i);
  }

  /** Then come the operators. */
  lemma {:induction false} OperatorRowIs(inp: Input, i: nat)
    requires i < |inp.optoken|
    ensures var r := inp.optoken[i];
            RowIs(inp, |AllStmts(inp)| + |inp.token| + i, TermData(r.name, r.flag, r.mn),
                  if "TT_" <= r.mark then r.mark else "TT_" + Upper(r.name))
  {
    OperatorAt(inp, i);
    RowIsTerm(inp, |AllStmts(inp)| + |inp.token| + i);
  }

  /** Then the values. */
  lemma {:induction false} ValueRowIs(inp: Input, i: nat)
    requires i < |inp.vtoken|
    ensures RowIs(inp, |AllStmts(inp)| + |inp.token| + |inp.optoken| + i,
                  TermData(inp.vtoken[i], "0", "-1"), "TT_" + Upper(inp.vtoken[i]))
  {
    ValueAt(inp, i);
    RowIsTerm(inp, |AllStmts(inp)| + |inp.token| + |inp.optoken| + i);
  }

  lemma TokenAt(inp: Input, i: nat)
    requires i < |inp.token|
    ensures |AllStmts(inp)| + i < |AllTerms(inp)|
    ensures AllTerms(inp)[|AllStmts(inp)| + i] == TokenTerm(inp.token[i], AllStmts(inp), |AllStmts(inp)| + i)
  {
  }

  lemma OperatorAt(inp: Input, i: nat)
    requires i < |inp.optoken|
    ensures var at := |AllStmts(inp)| + |inp.token| + i;
            at < |AllTerms(inp)| && AllTerms(inp)[at] == OpTerm(inp.optoken[i], at)
  {
  }

  lemma ValueAt(inp: Input, i: nat)
    requires i < |inp.vtoken|
    ensures var at := |AllStmts(inp)| + |inp.token| + |inp.optoken| + i;
            at < |AllTerms(inp)| && AllTerms(inp)[at] == ValueTerm(inp.vtoken[i], at)
  {
  }

  predicate MacrosDistinct(terms: seq<Term>) {
    forall i, j :: 0 <= i < j < |terms| ==> terms[i].macro != terms[j].macro
  }

  predicate MacrosRight(inp: Input) {
    forall i :: 0 <= i < |AllTerms(inp)| ==> Value(HeaderOf(inp).defines, AllTerms(inp)[i].macro) == Some(i)
  }

  /** Every term's macro stands for its number exactly when no two terms have the same macro. */
  lemma MacrosRightIff(inp: Input)
    ensures MacrosRight(inp) <==> MacrosDistinct(AllTerms(inp))
  {
    var terms, defines := AllTerms(inp), HeaderOf(inp).defines;
    if MacrosDistinct(terms) {
      forall i | 0 <= i < |terms|
        ensures Value(defines, terms[i].macro) == Some(i)
      {
        MacroRight(inp, i);
      }
    }
  }

  lemma MacroRight(inp: Input, i: nat)
    requires i < |AllTerms(inp)| && MacrosDistinct(AllTerms(inp))
    ensures Value(HeaderOf(inp).defines, AllTerms(inp)[i].macro) == Some(i)
  {
    NumberedByPosition(inp, i);
    OnlyDefinition(MethodDefines(Methods(Named(Ops(inp)))), AllTerms(inp), i);
  }

  lemma OnlyDefinition(others: seq<Define>, terms: seq<Term>, i: nat)
    requires i < |terms| && MacrosDistinct(terms)
    ensures Value(others + TermDefines(terms), terms[i].macro) == Some(terms[i].tt)
  {
    var defines, m := others + TermDefines(terms), |others|;
    assert defines[m + i] == Define(terms[i].macro, terms[i].tt);
    var j := LastDefinition(defines, terms[i].macro, m + i);
    assert defines[j] == Define(terms[j - m].macro, terms[j - m].tt);
  }

  /** `TT_toMN`; `None` is MN_NONAME, which is defined elsewhere. */
  function ToMN(h: Header, tt: nat): Option<nat> {
    var first, last := Value(h.defines, "TT_LET"), Value(h.defines, "TT_TSUB");
    if first.Some? && last.Some? && first.value <= tt <= last.value && tt - first.value < |h.opData|
    then Value(h.defines, h.opData[tt - first.value].mn)
    else None
  }

  /** `TT_priority` of an operator. */
  function Priority(h: Header, tt: nat): Option<string> {
    var first, last := Value(h.defines, "TT_LET"), Value(h.defines, "TT_TSUB");
    if first.Some? && last.Some? && first.value <= tt <= last.value && tt - first.value < |h.opData|
    then Some(h.opData[tt - first.value].pri)
    else None
  }

  /** The tables fit the fixed names in `TT_toMN`: operators run from TT_LET to TT_TSUB, macros
      are distinct and method names look like method names. */
  predicate Fits(inp: Input) {
    && inp.optoken != []
    && Ops(inp)[0].macro == "TT_LET"
    && Ops(inp)[|inp.optoken| - 1].macro == "TT_TSUB"
    && MacrosDistinct(AllTerms(inp))
    && forall i :: 0 <= i < |inp.optoken| ==> StartsWith(inp.optoken[i].mn, "MN_")
  }

  lemma OperatorMacro(inp: Input, i: nat)
    requires i < |inp.optoken|
    ensures var at := |AllStmts(inp)| + |inp.token| + i;
            i < |Ops(inp)| && at < |AllTerms(inp)| && AllTerms(inp)[at].macro == Ops(inp)[i].macro
  {
    OperatorAt(inp, i);
    OpsAre(inp);
  }

  lemma OperatorRange(inp: Input)
    requires Fits(inp)
    ensures var base := |AllStmts(inp)| + |inp.token|;
            && Value(HeaderOf(inp).defines, "TT_LET") == Some(base)
            && Value(HeaderOf(inp).defines, "TT_TSUB") == Some(base + |inp.optoken| - 1)
  {
    FirstOperator(inp);
    LastOperator(inp);
  }

  lemma FirstOperator(inp: Input)
    requires Fits(inp)
    ensures Value(HeaderOf(inp).defines, "TT_LET") == Some(|AllStmts(inp)| + |inp.token|)
  {
    OperatorValue(inp, 0, Ops(inp)[0].macro);
  }

  lemma LastOperator(inp: Input)
    requires Fits(inp)
    ensures Value(HeaderOf(inp).defines, "TT_TSUB") == Some(|AllStmts(inp)| + |inp.token| + |inp.optoken| - 1)
  {
    OperatorValue(inp, |inp.optoken| - 1, Ops(inp)[|inp.optoken| - 1].macro);
  }

  lemma OperatorValue(inp: Input, i: nat, macro: string)
    requires MacrosDistinct(AllTerms(inp)) && i < |inp.optoken| && i < |Ops(inp)| && Ops(inp)[i].macro == macro
    ensures Value(HeaderOf(inp).defines, macro) == Some(|AllStmts(inp)| + |inp.token| + i)
  {
    OperatorMacro(inp, i);
    MacroRight(inp, |AllStmts(inp)| + |inp.token| + i);
  }

  /** Operators, and only they, are looked up in the operator table, each in its own row. */
  lemma OperatorRow(inp: Input, i: nat)
    requires Fits(inp) && i < |AllTerms(inp)|
    ensures var base := |AllStmts(inp)| + |inp.token|;
            if base <= i < base + |inp.optoken|
            then Priority(HeaderOf(inp), i) == Some(inp.optoken[i - base].pri)
                 && ToMN(HeaderOf(inp), i) == Value(HeaderOf(inp).defines, inp.optoken[i - base].mn)
            else Priority(HeaderOf(inp), i) == None && ToMN(HeaderOf(inp), i) == None
  {
    var base := |AllStmts(inp)| + |inp.token|;
    OperatorRange(inp);
    OperatorData(inp);
    RowLookup(HeaderOf(inp), base, i);
  }

  lemma OperatorData(inp: Input)
    ensures |HeaderOf(inp).opData| == |inp.optoken|
    ensures forall k :: 0 <= k < |inp.optoken| ==> HeaderOf(inp).opData[k] == OpData(inp.optoken[k].pri, inp.optoken[k].mn)
  {
  }

  /** What the two look-ups find when the macros delimit the operator table. */
  lemma RowLookup(h: Header, base: nat, i: nat)
    requires h.opData != [] && Value(h.defines, "TT_LET") == Some(base)
    requires Value(h.defines, "TT_TSUB") == Some(base + |h.opData| - 1)
    ensures if base <= i < base + |h.opData|
            then Priority(h, i) == Some(h.opData[i - base].pri) && ToMN(h, i) == Value(h.defines, h.opData[i - base].mn)
            else Priority(h, i) == None && ToMN(h, i) == None
  {
  }

  /** A method macro stands for a position at which the operator with that method is named. */
  lemma MethodMacro(inp: Input, i: nat) returns (k: nat)
    requires Fits(inp) && i < |inp.optoken| && inp.optoken[i].mn != "MN_NONAME"
    ensures k < |inp.optoken| && inp.optoken[k].mn == inp.optoken[i].mn
    ensures var n := Value(HeaderOf(inp).defines, inp.optoken[i].mn);
            n.Some? && n.value < |HeaderOf(inp).opName| && HeaderOf(inp).opName[n.value] == inp.optoken[k].name
  {
    MethodValue(inp, inp.optoken[i].mn);
    OpAt(inp, i);
    var j: nat;
    j, k := MethodEntry(Ops(inp), i);
    OpAt(inp, k);
    NameAt(inp, j);
  }

  lemma OpAt(inp: Input, i: nat)
    requires i < |Ops(inp)|
    ensures i < |inp.optoken| && Ops(inp)[i].to == inp.optoken[i].mn && Ops(inp)[i].cname == inp.optoken[i].name
  {
  }

  lemma NameAt(inp: Input, j: nat)
    requires j < |Named(Ops(inp))|
    ensures j < |HeaderOf(inp).opName| && HeaderOf(inp).opName[j] == Named(Ops(inp))[j].cname
  {
  }

  /** Only the method part of the header defines method macros. */
  lemma MethodValue(inp: Input, mn: string)
    requires StartsWith(mn, "MN_")
    ensures Value(HeaderOf(inp).defines, mn) == Value(MethodDefines(Methods(Named(Ops(inp)))), mn)
  {
    TermsAreNotMethods(inp, mn);
    NoDefinition(MethodDefines(Methods(Named(Ops(inp)))), TermDefines(AllTerms(inp)), mn);
  }

  /** The last definition of a method macro, and the operator it is for. */
  lemma MethodEntry(ops: seq<Term>, i: nat) returns (j: nat, k: nat)
    requires i < |ops| && ops[i].to != "MN_NONAME"
    ensures j < |Named(ops)| && k < |ops| && Named(ops)[j] == ops[k] && ops[k].to == ops[i].to
    ensures Value(MethodDefines(Methods(Named(ops))), ops[i].to) == Some(j)
  {
    var n := NamedIndex(ops, i);
    var defines := MethodDefines(Methods(Named(ops)));
    assert defines[n].name == ops[i].to;
    j := LastDefinition(defines, ops[i].to, n);
    assert defines[j] == Define(Named(ops)[j].to, j);
    k := NamedOrigin(ops, j);
  }

  lemma TermsAreNotMethods(inp: Input, mn: string)
    requires StartsWith(mn, "MN_")
    ensures forall i :: 0 <= i < |TermDefines(AllTerms(inp))| ==> TermDefines(AllTerms(inp))[i].name != mn
  {
    assert mn[0] == 'M';
    forall i | 0 <= i < |AllTerms(inp)|
      ensures AllTerms(inp)[i].macro[..1] != "M"
    {
    }
  }

  /** MN_NONAME has no definition here. */
  lemma NoName(inp: Input)
    requires Fits(inp)
    ensures Value(HeaderOf(inp).defines, "MN_NONAME") == None
  {
    MethodValue(inp, "MN_NONAME");
    var named := Named(Ops(inp));
    forall n | 0 <= n < |named|
      ensures MethodDefines(Methods(named))[n].name != "MN_NONAME"
    {
      var i := NamedOrigin(Ops(inp), n);
    }
    NoDefinition([], MethodDefines(Methods(named)), "MN_NONAME");
    assert [] + MethodDefines(Methods(named)) == MethodDefines(Methods(named));
  }

  /** `knh_getopname(TT_toMN(tt))` is the operator's own name. */
  predicate NamedRight(inp: Input, i: nat)
    requires i < |inp.optoken|
  {
    var mn := ToMN(HeaderOf(inp), |AllStmts(inp)| + |inp.token| + i);
    if inp.optoken[i].mn == "MN_NONAME" then mn == None
    else mn.Some? && mn.value < |HeaderOf(inp).opName| && HeaderOf(inp).opName[mn.value] == inp.optoken[i].name
  }

  predicate SharedMethodsShareNames(inp: Input) {
    forall i, j :: 0 <= i < |inp.optoken| && 0 <= j < |inp.optoken| ==>
      inp.optoken[i].mn == inp.optoken[j].mn != "MN_NONAME" ==> inp.optoken[i].name == inp.optoken[j].name
  }

  /** The same without the detour over the operator's number. */
  predicate MethodRight(h: Header, r: OpRow) {
    var mn := Value(h.defines, r.mn);
    if r.mn == "MN_NONAME" then mn == None
    else mn.Some? && mn.value < |h.opName| && h.opName[mn.value] == r.name
  }

  lemma NamedRightMeans(inp: Input, i: nat)
    requires Fits(inp) && i < |inp.optoken|
    ensures NamedRight(inp, i) <==> MethodRight(HeaderOf(inp), inp.optoken[i])
  {
    OperatorRow(inp, |AllStmts(inp)| + |inp.token| + i);
  }

  lemma MethodFound(inp: Input, i: nat)
    requires Fits(inp) && i < |inp.optoken| && SharedMethodsShareNames(inp)
    ensures MethodRight(HeaderOf(inp), inp.optoken[i])
  {
    if inp.optoken[i].mn == "MN_NONAME" {
      NoName(inp);
    } else {
      var k := MethodMacro(inp, i);
    }
  }

  /** The method number of every operator leads back to its own name exactly when no two
      operators with different names share a method name. */
  lemma NamesRightIff(inp: Input)
    requires Fits(inp)
    ensures (forall i :: 0 <= i < |inp.optoken| ==> NamedRight(inp, i)) <==> SharedMethodsShareNames(inp)
  {
    forall i | 0 <= i < |inp.optoken|
      ensures NamedRight(inp, i) <==> MethodRight(HeaderOf(inp), inp.optoken[i])
      ensures SharedMethodsShareNames(inp) ==> NamedRight(inp, i)
    {
      NamedRightMeans(inp, i);
      if SharedMethodsShareNames(inp) {
        MethodFound(inp, i);
      }
    }
  }

  // ---------------------------------------------------------------------------
  // Tables on which the look-ups fail

  /** Two tokens that differ in case only. */
  const TWO_CASES := Input([], [], [TokenRow("byte", "-", "0", None), TokenRow("Byte", "-", "0", None)], [], [])

  lemma SameMacro()
    ensures !MacrosRight(TWO_CASES)
  {
    assert Upper("byte") == "BYTE" == Upper("Byte");
    assert AllTerms(TWO_CASES)[0].macro == AllTerms(TWO_CASES)[1].macro;
    MacrosRightIff(TWO_CASES);
  }

  /** A prefix and a binary operator with one method. */
  const TWO_SIGNS := Input([], [], [], [OpRow("-", "TT_LET", "_BIN", "20", "MN_opSUB"),
                                        OpRow("---", "TT_TSUB", "0", "40", "MN_opSUB")], [])

  lemma TwoSignsFit()
    ensures Fits(TWO_SIGNS)
  {
    assert AllTerms(TWO_SIGNS) == Ops(TWO_SIGNS);
  }

  lemma SharedMethod()
    ensures Fits(TWO_SIGNS) && !forall i :: 0 <= i < |TWO_SIGNS.optoken| ==> NamedRight(TWO_SIGNS, i)
  {
    TwoSignsFit();
    assert TWO_SIGNS.optoken[0].mn == TWO_SIGNS.optoken[1].mn != "MN_NONAME";
    NamesRightIff(TWO_SIGNS);
  }
}
