/** What a list of declarations means for the tables of `genkonoha.py`: the classes, the array
    and iterator types that mentioning them brings into being, the methods and their
    parameter rows. */
module Declarations {

  import opened Wrappers
  import opened Numbering

  /** One `//##` line, split into tokens; only the kinds that touch the modelled tables. */
  datatype Decl =
    | ClassDecl(tokens: seq<string>)
    | TypeDecl(cname: string, bname: string, rsize: nat, cparams: seq<string>)
    | MethodDecl(rtype: string, cname: string, mn: string, tt: seq<string>, vargs: bool)
    | MapperDecl(fcname: string)

  /** `parse_Class` takes apart two tokens and more. */
  predicate Parsable(d: Decl) {
    d.ClassDecl? ==> |d.tokens| >= 2
  }

  /** `parse_Class`. */
  function ClassOf(tokens: seq<string>): (c: Entry)
    requires |tokens| >= 2
    ensures c.Class? && c.name == tokens[0]
    ensures |tokens| <= 3 ==> c.cname == c.name && c.parent == tokens[1]
    ensures |tokens| > 3 ==> c.cname == tokens[1] && c.parent == tokens[2]
    ensures |tokens| == 2 ==> IsStruct(c)
    ensures |tokens| > 2 ==> (IsStruct(c) <==> EndsWith(if |tokens| == 3 then tokens[2] else tokens[3], "_t"))
  {
    if |tokens| == 2 then Class(tokens[0], tokens[0], tokens[1], "knh_" + tokens[0] + "_t")
    else if |tokens| == 3 then Class(tokens[0], tokens[0], tokens[1], tokens[2])
    else Class(tokens[0], tokens[1], tokens[2], tokens[3])
  }

  function TypeOf(d: Decl): Entry
    requires d.TypeDecl?
  {
    PType(d.cname, d.bname, d.rsize, d.cparams)
  }

  /** A final "..." marks a variable argument list. */
  predicate Ellipsis(tt: seq<string>) {
    tt != [] && tt[|tt| - 1] == "..."
  }

  function ParamTokens(tt: seq<string>): seq<string> {
    if Ellipsis(tt) then tt[..|tt| - 1] else tt
  }

  /** Types and names in turn; "_" is the empty name and an odd token is dropped. */
  function Pairs(tt: seq<string>): seq<Param> {
    if |tt| < 2 then [] else [Param(tt[0], if tt[1] == "_" then "" else tt[1])] + Pairs(tt[2..])
  }

  /** The method a declaration stands for, whatever its row. */
  function MethodOf(d: Decl): Method
    requires d.MethodDecl?
  {
    Method(d.rtype, d.cname, d.mn, Pairs(ParamTokens(d.tt)), d.vargs || Ellipsis(d.tt), 0)
  }

  predicate IsInput(decls: seq<Decl>) {
    forall i :: 0 <= i < |decls| ==> Parsable(decls[i]) && (decls[i].MethodDecl? ==> WellFormed(MethodOf(decls[i])))
  }

  /** `void` and the marks aside, the row has what the declaration says: a result unless it is
      "void", and for every type and name the type and the name. */
  predicate RowRight(row: ParamRow, d: Decl)
    requires d.MethodDecl?
  {
    var variadic := d.tt != [] && d.tt[|d.tt| - 1] == "...";
    var n := if variadic then |d.tt| - 1 else |d.tt|;
    && (row.result == None <==> d.rtype == "void")
    && (d.rtype != "void" ==> row.result == Some(Plain(d.rtype)))
    && (row.vargs <==> d.vargs || variadic)
    && |row.params| == n / 2
    && forall k :: 0 <= k < |row.params| ==>
         row.params[k] == Param(Plain(d.tt[2 * k]), if d.tt[2 * k + 1] == "_" then "" else d.tt[2 * k + 1])
  }

  lemma {:induction false} PairAt(tt: seq<string>, k: nat)
    requires k < |tt| / 2
    ensures |Pairs(tt)| == |tt| / 2
    ensures Pairs(tt)[k] == Param(tt[2 * k], if tt[2 * k + 1] == "_" then "" else tt[2 * k + 1])
    decreases |tt|
  {
    PairsLength(tt);
    PairsLength(tt[2..]);
    if k > 0 {
      PairAt(tt[2..], k - 1);
    }
  }

  lemma {:induction false} PairsLength(tt: seq<string>)
    ensures |Pairs(tt)| == |tt| / 2
    decreases |tt|
  {
    if |tt| >= 2 {
      PairsLength(tt[2..]);
    }
  }

  /** The row of a method, whatever its number. */
  lemma RowOfDecl(d: Decl, mf: nat)
    requires d.MethodDecl?
    ensures RowRight(RowOf(MethodOf(d).(mf := mf)), d)
  {
    var tt, row := ParamTokens(d.tt), RowOf(MethodOf(d).(mf := mf));
    PairsLength(tt);
    forall k | 0 <= k < |row.params|
      ensures row.params[k] == Param(Plain(d.tt[2 * k]), if d.tt[2 * k + 1] == "_" then "" else d.tt[2 * k + 1])
    {
      PairAt(tt, k);
      ParamAt(Pairs(tt), k);
    }
  }

  lemma ParamAt(ps: seq<Param>, k: nat)
    requires k < |ps|
    ensures |Params(ps)| == |ps| && Params(ps)[k] == Param(Plain(ps[k].typ), ps[k].fn)
  {
  }

  lemma InputPrefix(decls: seq<Decl>, n: nat)
    requires IsInput(decls) && n <= |decls|
    ensures IsInput(decls[..n])
  {
  }

  // ---------------------------------------------------------------------------
  // Classes

  /** The declared classes, in order. */
  function ClassesOf(decls: seq<Decl>): (r: seq<Entry>)
    requires IsInput(decls)
    ensures forall e :: e in r ==> e.Class?
  {
    if decls == [] then []
    else
      var d := decls[|decls| - 1];
      InputPrefix(decls, |decls| - 1);
      ClassesOf(decls[..|decls| - 1]) + if d.ClassDecl? then [ClassOf(d.tokens)] else []
  }

  // ---------------------------------------------------------------------------
  // Types

  /** The class table, the generic types, and the positions of those that nobody declared. */
  datatype Table = Table(classes: map<string, Entry>, ptypes: seq<Entry>, generated: set<nat>)

  const NO_TYPES := Table(map[], [], {})

  function WithClass(tab: Table, c: Entry): Table
    requires c.Class?
  {
    tab.(classes := tab.classes[c.name := c][c.cname := c])
  }

  function WithType(tab: Table, c: Entry): Table {
    tab.(classes := tab.classes[c.cname := c], ptypes := tab.ptypes + [c])
  }

  /** Asking for a class by name, as `get_Class` does. */
  function Ask(tab: Table, name: string): Table {
    var made := Resolve(tab.classes, name).1;
    if made.Some? then WithType(tab, made.value).(generated := tab.generated + {|tab.ptypes|}) else tab
  }

  /** `check_type`, on the table and as a name. */
  function Check(tab: Table, t: string): Table {
    if t == "void" then tab else Ask(tab, Plain(t))
  }

  function CheckedName(tab: Table, t: string): string {
    var c := Resolve(tab.classes, Plain(t)).0;
    if t == "void" || c.None? then t
    else c.value.cname + if EndsWith(t, "?") || EndsWith(t, "!") then t[|t| - 1..] else ""
  }

  function CheckParams(tab: Table, tt: seq<string>): Table
    decreases |tt|
  {
    if |tt| < 2 then tab else CheckParams(Check(tab, tt[0]), tt[2..])
  }

  function Declare(tab: Table, d: Decl): Table
    requires Parsable(d)
  {
    match d
    case ClassDecl(tokens) => WithClass(tab, ClassOf(tokens))
    case TypeDecl(_, _, _, _) => WithType(tab, TypeOf(d))
    case MethodDecl(rtype, cname, _, tt, _) =>
      Ask(CheckParams(Check(Check(tab, rtype), cname), ParamTokens(tt)), cname)
    case MapperDecl(fcname) => Ask(tab, fcname)
  }

  function TableOf(decls: seq<Decl>): Table
    requires IsInput(decls)
  {
    if decls == [] then NO_TYPES
    else
      InputPrefix(decls, |decls| - 1);
      Declare(TableOf(decls[..|decls| - 1]), decls[|decls| - 1])
  }

  /** A generated type has a name that no earlier type has. */
  ghost predicate NamesNew(ptypes: seq<Entry>, generated: set<nat>) {
    forall i :: i in generated ==>
      i < |ptypes| && forall j :: 0 <= j < i ==> ptypes[j].cname != ptypes[i].cname
  }

  ghost predicate TableOk(tab: Table) {
    && (forall e :: e in tab.ptypes ==> e.PType? && e.cname in tab.classes)
    && NamesNew(tab.ptypes, tab.generated)
  }

  /** The types among the first `n` that were not generated. */
  function NotGenerated(ptypes: seq<Entry>, generated: set<nat>, n: nat): seq<Entry>
    requires n <= |ptypes|
  {
    if n == 0 then []
    else NotGenerated(ptypes, generated, n - 1) + if n - 1 in generated then [] else [ptypes[n - 1]]
  }

  function DeclaredTypes(decls: seq<Decl>): seq<Entry> {
    if decls == [] then []
    else
      var d := decls[|decls| - 1];
      DeclaredTypes(decls[..|decls| - 1]) + if d.TypeDecl? then [TypeOf(d)] else []
  }

  lemma {:induction false} NotGeneratedFrame(a: seq<Entry>, g: set<nat>, b: seq<Entry>, g': set<nat>, n: nat)
    requires n <= |a| && n <= |b| && a[..n] == b[..n]
    requires forall i :: 0 <= i < n ==> (i in g <==> i in g')
    ensures NotGenerated(a, g, n) == NotGenerated(b, g', n)
    decreases n
  {
    if n > 0 {
      assert a[..n - 1] == a[..n][..n - 1] && b[..n - 1] == b[..n][..n - 1];
      assert a[n - 1] == a[..n][n - 1] && b[n - 1] == b[..n][n - 1];
      NotGeneratedFrame(a, g, b, g', n - 1);
    }
  }

  /** All of the types that are neither generated nor earlier, seen as one list. */
  function Rest(tab: Table): seq<Entry> {
    NotGenerated(tab.ptypes, tab.generated, |tab.ptypes|)
  }

  lemma AskKeeps(tab: Table, name: string)
    requires TableOk(tab)
    ensures TableOk(Ask(tab, name)) && Rest(Ask(tab, name)) == Rest(tab)
  {
    ResolveTwice(tab.classes, name);
    var after := Ask(tab, name);
    if Resolve(tab.classes, name).1.Some? {
      assert after.ptypes[..|tab.ptypes|] == tab.ptypes[..|tab.ptypes|];
      NotGeneratedFrame(tab.ptypes, tab.generated, after.ptypes, after.generated, |tab.ptypes|);
    }
  }

  lemma {:induction false} CheckParamsKeeps(tab: Table, tt: seq<string>)
    requires TableOk(tab)
    ensures TableOk(CheckParams(tab, tt)) && Rest(CheckParams(tab, tt)) == Rest(tab)
    decreases |tt|
  {
    if |tt| >= 2 {
      AskKeeps(tab, Plain(tt[0]));
      CheckParamsKeeps(Check(tab, tt[0]), tt[2..]);
    }
  }

  lemma TypeKeeps(tab: Table, c: Entry)
    requires TableOk(tab) && c.PType?
    ensures TableOk(WithType(tab, c)) && Rest(WithType(tab, c)) == Rest(tab) + [c]
  {
    var after := WithType(tab, c);
    assert after.ptypes[..|tab.ptypes|] == tab.ptypes[..|tab.ptypes|];
    NotGeneratedFrame(tab.ptypes, tab.generated, after.ptypes, after.generated, |tab.ptypes|);
    assert |tab.ptypes| !in tab.generated;
  }

  lemma DeclareKeeps(tab: Table, d: Decl)
    requires TableOk(tab) && Parsable(d)
    ensures TableOk(Declare(tab, d))
    ensures Rest(Declare(tab, d)) == Rest(tab) + if d.TypeDecl? then [TypeOf(d)] else []
  {
    match d
    case ClassDecl(tokens) =>
    case TypeDecl(_, _, _, _) => TypeKeeps(tab, TypeOf(d));
    case MethodDecl(rtype, cname, _, tt, _) =>
      AskKeeps(tab, Plain(rtype));
      AskKeeps(Check(tab, rtype), Plain(cname));
      var tab2 := Check(Check(tab, rtype), cname);
      CheckParamsKeeps(tab2, ParamTokens(tt));
      AskKeeps(CheckParams(tab2, ParamTokens(tt)), cname);
    case MapperDecl(fcname) => AskKeeps(tab, fcname);
  }

  /** Mentioning `X[]` or `X..` brings the array or iterator type of `X` into being, under the
      name by which it is found from then on. */
  lemma {:induction false} GenericMade(tab: Table, x: string, array_: bool)
    requires var name := x + if array_ then "[]" else "..";
             name !in tab.classes && x + (if array_ then "ARRAY" else "ITR") !in tab.classes
    ensures var name, cname := x + (if array_ then "[]" else ".."), x + if array_ then "ARRAY" else "ITR";
            var made := PType(cname, if array_ then "Array" else "Iterator", 0, [x]);
            && Ask(tab, name) == Table(tab.classes[cname := made], tab.ptypes + [made], tab.generated + {|tab.ptypes|})
            && Resolve(Ask(tab, name).classes, name).0 == Some(made)
  {
    var name := x + if array_ then "[]" else "..";
    assert name[..|name| - 2] == x && name[|name| - 2..] == if array_ then "[]" else "..";
    assert name[|name| - 1] == if array_ then ']' else '.';
    assert EndsWith(name, "[]") <==> array_ by {
      assert !array_ ==> name[|name| - 2..][1] == '.';
    }
  }

  /** Array and iterator types are made at most once and never shadow an earlier type; all
      other types are exactly the declared ones, in order. */
  lemma {:induction false} TypesOfInput(decls: seq<Decl>)
    requires IsInput(decls)
    ensures TableOk(TableOf(decls)) && Rest(TableOf(decls)) == DeclaredTypes(decls)
  {
    if decls != [] {
      InputPrefix(decls, |decls| - 1);
      TypesOfInput(decls[..|decls| - 1]);
      DeclareKeeps(TableOf(decls[..|decls| - 1]), decls[|decls| - 1]);
    }
  }

  // ---------------------------------------------------------------------------
  // What an input looks like

  /** The rows of `ClassData0`. */
  function RowsOf(decls: seq<Decl>): seq<Entry>
    requires IsInput(decls)
  {
    ClassRows(ClassesOf(decls), TableOf(decls).ptypes)
  }

  /** A declaration of a class without a struct, and of one that gets no id. */
  predicate DeclaresOther(d: Decl) {
    d.ClassDecl? && |d.tokens| >= 2 && IsOther(ClassOf(d.tokens))
  }

  predicate DeclaresSkipped(d: Decl) {
    d.ClassDecl? && |d.tokens| >= 2 && Skipped(ClassOf(d.tokens))
  }

  /** Once `p` holds, it holds wherever `q` does. */
  predicate LastAmong<T(!new)>(p: T -> bool, q: T -> bool, s: seq<T>) {
    forall i, j :: 0 <= i < j < |s| && p(s[i]) && q(s[j]) ==> p(s[j])
  }

  predicate Somewhere<T(!new)>(p: T -> bool, s: seq<T>) {
    exists i :: 0 <= i < |s| && p(s[i])
  }

  /** Classes without an id come last among the struct-less declarations. */
  predicate SkippedDeclsLast(decls: seq<Decl>) {
    LastAmong(DeclaresSkipped, DeclaresOther, decls)
  }

  predicate SomeDeclSkipped(decls: seq<Decl>) {
    Somewhere(DeclaresSkipped, decls)
  }

  /** The names under which the classes of a list can be asked for. */
  function DeclaredNames(decls: seq<Decl>): set<string> {
    if decls == [] then {}
    else
      var d := decls[|decls| - 1];
      DeclaredNames(decls[..|decls| - 1])
      + if d.ClassDecl? && |d.tokens| >= 2 then {ClassOf(d.tokens).name, ClassOf(d.tokens).cname} else {}
  }

  /** The class names that reading a declaration looks up. */
  function TypeNames(t: string): seq<string> {
    if t == "void" then [] else [Plain(t)]
  }

  function ParamNames(tt: seq<string>): seq<string>
    decreases |tt|
  {
    if |tt| < 2 then [] else TypeNames(tt[0]) + ParamNames(tt[2..])
  }

  function Asked(d: Decl): seq<string> {
    match d
    case MethodDecl(rtype, cname, _, tt, _) => TypeNames(rtype) + TypeNames(cname) + ParamNames(ParamTokens(tt)) + [cname]
    case MapperDecl(fcname) => [fcname]
    case _ => []
  }

  /** Looking up `name` brings no type into being: it is known, or it is no array or iterator
      type, or the type that it stands for has been declared as a class. */
  predicate MakesNone(known: set<string>, name: string) {
    || name in known
    || (if EndsWith(name, "[]") then name[..|name| - 2] + "ARRAY" in known
        else EndsWith(name, "..") ==> name[..|name| - 2] + "ITR" in known)
  }

  predicate AllMakeNone(known: set<string>, names: seq<string>) {
    forall k :: 0 <= k < |names| ==> MakesNone(known, names[k])
  }

  predicate NeedsNoType(decls: seq<Decl>, i: nat)
    requires i < |decls|
  {
    !decls[i].TypeDecl? && AllMakeNone(DeclaredNames(decls[..i]), Asked(decls[i]))
  }

  /** No generic type is declared, and none comes up before its class is declared. */
  predicate NoTypes(decls: seq<Decl>) {
    forall i :: 0 <= i < |decls| ==> NeedsNoType(decls, i)
  }

  /** No struct-less class with an id is declared after one without, and with one without there
      are no array, iterator or other generic types. */
  predicate IdsFit(decls: seq<Decl>) {
    SkippedDeclsLast(decls) && (SomeDeclSkipped(decls) ==> NoTypes(decls))
  }

  // ---------------------------------------------------------------------------
  // Inputs without generic types

  function AskAll(tab: Table, names: seq<string>): Table
    decreases |names|
  {
    if names == [] then tab else AskAll(Ask(tab, names[0]), names[1..])
  }

  lemma {:induction false} AskAllSum(tab: Table, a: seq<string>, b: seq<string>)
    ensures AskAll(tab, a + b) == AskAll(AskAll(tab, a), b)
    decreases |a|
  {
    if a == [] {
      assert a + b == b;
    } else {
      assert (a + b)[1..] == a[1..] + b;
      AskAllSum(Ask(tab, a[0]), a[1..], b);
    }
  }

  lemma CheckAsks(tab: Table, t: string)
    ensures Check(tab, t) == AskAll(tab, TypeNames(t))
  {
    if t != "void" {
      assert TypeNames(t)[1..] == [];
    }
  }

  lemma {:induction false} CheckParamsAsks(tab: Table, tt: seq<string>)
    ensures CheckParams(tab, tt) == AskAll(tab, ParamNames(tt))
    decreases |tt|
  {
    if |tt| >= 2 {
      CheckAsks(tab, tt[0]);
      CheckParamsAsks(Check(tab, tt[0]), tt[2..]);
      AskAllSum(tab, TypeNames(tt[0]), ParamNames(tt[2..]));
    }
  }

  lemma MethodAsks(tab: Table, d: Decl)
    requires d.MethodDecl?
    ensures Declare(tab, d) == AskAll(tab, Asked(d))
  {
    var tab1 := Check(tab, d.rtype);
    var tab2 := Check(tab1, d.cname);
    var a, b, c := TypeNames(d.rtype), TypeNames(d.cname), ParamNames(ParamTokens(d.tt));
    CheckAsks(tab, d.rtype);
    CheckAsks(tab1, d.cname);
    CheckParamsAsks(tab2, ParamTokens(d.tt));
    AskAllSum(tab, a, b);
    AskAllSum(tab, a + b, c);
    AskAllSum(tab, a + b + c, [d.cname]);
    assert [d.cname][1..] == [];
  }

  lemma AskIff(tab: Table, name: string)
    requires tab.ptypes == []
    ensures Ask(tab, name).ptypes == [] <==> MakesNone(tab.classes.Keys, name)
    ensures Ask(tab, name).ptypes == [] ==> Ask(tab, name) == tab
  {
  }

  lemma {:induction false} TypesStay(tab: Table, names: seq<string>)
    requires tab.ptypes != []
    ensures AskAll(tab, names).ptypes != []
    decreases |names|
  {
    if names != [] {
      TypesStay(Ask(tab, names[0]), names[1..]);
    }
  }

  lemma {:induction false} AskAllIff(tab: Table, names: seq<string>)
    requires tab.ptypes == []
    ensures AskAll(tab, names).ptypes == [] <==> AllMakeNone(tab.classes.Keys, names)
    ensures AskAll(tab, names).ptypes == [] ==> AskAll(tab, names) == tab
    decreases |names|
  {
    if names != [] {
      AskIff(tab, names[0]);
      var rest := names[1..];
      assert AllMakeNone(tab.classes.Keys, names) <==> MakesNone(tab.classes.Keys, names[0]) && AllMakeNone(tab.classes.Keys, rest) by {
        FirstAndRest(tab.classes.Keys, names);
      }
      if Ask(tab, names[0]).ptypes == [] {
        AskAllIff(tab, rest);
      } else {
        TypesStay(Ask(tab, names[0]), rest);
      }
    }
  }

  lemma FirstAndRest(known: set<string>, names: seq<string>)
    requires names != []
    ensures AllMakeNone(known, names) <==> MakesNone(known, names[0]) && AllMakeNone(known, names[1..])
  {
    if MakesNone(known, names[0]) && AllMakeNone(known, names[1..]) {
      forall k | 0 <= k < |names| ensures MakesNone(known, names[k]) {
        assert k > 0 ==> names[k] == names[1..][k - 1];
      }
    }
    if AllMakeNone(known, names) {
      forall k | 0 <= k < |names[1..]| ensures MakesNone(known, names[1..][k]) {
        assert names[1..][k] == names[k + 1];
      }
    }
  }

  /** One more declaration on a table without types. */
  lemma DeclareIff(tab: Table, d: Decl)
    requires tab.ptypes == [] && Parsable(d)
    ensures Declare(tab, d).ptypes == [] <==> !d.TypeDecl? && AllMakeNone(tab.classes.Keys, Asked(d))
    ensures Declare(tab, d).ptypes == [] ==>
              Declare(tab, d).classes.Keys
              == tab.classes.Keys + if d.ClassDecl? then {ClassOf(d.tokens).name, ClassOf(d.tokens).cname} else {}
  {
    AskAllIff(tab, Asked(d));
    match d
    case ClassDecl(_) =>
    case TypeDecl(_, _, _, _) =>
    case MethodDecl(_, _, _, _, _) => MethodAsks(tab, d);
    case MapperDecl(fcname) => assert AskAll(tab, [fcname]) == Ask(tab, fcname) by { assert [fcname][1..] == []; }
  }

  lemma DeclareStays(tab: Table, d: Decl)
    requires tab.ptypes != [] && Parsable(d)
    ensures Declare(tab, d).ptypes != []
  {
    if d.MethodDecl? {
      MethodAsks(tab, d);
      TypesStay(tab, Asked(d));
    }
  }

  lemma NoTypesOneMore(decls: seq<Decl>)
    requires decls != []
    ensures NoTypes(decls) <==> NoTypes(decls[..|decls| - 1]) && NeedsNoType(decls, |decls| - 1)
  {
    var n := |decls| - 1;
    forall i | 0 <= i < n ensures NeedsNoType(decls[..n], i) <==> NeedsNoType(decls, i) {
      assert decls[..n][..i] == decls[..i];
    }
  }

  /** The type table of an input is empty exactly when the declarations need no type. */
  lemma {:induction false} NoTypesIff(decls: seq<Decl>)
    requires IsInput(decls)
    ensures TableOf(decls).ptypes == [] <==> NoTypes(decls)
    ensures TableOf(decls).ptypes == [] ==> TableOf(decls).classes.Keys == DeclaredNames(decls)
    decreases |decls|
  {
    if decls != [] {
      var init, d := decls[..|decls| - 1], decls[|decls| - 1];
      InputPrefix(decls, |decls| - 1);
      NoTypesIff(init);
      NoTypesOneMore(decls);
      if TableOf(init).ptypes == [] {
        DeclareIff(TableOf(init), d);
      } else {
        DeclareStays(TableOf(init), d);
      }
    }
  }

  // ---------------------------------------------------------------------------
  // Ids and rows of an input

  /** The struct-less classes, in order. */
  function OthersOf(decls: seq<Decl>): seq<Entry>
    requires IsInput(decls)
  {
    Filter(IsOther, ClassesOf(decls))
  }

  lemma OthersStep(decls: seq<Decl>)
    requires IsInput(decls) && decls != []
    ensures var d := decls[|decls| - 1];
            && IsInput(decls[..|decls| - 1])
            && OthersOf(decls) == OthersOf(decls[..|decls| - 1]) + if DeclaresOther(d) then [ClassOf(d.tokens)] else []
  {
    InputPrefix(decls, |decls| - 1);
    var d := decls[|decls| - 1];
    FilterOfSum(IsOther, ClassesOf(decls[..|decls| - 1]), if d.ClassDecl? then [ClassOf(d.tokens)] else []);
  }

  /** Struct classes first, then the others, then the types; every one of them once. */
  lemma {:induction false} RowsComplete(classes: seq<Entry>, ptypes: seq<Entry>)
    requires forall e :: e in classes ==> e.Class?
    ensures var rows := ClassRows(classes, ptypes);
            && multiset(rows) == multiset(classes) + multiset(ptypes) && |rows| == |classes| + |ptypes|
            && rows[|classes|..] == ptypes
            && forall i, j :: 0 <= i < j < |classes| && IsStruct(rows[j]) ==> IsStruct(rows[i])
  {
    var structs, others := Filter(IsStruct, classes), Filter(IsOther, classes);
    FilterParts(IsStruct, IsOther, classes);
    assert |structs| + |others| == |multiset(structs) + multiset(others)| == |classes|;
    forall i | 0 <= i < |structs| ensures IsStruct(structs[i]) {
      FilterMember(IsStruct, classes, structs[i]);
    }
    forall i | 0 <= i < |others| ensures !IsStruct(others[i]) {
      FilterMember(IsOther, classes, others[i]);
    }
  }

  /** Some class of the list gets no id. */
  predicate SomeSkipped(rows: seq<Entry>) {
    exists i :: 0 <= i < |rows| && Skipped(rows[i])
  }

  lemma {:induction false} SkippedEntry(decls: seq<Decl>, i: nat)
    requires IsInput(decls) && i < |decls| && DeclaresSkipped(decls[i])
    ensures SomeSkipped(OthersOf(decls))
    decreases |decls|
  {
    OthersStep(decls);
    var before := OthersOf(decls[..|decls| - 1]);
    if i < |decls| - 1 {
      SkippedEntry(decls[..|decls| - 1], i);
      var k :| 0 <= k < |before| && Skipped(before[k]);
      assert OthersOf(decls)[k] == before[k];
    } else {
      assert OthersOf(decls)[|before|] == ClassOf(decls[i].tokens);
    }
  }

  lemma {:induction false} SkippedOrigin(decls: seq<Decl>, k: nat)
    requires IsInput(decls) && k < |OthersOf(decls)| && Skipped(OthersOf(decls)[k])
    ensures SomeDeclSkipped(decls)
    decreases |decls|
  {
    OthersStep(decls);
    var init := decls[..|decls| - 1];
    if k < |OthersOf(init)| {
      SkippedOrigin(init, k);
      var i :| 0 <= i < |init| && DeclaresSkipped(init[i]);
      assert decls[i] == init[i];
    } else {
      assert DeclaresSkipped(decls[|decls| - 1]);
    }
  }

  lemma SomeSkippedIff(decls: seq<Decl>)
    requires IsInput(decls)
    ensures SomeSkipped(OthersOf(decls)) <==> SomeDeclSkipped(decls)
  {
    if i :| 0 <= i < |decls| && DeclaresSkipped(decls[i]) {
      SkippedEntry(decls, i);
    }
    if k :| 0 <= k < |OthersOf(decls)| && Skipped(OthersOf(decls)[k]) {
      SkippedOrigin(decls, k);
    }
  }

  lemma EndsWithOne(rows: seq<Entry>, e: Entry)
    ensures SkippedAtTheEnd(rows + [e]) <==> SkippedAtTheEnd(rows) && (SomeSkipped(rows) ==> Skipped(e))
  {
    var all := rows + [e];
    if SkippedAtTheEnd(all) {
      forall i, j | 0 <= i < j < |rows| && Skipped(rows[i])
        ensures Skipped(rows[j])
      {
        assert Skipped(all[i]) && Skipped(all[j]);
      }
      if SomeSkipped(rows) {
        var i :| 0 <= i < |rows| && Skipped(rows[i]);
        assert Skipped(all[i]) && Skipped(all[|rows|]);
      }
    }
  }

  lemma {:induction false} OthersInOrderIff(decls: seq<Decl>)
    requires IsInput(decls)
    ensures SkippedAtTheEnd(OthersOf(decls)) <==> SkippedDeclsLast(decls)
  {
    if decls != [] {
      OthersStep(decls);
      var init, d := decls[..|decls| - 1], decls[|decls| - 1];
      OthersInOrderIff(init);
      SomeSkippedIff(init);
      if DeclaresOther(d) {
        EndsWithOne(OthersOf(init), ClassOf(d.tokens));
      } else {
        assert OthersOf(decls) == OthersOf(init);
      }
      LastOneMore(DeclaresSkipped, DeclaresOther, decls);
    }
  }

  /** One more element, when only those with `q` matter. */
  lemma LastOneMore<T(!new)>(p: T -> bool, q: T -> bool, s: seq<T>)
    requires s != []
    ensures LastAmong(p, q, s) <==>
            LastAmong(p, q, s[..|s| - 1]) && (Somewhere(p, s[..|s| - 1]) && q(s[|s| - 1]) ==> p(s[|s| - 1]))
  {
    var init, x := s[..|s| - 1], s[|s| - 1];
    if LastAmong(p, q, s) {
      forall i, j | 0 <= i < j < |init| && p(init[i]) && q(init[j]) ensures p(init[j]) {
        assert p(s[i]) && q(s[j]);
      }
      if Somewhere(p, init) && q(x) {
        var i :| 0 <= i < |init| && p(init[i]);
        assert p(s[i]) && q(s[|s| - 1]);
      }
    } else {
      var i, j :| 0 <= i < j < |s| && p(s[i]) && q(s[j]) && !p(s[j]);
      assert p(init[i]);
      assert j < |init| ==> q(init[j]) && !p(init[j]);
    }
  }

  /** Struct classes and generic types are never skipped, so only the middle part matters. */
  lemma PartsInOrderIff(a: seq<Entry>, b: seq<Entry>, c: seq<Entry>)
    requires !SomeSkipped(a) && !SomeSkipped(c)
    ensures SkippedAtTheEnd(a + b + c) <==> SkippedAtTheEnd(b) && (SomeSkipped(b) ==> c == [])
  {
    var all := a + b + c;
    assert forall i :: 0 <= i < |b| ==> all[|a| + i] == b[i];
    assert forall i :: 0 <= i < |all| && Skipped(all[i]) ==> |a| <= i < |a| + |b|;
    assert forall i :: |a| <= i < |a| + |b| ==> all[i] == b[i - |a|];
    assert c != [] ==> !Skipped(all[|a| + |b|]);
    if SkippedAtTheEnd(all) {
      forall i, j | 0 <= i < j < |b| && Skipped(b[i])
        ensures Skipped(b[j])
      {
        assert Skipped(all[|a| + i]) && Skipped(all[|a| + j]);
      }
      if i :| 0 <= i < |b| && Skipped(b[i]) {
        assert Skipped(all[|a| + i]);
      }
    }
  }

  lemma NoneSkipped(rows: seq<Entry>)
    requires forall e :: e in rows ==> !Skipped(e)
    ensures !SomeSkipped(rows)
  {
    assert forall i :: 0 <= i < |rows| ==> rows[i] in rows;
  }

  /** Every class id is the row of its class exactly when the declarations fit. */
  lemma {:induction false} IdsFitIff(decls: seq<Decl>)
    requires IsInput(decls)
    ensures Agree(Numbered(RowsOf(decls)), RowsOf(decls)) <==> IdsFit(decls)
  {
    var classes, ptypes := ClassesOf(decls), TableOf(decls).ptypes;
    TypesOfInput(decls);
    forall e | e in Filter(IsStruct, classes)
      ensures !Skipped(e)
    {
      FilterMember(IsStruct, classes, e);
    }
    NoneSkipped(Filter(IsStruct, classes));
    NoneSkipped(ptypes);
    IdsAreRowsIff(RowsOf(decls));
    PartsInOrderIff(Filter(IsStruct, classes), OthersOf(decls), ptypes);
    OthersInOrderIff(decls);
    SomeSkippedIff(decls);
    NoTypesIff(decls);
  }

  lemma NumberedAllIff(rows: seq<Entry>)
    ensures Numbered(rows) == rows <==> !SomeSkipped(rows)
  {
    if Numbered(rows) == rows {
      forall i | 0 <= i < |rows|
        ensures !Skipped(rows[i])
      {
        FilterMember(HasId, rows, rows[i]);
      }
    } else if !SomeSkipped(rows) {
      FilterKeepsAll(HasId, rows);
    }
  }

  /** All entries have an id exactly when no declared class is skipped. */
  lemma {:induction false} AllNumberedIff(decls: seq<Decl>)
    requires IsInput(decls)
    ensures Numbered(RowsOf(decls)) == RowsOf(decls) <==> !SomeDeclSkipped(decls)
  {
    var others, structs := OthersOf(decls), Filter(IsStruct, ClassesOf(decls));
    NumberedAllIff(RowsOf(decls));
    SomeSkippedIff(decls);
    TypesOfInput(decls);
    if k :| 0 <= k < |others| && Skipped(others[k]) {
      assert RowsOf(decls)[|structs| + k] == others[k];
    }
    if k :| 0 <= k < |RowsOf(decls)| && Skipped(RowsOf(decls)[k]) {
      FilterMember(IsStruct, ClassesOf(decls), RowsOf(decls)[k]);
      assert RowsOf(decls)[k] == others[k - |structs|];
    }
  }

  lemma FilterOne(p: Entry -> bool, e: Entry)
    ensures Filter(p, [e]) == if p(e) then [e] else []
  {
    assert [e][1..] == [];
  }

  const SELF := ClassDecl(["A", "Object", "A"])
  const SELF_CLASS := Class("A", "A", "Object", "A")
  const FUNC := TypeDecl("F", "Func", 0, [])

  lemma RowsOfSelfAndType()
    ensures IsInput([SELF, FUNC]) && RowsOf([SELF, FUNC]) == [SELF_CLASS, TypeOf(FUNC)] && Skipped(SELF_CLASS)
  {
    var decls := [SELF, FUNC];
    assert decls[..1] == [SELF] && [SELF][..0] == [];
    assert IsOther(SELF_CLASS) && !IsStruct(SELF_CLASS) by {
      assert !EndsWith("A", "_t");
    }
    assert ClassesOf([SELF]) == [] + [SELF_CLASS];
    assert ClassesOf(decls) == [SELF_CLASS] + [];
    assert TableOf([SELF]).ptypes == [];
    assert TableOf(decls).ptypes == [] + [TypeOf(FUNC)];
    FilterOne(IsStruct, SELF_CLASS);
    FilterOne(IsOther, SELF_CLASS);
  }

  /** A struct-less class based on itself, then a type: the type's id is the row of the class. */
  lemma SkippedClassShifts()
    ensures IsInput([SELF, FUNC]) && RowsOf([SELF, FUNC]) == [SELF_CLASS, TypeOf(FUNC)]
    ensures Numbered(RowsOf([SELF, FUNC])) == [TypeOf(FUNC)]
    ensures !Agree(Numbered(RowsOf([SELF, FUNC])), RowsOf([SELF, FUNC]))
  {
    RowsOfSelfAndType();
    FilterOfSum(HasId, [SELF_CLASS], [TypeOf(FUNC)]);
    FilterOne(HasId, SELF_CLASS);
    FilterOne(HasId, TypeOf(FUNC));
    assert [SELF_CLASS] + [TypeOf(FUNC)] == [SELF_CLASS, TypeOf(FUNC)];
  }

  // ---------------------------------------------------------------------------
  // Methods and parameter rows

  /** The declared methods, in order. */
  function Declared(decls: seq<Decl>): seq<Method> {
    if decls == [] then []
    else
      var d := decls[|decls| - 1];
      Declared(decls[..|decls| - 1]) + if d.MethodDecl? then [MethodOf(d)] else []
  }

  /** The method declarations, in order. */
  function MethodDecls(decls: seq<Decl>): (r: seq<Decl>)
    ensures forall d :: d in r ==> d.MethodDecl?
  {
    if decls == [] then []
    else MethodDecls(decls[..|decls| - 1]) + if decls[|decls| - 1].MethodDecl? then [decls[|decls| - 1]] else []
  }

  lemma {:induction false} DeclaredAt(decls: seq<Decl>, i: nat)
    requires i < |MethodDecls(decls)|
    ensures |Declared(decls)| == |MethodDecls(decls)|
    ensures MethodDecls(decls)[i] in MethodDecls(decls) && Declared(decls)[i] == MethodOf(MethodDecls(decls)[i])
    decreases |decls|
  {
    DeclaredLength(decls);
    var init := decls[..|decls| - 1];
    DeclaredLength(init);
    if i < |MethodDecls(init)| {
      DeclaredAt(init, i);
    }
  }

  lemma {:induction false} DeclaredLength(decls: seq<Decl>)
    ensures |Declared(decls)| == |MethodDecls(decls)|
  {
    if decls != [] {
      DeclaredLength(decls[..|decls| - 1]);
    }
  }

  /** The keys of the rows of `ParamData0`. */
  function Keys(fields: seq<Method>): (r: seq<string>)
    ensures |r| == |fields| + 1
  {
    if fields == [] then ["void"] else Keys(fields[..|fields| - 1]) + [ParamKey(fields[|fields| - 1])]
  }

  /** The methods that a row is made for: the first one of each key other than that of row 0. */
  function Interned(ms: seq<Method>): seq<Method> {
    if ms == [] then [] else InternOne(Interned(ms[..|ms| - 1]), ms[|ms| - 1])
  }

  function InternOne(fields: seq<Method>, m: Method): seq<Method> {
    if ParamKey(m) in Keys(fields) then fields else fields + [m.(mf := |fields| + 1)]
  }

  lemma KeysGrow(fields: seq<Method>, m: Method)
    ensures Keys(fields + [m]) == Keys(fields) + [ParamKey(m)]
  {
    assert (fields + [m])[..|fields|] == fields;
  }

  predicate Distinct(keys: seq<string>) {
    forall i, j :: 0 <= i < j < |keys| ==> keys[i] != keys[j]
  }

  /** The rows of `ms` with one more method: those before, and one for a new key. */
  lemma InternedOneMore(ms: seq<Method>)
    requires ms != []
    ensures var before, after, key := Keys(Interned(ms[..|ms| - 1])), Keys(Interned(ms)), ParamKey(ms[|ms| - 1]);
            after == if key in before then before else before + [key]
  {
    var fields, m := Interned(ms[..|ms| - 1]), ms[|ms| - 1];
    KeysGrow(fields, m.(mf := |fields| + 1));
  }

  lemma DistinctOneMore(keys: seq<string>, key: string)
    requires Distinct(keys) && key !in keys
    ensures Distinct(keys + [key])
  {
  }

  /** There is one row for every signature key of the input, and one for "void". */
  lemma {:induction false} OneRowPerKey(ms: seq<Method>)
    ensures Distinct(Keys(Interned(ms))) && Keys(Interned(ms))[0] == "void"
    ensures forall k :: k in Keys(Interned(ms)) <==> k == "void" || IsKey(ms, k)
  {
    FirstRow(Interned(ms));
    if ms != [] {
      var init := ms[..|ms| - 1];
      OneRowPerKey(init);
      InternedOneMore(ms);
      var before, key := Keys(Interned(init)), ParamKey(ms[|ms| - 1]);
      if key !in before {
        DistinctOneMore(before, key);
      }
      forall k
        ensures k in Keys(Interned(ms)) <==> k == "void" || IsKey(ms, k)
      {
        KeyOfOneMore(ms, k);
      }
    }
  }

  predicate IsKey(ms: seq<Method>, k: string) {
    exists i :: 0 <= i < |ms| && ParamKey(ms[i]) == k
  }

  lemma KeyOfOneMore(ms: seq<Method>, k: string)
    requires ms != []
    ensures IsKey(ms, k) <==> IsKey(ms[..|ms| - 1], k) || k == ParamKey(ms[|ms| - 1])
  {
    var init := ms[..|ms| - 1];
    if i :| 0 <= i < |ms| && ParamKey(ms[i]) == k {
      assert i < |init| ==> init[i] == ms[i];
    }
    if i :| 0 <= i < |init| && ParamKey(init[i]) == k {
      assert ms[i] == init[i];
    }
  }

  predicate RowFor(keys: seq<string>, m: Method) {
    m.mf < |keys| && keys[m.mf] == ParamKey(m)
  }

  /** `ParamData0`. */
  function ParamRows(fields: seq<Method>): (r: seq<ParamRow>)
    ensures |r| == |fields| + 1
  {
    if fields == [] then [ParamRow(false, [], None)]
    else ParamRows(fields[..|fields| - 1]) + [RowOf(fields[|fields| - 1])]
  }

  lemma VoidKey()
    ensures WellFormed(VOID) && ParamKey(VOID) == "void" && RowOf(VOID) == ParamRow(false, [], None)
  {
    assert "void"[0] == 'v' && "void"[1] == 'o' && "void"[2] == 'i' && "void"[3] == 'd';
    assert Without("void", '!') == "void";
    assert IsType("void") by {
      assert !EndsWith("void", "..");
    }
    assert Params([]) == [];
  }

  lemma {:induction false} FirstRow(fields: seq<Method>)
    ensures Keys(fields)[0] == "void" && ParamRows(fields)[0] == ParamRow(false, [], None)
  {
    if fields != [] {
      FirstRow(fields[..|fields| - 1]);
    }
  }

  lemma MadeForVoid(fields: seq<Method>)
    ensures Keys(fields)[0] == ParamKey(VOID) && ParamRows(fields)[0] == RowOf(VOID) && WellFormed(VOID)
  {
    FirstRow(fields);
    VoidKey();
  }

  lemma {:induction false} MadeFor(fields: seq<Method>, k: nat)
    requires 0 < k <= |fields|
    ensures Keys(fields)[k] == ParamKey(fields[k - 1]) && ParamRows(fields)[k] == RowOf(fields[k - 1])
    decreases |fields|
  {
    if k < |fields| {
      MadeFor(fields[..|fields| - 1], k);
    }
  }

  /** The row of key `k` was made for `f`; so it is that of `m` too. */
  lemma SharedRow(keys: seq<string>, rows: seq<ParamRow>, k: nat, f: Method, m: Method)
    requires k == m.mf && RowFor(keys, m) && WellFormed(m) && WellFormed(f) && |rows| == |keys|
    requires keys[k] == ParamKey(f) && rows[k] == RowOf(f)
    ensures rows[k] == RowOf(m)
  {
    SameKeySameRow(f, m);
  }

  lemma VoidRowIsOwn(fields: seq<Method>, m: Method)
    requires RowFor(Keys(fields), m) && WellFormed(m) && m.mf == 0
    ensures ParamRows(fields)[m.mf] == RowOf(m)
  {
    MadeForVoid(fields);
    SharedRow(Keys(fields), ParamRows(fields), m.mf, VOID, m);
  }

  lemma MadeRowIsOwn(fields: seq<Method>, f: Method, m: Method)
    requires RowFor(Keys(fields), m) && WellFormed(m) && WellFormed(f) && m.mf > 0 && fields[m.mf - 1] == f
    ensures ParamRows(fields)[m.mf] == RowOf(m)
  {
    MadeFor(fields, m.mf);
    SharedRow(Keys(fields), ParamRows(fields), m.mf, f, m);
  }

  /** A method's row holds its own parameters, also when another method made the row. */
  lemma RowIsOwn(fields: seq<Method>, m: Method)
    requires RowFor(Keys(fields), m) && WellFormed(m) && (m.mf > 0 ==> WellFormed(fields[m.mf - 1]))
    ensures ParamRows(fields)[m.mf] == RowOf(m)
  {
    if m.mf == 0 {
      VoidRowIsOwn(fields, m);
    } else {
      MadeRowIsOwn(fields, fields[m.mf - 1], m);
    }
  }
}
