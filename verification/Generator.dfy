/** `Data` of `genkonoha.py` and the run that fills it and writes the tables. */
module Generator {

  import opened Wrappers
  import opened Numbering
  import opened Declarations

  ghost predicate KeysOk(methodField: map<string, nat>, keys: seq<string>) {
    && (forall k :: k in methodField ==> methodField[k] < |keys| && keys[methodField[k]] == k)
    && (forall i :: 0 <= i < |keys| ==> keys[i] in methodField)
  }

  ghost predicate RowsOk(keys: seq<string>, methods: seq<Method>) {
    forall i :: 0 <= i < |methods| ==> RowFor(keys, methods[i])
  }

  ghost predicate AllWellFormed(methods: seq<Method>) {
    forall i :: 0 <= i < |methods| ==> WellFormed(methods[i])
  }

  ghost predicate FieldsOk(methodField: map<string, nat>, fields: seq<Method>, methods: seq<Method>) {
    && KeysOk(methodField, Keys(fields))
    && RowsOk(Keys(fields), methods)
    && AllWellFormed(fields)
    && AllWellFormed(methods)
  }

  /** `m` has been appended, with some row. */
  predicate Appended(before: seq<Method>, after: seq<Method>, m: Method) {
    after != [] && after == before + [m.(mf := after[|after| - 1].mf)]
  }

  lemma NewKey(methodField: map<string, nat>, keys: seq<string>, key: string)
    requires KeysOk(methodField, keys) && key !in methodField
    ensures KeysOk(methodField[key := |keys|], keys + [key])
  {
  }

  lemma NewRow(methodField: map<string, nat>, fields: seq<Method>, methods: seq<Method>, m: Method, key: string)
    requires FieldsOk(methodField, fields, methods) && WellFormed(m) && key == ParamKey(m) && key !in methodField
    ensures FieldsOk(methodField[key := |fields| + 1], fields + [m], methods)
  {
    KeysGrow(fields, m);
    NewKey(methodField, Keys(fields), key);
  }

  /** The row of a method plays no part in its key. */
  lemma SameButRow(m: Method, mf: nat)
    ensures ParamKey(m.(mf := mf)) == ParamKey(m) && (WellFormed(m.(mf := mf)) <==> WellFormed(m))
  {
  }

  lemma MethodAdded(methodField: map<string, nat>, fields: seq<Method>, methods: seq<Method>, m: Method, key: string)
    requires FieldsOk(methodField, fields, methods) && WellFormed(m) && key == ParamKey(m)
    requires key in methodField && m.mf == methodField[key]
    ensures FieldsOk(methodField, fields, methods + [m])
  {
    assert RowFor(Keys(fields), m);
  }

  lemma KnownKey(methodField: map<string, nat>, keys: seq<string>, key: string)
    requires KeysOk(methodField, keys)
    ensures key in methodField <==> key in keys
  {
  }

  lemma KeyStep(args: string, ps: seq<Param>, vargs: bool, rest: seq<Param>)
    requires ps != [] && rest == ps[1..]
    ensures args + KeyTail(ps, vargs) == args + "." + Without(ps[0].typ, '!') + "." + ps[0].fn + KeyTail(rest, vargs)
  {
    Reassociated(args, Without(ps[0].typ, '!'), ps[0].fn, KeyTail(rest, vargs));
  }

  lemma Reassociated(args: string, t: string, fn: string, tail: string)
    ensures args + Dotted(t + Dotted(fn + tail)) == args + "." + t + "." + fn + tail
  {
  }

  /** The tokens before `c` have been read into `mparams` and their types asked for. */
  predicate ParamsRead(tab0: Table, tab: Table, tt: seq<string>, c: nat, mparams: seq<Param>) {
    && c <= |tt| && mparams + Pairs(tt[c..]) == Pairs(tt)
    && CheckParams(tab, tt[c..]) == CheckParams(tab0, tt)
  }

  lemma ParamsReadStep(tab0: Table, tab: Table, tt: seq<string>, c: nat, mparams: seq<Param>)
    requires ParamsRead(tab0, tab, tt, c, mparams) && c + 1 < |tt|
    ensures ParamsRead(tab0, Check(tab, tt[c]), tt, c + 2,
                       mparams + [Param(tt[c], if tt[c + 1] == "_" then "" else tt[c + 1])])
  {
    var rest, p := tt[c..], Param(tt[c], if tt[c + 1] == "_" then "" else tt[c + 1]);
    assert rest[2..] == tt[c + 2..];
    assert Pairs(rest) == [p] + Pairs(tt[c + 2..]);
    assert CheckParams(tab, rest) == CheckParams(Check(tab, tt[c]), tt[c + 2..]);
    assert mparams + ([p] + Pairs(tt[c + 2..])) == mparams + [p] + Pairs(tt[c + 2..]);
  }

  lemma ParamsReadEnd(tab0: Table, tab: Table, tt: seq<string>, c: nat, mparams: seq<Param>)
    requires ParamsRead(tab0, tab, tt, c, mparams) && c + 1 >= |tt|
    ensures mparams == Pairs(tt) && tab == CheckParams(tab0, tt)
  {
  }

  class Data {
    var classes: map<string, Entry>
    var structList: seq<Entry>
    var classList: seq<Entry>
    var ptypeList: seq<Entry>
    var methodField: map<string, nat>
    var methodFieldList: seq<Method>
    var methodList: seq<Method>
    ghost var generated: set<nat>   // positions in ptypeList of the types get_Class made

    ghost function Types(): Table
      reads `classes, `ptypeList, `generated
    {
      Table(classes, ptypeList, generated)
    }

    ghost predicate FieldsValid()
      reads `methodField, `methodFieldList, `methodList
    {
      FieldsOk(methodField, methodFieldList, methodList)
    }

    constructor ()
      ensures Types() == NO_TYPES && FieldsValid()
      ensures structList == classList == [] && methodFieldList == methodList == []
    {
      classes, structList, classList, ptypeList := map[], [], [], [];
      methodField, methodFieldList, methodList := map["void" := 0], [], [];
      generated := {};
    }

    method AddClass(c: Entry)
      requires c.Class? && structList == Filter(IsStruct, classList)
      modifies `classes, `structList, `classList
      ensures classList == old(classList) + [c] && structList == Filter(IsStruct, classList)
      ensures Types() == WithClass(old(Types()), c)
    {
      FilterOfSum(IsStruct, classList, [c]);
      if EndsWith(c.base, "_t") {
        structList := structList + [c];
      }
      classList := classList + [c];
      classes := classes[c.name := c];
      classes := classes[c.cname := c];
    }

    method AddPType(c: Entry)
      modifies `classes, `ptypeList
      ensures Types() == WithType(old(Types()), c)
    {
      ptypeList := ptypeList + [c];
      classes := classes[c.cname := c];
    }

    /** `get_Class`. */
    method GetClass(name: string) returns (c: Option<Entry>)
      modifies `classes, `ptypeList, `generated
      ensures Types() == Ask(old(Types()), name) && c == Resolve(old(classes), name).0
    {
      if name in classes {
        return Some(classes[name]);
      }
      if EndsWith(name, "[]") {
        c := Generate(name[..|name| - 2], "ARRAY", "Array");
        return;
      }
      if EndsWith(name, "..") {
        c := Generate(name[..|name| - 2], "ITR", "Iterator");
        return;
      }
      return None;
    }

    /** The common part of the two generic kinds. */
    method Generate(bname: string, suffix: string, base: string) returns (c: Option<Entry>)
      modifies `classes, `ptypeList, `generated
      ensures var (found, made) := Generic(old(classes), bname, suffix, base);
              && c == found
              && Types() == if made.None? then old(Types())
                            else WithType(old(Types()), made.value).(generated := old(generated) + {old(|ptypeList|)})
    {
      var cname := bname + suffix;
      if cname in classes {
        return Some(classes[cname]);
      }
      var newc := PType(cname, base, 0, [bname]);
      AddPType(newc);
      generated := generated + {|ptypeList| - 1};
      return Some(newc);
    }

    /** `check_type`: the name the type goes by, generated if need be. */
    method CheckType(t: string) returns (r: string)
      modifies `classes, `ptypeList, `generated
      ensures Types() == Check(old(Types()), t) && r == CheckedName(old(Types()), t)
    {
      if t == "void" {
        return t;
      }
      var q := if EndsWith(t, "?") || EndsWith(t, "!") then t[|t| - 1..] else "";
      var c := GetClass(Plain(t));
      return if c.None? then t else c.value.cname + q;
    }

    /** The type and name tokens of `parse_Method`. */
    method ParseParams(tt: seq<string>) returns (mparams: seq<Param>)
      modifies `classes, `ptypeList, `generated
      ensures Types() == CheckParams(old(Types()), tt) && mparams == Pairs(tt)
    {
      mparams := [];
      var c := 0;
      ghost var tab0 := Types();
      assert tt[0..] == tt;
      while c + 1 < |tt|
        invariant ParamsRead(tab0, Types(), tt, c, mparams)
      {
        ParamsReadStep(tab0, Types(), tt, c, mparams);
        var fn := if tt[c + 1] == "_" then "" else tt[c + 1];
        var typ := CheckType(tt[c]);
        mparams := mparams + [Param(tt[c], fn)];
        c := c + 2;
      }
      ParamsReadEnd(tab0, Types(), tt, c, mparams);
    }

    /** The first half of `parse_Method`: check the types and collect the signature. */
    method ParseSignature(d: Decl) returns (m: Method)
      requires d.MethodDecl?
      modifies `classes, `ptypeList, `generated
      ensures m == MethodOf(d)
      ensures Types() == CheckParams(Check(Check(old(Types()), d.rtype), d.cname), ParamTokens(d.tt))
    {
      var rtype := CheckType(d.rtype);
      var cname := CheckType(d.cname);
      var vargs, tt := d.vargs, d.tt;
      if Ellipsis(tt) {
        tt := tt[..|tt| - 1];
        vargs := true;
      }
      var mparams := ParseParams(tt);
      m := Method(d.rtype, d.cname, d.mn, mparams, vargs, 0);
    }

    /** `parse_Method`. */
    method ParseMethod(d: Decl)
      requires FieldsValid() && d.MethodDecl? && WellFormed(MethodOf(d))
      modifies `classes, `ptypeList, `generated, `methodField, `methodFieldList, `methodList
      ensures Types() == Declare(old(Types()), d) && FieldsValid()
      ensures methodFieldList == InternOne(old(methodFieldList), MethodOf(d))
      ensures Appended(old(methodList), methodList, MethodOf(d))
    {
      var m := ParseSignature(d);
      var owner := GetClass(d.cname);
      Intern(m);
    }

    /** The row of the method's key, a new one if there is none. */
    method Intern(m: Method)
      requires FieldsValid() && WellFormed(m)
      modifies `methodField, `methodFieldList, `methodList
      ensures FieldsValid() && methodFieldList == InternOne(old(methodFieldList), m)
      ensures Appended(old(methodList), methodList, m)
    {
      var key := BuildKey(m);
      EnsureRow(m, key);
      AddMethod(m, key);
    }

    method EnsureRow(m: Method, key: string)
      requires FieldsValid() && WellFormed(m) && key == ParamKey(m)
      modifies `methodField, `methodFieldList
      ensures FieldsValid() && key in methodField
      ensures methodFieldList == InternOne(old(methodFieldList), m)
    {
      KnownKey(methodField, Keys(methodFieldList), key);
      if key !in methodField {
        AddRow(m, key);
      }
    }

    /** A new row, for a key that has none. */
    method AddRow(m: Method, key: string)
      requires FieldsValid() && WellFormed(m) && key == ParamKey(m) && key !in methodField
      modifies `methodField, `methodFieldList
      ensures FieldsValid() && key in methodField
      ensures methodFieldList == old(methodFieldList) + [m.(mf := |old(methodFieldList)| + 1)]
    {
      var mf := |methodFieldList| + 1;
      SameButRow(m, mf);
      NewRow(methodField, methodFieldList, methodList, m.(mf := mf), key);
      methodFieldList := methodFieldList + [m.(mf := mf)];
      methodField := methodField[key := mf];
    }

    method AddMethod(m: Method, key: string)
      requires FieldsValid() && WellFormed(m) && key == ParamKey(m) && key in methodField
      modifies `methodList
      ensures FieldsValid() && Appended(old(methodList), methodList, m)
    {
      var mf := methodField[key];
      SameButRow(m, mf);
      MethodAdded(methodField, methodFieldList, methodList, m.(mf := mf), key);
      methodList := methodList + [m.(mf := mf)];
    }

    /** One declaration, by the parser for its keyword. */
    method Parse(d: Decl)
      requires FieldsValid() && Parsable(d) && (d.MethodDecl? ==> WellFormed(MethodOf(d)))
      requires structList == Filter(IsStruct, classList)
      modifies this
      ensures FieldsValid() && Types() == Declare(old(Types()), d)
      ensures structList == Filter(IsStruct, classList)
      ensures classList == old(classList) + if d.ClassDecl? then [ClassOf(d.tokens)] else []
      ensures methodFieldList == if d.MethodDecl? then InternOne(old(methodFieldList), MethodOf(d)) else old(methodFieldList)
      ensures if d.MethodDecl? then Appended(old(methodList), methodList, MethodOf(d)) else methodList == old(methodList)
    {
      match d
      case ClassDecl(tokens) => AddClass(ClassOf(tokens));
      case TypeDecl(_, _, _, _) => AddPType(TypeOf(d));
      case MethodDecl(_, _, _, _, _) => ParseMethod(d);
      case MapperDecl(fcname) => var c := GetClass(fcname);
    }

    /** `ParamKey`. */
    method BuildKey(m: Method) returns (args: string)
      ensures args == ParamKey(m)
    {
      args := Without(m.rtype, '!');
      for i := 0 to |m.mparams|
        invariant args + KeyTail(m.mparams[i..], m.vargs) == ParamKey(m)
      {
        var p := m.mparams[i];
        KeyStep(args, m.mparams[i..], m.vargs, m.mparams[i + 1..]);
        args := args + "." + Without(p.typ, '!') + "." + p.fn;
      }
      if m.vargs {
        args := args + "...";
      }
    }

    /** The part of `write_name_h` that numbers the classes: entry `cid` is given the id `cid`. */
    method WriteNameH() returns (ids: seq<Entry>)
      requires structList == Filter(IsStruct, classList)
      requires (forall e :: e in classList ==> e.Class?) && forall e :: e in ptypeList ==> e.PType?
      ensures ids == Numbered(ClassRows(classList, ptypeList))
    {
      ids := [];
      for i := 0 to |structList|
        invariant ids == structList[..i]
      {
        ids := ids + [structList[i]];
      }
      for i := 0 to |classList|
        invariant ids == structList + Filter(IsOtherWithId, classList[..i])
      {
        FilterOneMore(IsOtherWithId, classList, i);
        var c := classList[i];
        if IsStruct(c) {
          continue;
        }
        if c.base == c.cname {
          continue;
        }
        ids := ids + [c];
      }
      assert classList[..|classList|] == classList;
      for i := 0 to |ptypeList|
        invariant ids == structList + Filter(IsOtherWithId, classList) + ptypeList[..i]
      {
        ids := ids + [ptypeList[i]];
      }
      NumberedRows(classList, ptypeList);
    }

    /** The part of `write_Data` that writes the rows of `ClassData0`, event rows left aside. */
    method WriteClassData() returns (rows: seq<Entry>)
      ensures rows == ClassRows(classList, ptypeList)
    {
      rows := [];
      for i := 0 to |classList|
        invariant rows == Filter(IsStruct, classList[..i])
      {
        FilterOneMore(IsStruct, classList, i);
        if IsStruct(classList[i]) {
          rows := rows + [classList[i]];
        }
      }
      assert classList[..|classList|] == classList;
      for i := 0 to |classList|
        invariant rows == Filter(IsStruct, classList) + Filter(IsOther, classList[..i])
      {
        FilterOneMore(IsOther, classList, i);
        if IsOther(classList[i]) {
          rows := rows + [classList[i]];
        }
      }
      for i := 0 to |ptypeList|
        invariant rows == Filter(IsStruct, classList) + Filter(IsOther, classList) + ptypeList[..i]
      {
        rows := rows + [ptypeList[i]];
      }
    }

    /** The part of `write_Data` that writes `ParamData0`. */
    method WriteParamData() returns (rows: seq<ParamRow>)
      ensures rows == ParamRows(methodFieldList)
    {
      rows := [ParamRow(false, [], None)];
      for i := 0 to |methodFieldList|
        invariant rows == ParamRows(methodFieldList[..i])
      {
        assert methodFieldList[..i + 1][..i] == methodFieldList[..i];
        rows := rows + [RowOf(methodFieldList[i])];
      }
      assert methodFieldList[..|methodFieldList|] == methodFieldList;
    }
  }

  /** The ids are the rows without the skipped classes. */
  lemma NumberedRows(classList: seq<Entry>, ptypeList: seq<Entry>)
    requires forall e :: e in ptypeList ==> e.PType?
    ensures Numbered(ClassRows(classList, ptypeList))
            == Filter(IsStruct, classList) + Filter(IsOtherWithId, classList) + ptypeList
  {
    FilterOfSum(HasId, Filter(IsStruct, classList) + Filter(IsOther, classList), ptypeList);
    FilterOfSum(HasId, Filter(IsStruct, classList), Filter(IsOther, classList));
    FilterKeepsAll(HasId, ptypeList);
    FilterFilter(IsStruct, HasId, IsStruct, classList);
    FilterFilter(IsOther, HasId, IsOtherWithId, classList);
  }

  ghost predicate SameMethods(ms: seq<Method>, ds: seq<Method>) {
    |ms| == |ds| && forall i :: 0 <= i < |ms| ==> ms[i] == ds[i].(mf := ms[i].mf)
  }

  /** Classes, types, rows and methods are those of the declarations. */
  ghost predicate HasRead(data: Data, decls: seq<Decl>)
    reads data
  {
    && IsInput(decls) && data.FieldsValid() && data.structList == Filter(IsStruct, data.classList)
    && data.classList == ClassesOf(decls) && data.Types() == TableOf(decls)
    && data.methodFieldList == Interned(Declared(decls)) && SameMethods(data.methodList, Declared(decls))
  }

  method Read(decls: seq<Decl>) returns (data: Data)
    requires IsInput(decls)
    ensures fresh(data) && HasRead(data, decls)
  {
    data := new Data();
    for n := 0 to |decls|
      invariant fresh(data) && HasRead(data, decls[..n])
    {
      ReadOne(data, decls, n, decls[n]);
    }
    assert decls[..|decls|] == decls;
  }

  method ReadOne(data: Data, ghost decls: seq<Decl>, n: nat, d: Decl)
    requires n < |decls| && d == decls[n] && IsInput(decls) && HasRead(data, decls[..n])
    modifies data
    ensures HasRead(data, decls[..n + 1])
  {
    ReadStep(decls, n);
    DeclaredStep(decls, n);
    ghost var before := data.methodList;
    data.Parse(d);
    if d.MethodDecl? {
      SameMethodsStep(before, data.methodList, Declared(decls[..n]), MethodOf(d));
    } else {
      assert Declared(decls[..n]) + [] == Declared(decls[..n]);
    }
  }

  lemma SameMethodsStep(before: seq<Method>, after: seq<Method>, ds: seq<Method>, m: Method)
    requires SameMethods(before, ds) && Appended(before, after, m)
    ensures SameMethods(after, ds + [m])
  {
  }

  lemma ReadStep(decls: seq<Decl>, n: nat)
    requires n < |decls| && IsInput(decls)
    ensures IsInput(decls[..n]) && IsInput(decls[..n + 1]) && Parsable(decls[n])
    ensures TableOf(decls[..n + 1]) == Declare(TableOf(decls[..n]), decls[n])
    ensures ClassesOf(decls[..n + 1]) == ClassesOf(decls[..n]) + if decls[n].ClassDecl? then [ClassOf(decls[n].tokens)] else []
  {
    InputPrefix(decls, n);
    InputPrefix(decls, n + 1);
    assert decls[..n + 1][..n] == decls[..n];
  }

  lemma DeclaredStep(decls: seq<Decl>, n: nat)
    requires n < |decls|
    ensures Declared(decls[..n + 1]) == Declared(decls[..n]) + if decls[n].MethodDecl? then [MethodOf(decls[n])] else []
    ensures Interned(Declared(decls[..n + 1])) == if decls[n].MethodDecl? then InternOne(Interned(Declared(decls[..n])), MethodOf(decls[n]))
                                                  else Interned(Declared(decls[..n]))
  {
    assert decls[..n + 1][..n] == decls[..n];
    if decls[n].MethodDecl? {
      var ms := Declared(decls[..n + 1]);
      assert ms[..|ms| - 1] == Declared(decls[..n]);
    } else {
      assert Declared(decls[..n + 1]) == Declared(decls[..n]);
    }
  }

  /** The method of the declaration, with a row that has the declared types and names. */
  ghost predicate MethodRight(m: Method, d: Decl, params: seq<ParamRow>) {
    d.MethodDecl? && m.cname == d.cname && m.mn == d.mn && m.mf < |params| && RowRight(params[m.mf], d)
  }

  lemma RowMatches(m: Method, decls: seq<Decl>, i: nat, params: seq<ParamRow>)
    requires i < |MethodDecls(decls)| && i < |Declared(decls)| && m == Declared(decls)[i].(mf := m.mf)
    requires m.mf < |params| && params[m.mf] == RowOf(m)
    ensures MethodRight(m, MethodDecls(decls)[i], params)
  {
    DeclaredAt(decls, i);
    RowOfDecl(MethodDecls(decls)[i], m.mf);
  }

  /** One generator run, for any input: the rows are those of the declared classes and of the
      types; ids are rows exactly when the declarations fit; types nobody declared are made
      once and never shadow an earlier one; there is one parameter row for every signature
      key, and every method's `mf` is the row of its own parameters. */
  method Run(decls: seq<Decl>)
    returns (ids: seq<Entry>, rows: seq<Entry>, params: seq<ParamRow>, methods: seq<Method>, ghost types: Table)
    requires IsInput(decls)
    ensures rows == ClassRows(ClassesOf(decls), types.ptypes) && types == TableOf(decls)
    ensures ids == Numbered(rows) && (Agree(ids, rows) <==> IdsFit(decls)) && (ids == rows <==> !SomeDeclSkipped(decls))
    ensures NamesNew(types.ptypes, types.generated) && Rest(types) == DeclaredTypes(decls)
    ensures params == ParamRows(Interned(Declared(decls))) && Distinct(Keys(Interned(Declared(decls))))
    ensures multiset(rows) == multiset(ClassesOf(decls)) + multiset(types.ptypes)
    ensures SameMethods(methods, Declared(decls)) && |methods| == |MethodDecls(decls)|
    ensures forall i :: 0 <= i < |methods| ==> MethodRight(methods[i], MethodDecls(decls)[i], params)
    ensures forall i :: 0 <= i < |methods| ==>
              && RowFor(Keys(Interned(Declared(decls))), methods[i])
              && params[methods[i].mf] == RowOf(methods[i])
  {
    var data := Read(decls);
    TypesOfInput(decls);
    rows := data.WriteClassData();
    params := data.WriteParamData();
    ids := data.WriteNameH();
    methods, types := data.methodList, data.Types();
    IdsFitIff(decls);
    AllNumberedIff(decls);
    OneRowPerKey(Declared(decls));
    RowsComplete(ClassesOf(decls), types.ptypes);
    DeclaredLength(decls);
    forall i | 0 <= i < |methods|
      ensures RowFor(Keys(Interned(Declared(decls))), methods[i]) && params[methods[i].mf] == RowOf(methods[i])
      ensures MethodRight(methods[i], MethodDecls(decls)[i], params)
    {
      RowIsOwn(data.methodFieldList, methods[i]);
      RowMatches(methods[i], decls, i, params);
    }
  }
}
