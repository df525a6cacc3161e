/** `genkonoha.py`: tables written by separate loops that must agree by position. */
module Numbering {
  import opened Wrappers

  predicate EndsWith(s: string, suffix: string) {
    |s| >= |suffix| && s[|s| - |suffix|..] == suffix
  }

  /** `s.replace(c, '')`. */
  function Without(s: string, c: char): (r: string)
    ensures c !in r
    ensures c !in s ==> r == s
  {
    if s == "" then ""
    else
      var rest := Without(s[1..], c);
      assert s == [s[0]] + s[1..];
      if s[0] == c then rest else [s[0]] + rest
  }

  /** Every other character is kept, in order. */
  lemma {:induction false} WithoutSum(a: string, b: string, c: char)
    ensures Without(a + b, c) == Without(a, c) + Without(b, c)
  {
    if a == "" {
      assert a + b == b;
    } else {
      assert (a + b)[1..] == a[1..] + b;
      WithoutSum(a[1..], b, c);
    }
  }

  lemma {:induction false} WithoutSubset(s: string, c: char)
    ensures forall x :: x in Without(s, c) ==> x in s
  {
    if s != "" {
      WithoutSubset(s[1..], c);
      assert s == [s[0]] + s[1..];
    }
  }

  lemma WithoutOne(x: char, c: char)
    ensures Without([x], c) == if x == c then "" else [x]
  {
    assert [x][1..] == "";
  }

  /** `Class` and `PType`.  A class has a struct when its base name ends in `_t`. */
  datatype Entry =
    | Class(name: string, cname: string, parent: string, base: string)
    | PType(cname: string, bname: string, rsize: nat, cparams: seq<string>)

  predicate IsStruct(c: Entry) {
    c.Class? && EndsWith(c.base, "_t")
  }

  predicate IsOther(c: Entry) {
    !IsStruct(c)
  }

  /** `write_name_h` gives no id to a struct-less class whose base is itself. */
  predicate Skipped(c: Entry) {
    c.Class? && !IsStruct(c) && c.base == c.cname
  }

  predicate HasId(c: Entry) {
    !Skipped(c)
  }

  predicate IsOtherWithId(c: Entry) {
    IsOther(c) && HasId(c)
  }

  function Filter(p: Entry -> bool, s: seq<Entry>): seq<Entry> {
    if s == [] then []
    else if p(s[0]) then [s[0]] + Filter(p, s[1..])
    else Filter(p, s[1..])
  }

  lemma {:induction false} FilterOfSum(p: Entry -> bool, a: seq<Entry>, b: seq<Entry>)
    ensures Filter(p, a + b) == Filter(p, a) + Filter(p, b)
  {
    if a == [] {
      assert a + b == b;
    } else {
      assert (a + b)[1..] == a[1..] + b;
      FilterOfSum(p, a[1..], b);
    }
  }

  lemma FilterOneMore(p: Entry -> bool, s: seq<Entry>, i: nat)
    requires i < |s|
    ensures Filter(p, s[..i + 1]) == Filter(p, s[..i]) + if p(s[i]) then [s[i]] else []
  {
    assert s[..i + 1] == s[..i] + [s[i]];
    FilterOfSum(p, s[..i], [s[i]]);
  }

  lemma {:induction false} FilterKeepsAll(p: Entry -> bool, s: seq<Entry>)
    requires forall e :: e in s ==> p(e)
    ensures Filter(p, s) == s
  {
    if s != [] {
      FilterKeepsAll(p, s[1..]);
    }
  }

  lemma {:induction false} FilterFilter(p: Entry -> bool, q: Entry -> bool, r: Entry -> bool, s: seq<Entry>)
    requires forall e :: r(e) <==> p(e) && q(e)
    ensures Filter(q, Filter(p, s)) == Filter(r, s)
  {
    if s != [] {
      FilterFilter(p, q, r, s[1..]);
    }
  }

  lemma {:induction false} FilterMember(p: Entry -> bool, s: seq<Entry>, e: Entry)
    ensures e in Filter(p, s) <==> e in s && p(e)
  {
    if s != [] {
      assert s == [s[0]] + s[1..];
      FilterMember(p, s[1..], e);
    }
  }

  lemma {:induction false} FilterParts(p: Entry -> bool, q: Entry -> bool, s: seq<Entry>)
    requires forall e :: q(e) <==> !p(e)
    ensures multiset(Filter(p, s)) + multiset(Filter(q, s)) == multiset(s)
  {
    if s != [] {
      assert s == [s[0]] + s[1..];
      FilterParts(p, q, s[1..]);
    }
  }

  // ---------------------------------------------------------------------------
  // Class ids and rows

  function ClassRows(classList: seq<Entry>, ptypeList: seq<Entry>): seq<Entry> {
    Filter(IsStruct, classList) + Filter(IsOther, classList) + ptypeList
  }

  /** The entries that are given an id, in the order of their ids. */
  function Numbered(rows: seq<Entry>): seq<Entry> {
    Filter(HasId, rows)
  }

  predicate SkippedAtTheEnd(rows: seq<Entry>) {
    forall i, j :: 0 <= i < j < |rows| && Skipped(rows[i]) ==> Skipped(rows[j])
  }

  /** Every id is the row of the entry it was given to. */
  predicate Agree(ids: seq<Entry>, rows: seq<Entry>) {
    |ids| <= |rows| && forall id :: 0 <= id < |ids| ==> ids[id] == rows[id]
  }

  lemma AgreeStep(e: Entry, ids: seq<Entry>, rows: seq<Entry>)
    ensures Agree([e] + ids, [e] + rows) <==> Agree(ids, rows)
  {
    var a, b := [e] + ids, [e] + rows;
    if Agree(a, b) {
      forall id | 0 <= id < |ids|
        ensures ids[id] == rows[id]
      {
        assert a[id + 1] == b[id + 1];
      }
    }
  }

  lemma EndStep(e: Entry, rows: seq<Entry>)
    requires !Skipped(e)
    ensures SkippedAtTheEnd([e] + rows) <==> SkippedAtTheEnd(rows)
  {
    var s := [e] + rows;
    assert forall i :: 0 < i < |s| ==> s[i] == rows[i - 1];
    if SkippedAtTheEnd(s) {
      forall i, j | 0 <= i < j < |rows| && Skipped(rows[i])
        ensures Skipped(rows[j])
      {
        assert Skipped(s[i + 1]) && Skipped(s[j + 1]);
      }
    }
  }

  /** Every id is the row of its class exactly when no entry with an id comes after a skipped
      class. */
  lemma {:induction false} IdsAreRowsIff(rows: seq<Entry>)
    ensures Agree(Numbered(rows), rows) <==> SkippedAtTheEnd(rows)
  {
    if rows != [] {
      var rest := rows[1..];
      IdsAreRowsIff(rest);
      if Skipped(rows[0]) {
        FirstSkipped(rows);
      } else {
        assert Numbered(rows) == [rows[0]] + Numbered(rest);
        assert rows == [rows[0]] + rest;
        AgreeStep(rows[0], Numbered(rest), rest);
        EndStep(rows[0], rest);
      }
    }
  }

  lemma FirstSkipped(rows: seq<Entry>)
    requires rows != [] && Skipped(rows[0])
    ensures Agree(Numbered(rows), rows) <==> SkippedAtTheEnd(rows)
  {
    if Numbered(rows) == [] {
      forall j | 0 <= j < |rows|
        ensures Skipped(rows[j])
      {
        FilterMember(HasId, rows, rows[j]);
      }
    } else {
      var e := Numbered(rows)[0];
      FilterMember(HasId, rows, e);
      var j :| 0 <= j < |rows| && rows[j] == e;
      assert !Skipped(rows[j]) && Skipped(rows[0]);
    }
  }

  // ---------------------------------------------------------------------------
  // Array and iterator types

  /** What `get_Class` finds, and the type it generates when there is none. */
  function Resolve(classes: map<string, Entry>, name: string): (Option<Entry>, Option<Entry>) {
    if name in classes then (Some(classes[name]), None)
    else if EndsWith(name, "[]") then Generic(classes, name[..|name| - 2], "ARRAY", "Array")
    else if EndsWith(name, "..") then Generic(classes, name[..|name| - 2], "ITR", "Iterator")
    else (None, None)
  }

  function Generic(classes: map<string, Entry>, bname: string, suffix: string, base: string): (Option<Entry>, Option<Entry>) {
    var cname := bname + suffix;
    if cname in classes then (Some(classes[cname]), None)
    else
      var c := PType(cname, base, 0, [bname]);
      (Some(c), Some(c))
  }

  /** The class table once the generated type, if any, is in it. */
  function Extended(classes: map<string, Entry>, generated: Option<Entry>): map<string, Entry> {
    if generated.Some? then classes[generated.value.cname := generated.value] else classes
  }

  /** Asking again for the same type gives the same type and generates nothing. */
  lemma {:induction false} ResolveTwice(classes: map<string, Entry>, name: string)
    ensures var (c, generated) := Resolve(classes, name);
            && Resolve(Extended(classes, generated), name) == (c, None)
            && (generated.Some? ==> generated == c && generated.value.cname !in classes)
  {
    if name !in classes {
      if EndsWith(name, "[]") {
        assert name[|name| - 1] == ']';
        assert (name[..|name| - 2] + "ARRAY")[|name| - 2 + 4] == 'Y';
      } else if EndsWith(name, "..") {
        assert name[|name| - 1] == '.';
        assert (name[..|name| - 2] + "ITR")[|name| - 2 + 2] == 'R';
      }
    }
  }

  // ---------------------------------------------------------------------------
  // Signatures

  datatype Param = Param(typ: string, fn: string)

  datatype Method = Method(rtype: string, cname: string, mn: string, mparams: seq<Param>, vargs: bool, mf: nat)

  function Dotted(s: string): (r: string)
    ensures |r| == |s| + 1 && r[0] == '.' && r[1..] == s
  {
    "." + s
  }

  function KeyTail(ps: seq<Param>, vargs: bool): string {
    if ps == [] then if vargs then "..." else ""
    else Dotted(Without(ps[0].typ, '!') + Dotted(ps[0].fn + KeyTail(ps[1..], vargs)))
  }

  function ParamKey(m: Method): string {
    Without(m.rtype, '!') + KeyTail(m.mparams, m.vargs)
  }

  /** A row of `ParamData0`; `TYPE_` drops the nullability marks. */
  datatype ParamRow = ParamRow(vargs: bool, params: seq<Param>, result: Option<string>)

  function Plain(t: string): (r: string)
    ensures '!' !in r && '?' !in r
  {
    WithoutSubset(Without(t, '!'), '?');
    Without(Without(t, '!'), '?')
  }

  /** Only the two marks are dropped. */
  lemma {:induction false} PlainSum(a: string, b: string)
    ensures Plain(a + b) == Plain(a) + Plain(b)
  {
    WithoutSum(a, b, '!');
    WithoutSum(Without(a, '!'), Without(b, '!'), '?');
  }

  lemma {:induction false} PlainOne(x: char)
    ensures Plain([x]) == if x == '!' || x == '?' then "" else [x]
  {
    WithoutOne(x, '!');
    WithoutOne(x, '?');
  }

  function Params(ps: seq<Param>): seq<Param> {
    seq(|ps|, i requires 0 <= i < |ps| => Param(Plain(ps[i].typ), ps[i].fn))
  }

  function RowOf(m: Method): ParamRow {
    ParamRow(m.vargs, Params(m.mparams), if m.rtype != "void" then Some(Plain(m.rtype)) else None)
  }

  const VOID := Method("void", "", "", [], false, 0)

  predicate NoDot(s: string) {
    '.' !in s
  }

  /** A type without and with only the two dots of an iterator type. */
  function NameOf(t: string): string {
    if EndsWith(t, "..") then t[..|t| - 2] else t
  }

  function DotsOf(t: string): string {
    if EndsWith(t, "..") then ".." else ""
  }

  /** A name without dots, or an iterator type: a name followed by two dots. */
  predicate IsType(t: string) {
    NameOf(t) != "" && NoDot(NameOf(t))
  }

  predicate WellFormed(m: Method) {
    && IsType(Without(m.rtype, '!'))
    && (Without(m.rtype, '!') == "void" ==> m.rtype == "void")
    && ParamsOk(m.mparams)
  }

  predicate ParamsOk(ps: seq<Param>) {
    forall i :: 0 <= i < |ps| ==> IsType(Without(ps[i].typ, '!')) && NoDot(ps[i].fn)
  }

  predicate SameSignature(m: Method, n: Method) {
    && Without(m.rtype, '!') == Without(n.rtype, '!') && m.vargs == n.vargs && SameParams(m.mparams, n.mparams)
  }

  predicate SameParams(ps: seq<Param>, qs: seq<Param>) {
    && |ps| == |qs|
    && forall k :: 0 <= k < |ps| ==> Without(ps[k].typ, '!') == Without(qs[k].typ, '!') && ps[k].fn == qs[k].fn
  }

  /** Methods whose signatures differ in "!" only share a key, hence a row. */
  lemma {:induction false} KeyIgnoresMarks(m: Method, n: Method)
    requires SameSignature(m, n)
    ensures ParamKey(m) == ParamKey(n)
  {
    TailIgnoresMarks(m.mparams, n.mparams, m.vargs);
  }

  lemma {:induction false} TailIgnoresMarks(ps: seq<Param>, qs: seq<Param>, vargs: bool)
    requires SameParams(ps, qs)
    ensures KeyTail(ps, vargs) == KeyTail(qs, vargs)
    decreases |ps|
  {
    if ps != [] {
      TailIgnoresMarks(ps[1..], qs[1..], vargs);
    }
  }

  /** Dot-free prefixes in front of nothing or a dot are read off uniquely. */
  lemma {:induction false} SplitName(a: string, x: string, b: string, y: string)
    requires NoDot(a) && NoDot(b) && a + x == b + y
    requires x == "" || x[0] == '.'
    requires y == "" || y[0] == '.'
    ensures a == b && x == y
  {
    var s := a + x;
    assert |a| < |s| ==> s[|a|] == '.';
    assert |b| < |s| ==> s[|b|] == '.';
    assert s[..|a|] == a && s[..|b|] == b;
    assert s[|a|..] == x && s[|b|..] == y;
  }

  lemma TypeParts(t: string, x: string)
    ensures t == NameOf(t) + DotsOf(t) && t + x == NameOf(t) + (DotsOf(t) + x)
  {
    assert EndsWith(t, "..") ==> t == t[..|t| - 2] + t[|t| - 2..];
  }

  lemma SameDots(d: string, x: string, e: string, y: string)
    requires d in {"", ".."} && e in {"", ".."} && d + x == e + y
    requires ".." + x != y && ".." + y != x
    ensures d == e && x == y
  {
    assert x == (d + x)[|d|..] && y == (e + y)[|e|..];
    assert "" + x == x && "" + y == y;
  }

  /** So are types, when two dots more or less would not make sense of what follows. */
  lemma {:induction false} SplitType(a: string, x: string, b: string, y: string)
    requires IsType(a) && IsType(b) && a + x == b + y
    requires (x == "" || x[0] == '.') && (y == "" || y[0] == '.')
    requires ".." + x != y && ".." + y != x
    ensures a == b && x == y
  {
    TypeParts(a, x);
    TypeParts(b, y);
    SplitName(NameOf(a), DotsOf(a) + x, NameOf(b), DotsOf(b) + y);
    SameDots(DotsOf(a), x, DotsOf(b), y);
  }

  /** What follows a type or a parameter never starts with two dots, but for the final ellipsis. */
  lemma TailShape(ps: seq<Param>, vargs: bool)
    requires ParamsOk(ps)
    ensures var t := KeyTail(ps, vargs);
            if ps == [] then t == if vargs then "..." else ""
            else |t| >= 2 && t[0] == '.' && t[1] != '.'
  {
    if ps != [] {
      var u := Without(ps[0].typ, '!');
      assert u[0] != '.' by {
        assert EndsWith(u, "..") ==> u[0] == u[..|u| - 2][0];
      }
      assert KeyTail(ps, vargs)[1] == u[0];
    }
  }

  lemma NotTwoDotsMore(ps: seq<Param>, v: bool, qs: seq<Param>, w: bool)
    requires ParamsOk(ps) && ParamsOk(qs)
    ensures ".." + KeyTail(ps, v) != KeyTail(qs, w)
    ensures forall f, g :: NoDot(f) && NoDot(g) ==> ".." + Dotted(f + KeyTail(ps, v)) != Dotted(g + KeyTail(qs, w))
  {
    TailShape(ps, v);
    TailShape(qs, w);
    var x, y := KeyTail(ps, v), KeyTail(qs, w);
    assert (".." + x)[1] == '.' && |x| != 1;
    forall f, g | NoDot(f) && NoDot(g)
      ensures ".." + Dotted(f + x) != Dotted(g + y)
    {
      var l, r := ".." + Dotted(f + x), Dotted(g + y);
      assert l[1] == '.' && l[2] == '.' && |l| == 3 + |f| + |x|;
      assert f != "" ==> l[3] == f[0];
      assert g != "" ==> r[1] == g[0];
      assert g == "" ==> r[1..] == y;
    }
  }

  /** One parameter is read off a key uniquely. */
  lemma SplitParam(a: string, f: string, x: string, b: string, g: string, y: string)
    requires IsType(a) && IsType(b) && NoDot(f) && NoDot(g)
    requires Dotted(a + Dotted(f + x)) == Dotted(b + Dotted(g + y))
    requires (x == "" || x[0] == '.') && (y == "" || y[0] == '.')
    requires ".." + Dotted(f + x) != Dotted(g + y) && ".." + Dotted(g + y) != Dotted(f + x)
    ensures a == b && f == g && x == y
  {
    SplitType(a, Dotted(f + x), b, Dotted(g + y));
    SplitName(f, x, g, y);
  }

  lemma {:induction false} TailInjective(ps: seq<Param>, v: bool, qs: seq<Param>, w: bool)
    requires ParamsOk(ps) && ParamsOk(qs) && KeyTail(ps, v) == KeyTail(qs, w)
    ensures v == w && Params(ps) == Params(qs)
  {
    TailShape(ps, v);
    TailShape(qs, w);
    if ps != [] && qs != [] {
      var a, b := Without(ps[0].typ, '!'), Without(qs[0].typ, '!');
      var x, y := KeyTail(ps[1..], v), KeyTail(qs[1..], w);
      NotTwoDotsMore(ps[1..], v, qs[1..], w);
      NotTwoDotsMore(qs[1..], w, ps[1..], v);
      TailShape(ps[1..], v);
      TailShape(qs[1..], w);
      SplitParam(a, ps[0].fn, x, b, qs[0].fn, y);
      TailInjective(ps[1..], v, qs[1..], w);
      ParamsStep(ps, qs);
    }
  }

  lemma ParamsStep(ps: seq<Param>, qs: seq<Param>)
    requires ps != [] && qs != [] && Params(ps[1..]) == Params(qs[1..])
    requires Without(ps[0].typ, '!') == Without(qs[0].typ, '!') && ps[0].fn == qs[0].fn
    ensures Params(ps) == Params(qs)
  {
    forall i | 0 <= i < |ps|
      ensures |ps| == |qs| && Params(ps)[i] == Params(qs)[i]
    {
      if i > 0 {
        assert Params(ps[1..])[i - 1] == Params(ps)[i];
        assert Params(qs[1..])[i - 1] == Params(qs)[i];
      }
    }
  }

  /** Methods with the same key have the same parameter row, so sharing one row is right. */
  lemma SameKeySameRow(m: Method, n: Method)
    requires WellFormed(m) && WellFormed(n) && ParamKey(m) == ParamKey(n)
    ensures RowOf(m) == RowOf(n)
  {
    TailShape(m.mparams, m.vargs);
    TailShape(n.mparams, n.vargs);
    NotTwoDotsMore(m.mparams, m.vargs, n.mparams, n.vargs);
    NotTwoDotsMore(n.mparams, n.vargs, m.mparams, m.vargs);
    SplitType(Without(m.rtype, '!'), KeyTail(m.mparams, m.vargs), Without(n.rtype, '!'), KeyTail(n.mparams, n.vargs));
    TailInjective(m.mparams, m.vargs, n.mparams, n.vargs);
  }
}
