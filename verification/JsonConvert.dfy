/** Konoha arrays to json-c trees and back.  The writer walks an array by its class, the
    reader builds arrays by the class it is asked for. */
module JsonConvert {
  import opened Wrappers

  /** Classes, as far as the conversion looks at them; `ArrayOf(p1)` is `Array<p1>`. */
  datatype Class = Boolean | Int | Float | String | Array | ArrayOf(p1: Class) | Json | Dynamic | Map | Other

  type Text = seq<nat>   // bytes of a string

  /** One `kunbox_t` word: an integer (also a boolean) or a double. */
  datatype Unbox = I(n: int) | F(x: real)

  /** Objects.  `Num` is a boxed number of class Boolean, Int or Float. */
  datatype Object =
    | Null
    | Num(c: Class, d: Unbox)
    | Str(s: Text)
    | Arr(cid: Class, list: seq<Slot>)
    | Dict(entries: map<Text, Object>)
    | JsonObj(j: JsonTree)
    | Misc

  /** One array element: an unboxed word or an object pointer. */
  datatype Slot = Unboxed(d: Unbox) | Ref(o: Object)

  /** A json-c tree.  `JNull` is the NULL pointer. */
  datatype JsonTree =
    | JNull
    | JBool(b: int)
    | JInt(i: int)
    | JDouble(x: real)
    | JString(s: Text)
    | JArray(items: seq<JsonTree>)
    | JObject(fields: seq<Field>)

  /** Keys are C strings, so they hold no NUL. */
  datatype Field = Field(key: Text, value: JsonTree)

  /** `O_cid`. */
  function ClassOf(o: Object): Class {
    match o
    case Null => Other
    case Num(c, _) => c
    case Str(_) => String
    case Arr(cid, _) => cid
    case Dict(_) => Map
    case JsonObj(_) => Json
    case Misc => Other
  }

  /** `C_bcid(cid) == CLASS_Array`. */
  predicate IsArrayClass(c: Class) {
    c == Array || c.ArrayOf?
  }

  /** `C_p1`. */
  function P1(c: Class): Class {
    if c.ArrayOf? then c.p1 else Dynamic
  }

  /** `knh_class_P1(ctx, CLASS_Array, p1)`: the plain array class already has dynamic elements. */
  function ArrayClass(p1: Class): Class {
    if p1 == Dynamic then Array else ArrayOf(p1)
  }

  /** `IS_Tunbox`. */
  predicate IsUnboxClass(c: Class) {
    c == Boolean || c == Int || c == Float
  }

  const TWO32 := 0x1_0000_0000
  const TWO31 := 0x8000_0000

  /** Conversion of a 64-bit `kint_t` to a C `int`. */
  function ToInt32(n: int): (r: int)
    ensures -TWO31 <= r < TWO31
    ensures r == n <==> -TWO31 <= n < TWO31
  {
    (n + TWO31) % TWO32 - TWO31
  }

  /** Reading a word of the list as an integer or as a double. */
  function AsInt(s: Slot): int {
    match s
    case Unboxed(I(n)) => n
    case Ref(Num(_, I(n))) => n
    case _ => 0
  }

  function AsFloat(s: Slot): real {
    match s
    case Unboxed(F(x)) => x
    case Ref(Num(_, F(x))) => x
    case _ => 0.0
  }

  // ---------------------------------------------------------------------------
  // Writer: json_object_knhary_object_to_json / json_object_knhary_to_json

  /** The class that directs the conversion of one element. */
  function ElemClass(s: Slot, cid: Class, isGenerics: bool): Class {
    if isGenerics then P1(cid) else if s.Ref? then ClassOf(s.o) else Other
  }

  function WriteElem(s: Slot, cid: Class, isGenerics: bool): Option<JsonTree>
    decreases s, 1
  {
    if cid == Boolean then Some(JBool(ToInt32(AsInt(s))))
    else if cid == Float then Some(JDouble(AsFloat(s)))
    else if cid == Int then Some(JInt(ToInt32(AsInt(s))))
    else if cid == String then Some(JString(if s.Ref? && s.o.Str? then s.o.s else []))
    else if IsArrayClass(cid) then
      Some(JArray(if s.Ref? && s.o.Arr? then WriteList(s.o.list, |s.o.list|, cid, cid != Array) else []))
    else if s.Ref? && s.o.JsonObj? then Some(s.o.j)
    else None
  }

  /** The first `n` elements; elements without a JSON form (or with a NULL one) are skipped. */
  function WriteList(list: seq<Slot>, n: nat, cid: Class, isGenerics: bool): seq<JsonTree>
    requires n <= |list|
    decreases list, 0, n
  {
    if n == 0 then []
    else
      var rest := WriteList(list, n - 1, cid, isGenerics);
      var e := WriteElem(list[n - 1], ElemClass(list[n - 1], cid, isGenerics), isGenerics);
      if e.Some? && !e.value.JNull? then rest + [e.value] else rest
  }

  /** `json_object_knhary_object_to_json`: the loop over one array. */
  method ArrayToJson(list: seq<Slot>, cid: Class, isGenerics: bool) returns (val: JsonTree)
    ensures val == JArray(WriteList(list, |list|, cid, isGenerics))
    decreases list, 0
  {
    var items := [];
    for i := 0 to |list|
      invariant items == WriteList(list, i, cid, isGenerics)
    {
      var gcid := if isGenerics then P1(cid) else Array;
      var acid := if isGenerics then gcid else ElemClass(list[i], cid, false);
      var aobj := ElemToJson(list[i], acid, isGenerics);
      if aobj.Some? && !aobj.value.JNull? {
        items := items + [aobj.value];
      }
    }
    val := JArray(items);
  }

  /** `json_object_knhary_to_json`: one element. */
  method ElemToJson(s: Slot, cid: Class, isGenerics: bool) returns (val: Option<JsonTree>)
    ensures val == WriteElem(s, cid, isGenerics)
    decreases s, 1
  {
    if cid == Boolean {
      val := Some(JBool(ToInt32(AsInt(s))));
    } else if cid == Float {
      val := Some(JDouble(AsFloat(s)));
    } else if cid == Int {
      val := Some(JInt(ToInt32(AsInt(s))));
    } else if cid == String {
      val := Some(JString(if s.Ref? && s.o.Str? then s.o.s else []));
    } else if IsArrayClass(cid) {
      var items := JArray([]);
      if s.Ref? && s.o.Arr? {
        items := ArrayToJson(s.o.list, cid, cid != Array);
      }
      val := Some(items);
    } else {
      val := if s.Ref? && s.o.JsonObj? then Some(s.o.j) else None;
    }
  }

  // ---------------------------------------------------------------------------
  // Reader: convert_json_to_object

  /** `new_String(ctx, cstr)` stops at the first NUL byte. */
  function CutAtNul(s: Text): (r: Text)
    ensures r <= s
    ensures r == s <==> 0 !in s
    ensures 0 !in r && (|r| < |s| ==> s[|r|] == 0)
  {
    if s == [] || s[0] == 0 then []
    else
      var r := CutAtNul(s[1..]);
      assert s == [s[0]] + s[1..];
      [s[0]] + r
  }

  /** The `ksfp_t` a value is left in; both halves start out empty. */
  datatype Sfp = Sfp(o: Option<Object>, ndata: Unbox)

  const EMPTY := Sfp(None, I(0))

  /** `a->api->add`: unboxed arrays take the number word, others the object word. */
  function Added(p1: Class, v: Sfp): Option<Slot> {
    if IsUnboxClass(p1) then Some(Unboxed(v.ndata))
    else if v.o.Some? then Some(Ref(v.o.value))
    else None   // a NULL object pointer: not representable
  }

  function Read(j: JsonTree, ct: Class): Option<Sfp>
    decreases j, 1
  {
    match j
    case JBool(b) => Some(EMPTY.(ndata := I(b)))
    case JDouble(x) => Some(EMPTY.(ndata := F(x)))
    case JInt(i) => Some(EMPTY.(ndata := I(i)))
    case JString(s) => Some(EMPTY.(o := Some(Str(CutAtNul(s)))))
    case JArray(items) =>
      (match ReadList(items, |items|, P1(ct))
       case None => None
       case Some(list) => Some(EMPTY.(o := Some(Arr(ArrayClass(P1(ct)), list)))))
    case JObject(_) => Some(EMPTY.(o := Some(JsonObj(j))))
    case JNull => Some(EMPTY.(o := Some(Null)))
  }

  function ReadList(items: seq<JsonTree>, n: nat, p1: Class): Option<seq<Slot>>
    requires n <= |items|
    decreases items, 0, n
  {
    if n == 0 then Some([])
    else
      match ReadList(items, n - 1, p1)
      case None => None
      case Some(rest) =>
        match Read(items[n - 1], p1)
        case None => None
        case Some(v) =>
          match Added(p1, v)
          case None => None
          case Some(e) => Some(rest + [e])
  }

  /** `convert_json_to_object`. */
  method ConvertJson(j: JsonTree, ct: Class) returns (r: Option<Sfp>)
    ensures r == Read(j, ct)
    decreases j
  {
    match j
    case JBool(b) => r := Some(EMPTY.(ndata := I(b)));
    case JDouble(x) => r := Some(EMPTY.(ndata := F(x)));
    case JInt(i) => r := Some(EMPTY.(ndata := I(i)));
    case JString(s) => r := Some(EMPTY.(o := Some(Str(CutAtNul(s)))));
    case JArray(items) =>
      var list := [];
      for i := 0 to |items|
        invariant ReadList(items, i, P1(ct)) == Some(list)
      {
        var v := ConvertJson(items[i], P1(ct));
        if v.None? || Added(P1(ct), v.value).None? {
          ReadListFails(items, i, |items|, P1(ct));
          return None;
        }
        list := list + [Added(P1(ct), v.value).value];
      }
      r := Some(EMPTY.(o := Some(Arr(ArrayClass(P1(ct)), list))));
    case JObject(_) => r := Some(EMPTY.(o := Some(JsonObj(j))));
    case JNull => r := Some(EMPTY.(o := Some(Null)));
  }

  lemma {:induction false} ReadListFails(items: seq<JsonTree>, i: nat, n: nat, p1: Class)
    requires i < n <= |items| && ReadList(items, i + 1, p1).None?
    ensures ReadList(items, n, p1).None?
    decreases n
  {
    if i + 1 < n {
      ReadListFails(items, i, n - 1, p1);
    }
  }

  // ---------------------------------------------------------------------------
  // Round trip

  /** `s` is an element of an array of `p1`, nested generic arrays included. */
  predicate Typed(s: Slot, p1: Class)
    decreases s
  {
    match p1
    case Boolean => s.Unboxed? && s.d.I?
    case Int => s.Unboxed? && s.d.I?
    case Float => s.Unboxed? && s.d.F?
    case String => s.Ref? && s.o.Str?
    case ArrayOf(q) =>
      q != Dynamic && s.Ref? && s.o.Arr? && s.o.cid == p1 && forall i :: 0 <= i < |s.o.list| ==> Typed(s.o.list[i], q)
    case _ => false
  }

  /** What survives JSON: integers of 32 bits and strings without a NUL byte. */
  predicate Fits(s: Slot)
    decreases s
  {
    match s
    case Unboxed(I(n)) => -TWO31 <= n < TWO31
    case Unboxed(F(_)) => true
    case Ref(Str(t)) => 0 !in t
    case Ref(Arr(_, list)) => forall i :: 0 <= i < |list| ==> Fits(list[i])
    case Ref(_) => true
  }

  /** A typed element is written to a tree that reads back as the element exactly when it fits. */
  lemma {:induction false} ElemRoundTrip(s: Slot, p1: Class)
    requires Typed(s, p1)
    ensures WriteElem(s, p1, true).Some? && !WriteElem(s, p1, true).value.JNull?
    ensures var v := Read(WriteElem(s, p1, true).value, p1);
            v.Some? && Added(p1, v.value).Some? && (Added(p1, v.value).value == s <==> Fits(s))
    decreases s, 1
  {
    if p1.ArrayOf? {
      var list := s.o.list;
      ListRoundTrip(list, |list|, p1);
      var js := WriteList(list, |list|, p1, true);
      var back := ReadList(js, |list|, p1.p1).value;
      assert WriteElem(s, p1, true) == Some(JArray(js));
      ReadArray(js, p1, back);
      SameArray(back, list, p1);
    } else {
      ScalarRoundTrip(s, p1);
    }
  }

  lemma {:induction false} ScalarRoundTrip(s: Slot, p1: Class)
    requires Typed(s, p1) && !p1.ArrayOf?
    ensures WriteElem(s, p1, true).Some? && !WriteElem(s, p1, true).value.JNull?
    ensures var v := Read(WriteElem(s, p1, true).value, p1);
            v.Some? && Added(p1, v.value).Some? && (Added(p1, v.value).value == s <==> Fits(s))
  {
  }

  lemma {:induction false} ReadArray(js: seq<JsonTree>, cid: Class, back: seq<Slot>)
    requires cid.ArrayOf? && cid.p1 != Dynamic && ReadList(js, |js|, cid.p1) == Some(back)
    ensures Read(JArray(js), cid) == Some(EMPTY.(o := Some(Arr(cid, back))))
  {
  }

  lemma {:induction false} SameArray(back: seq<Slot>, list: seq<Slot>, cid: Class)
    requires |back| == |list| && forall i :: 0 <= i < |list| ==> (back[i] == list[i] <==> Fits(list[i]))
    ensures Ref(Arr(cid, back)) == Ref(Arr(cid, list)) <==> Fits(Ref(Arr(cid, list)))
  {
    SameList(back, list);
  }

  lemma SameList(x: seq<Slot>, y: seq<Slot>)
    requires |x| == |y|
    ensures x == y <==> forall i :: 0 <= i < |y| ==> x[i] == y[i]
  {
  }

  lemma {:induction false} ListRoundTrip(list: seq<Slot>, n: nat, cid: Class)
    requires n <= |list| && cid.ArrayOf? && forall i :: 0 <= i < |list| ==> Typed(list[i], cid.p1)
    ensures |WriteList(list, n, cid, true)| == n
    ensures var back := ReadList(WriteList(list, n, cid, true), n, cid.p1);
            back.Some? && |back.value| == n && forall i :: 0 <= i < n ==> (back.value[i] == list[i] <==> Fits(list[i]))
    decreases list, 0, n
  {
    if n > 0 {
      ListRoundTrip(list, n - 1, cid);
      ElemRoundTrip(list[n - 1], cid.p1);
      var e := WriteElem(list[n - 1], cid.p1, true).value;
      var js0 := WriteList(list, n - 1, cid, true);
      assert WriteList(list, n, cid, true) == js0 + [e];
      ReadOneMore(js0, e, cid.p1);
      var back0 := ReadList(js0, n - 1, cid.p1).value;
      var back := back0 + [Added(cid.p1, Read(e, cid.p1).value).value];
      assert ReadList(js0 + [e], n, cid.p1) == Some(back);
      forall i | 0 <= i < n ensures back[i] == list[i] <==> Fits(list[i]) {
        assert i < n - 1 ==> back[i] == back0[i];
      }
    }
  }

  lemma {:induction false} ReadOneMore(js: seq<JsonTree>, e: JsonTree, p1: Class)
    requires ReadList(js, |js|, p1).Some? && Read(e, p1).Some? && Added(p1, Read(e, p1).value).Some?
    ensures ReadList(js + [e], |js| + 1, p1)
         == Some(ReadList(js, |js|, p1).value + [Added(p1, Read(e, p1).value).value])
  {
    ReadPrefix(js, js + [e], |js|, p1);
    assert (js + [e])[|js|] == e;
  }

  lemma {:induction false} ReadPrefix(a: seq<JsonTree>, b: seq<JsonTree>, n: nat, p1: Class)
    requires n <= |a| <= |b| && a == b[..|a|]
    ensures ReadList(a, n, p1) == ReadList(b, n, p1)
    decreases n
  {
    if n > 0 {
      ReadPrefix(a, b, n - 1, p1);
    }
  }

  /** Array to JSON to array is the identity on a nested generic array of Boolean, Float, Int
      and String exactly when every Int has 32 bits and no String contains a NUL. */
  lemma {:induction false} RoundTripIff(a: Object)
    requires a.Arr? && Typed(Ref(a), a.cid)
    ensures Read(JArray(WriteList(a.list, |a.list|, a.cid, true)), a.cid) == Some(EMPTY.(o := Some(a))) <==> Fits(Ref(a))
  {
    ElemRoundTrip(Ref(a), a.cid);
  }

  /** An array that comes back from JSON different: what it is read as. */
  ghost predicate ReadsBackAs(a: Object, b: Object)
    requires a.Arr?
  {
    Read(JArray(WriteList(a.list, |a.list|, a.cid, true)), a.cid) == Some(EMPTY.(o := Some(b)))
  }

  /** The array of one element. */
  function Single(p1: Class, e: Slot): Object {
    Arr(ArrayOf(p1), [e])
  }

  lemma {:induction false} WriteSingle(p1: Class, e: Slot, j: JsonTree)
    requires WriteElem(e, p1, true) == Some(j) && !j.JNull?
    ensures WriteList([e], 1, ArrayOf(p1), true) == [j]
  {
    assert WriteList([e], 0, ArrayOf(p1), true) == [];
  }

  lemma {:induction false} ReadSingle(p1: Class, e: Slot, j: JsonTree, v: Sfp)
    requires p1 != Dynamic && Read(j, p1) == Some(v) && Added(p1, v) == Some(e)
    ensures Read(JArray([j]), ArrayOf(p1)) == Some(EMPTY.(o := Some(Single(p1, e))))
  {
    var empty: seq<Slot> := [];
    assert ReadList([j], 0, p1) == Some(empty);
    assert empty + [e] == [e];
    assert ReadList([j], 1, p1) == Some([e]);
  }

  /** 2^31 comes back negative. */
  lemma WideInt()
    ensures Typed(Ref(Single(Int, Unboxed(I(TWO31)))), ArrayOf(Int))
    ensures ReadsBackAs(Single(Int, Unboxed(I(TWO31))), Single(Int, Unboxed(I(-TWO31))))
  {
    WriteSingle(Int, Unboxed(I(TWO31)), JInt(-TWO31));
    ReadSingle(Int, Unboxed(I(-TWO31)), JInt(-TWO31), EMPTY.(ndata := I(-TWO31)));
  }

  /** A string comes back cut at its first NUL. */
  lemma CutString()
    ensures Typed(Ref(Single(String, Ref(Str([65, 0, 66])))), ArrayOf(String))
    ensures ReadsBackAs(Single(String, Ref(Str([65, 0, 66]))), Single(String, Ref(Str([65]))))
  {
    assert CutAtNul([65, 0, 66]) == [65] by {
      assert [65, 0, 66][1..] == [0, 66];
    }
    WriteSingle(String, Ref(Str([65, 0, 66])), JString([65, 0, 66]));
    ReadSingle(String, Ref(Str([65])), JString([65, 0, 66]), EMPTY.(o := Some(Str([65]))));
  }

  // ---------------------------------------------------------------------------
  // Json.set

  /** `json_object_knh_to_json`: one value, `n` being the number word next to the object. */
  function WriteValue(o: Object, n: int): Option<JsonTree> {
    var cid := ClassOf(o);
    if cid == Boolean then Some(JBool(if n == 0 then 1 else 0))   // `!(b)`
    else if cid == Float then Some(JDouble(AsFloat(Ref(o))))
    else if cid == Int then Some(JInt(ToInt32(AsInt(Ref(o)))))
    else if cid == String then Some(JString(if o.Str? then o.s else []))
    else if IsArrayClass(cid) then Some(JArray(if o.Arr? then WriteList(o.list, |o.list|, cid, cid != Array) else []))
    else if o.JsonObj? then Some(o.j)
    else None
  }

  /** A boxed number (a truth value for Boolean), a string or a typed generic array. */
  predicate IsValue(o: Object, n: int) {
    match o
    case Num(c, d) => (c == Boolean && d == I(n) && 0 <= n <= 1) || (c == Int && d.I?) || (c == Float && d.F?)
    case Str(_) => true
    case Arr(cid, _) => Typed(Ref(o), cid)
    case _ => false
  }

  /** The slot a value is expected in. */
  function SlotOf(o: Object): Sfp {
    if o.Num? then EMPTY.(ndata := o.d) else EMPTY.(o := Some(o))
  }

  /** `Json.set` and `Json.get` with the value's class give it back exactly when it is not a
      Boolean, which comes back negated, and survives the conversion. */
  lemma {:induction false} SetGetIff(o: Object, n: int)
    requires IsValue(o, n)
    ensures WriteValue(o, n).Some?
    ensures Read(WriteValue(o, n).value, ClassOf(o)) == Some(SlotOf(o))
            <==> ClassOf(o) != Boolean && (if o.Num? then Fits(Unboxed(o.d)) else Fits(Ref(o)))
    ensures ClassOf(o) == Boolean ==> Read(WriteValue(o, n).value, Boolean) == Some(EMPTY.(ndata := I(1 - n)))
  {
    if o.Arr? {
      RoundTripIff(o);
    }
  }
}
