/** Arrays without an element class: the writer goes by the class of each element, and
    `json_read` gives boxed elements back. */
module PlainArrays {
  import opened Wrappers
  import opened JsonConvert
  import opened JsonRead

  /** A boxed Boolean, Int or Float, a String, or a plain Array of such, to any depth. */
  predicate IsPlain(s: Slot)
    decreases s
  {
    match s
    case Ref(Num(c, d)) => if c == Float then d.F? else (c == Boolean || c == Int) && d.I?
    case Ref(Str(_)) => true
    case Ref(Arr(cid, list)) => cid == Array && forall i :: 0 <= i < |list| ==> IsPlain(list[i])
    case _ => false
  }

  /** What JSON keeps of it: whole numbers of 32 bits and strings without a NUL. */
  predicate IsKept(s: Slot)
    decreases s
  {
    match s
    case Ref(Num(_, I(n))) => -TWO31 <= n < TWO31
    case Ref(Str(t)) => 0 !in t
    case Ref(Arr(_, list)) => forall i :: 0 <= i < |list| ==> IsKept(list[i])
    case _ => true
  }

  /** Element `e` is read back from `j` exactly when JSON keeps it. */
  predicate ReadsBack(e: Slot, j: JsonTree) {
    e.Ref? && !j.JNull? && (Boxed(j) == e.o <==> IsKept(e))
  }

  function Written(list: seq<Slot>, n: nat): seq<JsonTree>
    requires n <= |list|
  {
    WriteList(list, n, Array, false)
  }

  lemma {:induction false} ElemReadsBack(s: Slot)
    requires IsPlain(s)
    ensures var j := WriteElem(s, ElemClass(s, Array, false), false); j.Some? && ReadsBack(s, j.value)
    decreases s, 1
  {
    if s.o.Arr? {
      ListReadsBack(s.o.list, |s.o.list|);
      assert WriteElem(s, Array, false) == Some(JArray(Written(s.o.list, |s.o.list|)));
      ArrayReadsBack(s.o.list, Written(s.o.list, |s.o.list|));
    }
  }

  lemma {:induction false} ListReadsBack(list: seq<Slot>, n: nat)
    requires n <= |list| && forall i :: 0 <= i < |list| ==> IsPlain(list[i])
    ensures |Written(list, n)| == n && forall i :: 0 <= i < n ==> ReadsBack(list[i], Written(list, n)[i])
    decreases list, 0, n
  {
    if n > 0 {
      ListReadsBack(list, n - 1);
      ElemReadsBack(list[n - 1]);
    }
  }

  /** An array is read back exactly when its elements are. */
  lemma {:induction false} ArrayReadsBack(list: seq<Slot>, items: seq<JsonTree>)
    requires |items| == |list| && forall i :: 0 <= i < |list| ==> ReadsBack(list[i], items[i])
    ensures Boxed(JArray(items)) == Arr(Array, list) <==> forall i :: 0 <= i < |list| ==> IsKept(list[i])
  {
    var back := Elements(items, |items|);
    assert Boxed(JArray(items)) == Arr(Array, back);
    ElementsLength(items, |items|);
    forall i | 0 <= i < |list| ensures back[i] == list[i] <==> IsKept(list[i]) {
      ElementAt(items, |items|, i);
    }
    SameList(back, list);
  }

  lemma {:induction false} ElementsLength(items: seq<JsonTree>, n: nat)
    requires n <= |items|
    ensures |Elements(items, n)| == n
  {
    if n > 0 {
      ElementsLength(items, n - 1);
    }
  }

  /** Every element of a plain Array is written, in its place, and `json_read` gives the array
      back exactly when every whole number in it, to any depth, has 32 bits and no string
      contains a NUL. */
  lemma {:induction false} PlainRoundTripIff(list: seq<Slot>)
    requires forall i :: 0 <= i < |list| ==> IsPlain(list[i])
    ensures |WriteList(list, |list|, Array, false)| == |list|
    ensures Boxed(JArray(WriteList(list, |list|, Array, false))) == Arr(Array, list)
       <==> forall i :: 0 <= i < |list| ==> IsKept(list[i])
  {
    ListReadsBack(list, |list|);
    ArrayReadsBack(list, Written(list, |list|));
  }

  /** The same for `Json.set` of a plain Array. */
  lemma {:induction false} SetPlainIff(list: seq<Slot>, n: int)
    requires forall i :: 0 <= i < |list| ==> IsPlain(list[i])
    ensures var j := WriteValue(Arr(Array, list), n);
            j.Some? && (Boxed(j.value) == Arr(Array, list) <==> forall i :: 0 <= i < |list| ==> IsKept(list[i]))
  {
    PlainRoundTripIff(list);
  }

  /** A JSON object that is set comes back as it is. */
  lemma {:induction false} SetJson(j: JsonTree, n: int)
    ensures WriteValue(JsonObj(j), n) == Some(j)
    ensures j.JObject? ==> Read(j, Json) == Some(SlotOf(JsonObj(j)))
  {
  }

  // ---------------------------------------------------------------------------
  // Other elements

  /** An element without a JSON form, or with the NULL one. */
  predicate HasNoForm(o: Object) {
    o.Null? || o.Misc? || o.Dict? || o == JsonObj(JNull)
  }

  /** Such an element leaves no item behind; a Json object is its own item. */
  lemma {:induction false} OneMoreElement(list: seq<Slot>, o: Object)
    ensures HasNoForm(o) ==> Written(list + [Ref(o)], |list| + 1) == Written(list, |list|)
    ensures o.JsonObj? && !o.j.JNull? ==> Written(list + [Ref(o)], |list| + 1) == Written(list, |list|) + [o.j]
  {
    var all := list + [Ref(o)];
    WrittenPrefix(list, [Ref(o)], |list|);
    assert all[|list|] == Ref(o);
    var e := WriteElem(Ref(o), ClassOf(o), false);
    assert Written(all, |list| + 1)
        == Written(all, |list|) + if e.Some? && !e.value.JNull? then [e.value] else [];
  }

  lemma {:induction false} WrittenPrefix(list: seq<Slot>, more: seq<Slot>, n: nat)
    requires n <= |list|
    ensures Written(list + more, n) == Written(list, n)
    decreases n
  {
    if n > 0 {
      WrittenPrefix(list, more, n - 1);
      assert (list + more)[n - 1] == list[n - 1];
    }
  }

  /** An array of class Json: JSON objects come back as they are. */
  lemma {:induction false} JsonRoundTrip(list: seq<Slot>, n: nat)
    requires n <= |list| && forall i :: 0 <= i < |list| ==> list[i].Ref? && list[i].o.JsonObj? && list[i].o.j.JObject?
    ensures |WriteList(list, n, ArrayOf(Json), true)| == n
    ensures ReadList(WriteList(list, n, ArrayOf(Json), true), n, Json) == Some(list[..n])
    decreases n
  {
    if n > 0 {
      JsonRoundTrip(list, n - 1);
      var js := WriteList(list, n - 1, ArrayOf(Json), true);
      assert WriteList(list, n, ArrayOf(Json), true) == js + [list[n - 1].o.j];
      ReadOneMore(js, list[n - 1].o.j, Json);
      assert list[..n] == list[..n - 1] + [list[n - 1]];
    }
  }

  /** A null item becomes a null element. */
  lemma {:induction false} NullReads(js: seq<JsonTree>, p1: Class)
    requires !IsUnboxClass(p1) && ReadList(js, |js|, p1).Some?
    ensures ReadList(js + [JNull], |js| + 1, p1) == Some(ReadList(js, |js|, p1).value + [Ref(Null)])
    ensures Elements(js + [JNull], |js| + 1) == Elements(js, |js|) + [Ref(Null)]
  {
    ReadOneMore(js, JNull, p1);
    ElementsPrefix(js, [JNull], |js|);
  }

  lemma {:induction false} ElementsPrefix(js: seq<JsonTree>, more: seq<JsonTree>, n: nat)
    requires n <= |js|
    ensures Elements(js + more, n) == Elements(js, n)
  {
    if n > 0 {
      ElementsPrefix(js, more, n - 1);
      assert (js + more)[n - 1] == js[n - 1];
    }
  }
}
