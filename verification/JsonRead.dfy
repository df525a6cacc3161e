/** `json_read`: unpacking a JSON tree with the VM stack as scratch space. */
module JsonRead {

  import opened JsonConvert

  /** `ksfp_t`: the object word and the number word of a stack slot. */
  datatype Word = Word(o: Object, ndata: Unbox)

  // ---------------------------------------------------------------------------
  // What is read

  /** A number goes to the number word of a slot, an object to its object word. */
  datatype Content = Number(d: Unbox) | Pointer(o: Object)

  function TagOf(j: JsonTree): Class {
    match j
    case JNull => Dynamic
    case JBool(_) => Boolean
    case JInt(_) => Int
    case JDouble(_) => Float
    case JString(_) => String
    case JArray(_) => Array
    case JObject(_) => Map
  }

  function Translate(j: JsonTree): Content
    decreases j, 1
  {
    match j
    case JNull => Pointer(Null)
    case JBool(b) => Number(I(b))
    case JInt(i) => Number(I(i))
    case JDouble(x) => Number(F(x))
    case JString(s) => Pointer(Str(CutAtNul(s)))
    case JArray(items) => Pointer(Arr(ArrayClass(Dynamic), Elements(items, |items|)))
    case JObject(fields) => Pointer(Dict(Entries(fields, |fields|)))
  }

  /** The translation as one object: numbers become boxed objects of the tagged class. */
  function Boxed(j: JsonTree): Object
    decreases j, 2
  {
    match Translate(j)
    case Number(d) => Num(TagOf(j), d)
    case Pointer(o) => o
  }

  function Elements(items: seq<JsonTree>, n: nat): seq<Slot>
    requires n <= |items|
    decreases items, 0, n
  {
    if n == 0 then [] else Elements(items, n - 1) + [Ref(Boxed(items[n - 1]))]
  }

  function Entries(fields: seq<Field>, n: nat): map<Text, Object>
    requires n <= |fields|
    decreases fields, 0, n
  {
    if n == 0 then map[] else Entries(fields, n - 1)[fields[n - 1].key := Boxed(fields[n - 1].value)]
  }

  /** An array is translated element by element. */
  lemma {:induction false} ElementAt(items: seq<JsonTree>, n: nat, i: nat)
    requires i < n <= |items|
    ensures |Elements(items, n)| == n && Elements(items, n)[i] == Ref(Boxed(items[i]))
    decreases n
  {
    if n > 1 {
      ElementAt(items, n - 1, if i < n - 1 then i else 0);
    }
  }

  /** Field `i` is the last one with its key among the first `n`. */
  predicate LastOfKey(fields: seq<Field>, n: nat, i: nat)
    requires i < n <= |fields|
  {
    forall k :: i < k < n ==> fields[k].key != fields[i].key
  }

  /** The map holds exactly the last field of each key: it holds each of them, ... */
  lemma {:induction false} LastFieldFound(fields: seq<Field>, n: nat, i: nat)
    requires i < n <= |fields| && LastOfKey(fields, n, i)
    ensures var key := fields[i].key;
            key in Entries(fields, n) && Entries(fields, n)[key] == Boxed(fields[i].value)
    decreases n
  {
    if i < n - 1 {
      LastFieldFound(fields, n - 1, i);
    }
  }

  lemma {:induction false} KeyOrigin(fields: seq<Field>, n: nat, key: Text) returns (i: nat)
    requires n <= |fields| && key in Entries(fields, n)
    ensures i < n && LastOfKey(fields, n, i) && fields[i].key == key
    decreases n
  {
    i := n - 1;
    if fields[n - 1].key != key {
      i := KeyOrigin(fields, n - 1, key);
    }
  }

  /** ... and nothing else. */
  lemma EntryOrigin(fields: seq<Field>, n: nat, key: Text) returns (i: nat)
    requires n <= |fields| && key in Entries(fields, n)
    ensures i < n && LastOfKey(fields, n, i)
    ensures fields[i].key == key && Entries(fields, n)[key] == Boxed(fields[i].value)
  {
    i := KeyOrigin(fields, n, key);
    LastFieldFound(fields, n, i);
  }

  // ---------------------------------------------------------------------------
  // Which slots are used

  function Max(x: nat, y: nat): (r: nat)
    ensures r >= x && r >= y && (r == x || r == y)
  {
    if x >= y then x else y
  }

  /** The last slot used relative to the first, when storing into a map uses `pad` slots more. */
  function Extent(j: JsonTree, pad: nat): nat
    decreases j, 1
  {
    match j
    case JArray(items) => if items == [] then 0 else 1 + ExtentOfItems(items, |items|, pad)
    case JObject(fields) => if fields == [] then 0 else Max(pad, 1 + ExtentOfFields(fields, |fields|, pad))
    case _ => 0
  }

  function ExtentOfItems(items: seq<JsonTree>, n: nat, pad: nat): nat
    requires n <= |items|
    decreases items, 0, n
  {
    if n == 0 then 0 else Max(ExtentOfItems(items, n - 1, pad), Extent(items[n - 1], pad))
  }

  function ExtentOfFields(fields: seq<Field>, n: nat, pad: nat): nat
    requires n <= |fields|
    decreases fields, 0, n
  {
    if n == 0 then 0 else Max(ExtentOfFields(fields, n - 1, pad), Extent(fields[n - 1].value, pad))
  }

  /** Nesting depth: scalars and empty containers have depth 0. */
  function Depth(j: JsonTree): nat {
    Extent(j, 0)
  }

  /** `knh_DataMap_set` passes key and value in the two slots from esp, which is sfp + 2. */
  function Reach(j: JsonTree): nat {
    Extent(j, 3)
  }

  /** A non-empty object occurs `k` levels down. */
  predicate ObjectAt(j: JsonTree, k: nat)
    decreases j
  {
    match j
    case JArray(items) => k > 0 && exists i :: 0 <= i < |items| && ObjectAt(items[i], k - 1)
    case JObject(fields) =>
      fields != [] && (k == 0 || exists i :: 0 <= i < |fields| && ObjectAt(fields[i].value, k - 1))
    case _ => false
  }

  lemma {:induction false} ExtentOfItemsIff(items: seq<JsonTree>, n: nat, pad: nat, m: int)
    requires n <= |items|
    ensures ExtentOfItems(items, n, pad) <= m <==> m >= 0 && forall i :: 0 <= i < n ==> Extent(items[i], pad) <= m
    decreases n
  {
    if n > 0 {
      ExtentOfItemsIff(items, n - 1, pad, m);
    }
  }

  lemma {:induction false} ExtentOfFieldsIff(fields: seq<Field>, n: nat, pad: nat, m: int)
    requires n <= |fields|
    ensures ExtentOfFields(fields, n, pad) <= m <==> m >= 0 && forall i :: 0 <= i < n ==> Extent(fields[i].value, pad) <= m
    decreases n
  {
    if n > 0 {
      ExtentOfFieldsIff(fields, n - 1, pad, m);
    }
  }

  /** What the reader of an array needs to know about its reach. */
  lemma ItemsWithin(items: seq<JsonTree>)
    ensures Reach(JArray(items)) == if items == [] then 0 else 1 + ExtentOfItems(items, |items|, 3)
    ensures forall i :: 0 <= i < |items| ==> 1 + Reach(items[i]) <= Reach(JArray(items))
  {
    ExtentOfItemsIff(items, |items|, 3, Reach(JArray(items)) - 1);
  }

  lemma FieldsWithin(fields: seq<Field>)
    ensures Reach(JObject(fields)) == if fields == [] then 0 else Max(3, 1 + ExtentOfFields(fields, |fields|, 3))
    ensures forall i :: 0 <= i < |fields| ==> 1 + Reach(fields[i].value) <= Reach(JObject(fields))
  {
    ExtentOfFieldsIff(fields, |fields|, 3, Reach(JObject(fields)) - 1);
  }

  /** How far reading the first `n` elements reaches. */
  function ItemsReach(items: seq<JsonTree>, n: nat): nat
    requires n <= |items|
  {
    if n == 0 then 0 else 1 + ExtentOfItems(items, n, 3)
  }

  lemma {:induction false} OneMoreItem(items: seq<JsonTree>, n: nat)
    requires n < |items|
    ensures ItemsReach(items, n + 1) == Max(ItemsReach(items, n), 1 + Reach(items[n]))
    ensures Elements(items, n + 1) == Elements(items, n) + [Ref(Boxed(items[n]))]
  {
    assert ExtentOfItems(items, n + 1, 3) == Max(ExtentOfItems(items, n, 3), Extent(items[n], 3));
  }

  /** How far reading the first `n` fields reaches. */
  function FieldsReach(fields: seq<Field>, n: nat): nat
    requires n <= |fields|
  {
    if n == 0 then 0 else Max(3, 1 + ExtentOfFields(fields, n, 3))
  }

  lemma {:induction false} OneMoreField(fields: seq<Field>, n: nat)
    requires n < |fields|
    ensures FieldsReach(fields, n + 1) == Max(FieldsReach(fields, n), Max(3, 1 + Reach(fields[n].value)))
    ensures Entries(fields, n + 1) == Entries(fields, n)[fields[n].key := Boxed(fields[n].value)]
  {
    assert ExtentOfFields(fields, n + 1, 3) == Max(ExtentOfFields(fields, n, 3), Extent(fields[n].value, 3));
  }

  lemma {:induction false} WidestItem(items: seq<JsonTree>, n: nat, pad: nat) returns (i: nat)
    requires 0 < n <= |items|
    ensures i < n && ExtentOfItems(items, n, pad) == Extent(items[i], pad)
    decreases n
  {
    i := n - 1;
    if n > 1 && Extent(items[i], pad) < ExtentOfItems(items, n, pad) {
      i := WidestItem(items, n - 1, pad);
    }
  }

  lemma {:induction false} WidestField(fields: seq<Field>, n: nat, pad: nat) returns (i: nat)
    requires 0 < n <= |fields|
    ensures i < n && ExtentOfFields(fields, n, pad) == Extent(fields[i].value, pad)
    decreases n
  {
    i := n - 1;
    if n > 1 && Extent(fields[i].value, pad) < ExtentOfFields(fields, n, pad) {
      i := WidestField(fields, n - 1, pad);
    }
  }

  /** A non-empty object reaches three slots past its own. */
  lemma {:induction false} ObjectReaches(j: JsonTree, k: nat)
    requires ObjectAt(j, k)
    ensures k + 3 <= Reach(j)
    decreases j
  {
    match j {
      case JArray(items) =>
        var i :| 0 <= i < |items| && ObjectAt(items[i], k - 1);
        ObjectReaches(items[i], k - 1);
        ExtentOfItemsIff(items, |items|, 3, ExtentOfItems(items, |items|, 3));
      case JObject(fields) =>
        if k > 0 {
          var i :| 0 <= i < |fields| && ObjectAt(fields[i].value, k - 1);
          ObjectReaches(fields[i].value, k - 1);
          ExtentOfFieldsIff(fields, |fields|, 3, ExtentOfFields(fields, |fields|, 3));
        }
    }
  }

  /** Nothing else makes the reader go deeper than the nesting. */
  lemma {:induction false} ReachReason(j: JsonTree) returns (k: nat)
    ensures Reach(j) <= Depth(j) || (ObjectAt(j, k) && Reach(j) == k + 3)
    decreases j
  {
    k := 0;
    match j {
      case JArray(items) =>
        if items != [] {
          var i := WidestItem(items, |items|, 3);
          k := ReachReason(items[i]);
          ExtentOfItemsIff(items, |items|, 0, ExtentOfItems(items, |items|, 0));
          k := k + 1;
        }
      case JObject(fields) =>
        if fields != [] && Reach(j) > 3 {
          var i := WidestField(fields, |fields|, 3);
          k := ReachReason(fields[i].value);
          ExtentOfFieldsIff(fields, |fields|, 0, ExtentOfFields(fields, |fields|, 0));
          k := k + 1;
        }
      case _ =>
    }
  }

  /** The nesting depth bounds the slots used exactly when no non-empty object lies within
      two levels of the bottom. */
  lemma DepthBoundsIff(j: JsonTree)
    ensures Reach(j) <= Depth(j) <==> forall k: nat :: ObjectAt(j, k) ==> k + 3 <= Depth(j)
  {
    if Reach(j) <= Depth(j) {
      forall k: nat | ObjectAt(j, k)
        ensures k + 3 <= Depth(j)
      {
        ObjectReaches(j, k);
      }
    } else {
      var k := ReachReason(j);
    }
  }

  /** An object of one number is nested one deep and yet reaches three slots on. */
  lemma ObjectExceedsDepth(key: Text, i: int)
    ensures var j := JObject([Field(key, JInt(i))]); Depth(j) == 1 && Reach(j) == 3
  {
    var fields := [Field(key, JInt(i))];
    assert ExtentOfFields(fields, 1, 0) == Max(ExtentOfFields(fields, 0, 0), Extent(fields[0].value, 0)) == 0;
    assert ExtentOfFields(fields, 1, 3) == Max(ExtentOfFields(fields, 0, 3), Extent(fields[0].value, 3)) == 0;
  }

  // ---------------------------------------------------------------------------
  // The reader

  function Placed(c: Content, w: Word): Word {
    match c
    case Number(d) => w.(ndata := d)
    case Pointer(o) => w.(o := o)
  }

  /** Where a scalar is found after reading it. */
  predicate ScalarRead(j: JsonTree, w: Word) {
    match j
    case JNull => w.o == Null
    case JBool(b) => w.ndata == I(b)
    case JInt(i) => w.ndata == I(i)
    case JDouble(x) => w.ndata == F(x)
    case JString(s) => w.o.Str? && w.o.s <= s && 0 !in w.o.s && (|w.o.s| < |s| ==> s[|w.o.s|] == 0)
    case _ => true
  }

  /** The part of the VM context that is read into. */
  class Context {
    const stack: array<Word>
    var esp: nat
    ghost var high: nat   // the highest slot written so far

    constructor (stack: array<Word>, esp: nat)
      ensures this.stack == stack && this.esp == esp && high == 0
    {
      this.stack, this.esp, high := stack, esp, 0;
    }

    /** `KNH_SETv(ctx, sfp[i].o, o)`. */
    method SetO(i: nat, o: Object)
      requires i < stack.Length
      modifies stack, `high
      ensures stack[..] == old(stack[..])[i := old(stack[i]).(o := o)] && high == Max(old(high), i)
    {
      stack[i] := stack[i].(o := o);
      high := Max(high, i);
    }

    /** `sfp[i].ndata = d`. */
    method SetN(i: nat, d: Unbox)
      requires i < stack.Length
      modifies stack, `high
      ensures stack[..] == old(stack[..])[i := old(stack[i]).(ndata := d)] && high == Max(old(high), i)
    {
      stack[i] := stack[i].(ndata := d);
      high := Max(high, i);
    }

    /** `knh_boxing`. */
    method Boxing(i: nat, t: Class)
      requires i < stack.Length
      modifies stack, `high
      ensures high == if IsUnboxClass(t) then Max(old(high), i) else old(high)
      ensures stack[..] == if IsUnboxClass(t) then old(stack[..])[i := old(stack[i]).(o := Num(t, old(stack[i]).ndata))]
                           else old(stack[..])
    {
      if IsUnboxClass(t) {
        SetO(i, Num(t, stack[i].ndata));
      }
    }

    /** `knh_DataMap_set`: the new map; key and value travel through the slots at esp. */
    method DataMapSet(m: map<Text, Object>, key: Text, value: Object) returns (updated: map<Text, Object>)
      requires esp + 1 < stack.Length
      modifies stack, `high
      ensures updated == m[key := value] && high == Max(old(high), esp + 1)
      ensures stack[esp].o == Str(key) && stack[esp + 1].o == value
      ensures forall i :: 0 <= i < stack.Length && i != esp && i != esp + 1 ==> stack[i] == old(stack[i])
    {
      SetO(esp, Str(key));
      SetO(esp + 1, value);
      updated := m[key := value];
    }

    /** `json_read(ctx, json, sfp)`: a value and the matching tag; nothing below `sfp` and
        nothing beyond the reach of `j` changes, and the slot at that reach is written. */
    method JsonRead(j: JsonTree, sfp: nat) returns (t: Class)
      requires sfp + Reach(j) < stack.Length
      modifies `esp, `high, stack
      ensures t == TagOf(j) == (if j.JNull? then Dynamic else ClassOf(Boxed(j)))
      ensures IsUnboxClass(t) <==> Translate(j).Number?
      ensures high == Max(old(high), sfp + Reach(j))
      ensures stack[sfp] == Placed(Translate(j), old(stack[sfp])) && ScalarRead(j, stack[sfp])
      ensures forall i :: 0 <= i < stack.Length && !(sfp <= i <= sfp + Reach(j)) ==> stack[i] == old(stack[i])
      ensures j.JObject? && j.fields != [] ==> stack[sfp + 3].o == Boxed(j.fields[|j.fields| - 1].value)
      decreases j, 0
    {
      match j
      case JNull =>
        SetO(sfp, Null);
        t := Dynamic;
      case JBool(b) =>
        SetN(sfp, I(b));
        t := Boolean;
      case JInt(n) =>
        SetN(sfp, I(n));
        t := Int;
      case JDouble(x) =>
        SetN(sfp, F(x));
        t := Float;
      case JString(s) =>
        SetO(sfp, Str(CutAtNul(s)));
        t := String;
      case JArray(items) =>
        ItemsWithin(items);
        ReadItems(items, sfp, Reach(j));
        t := Array;
      case JObject(fields) =>
        FieldsWithin(fields);
        ReadFields(fields, sfp, Reach(j));
        t := Map;
    }

    /** Reading from scratch, as `json_unpackTo` does: the highest slot written stays within the
        nesting depth exactly when no non-empty object lies within two levels of the bottom. */
    method Unpack(j: JsonTree, sfp: nat) returns (t: Class)
      requires sfp + Reach(j) < stack.Length
      modifies `esp, `high, stack
      ensures stack[sfp] == Placed(Translate(j), old(stack[sfp])) && t == TagOf(j)
      ensures forall i :: 0 <= i < stack.Length && (i < sfp || high < i) ==> stack[i] == old(stack[i])
      ensures high <= sfp + Depth(j) <==> forall k: nat :: ObjectAt(j, k) ==> k + 3 <= Depth(j)
    {
      high := sfp;
      t := JsonRead(j, sfp);
      DepthBoundsIff(j);
    }

    /** One element: read and boxed. */
    method ReadBoxed(j: JsonTree, sfp: nat)
      requires sfp + Reach(j) < stack.Length
      modifies `esp, `high, stack
      ensures stack[sfp].o == Boxed(j) && high == Max(old(high), sfp + Reach(j))
      ensures forall i :: 0 <= i < stack.Length && !(sfp <= i <= sfp + Reach(j)) ==> stack[i] == old(stack[i])
      decreases j, 1
    {
      var tag := JsonRead(j, sfp);
      Boxing(sfp, tag);
    }

    /** The loop over the elements of an array. */
    method ReadItems(items: seq<JsonTree>, sfp: nat, ghost reach: nat)
      requires sfp + reach < stack.Length
      requires forall i :: 0 <= i < |items| ==> 1 + Reach(items[i]) <= reach
      modifies `esp, `high, stack
      ensures high == Max(old(high), sfp + if items == [] then 0 else 1 + ExtentOfItems(items, |items|, 3))
      ensures stack[sfp] == old(stack[sfp]).(o := Arr(ArrayClass(Dynamic), Elements(items, |items|)))
      ensures forall i :: 0 <= i < stack.Length && !(sfp <= i <= sfp + reach) ==> stack[i] == old(stack[i])
      decreases items
    {
      SetO(sfp, Arr(ArrayClass(Dynamic), []));
      for i := 0 to |items|
        invariant high == Max(old(high), sfp + ItemsReach(items, i))
        invariant stack[sfp] == old(stack[sfp]).(o := Arr(ArrayClass(Dynamic), Elements(items, i)))
        invariant forall k :: 0 <= k < stack.Length && !(sfp <= k <= sfp + reach) ==> stack[k] == old(stack[k])
      {
        OneMoreItem(items, i);
        ReadBoxed(items[i], sfp + 1);
        SetO(sfp, Arr(ArrayClass(Dynamic), stack[sfp].o.list + [Ref(stack[sfp + 1].o)]));
      }
    }

    /** One field, set in the map in `sfp[0]`. */
    method ReadField(f: Field, sfp: nat, ghost m: map<Text, Object>, ghost reach: nat)
      requires sfp + reach < stack.Length && 3 <= reach && 1 + Reach(f.value) <= reach
      requires stack[sfp].o == Dict(m)
      modifies `esp, `high, stack
      ensures stack[sfp] == old(stack[sfp]).(o := Dict(m[f.key := Boxed(f.value)]))
      ensures forall i :: 0 <= i < stack.Length && !(sfp <= i <= sfp + reach) ==> stack[i] == old(stack[i])
      ensures high == Max(old(high), sfp + Max(3, 1 + Reach(f.value)))
      ensures esp == sfp + 2 && stack[sfp + 3].o == Boxed(f.value)
      decreases f, 0
    {
      ReadBoxed(f.value, sfp + 1);
      esp := sfp + 2;
      var updated := DataMapSet(stack[sfp].o.entries, f.key, stack[sfp + 1].o);
      SetO(sfp, Dict(updated));
    }

    /** The loop over the fields of an object. */
    method ReadFields(fields: seq<Field>, sfp: nat, ghost reach: nat)
      requires sfp + reach < stack.Length && (fields != [] ==> 3 <= reach)
      requires forall i :: 0 <= i < |fields| ==> 1 + Reach(fields[i].value) <= reach
      modifies `esp, `high, stack
      ensures high == Max(old(high), sfp + if fields == [] then 0 else Max(3, 1 + ExtentOfFields(fields, |fields|, 3)))
      ensures stack[sfp] == old(stack[sfp]).(o := Dict(Entries(fields, |fields|)))
      ensures forall i :: 0 <= i < stack.Length && !(sfp <= i <= sfp + reach) ==> stack[i] == old(stack[i])
      ensures esp == if fields == [] then old(esp) else sfp + 2
      ensures fields != [] ==> stack[sfp + 3].o == Boxed(fields[|fields| - 1].value)
      decreases fields
    {
      SetO(sfp, Dict(map[]));
      for i := 0 to |fields|
        invariant high == Max(old(high), sfp + FieldsReach(fields, i))
        invariant stack[sfp] == old(stack[sfp]).(o := Dict(Entries(fields, i)))
        invariant forall k :: 0 <= k < stack.Length && !(sfp <= k <= sfp + reach) ==> stack[k] == old(stack[k])
        invariant esp == if i == 0 then old(esp) else sfp + 2
        invariant i > 0 ==> stack[sfp + 3].o == Boxed(fields[i - 1].value)
      {
        OneMoreField(fields, i);
        ReadField(fields[i], sfp, Entries(fields, i), reach);
      }
    }
  }
}
