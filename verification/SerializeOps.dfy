/**
 * serialize and unserialize as they run (src/builtins.c:2679-2775, src/builtins.c:3594-3777):
 * the writer appends to a buffer, the reader builds values in loops.
 */
module SerializeOps {
  import opened Common
  import opened Shapes
  import opened Utf8
  import opened Numerals
  import opened JsonString
  import opened JsonText
  import opened JsonRoundTrip
  import opened JsonOps
  import opened Serialize
  import opened SerializeRoundTrip

  // ----- writing -----

  /** json_obj_field */
  method Field(jb: JsonBuf, first: bool, key: string)
    requires IsAscii(key)
    modifies jb
    ensures Quoted(key).Some? && jb.data == old(jb.data) + FieldText(first, key)
  {
    hide Escape, Received;
    AsciiReceived(key);
    if !first {
      jb.Append(",");
    }
    jb.AppendJsonString(key);
    jb.Append(":");
  }

  function FieldText(first: bool, key: string): string {
    if Quoted(key).None? then "" else (if first then "" else ",") + Quoted(key).value + ":"
  }

  /** The opening of every value's object, with its tag. */
  method Tag(jb: JsonBuf, tag: string)
    requires IsAscii(tag)
    modifies jb
    ensures Quoted(tag).Some? && jb.data == old(jb.data) + ("{" + FieldText(true, "t") + Quoted(tag).value)
  {
    hide Escape, Received;
    AsciiReceived(tag);
    jb.Append("{");
    Field(jb, true, "t");
    jb.AppendJsonString(tag);
  }

  lemma TwoFields(k: string, x: string, l: string, y: string)
    ensures "{" + (k + ":" + x + "," + (l + ":" + y)) + "}" == "{" + ("" + k + ":") + x + ("," + l + ":") + y + "}"
  {
  }

  lemma ThreeFields(k: string, x: string, l: string, y: string, m: string, z: string)
    ensures "{" + (k + ":" + x + "," + (l + ":" + y + "," + (m + ":" + z))) + "}"
         == "{" + ("" + k + ":") + x + ("," + l + ":") + y + ("," + m + ":") + z + "}"
  {
  }

  lemma PairsOfTwo(p: Pair, q: Pair)
    requires Print(JObj([p, q])).Some?
    ensures Quoted(p.key).Some? && Quoted(q.key).Some? && Print(p.value).Some? && Print(q.value).Some?
    ensures Print(JObj([p, q])).value ==
            "{" + FieldText(true, p.key) + Print(p.value).value + FieldText(false, q.key) + Print(q.value).value + "}"
  {
    hide Print, Quoted, PrintPairs;
    ObjectText([p, q]);
    assert [p, q][1..] == [q];
    FirstPairText([p, q]);
    FirstPairText([q]);
    TwoFields(Quoted(p.key).value, Print(p.value).value, Quoted(q.key).value, Print(q.value).value);
  }

  lemma ObjectText(pairs: seq<Pair>)
    ensures Print(JObj(pairs)) == Wrap("{", PrintPairs(pairs), "}")
  {
    hide PrintPairs;
  }

  lemma PairsOfThree(p: Pair, q: Pair, r: Pair)
    requires Print(JObj([p, q, r])).Some?
    ensures Quoted(p.key).Some? && Quoted(q.key).Some? && Quoted(r.key).Some?
    ensures Print(p.value).Some? && Print(q.value).Some? && Print(r.value).Some?
    ensures Print(JObj([p, q, r])).value ==
            "{" + FieldText(true, p.key) + Print(p.value).value + FieldText(false, q.key) + Print(q.value).value
            + FieldText(false, r.key) + Print(r.value).value + "}"
  {
    hide Print, Quoted, PrintPairs;
    ObjectText([p, q, r]);
    assert [p, q, r][1..] == [q, r] && [q, r][1..] == [r];
    FirstPairText([p, q, r]);
    FirstPairText([q, r]);
    FirstPairText([r]);
    ThreeFields(Quoted(p.key).value, Print(p.value).value, Quoted(q.key).value, Print(q.value).value,
                Quoted(r.key).value, Print(r.value).value);
  }

  /** What is left to write of a list once i of its elements are written. */
  function Remaining(items: seq<Json>, i: nat): Option<string>
    requires i <= |items|
  {
    if i == 0 then PrintItems(items)
    else if i == |items| then Some("")
    else
      var more := PrintItems(items[i..]);
      if more.None? then None else Some("," + more.value)
  }

  lemma RemainingStep(items: seq<Json>, i: nat)
    requires i < |items| && Remaining(items, i).Some?
    ensures Print(items[i]).Some? && Remaining(items, i + 1).Some?
    ensures Remaining(items, i).value ==
            (if i > 0 then "," else "") + Print(items[i]).value + Remaining(items, i + 1).value
  {
    hide Print, PrintItems;
    var here := items[i..];
    FirstItemText(here);
    assert items[0..] == items && here[1..] == items[i + 1..];
    if i + 1 < |items| {
      RegroupList(if i > 0 then "," else "", Print(items[i]).value, PrintItems(items[i + 1..]).value);
    } else {
      assert (if i > 0 then "," else "") + Print(items[i]).value + "" ==
             (if i > 0 then "," else "") + Print(items[i]).value;
    }
  }

  lemma RegroupList(comma: string, x: string, more: string)
    ensures comma + (x + "," + more) == comma + x + ("," + more)
  {
  }

  /** The loop over the dimensions. */
  method SerDims(jb: JsonBuf, shape: seq<nat>)
    requires forall k | 0 <= k < |shape| :: shape[k] < EXACT
    modifies jb
    ensures PrintItems(ToDims(shape)).Some? && jb.data == old(jb.data) + PrintItems(ToDims(shape)).value
  {
    hide Decimal, PrintItems, Remaining;
    DimsPrintable(shape);
    ghost var items := ToDims(shape);
    DimsAre(shape);
    ghost var written := "";
    WholeRemains(items);
    for i := 0 to |shape|
      invariant Remaining(items, i).Some? && jb.data == old(jb.data) + written
      invariant written + Remaining(items, i).value == PrintItems(items).value
    {
      RemainingStep(items, i);
      if i > 0 {
        jb.Append(",");
      }
      jb.Append(Decimal(shape[i]));
      written := written + ((if i > 0 then "," else "") + Decimal(shape[i]));
    }
    NothingRemains(items);
  }

  lemma WholeRemains(items: seq<Json>)
    ensures Remaining(items, 0) == PrintItems(items)
    ensures PrintItems(items).Some? ==> "" + Remaining(items, 0).value == PrintItems(items).value
  {
  }

  lemma NothingRemains(items: seq<Json>)
    ensures Remaining(items, |items|) == Some("")
  {
  }

  lemma {:induction false} DimsAre(shape: seq<nat>)
    ensures |ToDims(shape)| == |shape| && forall k | 0 <= k < |shape| :: ToDims(shape)[k] == JNum(shape[k] as real)
    ensures forall k | 0 <= k < |shape| :: Print(ToDims(shape)[k]) == Some(Decimal(shape[k]))
  {
    hide Decimal;
    if shape != [] {
      DimsAre(shape[1..]);
    }
  }

  lemma {:induction false} ItemsAre(data: seq<Data>)
    ensures |ToItems(data)| == |data| && forall k | 0 <= k < |data| :: ToItems(data)[k] == ToJson(data[k])
  {
    hide ToJson;
    if data != [] {
      ItemsAre(data[1..]);
    }
  }

  lemma {:induction false} EntriesAre(items: seq<Entry>)
    ensures |ToEntries(items)| == |items| && forall k | 0 <= k < |items| :: ToEntries(items)[k] == ToEntry(items[k])
  {
    hide ToEntry;
    if items != [] {
      EntriesAre(items[1..]);
    }
  }

  /** The loop over the elements of a tensor. */
  method SerItems(jb: JsonBuf, data: seq<Data>)
    requires forall k | 0 <= k < |data| :: Sound(data[k])
    requires PrintItems(ToItems(data)).Some?
    modifies jb
    ensures jb.data == old(jb.data) + PrintItems(ToItems(data)).value
    decreases data, 0
  {
    hide PrintItems, Remaining, Sound, ToJson, Print;
    ghost var items := ToItems(data);
    ItemsAre(data);
    ghost var written := "";
    WholeRemains(items);
    for i := 0 to |data|
      invariant Remaining(items, i).Some? && jb.data == old(jb.data) + written
      invariant written + Remaining(items, i).value == PrintItems(items).value
    {
      RemainingStep(items, i);
      if i > 0 {
        jb.Append(",");
      }
      SerValue(jb, data[i]);
      written := written + ((if i > 0 then "," else "") + Print(items[i]).value);
    }
    NothingRemains(items);
  }

  /** The loop over the entries of a map. */
  method SerEntries(jb: JsonBuf, entries: seq<Entry>)
    requires forall k | 0 <= k < |entries| :: Sound(entries[k].key) && Sound(entries[k].value)
    requires PrintItems(ToEntries(entries)).Some?
    modifies jb
    ensures jb.data == old(jb.data) + PrintItems(ToEntries(entries)).value
    decreases entries, 0
  {
    hide PrintItems, Remaining, Sound, ToEntry, Print;
    ghost var items := ToEntries(entries);
    EntriesAre(entries);
    ghost var written := "";
    WholeRemains(items);
    for i := 0 to |entries|
      invariant Remaining(items, i).Some? && jb.data == old(jb.data) + written
      invariant written + Remaining(items, i).value == PrintItems(items).value
    {
      RemainingStep(items, i);
      if i > 0 {
        jb.Append(",");
      }
      SerEntry(jb, entries[i]);
      written := written + ((if i > 0 then "," else "") + Print(items[i]).value);
    }
    NothingRemains(items);
  }

  method SerEntry(jb: JsonBuf, e: Entry)
    requires Sound(e.key) && Sound(e.value) && Print(ToEntry(e)).Some?
    modifies jb
    ensures jb.data == old(jb.data) + Print(ToEntry(e)).value
    decreases e
  {
    hide Sound, ToJson, Print, FieldText, Quoted;
    ghost var k, v := ToJson(e.key), ToJson(e.value);
    PairsOfTwo(Pair("k", k), Pair("v", v));
    jb.Append("{");
    Field(jb, true, "k");
    SerValue(jb, e.key);
    Field(jb, false, "v");
    SerValue(jb, e.value);
    jb.Append("}");
  }

  /** ser_value, where the writing of every string ends. */
  method SerValue(jb: JsonBuf, v: Data)
    requires Sound(v) && Print(ToJson(v)).Some?
    modifies jb
    ensures jb.data == old(jb.data) + Print(ToJson(v)).value
    decreases v
  {
    hide Print, FieldText, Quoted, PrintItems, IntText;
    match v {
      case DBool(b) =>
        PairsOfTwo(Pair("t", JStr("bool")), Pair("v", JBool(b)));
        LiteralText(b);
        StringText("bool");
        Tag(jb, "bool");
        Field(jb, false, "v");
        jb.Append(if b then "true" else "false");
        jb.Append("}");
      case DInt(i, base) =>
        var text := IntToBasePrefixedStr(i as int64, base);
        IntTextAscii(i, base);
        SerString(jb, "int", text);
      case DStr(s) => SerString(jb, "str", s);
      case DTensor(_, shape, data) => SerTensor(jb, shape, data);
      case DMap(items) => SerMap(jb, items);
    }
  }

  /** A value whose text is one string. */
  method SerString(jb: JsonBuf, tag: string, s: string)
    requires IsAscii(tag) && IsCString(s) && Print(Doc(tag, JStr(s))).Some?
    modifies jb
    ensures jb.data == old(jb.data) + Print(Doc(tag, JStr(s))).value
  {
    hide Print, FieldText, Quoted;
    PairsOfTwo(Pair("t", JStr(tag)), Pair("v", JStr(s)));
    StringText(tag);
    StringText(s);
    Tag(jb, tag);
    Field(jb, false, "v");
    AppendQuoted(jb, s);
    jb.Append("}");
  }

  method SerTensor(jb: JsonBuf, shape: seq<nat>, data: seq<Data>)
    requires forall k | 0 <= k < |shape| :: shape[k] < EXACT
    requires forall k | 0 <= k < |data| :: Sound(data[k])
    requires Print(TensorDoc(ToDims(shape), ToItems(data))).Some?
    modifies jb
    ensures jb.data == old(jb.data) + Print(TensorDoc(ToDims(shape), ToItems(data))).value
    decreases data, 1
  {
    hide Print, FieldText, Quoted, PrintItems, ToDims, ToItems, Sound;
    PairsOfThree(Pair("t", JStr("tensor")), Pair("shape", JArr(ToDims(shape))), Pair("v", JArr(ToItems(data))));
    StringText("tensor");
    ArrayText(ToItems(data));
    Tag(jb, "tensor");
    Field(jb, false, "shape");
    SerShape(jb, shape);
    Field(jb, false, "v");
    ghost var here := jb.data;
    jb.Append("[");
    SerItems(jb, data);
    jb.Append("]");
    assert jb.data == here + Print(JArr(ToItems(data))).value;
    jb.Append("}");
  }

  method SerShape(jb: JsonBuf, shape: seq<nat>)
    requires forall k | 0 <= k < |shape| :: shape[k] < EXACT
    modifies jb
    ensures Print(JArr(ToDims(shape))).Some? && jb.data == old(jb.data) + Print(JArr(ToDims(shape))).value
  {
    hide Print, PrintItems, ToDims;
    ArrayText(ToDims(shape));
    jb.Append("[");
    SerDims(jb, shape);
    jb.Append("]");
  }

  method SerMap(jb: JsonBuf, items: seq<Entry>)
    requires forall k | 0 <= k < |items| :: Sound(items[k].key) && Sound(items[k].value)
    requires Print(Doc("map", JArr(ToEntries(items)))).Some?
    modifies jb
    ensures jb.data == old(jb.data) + Print(Doc("map", JArr(ToEntries(items)))).value
    decreases items, 1
  {
    hide Print, FieldText, Quoted, PrintItems, ToEntries, Sound;
    PairsOfTwo(Pair("t", JStr("map")), Pair("v", JArr(ToEntries(items))));
    StringText("map");
    ArrayText(ToEntries(items));
    Tag(jb, "map");
    Field(jb, false, "v");
    ghost var here := jb.data;
    jb.Append("[");
    SerEntries(jb, items);
    jb.Append("]");
    assert jb.data == here + Print(JArr(ToEntries(items))).value;
    jb.Append("}");
  }

  method AppendQuoted(jb: JsonBuf, s: string)
    requires IsCString(s) && Quoted(s).Some?
    modifies jb
    ensures jb.data == old(jb.data) + Quoted(s).value
  {
    hide Escape;
    jb.AppendJsonString(s);
  }

  lemma LiteralText(b: bool)
    ensures Print(JBool(b)) == Some(if b then "true" else "false")
  {
  }

  lemma StringText(s: string)
    ensures Print(JStr(s)) == Quoted(s)
  {
  }

  lemma ArrayText(items: seq<Json>)
    ensures Print(JArr(items)) == Wrap("[", PrintItems(items), "]")
  {
    hide PrintItems;
  }

  // ----- reading -----

  /** json_obj_get */
  method ObjGet(pairs: seq<Pair>, key: string) returns (v: Option<Json>)
    ensures v == Get(pairs, key)
  {
    var i := 0;
    assert pairs[0..] == pairs;
    while i < |pairs|
      invariant i <= |pairs| && Get(pairs, key) == Get(pairs[i..], key)
    {
      assert pairs[i..][1..] == pairs[i + 1..];
      if pairs[i].key == key {
        return Some(pairs[i].value);
      }
      i := i + 1;
    }
    return None;
  }

  /** What was read, and what the rest adds. */
  ghost function Onto<T>(done: seq<T>, more: Option<seq<T>>): Option<seq<T>> {
    if more.None? then None else Some(done + more.value)
  }

  lemma OntoNothing<T>(more: Option<seq<T>>)
    ensures Onto([], more) == more
  {
    if more.Some? {
      assert [] + more.value == more.value;
    }
  }

  lemma OntoMore<T>(done: seq<T>, x: T, more: Option<seq<T>>)
    ensures Onto(done, Onto([x], more)) == Onto(done + [x], more)
  {
    if more.Some? {
      assert done + ([x] + more.value) == done + [x] + more.value;
    }
  }

  /** The loops over the shape: every dimension a positive number, and a product that fits. */
  method ReadDims(items: seq<Json>) returns (shape: Option<seq<nat>>, total: nat)
    ensures shape == Dims(items, 1)
    ensures shape.Some? ==> total == Product(shape.value)
  {
    hide Dim, Product;
    total := 1;
    var dims: seq<nat> := [];
    var i := 0;
    OntoNothing(Dims(items, 1));
    ProductOfNone();
    assert items[0..] == items;
    while i < |items|
      invariant i <= |items| && total == Product(dims)
      invariant Dims(items, 1) == Onto(dims, Dims(items[i..], total))
    {
      assert items[i..][1..] == items[i + 1..];
      var d := Dim(items[i]);
      if d.None? {
        return None, 0;
      }
      DimPositive(items[i]);
      SizeCheck(total, d.value);
      if total > SIZE_MAX / d.value {
        return None, 0;
      }
      OntoMore(dims, d.value, Dims(items[i + 1..], total * d.value));
      ProductPush(dims, d.value);
      dims := dims + [d.value];
      total := total * d.value;
      i := i + 1;
    }
    assert dims + [] == dims;
    return Some(dims), total;
  }

  lemma DimPositive(j: Json)
    ensures Dim(j).Some? ==> Dim(j).value > 0
  {
  }

  lemma SizeCheck(total: nat, d: nat)
    requires d > 0
    ensures total > SIZE_MAX / d <==> total * d > SIZE_MAX
  {
    var q, r := SIZE_MAX / d, SIZE_MAX % d;
    assert SIZE_MAX == q * d + r && 0 <= r < d;
    if total > q {
      assert total * d >= (q + 1) * d;
    } else {
      assert total * d <= q * d;
    }
  }

  lemma ProductOfNone()
    ensures Product([]) == 1
  {
  }

  lemma {:induction false} ProductPush(shape: seq<nat>, d: nat)
    ensures Product(shape + [d]) == Product(shape) * d
  {
    if shape != [] {
      ProductPush(shape[1..], d);
      assert (shape + [d])[1..] == shape[1..] + [d];
      Associate(shape[0], Product(shape[1..]), d);
    } else {
      assert (shape + [d])[1..] == [];
    }
  }

  /** The loop over the elements, which also finds the element type. */
  method DeserList(items: seq<Json>) returns (data: Option<seq<Data>>, elem: DeclType)
    ensures data == DeserItems(items)
    ensures data.Some? ==> elem == CommonType(data.value)
    decreases items, 0
  {
    hide Deser, TypeOf, CommonType;
    elem := TUnknown;
    var done: seq<Data> := [];
    var i := 0;
    OntoNothing(DeserItems(items));
    NoCommonType();
    assert items[0..] == items;
    while i < |items|
      invariant i <= |items| && |done| == i && elem == CommonType(done)
      invariant DeserItems(items) == Onto(done, DeserItems(items[i..]))
    {
      assert items[i..][1..] == items[i + 1..];
      var item := DeserVal(items[i]);
      if item.None? {
        return None, TUnknown;
      }
      var dt := TypeOf(item.value);
      CommonTypePush(done, item.value);
      if i == 0 {
        elem := dt;
      } else if elem != dt {
        elem := TUnknown;
      }
      OntoMore(done, item.value, DeserItems(items[i + 1..]));
      done := done + [item.value];
      i := i + 1;
    }
    assert done + [] == done;
    return Some(done), elem;
  }

  lemma NoCommonType()
    ensures CommonType([]) == TUnknown
  {
  }

  lemma CommonTypePush(data: seq<Data>, v: Data)
    ensures CommonType(data + [v]) ==
            if data == [] || CommonType(data) == TypeOf(v) then TypeOf(v) else TUnknown
  {
    assert (data + [v])[..|data|] == data;
  }

  /** The loop over the pairs of a map. */
  method DeserPairs(items: seq<Json>) returns (entries: Option<seq<Entry>>)
    ensures entries == DeserEntries(items, [])
    decreases items, 0
  {
    hide Deser, Get, MapSet, IsKey;
    var acc: seq<Entry> := [];
    var i := 0;
    assert items[0..] == items;
    while i < |items|
      invariant i <= |items|
      invariant DeserEntries(items, []) == DeserEntries(items[i..], acc)
    {
      assert items[i..][1..] == items[i + 1..];
      if items[i].JObj? {
        assert items[i] == items[i..][0];
        var key, value := DeserPair(items[i]);
        if key.None? || value.None? {
          return None;
        }
        acc := MapSet(acc, key.value, value.value);
      }
      i := i + 1;
    }
    return Some(acc);
  }

  method DeserPair(j: Json) returns (key: Option<Data>, value: Option<Data>)
    requires j.JObj?
    ensures var k, v := Get(j.pairs, "k"), Get(j.pairs, "v");
            && key == (if k.None? || Deser(k.value).None? || !IsKey(Deser(k.value).value) then None else Deser(k.value))
            && value == if key.None? || v.None? then None else Deser(v.value)
    decreases j, 0
  {
    hide Deser, Get;
    value := None;
    var k := ObjGet(j.pairs, "k");
    if k.None? {
      return None, None;
    }
    GetSmaller(j.pairs, "k");
    key := DeserVal(k.value);
    if key.None? || !IsKey(key.value) {
      return None, None;
    }
    var v := ObjGet(j.pairs, "v");
    if v.Some? {
      GetSmaller(j.pairs, "v");
      value := DeserVal(v.value);
    }
  }

  /** deser_val */
  method DeserVal(j: Json) returns (v: Option<Data>)
    ensures v == Deser(j)
    decreases j, 1
  {
    hide Get, DeserItems, DeserEntries, CommonType, Dims, Product, ReadInt, ReadBool;
    if !j.JObj? {
      return None;
    }
    var t := ObjGet(j.pairs, "t");
    if t.None? || !t.value.JStr? {
      return None;
    }
    var tag := t.value.s;
    var val := ObjGet(j.pairs, "v");
    if tag == "int" {
      v := DeserInt(val);
    } else if tag == "bool" {
      return ReadBool(val);
    } else if tag == "str" {
      return Some(DStr(if val.Some? && val.value.JStr? then val.value.s else ""));
    } else if tag == "tensor" {
      var shape := ObjGet(j.pairs, "shape");
      if shape.None? || !shape.value.JArr? || val.None? || !val.value.JArr? || shape.value.items == [] {
        return None;
      }
      GetSmaller(j.pairs, "v");
      var dims, total := ReadDims(shape.value.items);
      if dims.None? || total != |val.value.items| {
        return None;
      }
      var data, elem := DeserList(val.value.items);
      return if data.None? then None else Some(DTensor(elem, dims.value, data.value));
    } else if tag == "map" {
      if val.None? || !val.value.JArr? {
        return None;
      }
      GetSmaller(j.pairs, "v");
      var entries := DeserPairs(val.value.items);
      return if entries.None? then None else Some(DMap(entries.value));
    } else {
      return None;
    }
  }

  method DeserInt(v: Option<Json>) returns (r: Option<Data>)
    ensures r == ReadInt(v)
  {
    hide ParseInt;
    var s := if v.Some? && v.value.JStr? then v.value.s else "0";
    var ok, val, base := ParsePrefixedIntString(s);
    return if ok then Some(DInt(val as int, base)) else None;
  }

  // ----- the two builtins -----

  /** serialize, where the writing of every string ends. */
  method BuiltinSer(v: Data) returns (text: string)
    requires Sound(v) && Serialized(v).Some?
    ensures text == Serialized(v).value
  {
    hide Print, ToJson, Sound;
    var jb := new JsonBuf();
    SerValue(jb, v);
    return jb.data;
  }

  /** unserialize */
  method BuiltinUnser(strtod: Strtod, text: string) returns (v: Option<Data>)
    ensures v == Unserialized(strtod, text)
  {
    hide Parse, Deser;
    var root := ParseText(strtod, text);
    if root.None? {
      return None;
    }
    v := DeserVal(root.value);
  }

  /** The element type read back is a type all elements have, or unknown if they have none in common. */
  lemma {:induction false} CommonTypeIs(data: seq<Data>, t: DeclType)
    requires data != [] && t != TUnknown
    ensures CommonType(data) == t <==> forall k | 0 <= k < |data| :: TypeOf(data[k]) == t
  {
    hide TypeOf;
    if |data| > 1 {
      CommonTypeIs(data[..|data| - 1], t);
      assert data == data[..|data| - 1] + [data[|data| - 1]];
    }
  }
}
