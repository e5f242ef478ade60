/**
 * serialize and unserialize of data (src/builtins.c:2679-2775, src/builtins.c:3594-3777):
 * booleans, integers, strings, tensors and maps, through the JSON text.
 */
module Serialize {
  import opened Common
  import opened Shapes
  import opened Utf8
  import opened Numerals
  import opened JsonText

  datatype DeclType = TBool | TInt | TStr | TTensor | TMap | TUnknown

  datatype Data =
    | DBool(b: bool)
    | DInt(i: int, base: Base)
    | DStr(s: string)
    | DTensor(elem: DeclType, shape: seq<nat>, data: seq<Data>)
    | DMap(items: seq<Entry>)

  datatype Entry = Entry(key: Data, value: Data)

  /** map_key_equals (src/value.c:461-478): the base of an integer does not matter. */
  predicate SameKey(a: Data, b: Data) {
    match (a, b)
    case (DInt(i, _), DInt(j, _)) => i == j
    case (DStr(s), DStr(t)) => s == t
    case _ => false
  }

  /** What holds of every value in memory: lengths that fit, shapes that count the data, distinct keys. */
  predicate Sound(v: Data)
    decreases v
  {
    match v
    case DBool(_) => true
    case DInt(i, _) => INT64_MIN <= i <= INT64_MAX
    case DStr(s) => IsCString(s)
    case DTensor(_, shape, data) =>
      && (forall k | 0 <= k < |shape| :: shape[k] < EXACT)
      && Product(shape) == |data| < EXACT
      && forall k | 0 <= k < |data| :: Sound(data[k])
    case DMap(items) =>
      && (forall k | 0 <= k < |items| :: Sound(items[k].key) && Sound(items[k].value))
      && forall k, l | 0 <= k < l < |items| :: !SameKey(items[k].key, items[l].key)
  }

  // ----- writing -----

  /** ser_value, as the JSON value whose text it writes. */
  function ToJson(v: Data): Json
    decreases v
  {
    match v
    case DBool(b) => JObj([Pair("t", JStr("bool")), Pair("v", JBool(b))])
    case DInt(i, base) => JObj([Pair("t", JStr("int")), Pair("v", JStr(IntText(i, base)))])
    case DStr(s) => JObj([Pair("t", JStr("str")), Pair("v", JStr(s))])
    case DTensor(_, shape, data) =>
      JObj([Pair("t", JStr("tensor")), Pair("shape", JArr(ToDims(shape))), Pair("v", JArr(ToItems(data)))])
    case DMap(items) => JObj([Pair("t", JStr("map")), Pair("v", JArr(ToEntries(items)))])
  }

  function ToDims(shape: seq<nat>): seq<Json> {
    if shape == [] then [] else [JNum(shape[0] as real)] + ToDims(shape[1..])
  }

  function ToItems(data: seq<Data>): (r: seq<Json>)
    ensures |r| == |data|
    decreases data
  {
    if data == [] then [] else [ToJson(data[0])] + ToItems(data[1..])
  }

  function ToEntries(items: seq<Entry>): seq<Json>
    decreases items
  {
    if items == [] then [] else [ToEntry(items[0])] + ToEntries(items[1..])
  }

  function ToEntry(e: Entry): Json
    decreases e
  {
    JObj([Pair("k", ToJson(e.key)), Pair("v", ToJson(e.value))])
  }

  /** The text; none if the writer never ends. */
  function Serialized(v: Data): Option<string> {
    Print(ToJson(v))
  }

  // ----- reading -----

  /** json_obj_get: the first pair with the key. */
  function Get(pairs: seq<Pair>, key: string): Option<Json> {
    if pairs == [] then None
    else if pairs[0].key == key then Some(pairs[0].value)
    else Get(pairs[1..], key)
  }

  const SIZE_MAX: nat := 0xFFFF_FFFF_FFFF_FFFF

  /** The conversion of a double to size_t; C defines it only for what fits. */
  function ToSize(r: real): Option<nat> {
    if r <= -1.0 || r.Floor > SIZE_MAX then None else Some(if r < 0.0 then 0 else r.Floor)
  }

  /** One dimension of a shape: a number that is not zero. */
  function Dim(j: Json): Option<nat> {
    if !j.JNum? then None
    else
      var n := ToSize(j.num);
      if n.None? || n.value == 0 then None else n
  }

  /** All dimensions, unless their product does not fit. */
  function Dims(items: seq<Json>, total: nat): Option<seq<nat>> {
    if items == [] then Some([])
    else
      var d := Dim(items[0]);
      if d.None? || total * d.value > SIZE_MAX then None else
        var more := Dims(items[1..], total * d.value);
        if more.None? then None else Some([d.value] + more.value)
  }

  function TypeOf(v: Data): DeclType {
    match v
    case DBool(_) => TBool
    case DInt(_, _) => TInt
    case DStr(_) => TStr
    case DTensor(_, _, _) => TTensor
    case DMap(_) => TUnknown
  }

  /** The type all elements have, if they have one that is not a map. */
  function CommonType(data: seq<Data>): DeclType {
    if data == [] then TUnknown
    else if |data| == 1 then TypeOf(data[0])
    else if CommonType(data[..|data| - 1]) == TypeOf(data[|data| - 1]) then TypeOf(data[|data| - 1])
    else TUnknown
  }

  predicate IsKey(v: Data) {
    v.DInt? || v.DStr?
  }

  /** value_map_set */
  function MapSet(items: seq<Entry>, key: Data, value: Data): seq<Entry> {
    if items == [] then [Entry(key, value)]
    else if SameKey(items[0].key, key) then [Entry(items[0].key, value)] + items[1..]
    else [items[0]] + MapSet(items[1..], key, value)
  }

  /** deser_val; none for an error. */
  function Deser(j: Json): Option<Data>
    decreases j
  {
    if !j.JObj? then None else
      match Get(j.pairs, "t")
      case Some(JStr(tag)) =>
        var v := Get(j.pairs, "v");
        if tag == "int" then ReadInt(v)
        else if tag == "bool" then ReadBool(v)
        else if tag == "str" then Some(DStr(if v.Some? && v.value.JStr? then v.value.s else ""))
        else if tag == "tensor" then
          var shape := Get(j.pairs, "shape");
          if shape.None? || !shape.value.JArr? || v.None? || !v.value.JArr? || shape.value.items == [] then None else
            GetSmaller(j.pairs, "v");
            var dims := Dims(shape.value.items, 1);
            if dims.None? || Product(dims.value) != |v.value.items| then None else
              var data := DeserItems(v.value.items);
              if data.None? then None else Some(DTensor(CommonType(data.value), dims.value, data.value))
        else if tag == "map" then
          if v.None? || !v.value.JArr? then None else
            GetSmaller(j.pairs, "v");
            var items := DeserEntries(v.value.items, []);
            if items.None? then None else Some(DMap(items.value))
        else None
      case _ => None
  }

  lemma {:induction false} GetSmaller(pairs: seq<Pair>, key: string)
    ensures Get(pairs, key).Some? ==> exists i :: 0 <= i < |pairs| && pairs[i].value == Get(pairs, key).value
  {
    if pairs != [] && pairs[0].key != key {
      GetSmaller(pairs[1..], key);
      if Get(pairs, key).Some? {
        var i :| 0 <= i < |pairs[1..]| && pairs[1..][i].value == Get(pairs, key).value;
        assert pairs[i + 1].value == Get(pairs, key).value;
      }
    }
  }

  function ReadInt(v: Option<Json>): Option<Data> {
    var parsed := ParseInt(if v.Some? && v.value.JStr? then v.value.s else "0");
    if parsed.None? then None else Some(DInt(parsed.value.value, parsed.value.base))
  }

  function ReadBool(v: Option<Json>): Option<Data> {
    match v
    case Some(JBool(b)) => Some(DBool(b))
    case Some(JStr(s)) =>
      if s == "TRUE" || s == "true" then Some(DBool(true))
      else if s == "FALSE" || s == "false" then Some(DBool(false))
      else None
    case _ => None
  }

  function DeserItems(items: seq<Json>): (r: Option<seq<Data>>)
    ensures r.Some? ==> |r.value| == |items|
    decreases items
  {
    if items == [] then Some([]) else
      var a := Deser(items[0]);
      if a.None? then None else
        var more := DeserItems(items[1..]);
        if more.None? then None else Some([a.value] + more.value)
  }

  /** The loop over the pairs of a map; what is not an object is passed over. */
  function DeserEntries(items: seq<Json>, acc: seq<Entry>): Option<seq<Entry>>
    decreases items
  {
    if items == [] then Some(acc)
    else if !items[0].JObj? then DeserEntries(items[1..], acc)
    else
      GetSmaller(items[0].pairs, "k");
      GetSmaller(items[0].pairs, "v");
      var k := Get(items[0].pairs, "k");
      var key := if k.None? then None else Deser(k.value);
      if key.None? || !IsKey(key.value) then None else
        var v := Get(items[0].pairs, "v");
        var value := if v.None? then None else Deser(v.value);
        if value.None? then None else DeserEntries(items[1..], MapSet(acc, key.value, value.value))
  }

  /** unserialize */
  function Unserialized(strtod: Strtod, text: string): Option<Data> {
    match Parse(strtod, text)
    case None => None
    case Some(j) => Deser(j)
  }
}
