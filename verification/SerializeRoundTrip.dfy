/** Which data survives serialize and unserialize: exactly the portable values. */
module SerializeRoundTrip {
  import opened Common
  import opened Shapes
  import opened Utf8
  import opened Numerals
  import opened JsonString
  import opened JsonText
  import opened JsonRoundTrip
  import opened Serialize

  /**
   * Not the zero of base 58 nor -2^63; text below U+10000; tensors with data, at least one
   * dimension and the element type that is found anew; integers and strings as keys.
   */
  ghost predicate Portable(v: Data)
    decreases v
  {
    match v
    case DBool(_) => true
    case DInt(i, base) => !(i == 0 && base == 58) && i != INT64_MIN
    case DStr(s) => IsBmpText(s)
    case DTensor(elem, shape, data) =>
      && shape != [] && data != [] && elem == CommonType(data)
      && forall k | 0 <= k < |data| :: Portable(data[k])
    case DMap(items) =>
      forall k | 0 <= k < |items| :: IsKey(items[k].key) && Portable(items[k].key) && Portable(items[k].value)
  }

  // ----- plain text -----

  predicate IsAscii(s: string) {
    forall i | 0 <= i < |s| :: 0 < s[i] as int < 0x80
  }

  lemma {:induction false} AsciiReceived(s: string)
    requires IsAscii(s)
    ensures Received(s) == Some(s) && Escape(s).Some?
  {
    hide DecodeFirst, EscapeStep;
    if s != "" {
      AsciiReceived(s[1..]);
      AsciiDecodes(s);
      ScalarAdvances(s);
      assert s == s[..1] + s[1..];
    }
  }

  lemma IntTextAscii(i: int, base: Base)
    ensures IsAscii(IntText(i, base))
  {
    hide Prefix, Numeral, DIGITS58, DIGITS64;
    PrefixAscii(base);
    NumeralAscii(base, Magnitude(i));
  }

  lemma PrefixAscii(base: Base)
    ensures IsAscii(Prefix(base))
  {
  }

  lemma NumeralAscii(base: Base, n: nat)
    ensures IsAscii(Numeral(base, n))
  {
    hide DIGITS58, DIGITS64, Digits;
    DigitsAscii(base, n);
  }

  lemma {:induction false} DigitsAscii(base: Base, n: nat)
    ensures IsAscii(Digits(base, n))
  {
    hide DIGITS58, DIGITS64, Alphabet;
    if n > 0 {
      DivMod(base, n);
      DigitsAscii(base, n / base);
      DigitsInverse(base, n % base);
    }
  }

  // ----- what the reader gets -----

  /** The value that comes back, if any. */
  function Back(v: Data): Option<Data> {
    match Receive(ToJson(v))
    case None => None
    case Some(j) => Deser(j)
  }

  function Doc(tag: string, j: Json): Json {
    JObj([Pair("t", JStr(tag)), Pair("v", j)])
  }

  function TensorDoc(dims: seq<Json>, items: seq<Json>): Json {
    JObj([Pair("t", JStr("tensor")), Pair("shape", JArr(dims)), Pair("v", JArr(items))])
  }

  function EntryDoc(k: Json, v: Json): Json {
    JObj([Pair("k", k), Pair("v", v)])
  }

  lemma ReceiveTwo(p: Pair, q: Pair)
    ensures ReceivePairs([p, q]) ==
            if ReceivedPair(p).None? || ReceivedPair(q).None? then None
                else Some([ReceivedPair(p).value, ReceivedPair(q).value])
  {
    hide ReceivedPair, ReceivePairs;
    assert [p, q][1..] == [q];
    ReceiveFirstPair([p, q]);
    ReceiveFirstPair([q]);
    if ReceivedPair(p).Some? && ReceivedPair(q).Some? {
      assert [ReceivedPair(p).value] + [ReceivedPair(q).value] == [ReceivedPair(p).value, ReceivedPair(q).value];
    }
  }

  lemma ReceiveThree(p: Pair, q: Pair, r: Pair)
    ensures ReceivePairs([p, q, r]) ==
            if ReceivedPair(p).None? || ReceivedPair(q).None? || ReceivedPair(r).None? then None
            else Some([ReceivedPair(p).value, ReceivedPair(q).value, ReceivedPair(r).value])
  {
    hide ReceivedPair, ReceivePairs;
    assert [p, q, r][1..] == [q, r];
    ReceiveFirstPair([p, q, r]);
    ReceiveTwo(q, r);
    if ReceivedPair(p).Some? && ReceivedPair(q).Some? && ReceivedPair(r).Some? {
      var x, y, z := ReceivedPair(p).value, ReceivedPair(q).value, ReceivedPair(r).value;
      assert [x] + [y, z] == [x, y, z];
    }
  }

  /** A pair with a plain key. */
  lemma ReceivePlain(key: string, j: Json)
    requires IsAscii(key)
    ensures ReceivedPair(Pair(key, j)) == if Receive(j).None? then None else Some(Pair(key, Receive(j).value))
  {
    hide Received, Receive;
    AsciiReceived(key);
  }

  lemma ReceiveTag(tag: string)
    requires IsAscii(tag)
    ensures Receive(JStr(tag)) == Some(JStr(tag))
  {
    hide Received;
    AsciiReceived(tag);
  }

  lemma ReceiveDoc(tag: string, j: Json)
    requires IsAscii(tag)
    ensures Receive(Doc(tag, j)) == if Receive(j).None? then None else Some(Doc(tag, Receive(j).value))
  {
    hide Received, ReceivePairs, ReceivedPair;
    ReceiveTag(tag);
    ReceivePlain("t", JStr(tag));
    ReceivePlain("v", j);
    ReceiveTwo(Pair("t", JStr(tag)), Pair("v", j));
  }

  lemma ReceiveEntry(k: Json, v: Json)
    ensures Receive(EntryDoc(k, v)) ==
            if Receive(k).None? || Receive(v).None? then None else Some(EntryDoc(Receive(k).value, Receive(v).value))
  {
    hide Received, ReceivePairs, ReceivedPair;
    ReceivePlain("k", k);
    ReceivePlain("v", v);
    ReceiveTwo(Pair("k", k), Pair("v", v));
  }

  lemma ReceiveTensor(dims: seq<Json>, items: seq<Json>)
    requires ReceiveItems(dims) == Some(dims)
    ensures Receive(TensorDoc(dims, items)) ==
            if ReceiveItems(items).None? then None else Some(TensorDoc(dims, ReceiveItems(items).value))
  {
    hide Received, ReceivePairs, ReceivedPair, ReceiveItems;
    ReceiveTag("tensor");
    ReceivePlain("t", JStr("tensor"));
    ReceivePlain("shape", JArr(dims));
    ReceivePlain("v", JArr(items));
    ReceiveThree(Pair("t", JStr("tensor")), Pair("shape", JArr(dims)), Pair("v", JArr(items)));
  }

  lemma {:induction false} ReceiveDims(shape: seq<nat>)
    ensures ReceiveItems(ToDims(shape)) == Some(ToDims(shape))
  {
    if shape != [] {
      ReceiveDims(shape[1..]);
      assert ToDims(shape)[1..] == ToDims(shape[1..]);
      assert [ToDims(shape)[0]] + ToDims(shape[1..]) == ToDims(shape);
    }
  }

  // ----- looking up -----

  lemma GetHere(p: Pair, rest: seq<Pair>)
    ensures Get([p] + rest, p.key) == Some(p.value)
  {
  }

  lemma GetLater(p: Pair, rest: seq<Pair>, key: string)
    requires p.key != key
    ensures Get([p] + rest, key) == Get(rest, key)
  {
    assert ([p] + rest)[1..] == rest;
  }

  lemma GetTwo(p: Pair, q: Pair)
    requires p.key != q.key
    ensures Get([p, q], p.key) == Some(p.value) && Get([p, q], q.key) == Some(q.value)
  {
    hide Get;
    assert [p, q] == [p] + ([q] + []);
    GetHere(p, [q] + []);
    GetLater(p, [q] + [], q.key);
    GetHere(q, []);
  }

  lemma GetDoc(tag: string, j: Json)
    ensures Get(Doc(tag, j).pairs, "t") == Some(JStr(tag)) && Get(Doc(tag, j).pairs, "v") == Some(j)
  {
    hide Get;
    assert "t"[0] != "v"[0];
    GetTwo(Pair("t", JStr(tag)), Pair("v", j));
  }

  lemma GetEntry(k: Json, v: Json)
    ensures Get(EntryDoc(k, v).pairs, "k") == Some(k) && Get(EntryDoc(k, v).pairs, "v") == Some(v)
  {
    hide Get;
    assert "k"[0] != "v"[0];
    GetTwo(Pair("k", k), Pair("v", v));
  }

  lemma GetTensor(dims: seq<Json>, items: seq<Json>)
    ensures Get(TensorDoc(dims, items).pairs, "t") == Some(JStr("tensor"))
    ensures Get(TensorDoc(dims, items).pairs, "shape") == Some(JArr(dims))
    ensures Get(TensorDoc(dims, items).pairs, "v") == Some(JArr(items))
  {
    hide Get;
    var p, q, r := Pair("t", JStr("tensor")), Pair("shape", JArr(dims)), Pair("v", JArr(items));
    assert [p, q, r] == [p] + [q, r];
    assert "t"[0] != "v"[0] && |"shape"| == 5;
    GetHere(p, [q, r]);
    GetLater(p, [q, r], "shape");
    GetLater(p, [q, r], "v");
    GetTwo(q, r);
  }

  // ----- values without parts -----

  lemma BoolBack(b: bool)
    ensures Back(DBool(b)) == Some(DBool(b)) && Print(ToJson(DBool(b))).Some?
  {
    hide Received, Get, ReceivePairs, Escape;
    ReceiveDoc("bool", JBool(b));
    GetDoc("bool", JBool(b));
    assert |"bool"| == 4;
    PrintDoc("bool", JBool(b));
  }

  lemma IntBack(i: int, base: Base)
    requires INT64_MIN <= i <= INT64_MAX
    ensures Back(DInt(i, base)) == Some(DInt(i, base)) <==> Portable(DInt(i, base))
    ensures Print(ToJson(DInt(i, base))).Some?
  {
    hide Received, Get, ReceivePairs, Escape, ParseInt, IntText;
    var text := IntText(i, base);
    IntTextAscii(i, base);
    AsciiReceived(text);
    ReceiveDoc("int", JStr(text));
    GetDoc("int", JStr(text));
    IntRoundTrip(i, base);
    PrintDoc("int", JStr(text));
  }

  lemma StrBack(s: string)
    requires IsCString(s)
    ensures Back(DStr(s)) == Some(DStr(s)) <==> Portable(DStr(s))
    ensures Portable(DStr(s)) ==> Print(ToJson(DStr(s))).Some?
  {
    hide Received, Get, ReceivePairs, Escape, IsBmpText;
    ReceiveDoc("str", JStr(s));
    BmpExactly(s);
    if Received(s).Some? {
      GetDoc("str", JStr(Received(s).value));
      assert "str"[0] == 's' && "int"[0] == 'i' && |"bool"| == 4;
    }
    PrintDoc("str", JStr(s));
  }

  lemma BmpExactly(s: string)
    requires IsCString(s)
    ensures IsBmpText(s) <==> Received(s) == Some(s)
    ensures IsBmpText(s) ==> Escape(s).Some?
  {
    hide Received, Escape, EncodeAll;
    if IsBmpText(s) {
      var cps :| BmpSpelled(cps, s);
      BmpIsReceived(cps);
    }
    if Received(s) == Some(s) {
      ReceivedIsBmp(s);
    }
  }

  lemma PrintTwo(p: Pair, q: Pair)
    requires IsAscii(p.key) && IsAscii(q.key)
    ensures PrintPairs([p, q]).Some? <==> Print(p.value).Some? && Print(q.value).Some?
  {
    hide Escape, Received, Print;
    AsciiReceived(p.key);
    AsciiReceived(q.key);
    assert [p, q][1..] == [q];
  }

  lemma PrintDoc(tag: string, j: Json)
    requires IsAscii(tag)
    ensures Print(Doc(tag, j)).Some? <==> Print(j).Some?
  {
    hide Escape, Received, PrintPairs;
    AsciiReceived(tag);
    PrintTwo(Pair("t", JStr(tag)), Pair("v", j));
  }

  // ----- tensors -----

  /** The elements that come back. */
  function BackItems(data: seq<Data>): Option<seq<Data>> {
    match ReceiveItems(ToItems(data))
    case None => None
    case Some(items) => DeserItems(items)
  }

  lemma BackItemsStep(data: seq<Data>)
    requires data != []
    ensures BackItems(data) ==
            if Back(data[0]).None? || BackItems(data[1..]).None? then None
            else Some([Back(data[0]).value] + BackItems(data[1..]).value)
  {
    hide Receive, ToJson, Deser;
    var items := ToItems(data);
    assert items[0] == ToJson(data[0]) && items[1..] == ToItems(data[1..]);
    if Receive(items[0]).Some? && ReceiveItems(items[1..]).Some? {
      var a, more := Receive(items[0]).value, ReceiveItems(items[1..]).value;
      assert ([a] + more)[0] == a && ([a] + more)[1..] == more;
    }
  }

  lemma ZeroProduct(a: nat, b: nat)
    ensures a * b > 0 <==> a > 0 && b > 0
    ensures b > 0 ==> a <= a * b
  {
  }

  lemma Associate(a: nat, b: nat, c: nat)
    ensures a * b * c == a * (b * c)
  {
  }

  /** The shape is read back unless it has a zero; the size check never fails for a size that fits. */
  lemma {:induction false} DimsBack(shape: seq<nat>, total: nat)
    requires forall k | 0 <= k < |shape| :: shape[k] < EXACT
    requires NoZero(shape) ==> total * Product(shape) <= SIZE_MAX
    ensures Dims(ToDims(shape), total) == if NoZero(shape) then Some(shape) else None
  {
    hide ToSize, Product;
    if shape != [] {
      var d := shape[0];
      SizeOf(d);
      var rest := shape[1..];
      ShapeProduct(shape);
      assert ToDims(shape)[1..] == ToDims(rest);
      assert NoZero(shape) <==> d > 0 && NoZero(rest) by {
        assert forall k | 0 < k < |shape| :: shape[k] == rest[k - 1];
      }
      if d > 0 {
        if NoZero(rest) {
          NonEmptyShape(rest);
          Associate(total, d, Product(rest));
          ZeroProduct(total * d, Product(rest));
        }
        DimsBack(rest, total * d);
        assert shape == [d] + rest;
      }
    }
  }

  lemma ShapeProduct(shape: seq<nat>)
    requires shape != []
    ensures Product(shape) == shape[0] * Product(shape[1..])
  {
  }

  lemma SizeOf(d: nat)
    requires d < EXACT
    ensures ToSize(d as real) == Some(d)
  {
  }

  lemma DimsNonEmpty(shape: seq<nat>)
    ensures ToDims(shape) == [] <==> shape == []
  {
  }

  lemma DeserTensorDoc(dims: seq<Json>, items: seq<Json>)
    ensures Deser(TensorDoc(dims, items)) ==
            if dims == [] || Dims(dims, 1).None? || Product(Dims(dims, 1).value) != |items|
               || DeserItems(items).None? then None
            else Some(DTensor(CommonType(DeserItems(items).value), Dims(dims, 1).value, DeserItems(items).value))
  {
    hide Get, Dims, Product, DeserItems, CommonType;
    GetTensor(dims, items);
    assert |"tensor"| == 6 && |"int"| == 3 && |"bool"| == 4 && |"str"| == 3;
  }

  lemma {:induction false} ReceivedCount(items: seq<Json>)
    ensures ReceiveItems(items).Some? ==> |ReceiveItems(items).value| == |items|
  {
    hide Receive;
    if items != [] {
      ReceivedCount(items[1..]);
    }
  }

  /** What comes back for a tensor, in terms of what comes back for its elements. */
  lemma TensorBackIs(v: Data)
    requires v.DTensor? && Sound(v)
    ensures Back(v) ==
            if v.shape == [] || v.data == [] || BackItems(v.data).None? then None
            else Some(DTensor(CommonType(BackItems(v.data).value), v.shape, BackItems(v.data).value))
  {
    hide Receive, Deser, ReceiveItems, DeserItems, CommonType, Dims, Product;
    var dims, items := ToDims(v.shape), ToItems(v.data);
    DimsNonEmpty(v.shape);
    ReceiveDims(v.shape);
    ReceiveTensor(dims, items);
    NonEmptyShape(v.shape);
    DimsBack(v.shape, 1);
    ReceivedCount(items);
    if ReceiveItems(items).Some? {
      DeserTensorDoc(dims, ReceiveItems(items).value);
    }
  }

  // ----- maps -----

  lemma DeserMapDoc(items: seq<Json>)
    ensures Deser(Doc("map", JArr(items))) ==
            if DeserEntries(items, []).None? then None else Some(DMap(DeserEntries(items, []).value))
  {
    hide Get, DeserEntries;
    GetDoc("map", JArr(items));
    assert |"map"| == 3 && "map"[0] == 'm' && "int"[0] == 'i' && "str"[0] == 's' && |"bool"| == 4 && |"tensor"| == 6;
  }

  /** The entries that come back, put behind those that are there. */
  function BackEntries(items: seq<Entry>, acc: seq<Entry>): Option<seq<Entry>> {
    match ReceiveItems(ToEntries(items))
    case None => None
    case Some(js) => DeserEntries(js, acc)
  }

  lemma BackEntriesStep(items: seq<Entry>, acc: seq<Entry>)
    requires items != []
    ensures BackEntries(items, acc).Some? ==>
              && Back(items[0].key).Some? && IsKey(Back(items[0].key).value) && Back(items[0].value).Some?
              && BackEntries(items, acc) ==
                  BackEntries(items[1..], MapSet(acc, Back(items[0].key).value, Back(items[0].value).value))
    ensures Back(items[0].key).Some? && IsKey(Back(items[0].key).value) && Back(items[0].value).Some? ==>
              BackEntries(items, acc) ==
                  BackEntries(items[1..], MapSet(acc, Back(items[0].key).value, Back(items[0].value).value))
  {
    hide Receive, ToJson, Deser, MapSet, Get;
    var js := ToEntries(items);
    var k, v := ToJson(items[0].key), ToJson(items[0].value);
    assert ToEntry(items[0]) == EntryDoc(k, v);
    assert js == [ToEntry(items[0])] + ToEntries(items[1..]);
    ReceiveEntry(k, v);
    if Receive(js[0]).Some? && ReceiveItems(js[1..]).Some? {
      var a, more := Receive(js[0]).value, ReceiveItems(js[1..]).value;
      assert ([a] + more)[0] == a && ([a] + more)[1..] == more;
      GetEntry(Receive(k).value, Receive(v).value);
    }
  }

  lemma MapBackIs(v: Data)
    requires v.DMap?
    ensures Back(v) == if BackEntries(v.items, []).None? then None else Some(DMap(BackEntries(v.items, []).value))
  {
    hide Receive, Deser, ReceiveItems, DeserEntries;
    var js := ToEntries(v.items);
    ReceiveDoc("map", JArr(js));
    ReceiveArr(js);
    if ReceiveItems(js).Some? {
      DeserMapDoc(ReceiveItems(js).value);
    }
  }

  lemma ReceiveArr(items: seq<Json>)
    ensures Receive(JArr(items)) == if ReceiveItems(items).None? then None else Some(JArr(ReceiveItems(items).value))
  {
    hide ReceiveItems;
  }

  lemma {:induction false} MapSetGrows(acc: seq<Entry>, key: Data, value: Data)
    ensures |acc| <= |MapSet(acc, key, value)| <= |acc| + 1
    ensures |MapSet(acc, key, value)| == |acc| + 1 ==> MapSet(acc, key, value) == acc + [Entry(key, value)]
    ensures (forall k | 0 <= k < |acc| :: !SameKey(acc[k].key, key)) ==>
            MapSet(acc, key, value) == acc + [Entry(key, value)]
  {
    hide SameKey;
    if acc != [] {
      MapSetGrows(acc[1..], key, value);
      assert acc == [acc[0]] + acc[1..];
      assert [acc[0]] + (acc[1..] + [Entry(key, value)]) == acc + [Entry(key, value)];
      assert forall k | 0 <= k < |acc[1..]| :: acc[1..][k] == acc[k + 1];
    }
  }

  /** Entries are only lost, never added; if none is lost, those that were there stay in front. */
  lemma {:induction false} BackEntriesGrow(items: seq<Entry>, acc: seq<Entry>)
    requires BackEntries(items, acc).Some?
    ensures |BackEntries(items, acc).value| <= |acc| + |items|
    ensures |BackEntries(items, acc).value| == |acc| + |items| ==> acc <= BackEntries(items, acc).value
    decreases |items|
  {
    hide Back, BackEntries, MapSet, IsKey;
    if items == [] {
      NoEntries(acc);
    } else {
      BackEntriesStep(items, acc);
      var k, v := Back(items[0].key).value, Back(items[0].value).value;
      MapSetGrows(acc, k, v);
      BackEntriesGrow(items[1..], MapSet(acc, k, v));
    }
  }

  lemma NoEntries(acc: seq<Entry>)
    ensures BackEntries([], acc) == Some(acc)
  {
  }

  // ----- every value -----

  lemma {:induction false} ItemsExactly(data: seq<Data>)
    requires forall k | 0 <= k < |data| :: Sound(data[k])
    ensures BackItems(data) == Some(data) <==> forall k | 0 <= k < |data| :: Portable(data[k])
    decreases data
  {
    hide Back, BackItems, Sound, Portable;
    if data == [] {
      NoItemsBack();
    } else {
      BackItemsStep(data);
      BackExactly(data[0]);
      ItemsExactly(data[1..]);
      assert data == [data[0]] + data[1..];
      if forall k | 0 <= k < |data[1..]| :: Portable(data[1..][k]) {
        assert forall k | 0 < k < |data| :: Portable(data[1..][k - 1]) && data[k] == data[1..][k - 1];
      }
      if BackItems(data[1..]).Some? && Back(data[0]).Some? && BackItems(data) == Some(data) {
        var got := [Back(data[0]).value] + BackItems(data[1..]).value;
        assert got[0] == data[0] && got[1..] == BackItems(data[1..]).value;
      }
    }
  }

  lemma NoItemsBack()
    ensures BackItems([]) == Some([])
  {
  }

  ghost predicate PortableEntry(e: Entry)
    decreases e
  {
    IsKey(e.key) && Portable(e.key) && Portable(e.value)
  }

  ghost predicate KeysFree(acc: seq<Entry>, items: seq<Entry>) {
    && (forall k, l | 0 <= k < |acc| && 0 <= l < |items| :: !SameKey(acc[k].key, items[l].key))
    && forall k, l | 0 <= k < l < |items| :: !SameKey(items[k].key, items[l].key)
  }

  lemma {:induction false} EntryExactly(e: Entry)
    requires Sound(e.key) && Sound(e.value)
    ensures Back(e.key) == Some(e.key) <==> Portable(e.key)
    ensures Back(e.value) == Some(e.value) <==> Portable(e.value)
    decreases e
  {
    hide Back, Sound, Portable;
    BackExactly(e.key);
    BackExactly(e.value);
  }

  /** Portable entries with new keys come back in order. */
  lemma {:induction false} EntriesReturn(items: seq<Entry>, acc: seq<Entry>)
    requires forall k | 0 <= k < |items| :: Sound(items[k].key) && Sound(items[k].value) && PortableEntry(items[k])
    requires KeysFree(acc, items)
    ensures BackEntries(items, acc) == Some(acc + items)
    decreases items, 0
  {
    hide Back, BackEntries, Sound, Portable, SameKey, IsKey;
    if items == [] {
      NoEntries(acc);
      assert acc + items == acc;
    } else {
      var e := items[0];
      EntryExactly(items[0]);
      BackEntriesStep(items, acc);
      MapSetGrows(acc, e.key, e.value);
      var longer := acc + [e];
      EntriesReturn(items[1..], longer);
      assert longer + items[1..] == acc + items;
    }
  }

  /** And only they do. */
  lemma {:induction false} ReturnedArePortable(items: seq<Entry>, acc: seq<Entry>)
    requires forall k | 0 <= k < |items| :: Sound(items[k].key) && Sound(items[k].value)
    requires BackEntries(items, acc) == Some(acc + items)
    ensures forall k | 0 <= k < |items| :: PortableEntry(items[k])
    decreases items, 0
  {
    hide Back, BackEntries, Sound, Portable, SameKey, IsKey, MapSet;
    if items != [] {
      var e, rest := items[0], items[1..];
      BackEntriesStep(items, acc);
      var k, v := Back(e.key).value, Back(e.value).value;
      MapSetGrows(acc, k, v);
      var acc' := MapSet(acc, k, v);
      BackEntriesGrow(rest, acc');
      assert acc' == acc + [Entry(k, v)];
      assert (acc + items)[|acc|] == acc'[|acc|];
      EntryExactly(items[0]);
      assert acc' + rest == acc + items;
      ReturnedArePortable(rest, acc');
      forall i | 0 <= i < |items| ensures PortableEntry(items[i]) {
        if i > 0 {
          assert items[i] == rest[i - 1];
        }
      }
    }
  }

  /** A value comes back unchanged exactly when it is portable. */
  lemma {:induction false} BackExactly(v: Data)
    requires Sound(v)
    ensures Back(v) == Some(v) <==> Portable(v)
    decreases v
  {
    hide Back, BackItems, BackEntries, CommonType;
    match v {
      case DBool(b) => BoolBack(b);
      case DInt(i, base) => IntBack(i, base);
      case DStr(s) => StrBack(s);
      case DTensor(elem, shape, data) =>
        ItemsExactly(data);
        TensorBackIs(v);
      case DMap(items) => MapExactly(items);
    }
  }

  lemma {:induction false} MapExactly(items: seq<Entry>)
    requires Sound(DMap(items))
    ensures Back(DMap(items)) == Some(DMap(items)) <==> Portable(DMap(items))
    decreases items, 1
  {
    hide Back, BackEntries, SameKey, IsKey;
    MapBackIs(DMap(items));
    assert [] + items == items;
    if Portable(DMap(items)) {
      forall k | 0 <= k < |items| ensures PortableEntry(items[k]) {
      }
      EntriesReturn(items, []);
    }
    if BackEntries(items, []) == Some(items) {
      ReturnedArePortable(items, []);
      assert forall k | 0 <= k < |items| :: PortableEntry(items[k]);
    }
  }

  // ----- the text -----

  lemma AsciiPrintable(tag: string, j: Json)
    requires IsAscii(tag) && Printable(j)
    ensures Printable(Doc(tag, j))
  {
    hide Printable;
    PrintableTwo(Pair("t", JStr(tag)), Pair("v", j));
  }

  lemma PrintableTwo(p: Pair, q: Pair)
    requires IsAscii(p.key) && IsAscii(q.key)
    ensures Printable(p.value) && Printable(q.value) ==> Printable(JObj([p, q]))
    ensures p.value.JStr? && IsAscii(p.value.s) && Printable(q.value) ==> Printable(JObj([p, q]))
  {
  }

  lemma {:induction false} DimsPrintable(shape: seq<nat>)
    requires forall k | 0 <= k < |shape| :: shape[k] < EXACT
    ensures forall i | 0 <= i < |ToDims(shape)| :: Printable(ToDims(shape)[i])
    ensures PrintItems(ToDims(shape)).Some?
  {
    hide Decimal;
    if shape != [] {
      DimsPrintable(shape[1..]);
      assert ToDims(shape)[1..] == ToDims(shape[1..]);
    }
  }

  lemma {:induction false} JsonPrintable(v: Data)
    requires Sound(v)
    ensures Printable(ToJson(v))
    ensures Portable(v) ==> Print(ToJson(v)).Some?
    decreases v
  {
    hide Printable, Print, ToItems, ToEntries, IntText, Back;
    match v {
      case DBool(b) =>
        BoolBack(b);
        ScalarPrintable("bool", JBool(b));
      case DInt(i, base) =>
        IntBack(i, base);
        IntTextAscii(i, base);
        ScalarPrintable("int", JStr(IntText(i, base)));
      case DStr(s) =>
        StrBack(s);
        ScalarPrintable("str", JStr(s));
      case DTensor(_, shape, data) =>
        ItemsPrintable(data);
        DimsPrintable(shape);
        TensorPrintable(ToDims(shape), ToItems(data));
      case DMap(items) =>
        EntriesPrintable(items);
        ListPrintable("map", ToEntries(items));
    }
  }

  lemma ScalarPrintable(tag: string, j: Json)
    requires IsAscii(tag) && (j.JBool? || (j.JStr? && IsCString(j.s)))
    ensures Printable(Doc(tag, j))
  {
    AsciiPrintable(tag, j);
  }

  lemma ListPrintable(tag: string, items: seq<Json>)
    requires IsAscii(tag)
    ensures (forall k | 0 <= k < |items| :: Printable(items[k])) ==> Printable(Doc(tag, JArr(items)))
    ensures PrintItems(items).Some? ==> Print(Doc(tag, JArr(items))).Some?
  {
    if forall k | 0 <= k < |items| :: Printable(items[k]) {
      AsciiPrintable(tag, JArr(items));
    }
    PrintDoc(tag, JArr(items));
  }

  lemma TensorPrintable(dims: seq<Json>, items: seq<Json>)
    requires forall k | 0 <= k < |dims| :: Printable(dims[k])
    ensures (forall k | 0 <= k < |items| :: Printable(items[k])) ==> Printable(TensorDoc(dims, items))
    ensures PrintItems(dims).Some? && PrintItems(items).Some? ==> Print(TensorDoc(dims, items)).Some?
  {
    hide Escape, PrintItems, PrintPairs, Received;
    AsciiReceived("tensor");
    var p, q, r := Pair("t", JStr("tensor")), Pair("shape", JArr(dims)), Pair("v", JArr(items));
    PrintThree(p, q, r);
    PrintableThree(p, q, r);
    assert IsAscii("tensor") && IsCString("tensor");
  }

  lemma PrintThree(p: Pair, q: Pair, r: Pair)
    requires IsAscii(p.key) && IsAscii(q.key) && IsAscii(r.key)
    ensures PrintPairs([p, q, r]).Some? <==> Print(p.value).Some? && Print(q.value).Some? && Print(r.value).Some?
  {
    hide Escape, Received, Print;
    AsciiReceived(p.key);
    assert [p, q, r][1..] == [q, r];
    PrintTwo(q, r);
  }

  lemma PrintableThree(p: Pair, q: Pair, r: Pair)
    requires IsAscii(p.key) && IsAscii(q.key) && IsAscii(r.key)
    ensures Printable(p.value) && Printable(q.value) && Printable(r.value) ==> Printable(JObj([p, q, r]))
  {
    hide Printable;
    if Printable(p.value) && Printable(q.value) && Printable(r.value) {
      PrintablePairs([p, q, r]);
    }
  }

  lemma PrintablePairs(pairs: seq<Pair>)
    requires forall i | 0 <= i < |pairs| :: IsAscii(pairs[i].key) && Printable(pairs[i].value)
    ensures Printable(JObj(pairs))
  {
  }

  lemma {:induction false} ItemsPrintable(data: seq<Data>)
    requires forall k | 0 <= k < |data| :: Sound(data[k])
    ensures forall k | 0 <= k < |ToItems(data)| :: Printable(ToItems(data)[k])
    ensures (forall k | 0 <= k < |data| :: Portable(data[k])) ==> PrintItems(ToItems(data)).Some?
    decreases data
  {
    hide Printable, Print, ToJson, Sound, Portable;
    if data != [] {
      JsonPrintable(data[0]);
      ItemsPrintable(data[1..]);
      assert ToItems(data)[0] == ToJson(data[0]) && ToItems(data)[1..] == ToItems(data[1..]);
      assert forall k | 0 < k < |data| :: ToItems(data)[k] == ToItems(data[1..])[k - 1] && data[k] == data[1..][k - 1];
    }
  }

  lemma {:induction false} EntryPrintable(e: Entry)
    requires Sound(e.key) && Sound(e.value)
    ensures Printable(ToEntry(e))
    ensures Portable(e.key) && Portable(e.value) ==> Print(ToEntry(e)).Some?
    decreases e
  {
    hide Printable, Sound, Portable, PrintPairs;
    JsonPrintable(e.key);
    JsonPrintable(e.value);
    PrintableTwo(Pair("k", ToJson(e.key)), Pair("v", ToJson(e.value)));
    PrintTwo(Pair("k", ToJson(e.key)), Pair("v", ToJson(e.value)));
  }

  lemma {:induction false} EntriesPrintable(items: seq<Entry>)
    requires forall k | 0 <= k < |items| :: Sound(items[k].key) && Sound(items[k].value)
    ensures forall k | 0 <= k < |ToEntries(items)| :: Printable(ToEntries(items)[k])
    ensures (forall k | 0 <= k < |items| :: Portable(items[k].key) && Portable(items[k].value)) ==>
            PrintItems(ToEntries(items)).Some?
    decreases items
  {
    hide Printable, Print, ToEntry, Sound, Portable;
    if items != [] {
      EntryPrintable(items[0]);
      EntriesPrintable(items[1..]);
      assert ToEntries(items)[0] == ToEntry(items[0]) && ToEntries(items)[1..] == ToEntries(items[1..]);
      assert forall k | 0 < k < |ToEntries(items)| :: ToEntries(items)[k] == ToEntries(items[1..])[k - 1];
      assert forall k | 0 < k < |items| :: items[k] == items[1..][k - 1];
    }
  }

  /**
   * Serializing ends and unserializing the text gives back the very same value, exactly
   * when the value is portable.
   */
  lemma SerializeRoundTrip(strtod: Strtod, v: Data)
    requires ReadsIntegers(strtod) && Sound(v)
    ensures Portable(v) <==> Serialized(v).Some? && Unserialized(strtod, Serialized(v).value) == Some(v)
  {
    hide Print, Parse, Receive, ToJson, Deser, Portable, Printable, Sound;
    JsonPrintable(v);
    BackExactly(v);
    if Print(ToJson(v)).Some? {
      ParsePrinted(strtod, ToJson(v));
    }
  }

  lemma {:induction false} NeverMaps(data: seq<Data>)
    ensures CommonType(data) != TMap
  {
    if |data| > 1 {
      NeverMaps(data[..|data| - 1]);
    }
  }

  /** A tensor that was declared to hold maps is never the one that comes back. */
  lemma TensorOfMapsIsLost(strtod: Strtod, shape: seq<nat>, data: seq<Data>)
    requires ReadsIntegers(strtod) && Sound(DTensor(TMap, shape, data))
    ensures var v := DTensor(TMap, shape, data);
            !(Serialized(v).Some? && Unserialized(strtod, Serialized(v).value) == Some(v))
  {
    hide CommonType, Serialized, Unserialized, Sound;
    NeverMaps(data);
    SerializeRoundTrip(strtod, DTensor(TMap, shape, data));
  }
}
