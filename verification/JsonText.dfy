/**
 * JSON values and their text: the recursive-descent reader of src/builtins.c:1304-1608,
 * and the compact text that the serializer writes.
 */
module JsonText {
  import opened Common
  import opened Utf8
  import opened JsonString

  datatype Json =
    | JNull
    | JBool(b: bool)
    | JNum(num: real)
    | JStr(s: string)
    | JArr(items: seq<Json>)
    | JObj(pairs: seq<Pair>)

  datatype Pair = Pair(key: string, value: Json)

  // ----- numbers -----

  /** What strtod of the C library finds at the start of a text: how many bytes, and their value. */
  datatype Number = Number(len: nat, value: real)

  type Strtod = f: string -> Number | forall s :: f(s).len <= |s| witness (s: string) => Number(0, 0.0)

  function Decimal(n: nat): string
  {
    if n < 10 then [('0' as int + n) as char] else Decimal(n / 10) + [('0' as int + n % 10) as char]
  }

  const EXACT: nat := 0x20_0000_0000_0000

  /** The byte ends an array element or an object, so no number goes on there. */
  predicate EndsNumber(rest: string) {
    rest == "" || rest[0] == ',' || rest[0] == ']' || rest[0] == '}'
  }

  /** Decimal integers below 2^53 are read exactly (section 7.22.1.3 of ISO/IEC 9899:2018). */
  ghost predicate ReadsIntegers(strtod: Strtod) {
    forall n: nat, rest {:trigger strtod(Decimal(n) + rest)} | n < EXACT && EndsNumber(rest) ::
      strtod(Decimal(n) + rest) == Number(|Decimal(n)|, n as real)
  }

  predicate IsDecimal(c: char) {
    '0' <= c <= '9'
  }

  /** How many digits the text begins with. */
  function DigitRun(s: string): (n: nat)
    ensures n <= |s|
  {
    if s == "" || !IsDecimal(s[0]) then 0 else 1 + DigitRun(s[1..])
  }

  function DecimalValue(s: string): nat
    requires forall i | 0 <= i < |s| :: IsDecimal(s[i])
  {
    if s == "" then 0 else
      assert IsDecimal(s[|s| - 1]);
      10 * DecimalValue(s[..|s| - 1]) + (s[|s| - 1] as int - '0' as int)
  }

  /** A reader of digits only. */
  function ReadDigits(s: string): (r: Number)
    ensures r.len <= |s|
  {
    RunIsDecimal(s);
    Number(DigitRun(s), DecimalValue(s[..DigitRun(s)]) as real)
  }

  lemma {:induction false} RunIsDecimal(s: string)
    ensures forall i | 0 <= i < DigitRun(s) :: IsDecimal(s[i])
  {
    if s != "" && IsDecimal(s[0]) {
      RunIsDecimal(s[1..]);
    }
  }

  lemma {:induction false} DecimalDenotes(n: nat)
    ensures (forall i | 0 <= i < |Decimal(n)| :: IsDecimal(Decimal(n)[i])) && DecimalValue(Decimal(n)) == n
  {
    if n >= 10 {
      DecimalDenotes(n / 10);
      assert Decimal(n)[..|Decimal(n)| - 1] == Decimal(n / 10);
    } else {
      assert Decimal(n)[..0] == "";
    }
  }

  lemma {:induction false} RunOf(s: string, rest: string)
    requires forall i | 0 <= i < |s| :: IsDecimal(s[i])
    requires EndsNumber(rest)
    ensures DigitRun(s + rest) == |s|
  {
    if s == "" {
      assert s + rest == rest;
    } else {
      assert (s + rest)[1..] == s[1..] + rest;
      RunOf(s[1..], rest);
    }
  }

  /** Some reader does read decimal integers exactly. */
  lemma DigitsAreRead()
    ensures ReadsIntegers((s: string) => ReadDigits(s))
  {
    forall n: nat, rest | n < EXACT && EndsNumber(rest)
      ensures ReadDigits(Decimal(n) + rest) == Number(|Decimal(n)|, n as real)
    {
      DecimalDenotes(n);
      RunOf(Decimal(n), rest);
      assert (Decimal(n) + rest)[..|Decimal(n)|] == Decimal(n);
    }
  }

  // ----- reading -----

  predicate IsSpace(c: char) {
    c == ' ' || c == '\t' || c == '\n' || c == '\r'
  }

  /** json_skip_ws */
  function SkipWs(s: string): (r: string)
    ensures |r| <= |s|
  {
    if s != "" && IsSpace(s[0]) then SkipWs(s[1..]) else s
  }

  /** What a reader has found and where the rest of the text begins. */
  datatype Found<T> = Bad | Got(value: T, rest: string)

  predicate StartsWith(s: string, word: string) {
    |word| <= |s| && s[..|word|] == word
  }

  predicate StartsNumber(c: char) {
    c == '-' || '0' <= c <= '9'
  }

  /** json_parse_value */
  function ParseValue(strtod: Strtod, s: string): (r: Found<Json>)
    ensures r.Got? ==> |r.rest| < |s|
    decreases |s|, 2
  {
    var t := SkipWs(s);
    if At(t, 0) == '"' then
      var r := ReadString(t[1..]);
      if r.None? then Bad else Got(JStr(UpToNul(r.value.out)), r.value.rest)
    else if At(t, 0) == '{' then
      if At(SkipWs(t[1..]), 0) == '}' then Got(JObj([]), SkipWs(t[1..])[1..]) else
        var r := ParsePairs(strtod, SkipWs(t[1..]));
        if r.Bad? then Bad else Got(JObj(r.value), r.rest)
    else if At(t, 0) == '[' then
      if At(SkipWs(t[1..]), 0) == ']' then Got(JArr([]), SkipWs(t[1..])[1..]) else
        var r := ParseItems(strtod, SkipWs(t[1..]));
        if r.Bad? then Bad else Got(JArr(r.value), r.rest)
    else if StartsNumber(At(t, 0)) then
      var n := strtod(t);
      if n.len == 0 then Bad else Got(JNum(n.value), t[n.len..])
    else if StartsWith(t, "true") then Got(JBool(true), t[4..])
    else if StartsWith(t, "false") then Got(JBool(false), t[5..])
    else if StartsWith(t, "null") then Got(JNull, t[4..])
    else Bad
  }

  /** The loop of json_parse_array; it also ends, without an error, where the text does. */
  function ParseItems(strtod: Strtod, s: string): (r: Found<seq<Json>>)
    ensures r.Got? ==> |r.rest| <= |s|
    decreases |s|, 3
  {
    if s == "" then Got([], "") else
      var item := ParseValue(strtod, SkipWs(s));
      if item.Bad? then Bad else
        var t := SkipWs(item.rest);
        if At(t, 0) == ']' then Got([item.value], t[1..])
        else if At(t, 0) != ',' then Bad
        else
          var more := ParseItems(strtod, t[1..]);
          if more.Bad? then Bad else Got([item.value] + more.value, more.rest)
  }

  /** The loop of json_parse_object. */
  function ParsePairs(strtod: Strtod, s: string): (r: Found<seq<Pair>>)
    ensures r.Got? ==> |r.rest| <= |s|
    decreases |s|, 4
  {
    if s == "" then Got([], "") else
      var pair := ParsePair(strtod, s);
      if pair.Bad? then Bad else
        var t := SkipWs(pair.rest);
        if At(t, 0) == '}' then Got([pair.value], t[1..])
        else if At(t, 0) != ',' then Bad
        else
          var more := ParsePairs(strtod, t[1..]);
          if more.Bad? then Bad else Got([pair.value] + more.value, more.rest)
  }

  /** A key, the colon and the value. */
  function ParsePair(strtod: Strtod, s: string): (r: Found<Pair>)
    ensures r.Got? ==> |r.rest| < |s|
    decreases |s|, 3
  {
    var k := SkipWs(s);
    if At(k, 0) != '"' then Bad else
      var key := ReadString(k[1..]);
      if key.None? then Bad else
        var c := SkipWs(key.value.rest);
        if At(c, 0) != ':' then Bad else
          var value := ParseValue(strtod, SkipWs(c[1..]));
          if value.Bad? then Bad else Got(Pair(UpToNul(key.value.out), value.value), value.rest)
  }

  /** json_parse: one value and nothing but white space behind it. */
  function Parse(strtod: Strtod, text: string): Option<Json> {
    var r := ParseValue(strtod, text);
    if r.Bad? || SkipWs(r.rest) != "" then None else Some(r.value)
  }

  // ----- writing -----

  /** Text without white space; none if the writer of some string never ends. */
  function Print(j: Json): Option<string>
    decreases j
  {
    match j
    case JNull => Some("null")
    case JBool(b) => Some(if b then "true" else "false")
    case JNum(r) => Some(Decimal(if r.Floor < 0 then 0 else r.Floor))
    case JStr(s) => Quoted(s)
    case JArr(items) => Wrap("[", PrintItems(items), "]")
    case JObj(pairs) => Wrap("{", PrintPairs(pairs), "}")
  }

  function Wrap(open: string, inner: Option<string>, close: string): Option<string> {
    if inner.None? then None else Some(open + inner.value + close)
  }

  function Join(a: Option<string>, mid: string, b: Option<string>): Option<string> {
    if a.None? || b.None? then None else Some(a.value + mid + b.value)
  }

  function Quoted(s: string): Option<string> {
    Wrap("\"", Escape(s), "\"")
  }

  function PrintItems(items: seq<Json>): Option<string>
    decreases items
  {
    if items == [] then Some("")
    else if |items| == 1 then Print(items[0])
    else Join(Print(items[0]), ",", PrintItems(items[1..]))
  }

  function PrintPairs(pairs: seq<Pair>): Option<string>
    decreases pairs
  {
    if pairs == [] then Some("")
    else
      var first := Join(Quoted(pairs[0].key), ":", Print(pairs[0].value));
      if |pairs| == 1 then first else Join(first, ",", PrintPairs(pairs[1..]))
  }

  /** Numbers are integers that strtod reads exactly; strings are C strings. */
  predicate Printable(j: Json)
    decreases j
  {
    match j
    case JNum(r) => 0 <= r.Floor < EXACT && r == r.Floor as real
    case JStr(s) => IsCString(s)
    case JArr(items) => forall i | 0 <= i < |items| :: Printable(items[i])
    case JObj(pairs) => forall i | 0 <= i < |pairs| :: IsCString(pairs[i].key) && Printable(pairs[i].value)
    case _ => true
  }

  // ----- what comes back -----

  /** The value that is read after one was written, each string as it is received; none if reading fails. */
  function Receive(j: Json): Option<Json>
    decreases j
  {
    match j
    case JStr(s) => if Received(s).None? then None else Some(JStr(Received(s).value))
    case JArr(items) =>
      var r := ReceiveItems(items);
      if r.None? then None else Some(JArr(r.value))
    case JObj(pairs) =>
      var r := ReceivePairs(pairs);
      if r.None? then None else Some(JObj(r.value))
    case _ => Some(j)
  }

  function ReceiveItems(items: seq<Json>): Option<seq<Json>>
    decreases items
  {
    if items == [] then Some([]) else
      var a, b := Receive(items[0]), ReceiveItems(items[1..]);
      if a.None? || b.None? then None else Some([a.value] + b.value)
  }

  function ReceivePairs(pairs: seq<Pair>): Option<seq<Pair>>
    decreases pairs
  {
    if pairs == [] then Some([]) else
      var k, v, b := Received(pairs[0].key), Receive(pairs[0].value), ReceivePairs(pairs[1..]);
      if k.None? || v.None? || b.None? then None else Some([Pair(k.value, v.value)] + b.value)
  }
}
