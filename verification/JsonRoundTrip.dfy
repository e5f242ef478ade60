/** The reader of JSON text gets back what the serializer's text says. */
module JsonRoundTrip {
  import opened Common
  import opened Utf8
  import opened JsonString
  import opened JsonText

  // ----- strings -----

  lemma {:induction false} ReceivedIsCString(s: string)
    requires IsCString(s) && Received(s).Some?
    ensures IsCString(Received(s).value)
    decreases |s|
  {
    hide DecodeFirst, Encode, IsSurrogate;
    if s != "" {
      if DecodeFirst(s).None? {
        ReceivedIsCString(s[1..]);
        ReplacementIsCString();
      } else {
        EncodeDecode(s);
        ReceivedIsCString(s[DecodeFirst(s).value.len..]);
      }
    }
  }

  lemma ReplacementIsCString()
    ensures IsCString(Encode(REPLACEMENT))
  {
  }

  lemma {:induction false} WholeUpToNul(s: string)
    requires IsCString(s)
    ensures UpToNul(s) == s
  {
    if s != "" {
      WholeUpToNul(s[1..]);
    }
  }

  /** What the reader finds for what was written. */
  function Answer<T>(r: Option<T>, rest: string): Found<T> {
    match r
    case None => Bad
    case Some(v) => Got(v, rest)
  }

  /** A quoted string, read from behind its opening quote. */
  lemma QuotedRead(s: string, rest: string)
    requires IsCString(s) && Quoted(s).Some?
    ensures Quoted(s).value != "" && Quoted(s).value[0] == '"'
    ensures var text := (Quoted(s).value + rest)[1..];
            ReadString(text) == match Received(s) { case None => None case Some(t) => Some(Read(t, rest)) }
    ensures Received(s).Some? ==> UpToNul(Received(s).value) == Received(s).value
  {
    hide ReadString, Received, Escape, UpToNul;
    WriteThenRead(s, rest);
    assert (Quoted(s).value + rest)[1..] == Escape(s).value + "\"" + rest;
    if Received(s).Some? {
      ReceivedIsCString(s);
      WholeUpToNul(Received(s).value);
    }
  }

  // ----- how texts begin -----

  lemma {:induction false} DecimalHead(n: nat)
    ensures Decimal(n) != "" && '0' <= Decimal(n)[0] <= '9'
  {
    if n >= 10 {
      DecimalHead(n / 10);
    }
  }

  predicate StartsValue(c: char) {
    c == '"' || c == '[' || c == '{' || c == 't' || c == 'f' || c == 'n' || '0' <= c <= '9'
  }

  lemma PrintHead(j: Json)
    requires Print(j).Some?
    ensures Print(j).value != "" && StartsValue(Print(j).value[0])
  {
    hide Escape, Decimal;
    if j.JNum? {
      DecimalHead(if j.num.Floor < 0 then 0 else j.num.Floor);
    }
  }

  lemma NoSpace(text: string)
    requires text != "" && !IsSpace(text[0])
    ensures SkipWs(text) == text
  {
  }

  // ----- values without parts -----

  lemma LiteralPrinted(strtod: Strtod, j: Json, rest: string)
    requires j.JNull? || j.JBool?
    ensures ParseValue(strtod, Print(j).value + rest) == Got(j, rest)
  {
    hide ReadString;
    var text := Print(j).value + rest;
    NoSpace(text);
    if j.JNull? {
      assert text[..4] == "null" && text[4..] == rest;
    } else if j.b {
      assert text[..4] == "true" && text[4..] == rest;
    } else {
      assert text[..5] == "false" && text[5..] == rest;
    }
  }

  lemma NumberPrinted(strtod: Strtod, j: Json, rest: string)
    requires ReadsIntegers(strtod) && j.JNum? && Printable(j) && EndsNumber(rest)
    ensures ParseValue(strtod, Print(j).value + rest) == Got(j, rest)
  {
    hide ReadString, Decimal;
    var n: nat := j.num.Floor;
    DecimalHead(n);
    var text := Decimal(n) + rest;
    NoSpace(text);
    assert strtod(text) == Number(|Decimal(n)|, n as real);
    assert text[|Decimal(n)|..] == rest;
  }

  lemma StringPrinted(strtod: Strtod, j: Json, rest: string)
    requires j.JStr? && Printable(j) && Print(j).Some?
    ensures ParseValue(strtod, Print(j).value + rest) == Answer(Receive(j), rest)
  {
    hide ReadString, Received, Escape, UpToNul, Quoted;
    QuotedRead(j.s, rest);
    NoSpace(Print(j).value + rest);
  }

  // ----- arrays -----

  lemma ArrayPrinted(strtod: Strtod, j: Json, rest: string)
    requires j.JArr? && Print(j).Some?
    requires j.items != [] ==>
             ParseItems(strtod, PrintItems(j.items).value + "]" + rest) == Answer(ReceiveItems(j.items), rest)
    ensures ParseValue(strtod, Print(j).value + rest) == Answer(Receive(j), rest)
  {
    hide ReadString, ParseItems, PrintItems, PrintPairs, ReceiveItems, ReceivePairs, Escape;
    var text := Print(j).value + rest;
    NoSpace(text);
    var inner := PrintItems(j.items).value + "]" + rest;
    assert text[1..] == inner;
    if j.items == [] {
      NoItems();
      assert inner == "]" + rest;
      NoSpace(inner);
      assert inner[1..] == rest;
    } else {
      ItemsHead(j.items);
      NoSpace(inner);
    }
  }

  lemma NoItems()
    ensures PrintItems([]) == Some("") && ReceiveItems([]) == Some([])
  {
  }

  lemma ReceiveFirst(items: seq<Json>)
    requires items != []
    ensures |items| == 1 && Receive(items[0]).None? ==> ReceiveItems(items).None?
    ensures |items| > 1 ==>
              ReceiveItems(items) ==
              if Receive(items[0]).None? || ReceiveItems(items[1..]).None? then None
              else Some([Receive(items[0]).value] + ReceiveItems(items[1..]).value)
    ensures |items| == 1 && Receive(items[0]).Some? ==> ReceiveItems(items) == Some([Receive(items[0]).value])
  {
    hide Receive;
    if |items| == 1 && Receive(items[0]).Some? {
      assert [Receive(items[0]).value] + [] == [Receive(items[0]).value];
    }
  }

  lemma ItemsHead(items: seq<Json>)
    requires items != [] && PrintItems(items).Some?
    ensures PrintItems(items).value != "" && StartsValue(PrintItems(items).value[0])
  {
    hide Print;
    PrintHead(items[0]);
  }

  /** One element and the comma or bracket behind it. */
  lemma ItemStep(strtod: Strtod, first: Json, s: string, after: string)
    requires s != "" && !IsSpace(s[0]) && ParseValue(strtod, s) == Answer(Receive(first), after)
    requires after != "" && (after[0] == ',' || after[0] == ']')
    ensures ParseItems(strtod, s) ==
            if Receive(first).None? then Bad
            else if after[0] == ']' then Got([Receive(first).value], after[1..])
            else if ParseItems(strtod, after[1..]).Bad? then Bad
            else Got([Receive(first).value] + ParseItems(strtod, after[1..]).value, ParseItems(strtod, after[1..]).rest)
  {
    hide ParseValue, Receive;
    NoSpace(s);
    NoSpace(after);
  }

  lemma {:induction false} ItemsPrinted(strtod: Strtod, items: seq<Json>, rest: string)
    requires ReadsIntegers(strtod) && items != [] && PrintItems(items).Some?
    requires forall i | 0 <= i < |items| :: Printable(items[i])
    ensures ParseItems(strtod, PrintItems(items).value + "]" + rest) == Answer(ReceiveItems(items), rest)
    decreases items
  {
    hide ParseValue, ParseItems, Receive, ReceiveItems, Print, PrintItems, Printable;
    ReceiveFirst(items);
    ItemsText(items, rest);
    PrintHead(items[0]);
    var after := AfterItem(items, rest);
    Printed(strtod, items[0], after);
    ItemStep(strtod, items[0], Print(items[0]).value + after, after);
    if |items| > 1 {
      ItemsPrinted(strtod, items[1..], rest);
    }
  }

  /** The text behind the first element. */
  function AfterItem(items: seq<Json>, rest: string): string
    requires items != [] && PrintItems(items).Some?
  {
    if |items| == 1 then "]" + rest else "," + (PrintItems(items[1..]).value + "]" + rest)
  }

  lemma ItemsText(items: seq<Json>, rest: string)
    requires items != [] && PrintItems(items).Some?
    ensures Print(items[0]).Some? && (|items| > 1 ==> PrintItems(items[1..]).Some?)
    ensures PrintItems(items).value + "]" + rest == Print(items[0]).value + AfterItem(items, rest)
    ensures var after := AfterItem(items, rest);
            after != "" && after[0] == (if |items| == 1 then ']' else ',')
            && after[1..] == if |items| == 1 then rest else PrintItems(items[1..]).value + "]" + rest
  {
    hide Print, PrintItems;
    FirstItemText(items);
    if |items| == 1 {
      assert Print(items[0]).value + "]" + rest == Print(items[0]).value + ("]" + rest);
    } else {
      RegroupItems(Print(items[0]).value, PrintItems(items[1..]).value, rest);
    }
  }

  lemma FirstItemText(items: seq<Json>)
    requires items != [] && PrintItems(items).Some?
    ensures Print(items[0]).Some? && (|items| > 1 ==> PrintItems(items[1..]).Some?)
    ensures PrintItems(items).value ==
            if |items| == 1 then Print(items[0]).value else Print(items[0]).value + "," + PrintItems(items[1..]).value
  {
    hide Print;
  }

  lemma RegroupItems(v: string, more: string, rest: string)
    ensures v + "," + more + "]" + rest == v + ("," + (more + "]" + rest))
    ensures ("," + (more + "]" + rest))[1..] == more + "]" + rest
  {
  }

  // ----- objects -----

  lemma ObjectPrinted(strtod: Strtod, j: Json, rest: string)
    requires j.JObj? && Print(j).Some?
    requires j.pairs != [] ==>
             ParsePairs(strtod, PrintPairs(j.pairs).value + "}" + rest) == Answer(ReceivePairs(j.pairs), rest)
    ensures ParseValue(strtod, Print(j).value + rest) == Answer(Receive(j), rest)
  {
    hide ReadString, ParsePairs, PrintItems, PrintPairs, ReceiveItems, ReceivePairs, Escape;
    var text := Print(j).value + rest;
    NoSpace(text);
    var inner := PrintPairs(j.pairs).value + "}" + rest;
    assert text[1..] == inner;
    if j.pairs == [] {
      NoPairs();
      assert inner == "}" + rest;
      NoSpace(inner);
      assert inner[1..] == rest;
    } else {
      PairsHead(j.pairs);
      NoSpace(inner);
    }
  }

  lemma NoPairs()
    ensures PrintPairs([]) == Some("") && ReceivePairs([]) == Some([])
  {
  }

  function ReceivedPair(pair: Pair): Option<Pair> {
    if Received(pair.key).None? || Receive(pair.value).None? then None
    else Some(Pair(Received(pair.key).value, Receive(pair.value).value))
  }

  lemma ReceiveFirstPair(pairs: seq<Pair>)
    requires pairs != []
    ensures |pairs| == 1 && ReceivedPair(pairs[0]).None? ==> ReceivePairs(pairs).None?
    ensures |pairs| > 1 ==>
              ReceivePairs(pairs) ==
              if ReceivedPair(pairs[0]).None? || ReceivePairs(pairs[1..]).None? then None
              else Some([ReceivedPair(pairs[0]).value] + ReceivePairs(pairs[1..]).value)
    ensures |pairs| == 1 && ReceivedPair(pairs[0]).Some? ==> ReceivePairs(pairs) == Some([ReceivedPair(pairs[0]).value])
  {
    hide Receive, Received;
    if |pairs| == 1 && ReceivedPair(pairs[0]).Some? {
      assert [ReceivedPair(pairs[0]).value] + [] == [ReceivedPair(pairs[0]).value];
    }
  }

  lemma PairsHead(pairs: seq<Pair>)
    requires pairs != [] && PrintPairs(pairs).Some?
    ensures PrintPairs(pairs).value != "" && PrintPairs(pairs).value[0] == '"'
  {
    hide Print, Escape;
  }

  /** A key, its value, and the comma or brace behind them. */
  lemma PairStep(strtod: Strtod, pair: Pair, s: string, colon: string, after: string)
    requires s != "" && s[0] == '"'
    requires ReadString(s[1..]) == match Received(pair.key) { case None => None case Some(t) => Some(Read(t, colon)) }
    requires Received(pair.key).Some? ==> UpToNul(Received(pair.key).value) == Received(pair.key).value
    requires colon != "" && colon[0] == ':' && colon[1..] != "" && !IsSpace(colon[1])
    requires ParseValue(strtod, colon[1..]) == Answer(Receive(pair.value), after)
    requires after != "" && (after[0] == ',' || after[0] == '}')
    ensures ParsePairs(strtod, s) ==
            if ReceivedPair(pair).None? then Bad
            else
              var p := ReceivedPair(pair).value;
              if after[0] == '}' then Got([p], after[1..])
              else if ParsePairs(strtod, after[1..]).Bad? then Bad
              else Got([p] + ParsePairs(strtod, after[1..]).value, ParsePairs(strtod, after[1..]).rest)
  {
    hide ParseValue, Receive, ReadString, Received, UpToNul;
    NoSpace(s);
    NoSpace(colon);
    NoSpace(colon[1..]);
    NoSpace(after);
  }

  lemma {:induction false} PairsPrinted(strtod: Strtod, pairs: seq<Pair>, rest: string)
    requires ReadsIntegers(strtod) && pairs != [] && PrintPairs(pairs).Some?
    requires forall i | 0 <= i < |pairs| :: IsCString(pairs[i].key) && Printable(pairs[i].value)
    ensures ParsePairs(strtod, PrintPairs(pairs).value + "}" + rest) == Answer(ReceivePairs(pairs), rest)
    decreases pairs
  {
    hide ParseValue, ParsePairs, Receive, ReceivePairs, ReceivedPair, Print, PrintPairs, Printable, Quoted,
         ReadString, Received, UpToNul;
    ReceiveFirstPair(pairs);
    PairsText(pairs, rest);
    var value, after := Print(pairs[0].value).value, AfterPair(pairs, rest);
    var colon := ":" + (value + after);
    PrintHead(pairs[0].value);
    QuotedRead(pairs[0].key, colon);
    assert colon[1..] == value + after;
    Printed(strtod, pairs[0].value, after);
    PairStep(strtod, pairs[0], Quoted(pairs[0].key).value + colon, colon, after);
    if |pairs| > 1 {
      PairsPrinted(strtod, pairs[1..], rest);
    }
  }

  /** The text behind the first pair. */
  function AfterPair(pairs: seq<Pair>, rest: string): string
    requires pairs != [] && PrintPairs(pairs).Some?
  {
    if |pairs| == 1 then "}" + rest else "," + (PrintPairs(pairs[1..]).value + "}" + rest)
  }

  lemma PairsText(pairs: seq<Pair>, rest: string)
    requires pairs != [] && PrintPairs(pairs).Some?
    ensures Quoted(pairs[0].key).Some? && Print(pairs[0].value).Some? && (|pairs| > 1 ==> PrintPairs(pairs[1..]).Some?)
    ensures PrintPairs(pairs).value + "}" + rest ==
            Quoted(pairs[0].key).value + (":" + (Print(pairs[0].value).value + AfterPair(pairs, rest)))
    ensures var after := AfterPair(pairs, rest);
            after != "" && after[0] == (if |pairs| == 1 then '}' else ',')
            && after[1..] == if |pairs| == 1 then rest else PrintPairs(pairs[1..]).value + "}" + rest
  {
    hide Quoted, Print, PrintPairs;
    FirstPairText(pairs);
    var k, v := Quoted(pairs[0].key).value, Print(pairs[0].value).value;
    if |pairs| == 1 {
      Regroup1(k, v, rest);
    } else {
      Regroup2(k, v, PrintPairs(pairs[1..]).value, rest);
    }
  }

  lemma FirstPairText(pairs: seq<Pair>)
    requires pairs != [] && PrintPairs(pairs).Some?
    ensures Quoted(pairs[0].key).Some? && Print(pairs[0].value).Some? && (|pairs| > 1 ==> PrintPairs(pairs[1..]).Some?)
    ensures var head := Quoted(pairs[0].key).value + ":" + Print(pairs[0].value).value;
            PrintPairs(pairs).value == if |pairs| == 1 then head else head + "," + PrintPairs(pairs[1..]).value
  {
    hide Quoted, Print;
  }

  lemma Regroup1(k: string, v: string, rest: string)
    ensures k + ":" + v + "}" + rest == k + (":" + (v + ("}" + rest)))
    ensures ("}" + rest)[1..] == rest
  {
  }

  lemma Regroup2(k: string, v: string, more: string, rest: string)
    ensures k + ":" + v + "," + more + "}" + rest == k + (":" + (v + ("," + (more + "}" + rest))))
    ensures ("," + (more + "}" + rest))[1..] == more + "}" + rest
  {
  }

  // ----- every value -----

  /** Reading the text of a value gives the value with its strings as they are received, and leaves the rest. */
  lemma {:induction false} Printed(strtod: Strtod, j: Json, rest: string)
    requires ReadsIntegers(strtod) && Printable(j) && Print(j).Some? && EndsNumber(rest)
    ensures ParseValue(strtod, Print(j).value + rest) == Answer(Receive(j), rest)
    decreases j
  {
    hide ParseValue, ParseItems, ParsePairs, ReceiveItems, ReceivePairs;
    match j {
      case JNull => LiteralPrinted(strtod, j, rest);
      case JBool(_) => LiteralPrinted(strtod, j, rest);
      case JNum(_) => NumberPrinted(strtod, j, rest);
      case JStr(_) => StringPrinted(strtod, j, rest);
      case JArr(items) =>
        if items != [] {
          ItemsPrinted(strtod, items, rest);
        }
        ArrayPrinted(strtod, j, rest);
      case JObj(pairs) =>
        if pairs != [] {
          PairsPrinted(strtod, pairs, rest);
        }
        ObjectPrinted(strtod, j, rest);
    }
  }

  /** The whole text. */
  lemma ParsePrinted(strtod: Strtod, j: Json)
    requires ReadsIntegers(strtod) && Printable(j) && Print(j).Some?
    ensures Parse(strtod, Print(j).value) == Receive(j)
  {
    hide ParseValue, Receive, Print, Printable;
    Printed(strtod, j, "");
    assert Print(j).value + "" == Print(j).value;
  }
}
