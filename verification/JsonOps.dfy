/**
 * The reader and the writer of JSON text as they run: a buffer that grows
 * (src/builtins.c:1013-1171) and a position that moves through the text
 * (src/builtins.c:1304-1607).
 */
module JsonOps {
  import opened Common
  import opened Utf8
  import opened JsonString
  import opened JsonText

  // ----- writing -----

  class JsonBuf {
    var data: string

    constructor ()
      ensures data == ""
    {
      data := "";
    }

    /** jb_append_str and jb_append_char */
    method Append(s: string)
      modifies this
      ensures data == old(data) + s
    {
      data := data + s;
    }

    /** jb_append_json_string, where its loop ends. */
    method AppendJsonString(s: string)
      requires IsCString(s) && Escape(s).Some?
      modifies this
      ensures data == old(data) + Quoted(s).value
    {
      hide EscapeStep, Escape;
      Append("\"");
      var p := 0;
      ghost var written := "";
      EscapeNothing();
      while p < |s|
        invariant p <= |s| && Escape(s[p..]).Some?
        invariant written + Escape(s[p..]).value == Escape(s).value
        invariant data == old(data) + "\"" + written
        decreases |s| - p
      {
        EscapeOnce(s[p..]);
        var step := EscapeStep(s[p..]);
        assert s[p..][step.advance..] == s[p + step.advance..];
        Append(step.out);
        written := written + step.out;
        p := p + step.advance;
      }
      assert s[p..] == "" && written == Escape(s).value;
      Append("\"");
      assert data == old(data) + ("\"" + written + "\"");
    }
  }

  lemma EscapeNothing()
    ensures Escape("") == Some("")
  {
  }

  lemma EscapeOnce(s: string)
    requires s != "" && Escape(s).Some?
    ensures var step := EscapeStep(s);
            && 0 < step.advance <= |s| && Escape(s[step.advance..]).Some?
            && Escape(s).value == step.out + Escape(s[step.advance..]).value
  {
    hide EscapeStep;
    StepFits(s);
  }

  // ----- reading -----

  class JsonParser {
    const text: string
    var pos: nat

    constructor (text: string)
      ensures this.text == text && pos == 0
    {
      this.text := text;
      pos := 0;
    }

    ghost predicate Valid()
      reads this
    {
      pos <= |text|
    }

    /** What has not been read. */
    ghost function Rest(): string
      requires Valid()
      reads this
    {
      text[pos..]
    }

    /** json_peek */
    method Peek() returns (c: char)
      requires Valid()
      ensures c == At(Rest(), 0)
    {
      if pos >= |text| {
        return '\0';
      }
      return text[pos];
    }

    /** json_next */
    method Next() returns (c: char)
      requires Valid()
      modifies this
      ensures Valid() && c == At(old(Rest()), 0)
      ensures Rest() == if old(Rest()) == "" then "" else old(Rest())[1..]
    {
      if pos >= |text| {
        return '\0';
      }
      c := text[pos];
      pos := pos + 1;
    }

    /** json_skip_ws */
    method SkipSpace()
      requires Valid()
      modifies this
      ensures Valid() && Rest() == SkipWs(old(Rest()))
    {
      while pos < |text|
        invariant Valid() && SkipWs(Rest()) == SkipWs(old(Rest()))
        decreases |text| - pos
      {
        if !IsSpace(text[pos]) {
          break;
        }
        pos := pos + 1;
      }
    }

    /** The loop over the four digits of an escape. */
    method HexCode() returns (code: Option<nat>)
      requires Valid()
      modifies this
      ensures Valid() && code == FourHex(old(Rest()))
      ensures code.Some? ==> |old(Rest())| >= 4 && Rest() == old(Rest())[4..]
    {
      ghost var start := Rest();
      var n := 0;
      var i := 0;
      while i < 4
        invariant 0 <= i <= 4 && Valid()
        invariant n == Horner(start, i) && forall k | 0 <= k < i :: HexValue(At(start, k)) >= 0
        invariant i <= |start| && Rest() == start[i..]
      {
        var h := Next();
        var v := HexValue(h);
        if v < 0 {
          return None;
        }
        n := n * 16 + v;
        i := i + 1;
      }
      HornerFour(start);
      return Some(n);
    }

    /** One turn of the loop of json_parse_string_raw: a byte or an escape. */
    method ReadOne() returns (out: Option<string>)
      requires Valid() && pos < |text| && text[pos] != '"'
      modifies this
      ensures Valid() && out.Some? == ReadUnit(old(Rest())).Some?
      ensures out.Some? ==>
              out.value == ReadUnit(old(Rest())).value.out && Rest() == old(Rest())[ReadUnit(old(Rest())).value.len..]
    {
      hide FourHex;
      ghost var start := Rest();
      var c := Next();
      if c != '\\' {
        return Some([c]);
      }
      var e := Next();
      assert e == At(start, 1);
      if e == 'u' {
        assert Rest() == start[2..];
        var code := HexCode();
        if code.None? {
          return None;
        }
        FourHexFits(start[2..]);
        assert Rest() == start[6..];
        return Some(Encode(code.value));
      }
      var plain := Unescaped(e);
      if plain.None? {
        return None;
      }
      assert Rest() == start[2..];
      return Some([plain.value]);
    }

    /** json_parse_string_raw: the bytes up to the closing quote or the end of the text. */
    method ParseStringRaw() returns (out: Option<string>)
      requires Valid() && At(Rest(), 0) == '"'
      modifies this
      ensures Valid() && out.Some? == ReadString(old(Rest())[1..]).Some?
      ensures out.Some? ==> out.value == UpToNul(ReadString(old(Rest())[1..]).value.out)
      ensures out.Some? ==> Rest() == ReadString(old(Rest())[1..]).value.rest && pos > old(pos)
    {
      hide ReadUnit, UpToNul, ReadString;
      var quote := Next();
      ghost var start := Rest();
      var sb := "";
      ghost var first := ReadString(start);
      assert first == Behind("", first) by {
        BehindNothing(first);
      }
      while pos < |text|
        invariant Valid() && pos > old(pos)
        invariant first == Behind(sb, ReadString(Rest()))
        decreases |text| - pos
      {
        ghost var before := Rest();
        ReadStringStep(before);
        if text[pos] == '"' {
          var c := Next();
          assert sb + "" == sb;
          return Some(UpToNul(sb));
        }
        var unit := ReadOne();
        if unit.None? {
          return None;
        }
        BehindMore(sb, unit.value, ReadString(Rest()));
        sb := sb + unit.value;
      }
      ReadStringEnd();
      assert Rest() == "" && sb + "" == sb;
      return Some(UpToNul(sb));
    }

    /** json_parse_number */
    method ParseNumber(strtod: Strtod) returns (v: Option<Json>)
      requires Valid()
      modifies this
      ensures Valid()
      ensures v == if strtod(old(Rest())).len == 0 then None else Some(JNum(strtod(old(Rest())).value))
      ensures v.Some? ==> Rest() == old(Rest())[strtod(old(Rest())).len..] && pos > old(pos)
    {
      var n := strtod(text[pos..]);
      if n.len == 0 {
        return None;
      }
      pos := pos + n.len;
      return Some(JNum(n.value));
    }

    /** strncmp at the position, and the step over the word. */
    method Word(word: string) returns (ok: bool)
      requires Valid() && word != ""
      modifies this
      ensures Valid() && ok == StartsWith(old(Rest()), word)
      ensures Rest() == if ok then old(Rest())[|word|..] else old(Rest())
      ensures ok ==> pos > old(pos)
      ensures !ok ==> pos == old(pos)
    {
      ok := StartsWith(text[pos..], word);
      if ok {
        pos := pos + |word|;
      }
    }

    /** json_parse_value */
    method ParseOne(strtod: Strtod) returns (v: Option<Json>)
      requires Valid()
      modifies this
      ensures Valid() && v == ValueOf(ParseValue(strtod, old(Rest())))
      ensures v.Some? ==> Rest() == ParseValue(strtod, old(Rest())).rest && pos > old(pos)
      decreases |text| - pos, 2
    {
      hide ReadString, UpToNul, ParseItems, ParsePairs;
      SkipSpace();
      var c := Peek();
      if c == '"' {
        var s := ParseStringRaw();
        return if s.None? then None else Some(JStr(s.value));
      }
      if c == '{' {
        v := ParseObject(strtod);
        return;
      }
      if c == '[' {
        v := ParseArray(strtod);
        return;
      }
      if c == '-' || '0' <= c <= '9' {
        v := ParseNumber(strtod);
        return;
      }
      v := Literal();
    }

    /** The words that are values. */
    method Literal() returns (v: Option<Json>)
      requires Valid()
      modifies this
      ensures Valid()
      ensures var t := old(Rest());
              v == if StartsWith(t, "true") then Some(JBool(true))
                   else if StartsWith(t, "false") then Some(JBool(false))
                   else if StartsWith(t, "null") then Some(JNull)
                   else None
      ensures v.Some? ==> |old(Rest())| >= 4 && pos > old(pos)
      ensures v.Some? && v.value != JBool(false) ==> Rest() == old(Rest())[4..]
      ensures v == Some(JBool(false)) ==> |old(Rest())| >= 5 && Rest() == old(Rest())[5..]
    {
      var yes := Word("true");
      if yes {
        return Some(JBool(true));
      }
      yes := Word("false");
      if yes {
        return Some(JBool(false));
      }
      yes := Word("null");
      return if yes then Some(JNull) else None;
    }

    /** json_parse_array */
    method ParseArray(strtod: Strtod) returns (v: Option<Json>)
      requires Valid() && At(Rest(), 0) == '[' && SkipWs(Rest()) == Rest()
      modifies this
      ensures Valid() && v == ValueOf(ParseValue(strtod, old(Rest())))
      ensures v.Some? ==> Rest() == ParseValue(strtod, old(Rest())).rest && pos > old(pos)
      decreases |text| - pos, 1
    {
      hide ParseItems, ReadString, UpToNul;
      var open := Next();
      SkipSpace();
      var c := Peek();
      if c == ']' {
        c := Next();
        return Some(JArr([]));
      }
      var items := Items(strtod);
      return if items.None? then None else Some(JArr(items.value));
    }

    /** The loop over the elements of an array. */
    method Items(strtod: Strtod) returns (r: Option<seq<Json>>)
      requires Valid()
      modifies this
      ensures Valid() && r == ValueOf(ParseItems(strtod, old(Rest())))
      ensures r.Some? ==> Rest() == ParseItems(strtod, old(Rest())).rest
      ensures r.Some? ==> pos >= old(pos)
      decreases |text| - pos, 3
    {
      hide ParseItems, ParseValue;
      ghost var all := ParseItems(strtod, Rest());
      var items: seq<Json> := [];
      AfterNothing(all);
      while pos < |text|
        invariant Valid() && pos >= old(pos)
        invariant all == After(items, ParseItems(strtod, Rest()))
        decreases |text| - pos
      {
        ItemsStep(strtod, Rest());
        SkipSpace();
        var item := ParseOne(strtod);
        if item.None? {
          return None;
        }
        SkipSpace();
        var c := Next();
        if c == ']' {
          return Some(items + [item.value]);
        }
        if c != ',' {
          return None;
        }
        AfterMore(items, item.value, ParseItems(strtod, Rest()));
        items := items + [item.value];
      }
      ItemsEnd(strtod);
      assert Rest() == "" && items + [] == items;
      return Some(items);
    }

    /** json_parse_object */
    method ParseObject(strtod: Strtod) returns (v: Option<Json>)
      requires Valid() && At(Rest(), 0) == '{' && SkipWs(Rest()) == Rest()
      modifies this
      ensures Valid() && v == ValueOf(ParseValue(strtod, old(Rest())))
      ensures v.Some? ==> Rest() == ParseValue(strtod, old(Rest())).rest && pos > old(pos)
      decreases |text| - pos, 1
    {
      hide ParsePairs, ReadString, UpToNul;
      var open := Next();
      SkipSpace();
      var c := Peek();
      if c == '}' {
        c := Next();
        return Some(JObj([]));
      }
      var pairs := Pairs(strtod);
      return if pairs.None? then None else Some(JObj(pairs.value));
    }

    /** The loop over the pairs of an object. */
    method Pairs(strtod: Strtod) returns (r: Option<seq<Pair>>)
      requires Valid()
      modifies this
      ensures Valid() && r == ValueOf(ParsePairs(strtod, old(Rest())))
      ensures r.Some? ==> Rest() == ParsePairs(strtod, old(Rest())).rest
      ensures r.Some? ==> pos >= old(pos)
      decreases |text| - pos, 4
    {
      hide ParsePairs, ParsePair;
      ghost var all := ParsePairs(strtod, Rest());
      var pairs: seq<Pair> := [];
      AfterNothing(all);
      while pos < |text|
        invariant Valid() && pos >= old(pos)
        invariant all == After(pairs, ParsePairs(strtod, Rest()))
        decreases |text| - pos
      {
        PairsStep(strtod, Rest());
        var pair := OnePair(strtod);
        if pair.None? {
          return None;
        }
        SkipSpace();
        var c := Next();
        if c == '}' {
          return Some(pairs + [pair.value]);
        }
        if c != ',' {
          return None;
        }
        AfterMore(pairs, pair.value, ParsePairs(strtod, Rest()));
        pairs := pairs + [pair.value];
      }
      PairsEnd(strtod);
      assert Rest() == "" && pairs + [] == pairs;
      return Some(pairs);
    }

    /** A key, the colon and the value. */
    method OnePair(strtod: Strtod) returns (pair: Option<Pair>)
      requires Valid()
      modifies this
      ensures Valid() && pair == ValueOf(ParsePair(strtod, old(Rest())))
      ensures pair.Some? ==> Rest() == ParsePair(strtod, old(Rest())).rest && pos > old(pos)
      decreases |text| - pos, 3
    {
      hide ParseValue, ReadString, UpToNul;
      SkipSpace();
      var c := Peek();
      if c != '"' {
        return None;
      }
      var key := ParseStringRaw();
      if key.None? {
        return None;
      }
      SkipSpace();
      c := Next();
      if c != ':' {
        return None;
      }
      SkipSpace();
      var val := ParseOne(strtod);
      return if val.None? then None else Some(Pair(key.value, val.value));
    }
  }

  /** json_parse */
  method ParseText(strtod: Strtod, text: string) returns (v: Option<Json>)
    ensures v == Parse(strtod, text)
  {
    hide ParseValue;
    var p := new JsonParser(text);
    assert p.Rest() == text;
    v := p.ParseOne(strtod);
    if v.None? {
      return None;
    }
    p.SkipSpace();
    if p.pos < |text| {
      return None;
    }
  }

  function ValueOf<T>(r: Found<T>): Option<T> {
    if r.Bad? then None else Some(r.value)
  }

  /** What was collected, and what the rest of the text adds. */
  ghost function After<T>(done: seq<T>, more: Found<seq<T>>): Found<seq<T>> {
    if more.Bad? then Bad else Got(done + more.value, more.rest)
  }

  lemma AfterNothing<T>(more: Found<seq<T>>)
    ensures After([], more) == more
  {
    if more.Got? {
      assert [] + more.value == more.value;
    }
  }

  lemma AfterMore<T>(done: seq<T>, x: T, more: Found<seq<T>>)
    ensures After(done, After([x], more)) == After(done + [x], more)
  {
    if more.Got? {
      assert done + ([x] + more.value) == done + [x] + more.value;
    }
  }

  lemma ItemsStep(strtod: Strtod, s: string)
    requires s != ""
    ensures var item := ParseValue(strtod, SkipWs(s));
            ParseItems(strtod, s) ==
            if item.Bad? then Bad else
              var t := SkipWs(item.rest);
              if At(t, 0) == ']' then Got([item.value], t[1..])
              else if At(t, 0) != ',' then Bad
              else After([item.value], ParseItems(strtod, t[1..]))
  {
    hide ParseValue;
  }

  lemma ItemsEnd(strtod: Strtod)
    ensures ParseItems(strtod, "") == Got([], "")
  {
  }

  lemma PairsStep(strtod: Strtod, s: string)
    requires s != ""
    ensures var pair := ParsePair(strtod, s);
            ParsePairs(strtod, s) ==
            if pair.Bad? then Bad else
              var t := SkipWs(pair.rest);
              if At(t, 0) == '}' then Got([pair.value], t[1..])
              else if At(t, 0) != ',' then Bad
              else After([pair.value], ParsePairs(strtod, t[1..]))
  {
    hide ParsePair;
  }

  lemma PairsEnd(strtod: Strtod)
    ensures ParsePairs(strtod, "") == Got([], "")
  {
  }

  lemma ReadStringStep(s: string)
    requires s != ""
    ensures s[0] == '"' ==> ReadString(s) == Some(Read("", s[1..]))
    ensures s[0] != '"' && ReadUnit(s).None? ==> ReadString(s).None?
    ensures s[0] != '"' && ReadUnit(s).Some? ==>
              ReadString(s) == Behind(ReadUnit(s).value.out, ReadString(s[ReadUnit(s).value.len..]))
  {
    hide ReadUnit;
  }

  lemma ReadStringEnd()
    ensures ReadString("") == Some(Read("", ""))
  {
  }

  lemma BehindNothing(r: Option<Read>)
    ensures Behind("", r) == r
  {
    if r.Some? {
      assert "" + r.value.out == r.value.out;
    }
  }

  lemma BehindMore(a: string, b: string, r: Option<Read>)
    ensures Behind(a, Behind(b, r)) == Behind(a + b, r)
  {
    if r.Some? {
      assert a + (b + r.value.out) == a + b + r.value.out;
    }
  }

  /** The value of the first i digits. */
  function Horner(s: string, i: nat): int {
    if i == 0 then 0 else Horner(s, i - 1) * 16 + HexValue(At(s, i - 1))
  }

  lemma HornerFour(s: string)
    ensures Horner(s, 4) ==
            ((HexValue(At(s, 0)) * 16 + HexValue(At(s, 1))) * 16 + HexValue(At(s, 2))) * 16 + HexValue(At(s, 3))
  {
    assert Horner(s, 1) == HexValue(At(s, 0));
    assert Horner(s, 2) == HexValue(At(s, 0)) * 16 + HexValue(At(s, 1));
  }

  /** What was collected, and what the rest of the string adds. */
  ghost function Behind(sb: string, more: Option<Read>): Option<Read> {
    if more.None? then None else Some(Read(sb + more.value.out, more.value.rest))
  }
}
