/**
 * Strings in JSON text (section 7 of RFC 8259): the writer jb_append_json_string
 * (src/builtins.c:1089-1171) and the reader json_parse_string_raw (src/builtins.c:1370-1442).
 */
module JsonString {
  import opened Common
  import opened Utf8

  // ----- hexadecimal escapes -----

  function HexDigit(d: nat): char
    requires d < 16
  {
    if d < 10 then ('0' as int + d) as char else ('a' as int + d - 10) as char
  }

  function HexValue(h: char): int {
    if '0' <= h <= '9' then h as int - '0' as int
    else if 'a' <= h <= 'f' then h as int - 'a' as int + 10
    else if 'A' <= h <= 'F' then h as int - 'A' as int + 10
    else -1
  }

  /** %04x */
  function Hex4(n: nat): (s: string)
    requires n < 0x10000
    ensures |s| == 4
  {
    [HexDigit(n / 4096), HexDigit(n / 256 % 16), HexDigit(n / 16 % 16), HexDigit(n % 16)]
  }

  /** %08x */
  function Hex8(n: nat): string
    requires n < 0x1_0000_0000
  {
    Hex4(n / 0x10000) + Hex4(n % 0x10000)
  }

  /** The four digits from the start of the text on. */
  function FourHex(s: string): Option<nat> {
    var a, b, c, d := HexValue(At(s, 0)), HexValue(At(s, 1)), HexValue(At(s, 2)), HexValue(At(s, 3));
    if a < 0 || b < 0 || c < 0 || d < 0 then None else Some(((a * 16 + b) * 16 + c) * 16 + d)
  }

  lemma HexOfDigit(d: nat)
    requires d < 16
    ensures HexValue(HexDigit(d)) == d
  {
  }

  lemma HexSplit(n: nat)
    requires n < 0x10000
    ensures ((n / 4096 * 16 + n / 256 % 16) * 16 + n / 16 % 16) * 16 + n % 16 == n
  {
    var p, q := n / 16, n / 256;
    assert q == p / 16 && n / 4096 == q / 16;
  }

  lemma Hex4Read(n: nat, rest: string)
    requires n < 0x10000
    ensures FourHex(Hex4(n) + rest) == Some(n)
  {
    hide HexDigit, HexValue;
    HexOfDigit(n / 4096);
    HexOfDigit(n / 256 % 16);
    HexOfDigit(n / 16 % 16);
    HexOfDigit(n % 16);
    HexSplit(n);
    var s := Hex4(n) + rest;
    assert At(s, 0) == HexDigit(n / 4096) && At(s, 1) == HexDigit(n / 256 % 16);
    assert At(s, 2) == HexDigit(n / 16 % 16) && At(s, 3) == HexDigit(n % 16);
  }

  // ----- writing -----

  const BACKSPACE := '\U{0008}'
  const FORM_FEED := '\U{000C}'

  /** One turn of the writer's loop: what it appends, and how many bytes it moves on. */
  datatype Step = Step(out: string, advance: nat)

  function ShortEscape(c: char): Option<char> {
    if c == '"' then Some('"')
    else if c == '\\' then Some('\\')
    else if c == BACKSPACE then Some('b')
    else if c == FORM_FEED then Some('f')
    else if c == '\n' then Some('n')
    else if c == '\r' then Some('r')
    else if c == '\t' then Some('t')
    else None
  }

  const REPLACEMENT: nat := 0xFFFD

  /** The replacement for an encoded surrogate half does not move on. */
  function EscapeStep(s: string): (step: Step)
    requires s != ""
  {
    if ShortEscape(s[0]).Some? then Step(['\\', ShortEscape(s[0]).value], 1)
    else if Code(s, 0) < 0x20 then Step("\\u" + Hex4(Code(s, 0)), 1)
    else
      var d := DecodeFirst(s);
      if d.None? then Step("\\u" + Hex4(REPLACEMENT), 1)
      else if IsSurrogate(d.value.cp) then Step("\\u" + Hex4(REPLACEMENT), 0)
      else if d.value.cp < 0x80 then Step([Byte(d.value.cp)], d.value.len)
      else if d.value.cp <= 0xFFFF then Step("\\u" + Hex4(d.value.cp), d.value.len)
      else if d.value.cp <= MAX_CODE_POINT then Step("\\U" + Hex8(d.value.cp), d.value.len)
      else assert false by { EncodeDecode(s); } Step("", 0)
  }

  lemma StepFits(s: string)
    requires s != ""
    ensures EscapeStep(s).advance <= |s|
  {
    if DecodeFirst(s).Some? {
      EncodeDecode(s);
    }
  }

  /** What is written between the quotes; none if the writer never gets to the end. */
  function Escape(s: string): (e: Option<string>)
    decreases |s|
  {
    if s == "" then Some("") else
      StepFits(s);
      var step := EscapeStep(s);
      if step.advance == 0 then None else
        var rest := Escape(s[step.advance..]);
        if rest.None? then None else Some(step.out + rest.value)
  }

  // ----- reading -----

  /** One turn of the reader's loop: the bytes it appends, and how many it has read. */
  datatype Unit = Unit(out: string, len: nat)

  function ReadUnit(s: string): (u: Option<Unit>)
    requires s != ""
    ensures u.Some? ==> 1 <= u.value.len <= |s|
  {
    if s[0] != '\\' then Some(Unit([s[0]], 1))
    else if At(s, 1) == 'u' then
      var code := FourHex(s[2..]);
      if code.None? then None else
        FourHexFits(s[2..]);
        Some(Unit(Encode(code.value), 6))
    else if Unescaped(At(s, 1)).None? then None
    else Some(Unit([Unescaped(At(s, 1)).value], 2))
  }

  /** The escapes of one character. */
  function Unescaped(e: char): (c: Option<char>)
    ensures c.Some? ==> e != '\0'
  {
    match e
    case '"' => Some('"')
    case '\\' => Some('\\')
    case '/' => Some('/')
    case 'b' => Some(BACKSPACE)
    case 'f' => Some(FORM_FEED)
    case 'n' => Some('\n')
    case 'r' => Some('\r')
    case 't' => Some('\t')
    case _ => None
  }

  lemma FourHexFits(s: string)
    requires FourHex(s).Some?
    ensures |s| >= 4 && FourHex(s).value < 0x10000
  {
  }

  datatype Read = Read(out: string, rest: string)

  /** From behind the opening quote up to the closing one, or to the end of the text. */
  function ReadString(s: string): (r: Option<Read>)
    ensures r.Some? ==> |r.value.rest| <= |s|
    decreases |s|
  {
    if s == "" then Some(Read("", ""))
    else if s[0] == '"' then Some(Read("", s[1..]))
    else
      var u := ReadUnit(s);
      if u.None? then None else
        var more := ReadString(s[u.value.len..]);
        if more.None? then None else Some(Read(u.value.out + more.value.out, more.value.rest))
  }

  // ----- what comes back -----

  /** What is read after a string was written; none if nothing is. */
  function Received(s: string): (r: Option<string>)
    decreases |s|
  {
    if s == "" then Some("") else
      var d := DecodeFirst(s);
      if d.None? then Prepend(Encode(REPLACEMENT), Received(s[1..])) else
        EncodeDecode(s);
        if IsSurrogate(d.value.cp) || d.value.cp > 0xFFFF then None
        else Prepend(s[..d.value.len], Received(s[d.value.len..]))
  }

  function Prepend(a: string, b: Option<string>): Option<string> {
    if b.None? then None else Some(a + b.value)
  }

  /** Each step but \U is one unit for the reader, and \U is an error. */
  lemma StepIsUnit(s: string, rest: string)
    requires s != "" && IsCString(s) && EscapeStep(s).advance > 0
    ensures EscapeStep(s).out != "" && EscapeStep(s).out[0] != '"'
    ensures ReadUnit(EscapeStep(s).out + rest) ==
            if DecodeFirst(s).None? then Some(Unit(Encode(REPLACEMENT), |EscapeStep(s).out|))
            else if DecodeFirst(s).value.cp > 0xFFFF then None
            else Some(Unit(s[..EscapeStep(s).advance], |EscapeStep(s).out|))
    ensures DecodeFirst(s).Some? ==>
            !IsSurrogate(DecodeFirst(s).value.cp) && EscapeStep(s).advance == DecodeFirst(s).value.len
    ensures DecodeFirst(s).None? ==> EscapeStep(s).advance == 1
  {
    hide DecodeFirst, Hex4, Encode;
    var text := EscapeStep(s).out + rest;
    if ShortEscape(s[0]).Some? {
      AsciiDecodes(s);
      assert s[..1] == [s[0]];
    } else if Code(s, 0) < 0x20 {
      AsciiDecodes(s);
      ReadHexUnit(Code(s, 0), rest);
      AsciiEncodes(s);
    } else if DecodeFirst(s).None? {
      ReadHexUnit(REPLACEMENT, rest);
    } else if DecodeFirst(s).value.cp < 0x80 {
      EncodeDecode(s);
      AsciiIsByte(s);
      assert EscapeStep(s).out == [s[0]] && s[..1] == [s[0]];
      assert text[0] == s[0];
    } else if DecodeFirst(s).value.cp <= 0xFFFF {
      EncodeDecode(s);
      ReadHexUnit(DecodeFirst(s).value.cp, rest);
    } else {
      assert text[1] == 'U';
    }
  }

  lemma AsciiDecodes(s: string)
    requires s != "" && Code(s, 0) < 0x80
    ensures DecodeFirst(s) == Some(Decoded(Code(s, 0), 1))
  {
  }

  lemma AsciiEncodes(s: string)
    requires s != "" && Code(s, 0) < 0x80
    ensures s[..1] == Encode(Code(s, 0))
  {
  }

  lemma AsciiIsByte(s: string)
    requires s != "" && DecodeFirst(s).Some? && DecodeFirst(s).value.cp < 0x80
    ensures DecodeFirst(s).value == Decoded(Code(s, 0), 1)
  {
  }

  lemma ReadHexUnit(n: nat, rest: string)
    requires n < 0x10000
    ensures ReadUnit("\\u" + Hex4(n) + rest) == Some(Unit(Encode(n), 6))
  {
    hide Hex4, Encode, FourHex;
    var text := "\\u" + Hex4(n) + rest;
    assert text[2..] == Hex4(n) + rest;
    Hex4Read(n, rest);
  }

  /** Reading what was written, up to the closing quote, gives what is received. */
  lemma {:induction false} WriteThenRead(s: string, rest: string)
    requires IsCString(s) && Escape(s).Some?
    ensures ReadString(Escape(s).value + "\"" + rest) ==
            match Received(s) { case None => None case Some(t) => Some(Read(t, rest)) }
    decreases |s|
  {
    hide EscapeStep, ReadUnit, DecodeFirst, Encode, IsSurrogate;
    if s == "" {
      assert "" + "\"" + rest == "\"" + rest;
    } else {
      StepFits(s);
      var step := EscapeStep(s);
      var tail := s[step.advance..];
      WriteThenRead(tail, rest);
      var after := Escape(tail).value + "\"" + rest;
      var text := step.out + after;
      assert Escape(s).value + "\"" + rest == text;
      StepIsUnit(s, after);
      assert text[|step.out|..] == after;
      ReceivedStep(s);
    }
  }

  lemma ReceivedStep(s: string)
    requires s != "" && IsCString(s) && EscapeStep(s).advance > 0
    ensures EscapeStep(s).advance <= |s|
    ensures Received(s) ==
            if DecodeFirst(s).None? then Prepend(Encode(REPLACEMENT), Received(s[EscapeStep(s).advance..]))
            else if DecodeFirst(s).value.cp > 0xFFFF then None
            else Prepend(s[..EscapeStep(s).advance], Received(s[EscapeStep(s).advance..]))
  {
    hide EscapeStep, ReadUnit, DecodeFirst, Encode;
    StepFits(s);
    StepIsUnit(s, "");
    if DecodeFirst(s).Some? {
      EncodeDecode(s);
    }
  }

  // ----- which strings survive -----

  /** Valid UTF-8 without the terminator, below U+10000. */
  ghost predicate IsBmpText(s: string) {
    exists cps :: BmpSpelled(cps, s)
  }

  ghost predicate BmpSpelled(cps: seq<nat>, s: string) {
    (forall i | 0 <= i < |cps| :: 0 < cps[i] <= 0xFFFF && !IsSurrogate(cps[i])) && s == EncodeAll(cps)
  }

  /** What is received is never shorter, and longer if a byte was replaced. */
  lemma {:induction false} ReceivedLength(s: string)
    requires Received(s).Some?
    ensures |Received(s).value| >= |s|
    ensures Received(s) == Some(s) <==> |Received(s).value| == |s|
    decreases |s|
  {
    hide DecodeFirst, Encode;
    if s != "" {
      if DecodeFirst(s).None? {
        ReceivedLength(s[1..]);
        ReplacementLength();
      } else {
        EncodeDecode(s);
        var n := DecodeFirst(s).value.len;
        ReceivedLength(s[n..]);
        assert s == s[..n] + s[n..];
      }
    }
  }

  lemma ReplacementLength()
    ensures |Encode(REPLACEMENT)| == 3
  {
  }

  lemma {:induction false} BmpIsReceived(cps: seq<nat>)
    requires forall i | 0 <= i < |cps| :: 0 < cps[i] <= 0xFFFF && !IsSurrogate(cps[i])
    ensures Received(EncodeAll(cps)) == Some(EncodeAll(cps)) && Escape(EncodeAll(cps)).Some?
  {
    hide DecodeFirst, Encode, EscapeStep, IsSurrogate;
    if cps != [] {
      var rest := EncodeAll(cps[1..]);
      var s := Encode(cps[0]) + rest;
      BmpIsReceived(cps[1..]);
      DecodeEncode(cps[0], rest);
      var n := |Encode(cps[0])|;
      assert s[n..] == rest && s[..n] == Encode(cps[0]);
      ScalarAdvances(s);
    }
  }

  lemma ScalarAdvances(s: string)
    requires s != "" && DecodeFirst(s).Some? && !IsSurrogate(DecodeFirst(s).value.cp)
    ensures EscapeStep(s).advance == DecodeFirst(s).value.len
  {
    hide Hex4, Encode;
    EncodeDecode(s);
  }

  lemma {:induction false} ReceivedIsBmp(s: string)
    requires IsCString(s) && Received(s) == Some(s)
    ensures IsBmpText(s)
    decreases |s|
  {
    hide DecodeFirst, Encode, IsSurrogate;
    if s == "" {
      assert BmpSpelled([], s);
    } else {
      NothingReplaced(s);
      EncodeDecode(s);
      var d := DecodeFirst(s).value;
      ReceivedIsBmp(s[d.len..]);
      var cps :| BmpSpelled(cps, s[d.len..]);
      NotNul(s);
      assert ([d.cp] + cps)[1..] == cps;
      assert s == s[..d.len] + s[d.len..];
      assert BmpSpelled([d.cp] + cps, s);
    }
  }

  lemma NothingReplaced(s: string)
    requires s != "" && Received(s) == Some(s)
    ensures DecodeFirst(s).Some? && !IsSurrogate(DecodeFirst(s).value.cp) && DecodeFirst(s).value.cp <= 0xFFFF
    ensures DecodeFirst(s).value.len <= |s|
            && Received(s[DecodeFirst(s).value.len..]) == Some(s[DecodeFirst(s).value.len..])
  {
    hide DecodeFirst, Encode, IsSurrogate;
    if DecodeFirst(s).None? {
      ReceivedLength(s[1..]);
      ReplacementLength();
    } else {
      EncodeDecode(s);
      var n := DecodeFirst(s).value.len;
      ReceivedLength(s[n..]);
    }
  }

  lemma NotNul(s: string)
    requires s != "" && IsCString(s) && DecodeFirst(s).Some?
    ensures DecodeFirst(s).value.cp > 0
  {
    hide Join2, Join3, Join4;
  }

  /**
   * Writing ends and reading gives the string back exactly when it is valid UTF-8 below
   * U+10000: the writer's form for larger code points is refused, bad bytes come back as
   * U+FFFD, and at a surrogate half the writer never ends.
   */
  lemma StringRoundTrip(s: string, rest: string)
    requires IsCString(s)
    ensures IsBmpText(s) <==>
            Escape(s).Some? && ReadString(Escape(s).value + "\"" + rest) == Some(Read(s, rest))
  {
    hide DecodeFirst, Encode, EscapeStep, ReadString, Escape, Received;
    if IsBmpText(s) {
      var cps :| BmpSpelled(cps, s);
      BmpIsReceived(cps);
    }
    if Escape(s).Some? {
      WriteThenRead(s, rest);
      if Received(s) == Some(s) {
        ReceivedIsBmp(s);
      }
    }
  }
}
