/**
 * UTF-16 (sections 2.1 and 2.2 of RFC 2781): enc_utf8_to_utf16 and dec_utf16_to_utf8
 * (src/builtins.c:279-473), in both byte orders.
 */
module Utf16 {
  import opened Utf8

  // ----- code units -----

  /** The high byte and the low byte, in the order that was asked for. */
  function UnitBytes(u: nat, little: bool): string
    requires u < 0x10000
  {
    if little then [Byte(u % 256), Byte(u / 256)] else [Byte(u / 256), Byte(u % 256)]
  }

  function UnitOf(a: char, b: char, little: bool): nat {
    if little then a as int % 256 + b as int % 256 * 256 else a as int % 256 * 256 + b as int % 256
  }

  lemma UnitRead(u: nat, little: bool)
    requires u < 0x10000
    ensures UnitOf(UnitBytes(u, little)[0], UnitBytes(u, little)[1], little) == u
  {
  }

  predicate IsHigh(u: nat) {
    0xD800 <= u <= 0xDBFF
  }

  predicate IsLow(u: nat) {
    0xDC00 <= u <= 0xDFFF
  }

  function High(cp: nat): (u: nat)
    requires cp >= 0x10000
    ensures IsHigh(u)
  {
    0xD800 + (cp - 0x10000) / 1024 % 1024
  }

  function Low(cp: nat): (u: nat)
    requires cp >= 0x10000
    ensures IsLow(u)
  {
    0xDC00 + (cp - 0x10000) % 1024
  }

  function Paired(hi: nat, lo: nat): (cp: nat)
    requires IsHigh(hi) && IsLow(lo)
    ensures 0x10000 <= cp <= MAX_CODE_POINT
  {
    0x10000 + (hi - 0xD800) * 1024 + (lo - 0xDC00)
  }

  lemma PairRead(cp: nat)
    requires 0x10000 <= cp <= MAX_CODE_POINT
    ensures Paired(High(cp), Low(cp)) == cp
  {
  }

  const UNKNOWN: nat := 0xFFFD

  // ----- encoding -----

  /** How the encoder reads a code point: it trusts the lead byte and does not check what follows. */
  function LooseFirst(s: string): (d: Decoded)
    requires s != ""
    ensures 1 <= d.len <= |s|
  {
    var c := Code(s, 0);
    if c < 0x80 then Decoded(c, 1)
    else if 0xC0 <= c < 0xE0 then
      if |s| < 2 then Decoded(UNKNOWN, 1) else Decoded(Join2(c, Code(s, 1)), 2)
    else if 0xE0 <= c < 0xF0 then
      if |s| < 3 then Decoded(UNKNOWN, 1) else Decoded(Join3(c, Code(s, 1), Code(s, 2)), 3)
    else if 0xF0 <= c < 0xF8 then
      if |s| < 4 then Decoded(UNKNOWN, 1) else Decoded(Join4(c, Code(s, 1), Code(s, 2), Code(s, 3)), 4)
    else Decoded(UNKNOWN, 1)
  }

  function CodeBytes(cp: nat, little: bool): (b: string)
    ensures |b| == if cp < 0x10000 then 2 else 4
  {
    if cp < 0x10000 then UnitBytes(cp, little) else UnitBytes(High(cp), little) + UnitBytes(Low(cp), little)
  }

  function ToUtf16(s: string, little: bool): string
    decreases |s|
  {
    if s == "" then "" else
      var d := LooseFirst(s);
      CodeBytes(d.cp, little) + ToUtf16(s[d.len..], little)
  }

  // ----- decoding -----

  /** What a unit means, with the units behind it, and how many bytes that takes. */
  function UnitMeaning(b: string, little: bool): (d: Decoded)
    requires |b| >= 2
    ensures 2 <= d.len <= |b| && IsScalar(d.cp) && d.len == if d.cp < 0x10000 then 2 else 4
  {
    var u := UnitOf(b[0], b[1], little);
    if IsHigh(u) then
      if |b| >= 4 && IsLow(UnitOf(b[2], b[3], little)) then Decoded(Paired(u, UnitOf(b[2], b[3], little)), 4)
      else Decoded(UNKNOWN, 2)
    else if IsLow(u) then Decoded(UNKNOWN, 2)
    else Decoded(u, 2)
  }

  /** The code points, a byte that is left over counting as unknown. */
  function CodePoints(b: string, little: bool): (cps: seq<nat>)
    ensures forall i | 0 <= i < |cps| :: IsScalar(cps[i])
    decreases |b|
  {
    if b == "" then []
    else if |b| == 1 then [UNKNOWN]
    else
      var d := UnitMeaning(b, little);
      [d.cp] + CodePoints(b[d.len..], little)
  }

  function FromUtf16(b: string, little: bool): string {
    EncodeAll(CodePoints(b, little))
  }

  // ----- the round trip -----

  /** Valid UTF-8 without the terminator. */
  ghost predicate IsText(s: string) {
    exists cps :: Spelled(cps, s)
  }

  ghost predicate Spelled(cps: seq<nat>, s: string) {
    (forall i | 0 <= i < |cps| :: 0 < cps[i] && IsScalar(cps[i])) && s == EncodeAll(cps)
  }

  /** On valid text the encoder reads what is there. */
  lemma LooseIsExact(s: string)
    requires s != "" && DecodeFirst(s).Some?
    ensures LooseFirst(s) == DecodeFirst(s).value
  {
    hide Join2, Join3, Join4;
    EncodeDecode(s);
  }

  lemma MeaningOfCode(cp: nat, little: bool, more: string)
    requires IsScalar(cp)
    ensures UnitMeaning(CodeBytes(cp, little) + more, little) == Decoded(cp, |CodeBytes(cp, little)|)
  {
    hide UnitOf, UnitBytes, High, Low, Paired;
    var b := CodeBytes(cp, little) + more;
    if cp < 0x10000 {
      UnitSize(cp, little);
      UnitRead(cp, little);
    } else {
      UnitSize(High(cp), little);
      UnitSize(Low(cp), little);
      UnitRead(High(cp), little);
      UnitRead(Low(cp), little);
      PairRead(cp);
      assert b[2] == UnitBytes(Low(cp), little)[0] && b[3] == UnitBytes(Low(cp), little)[1];
    }
  }

  lemma UnitSize(u: nat, little: bool)
    requires u < 0x10000
    ensures |UnitBytes(u, little)| == 2
  {
  }

  lemma {:induction false} TextReturns(cps: seq<nat>, little: bool)
    requires forall i | 0 <= i < |cps| :: cps[i] <= MAX_CODE_POINT && IsScalar(cps[i])
    ensures CodePoints(ToUtf16(EncodeAll(cps), little), little) == cps
  {
    hide Encode, CodeBytes, LooseFirst, UnitMeaning;
    if cps != [] {
      var cp, rest := cps[0], EncodeAll(cps[1..]);
      TextReturns(cps[1..], little);
      DecodeEncode(cp, rest);
      LooseIsExact(Encode(cp) + rest);
      assert (Encode(cp) + rest)[|Encode(cp)|..] == rest;
      var more := ToUtf16(rest, little);
      CodeSize(cp, little);
      MeaningOfCode(cp, little, more);
      assert (CodeBytes(cp, little) + more)[|CodeBytes(cp, little)|..] == more;
      assert cps == [cp] + cps[1..];
    }
  }

  lemma CodeSize(cp: nat, little: bool)
    requires IsScalar(cp)
    ensures cp <= MAX_CODE_POINT && |CodeBytes(cp, little)| >= 2
  {
  }

  /** The bytes before the first code point 0 are the code points before it. */
  lemma {:induction false} TextUpToNul(cps: seq<nat>)
    requires forall i | 0 <= i < |cps| :: cps[i] <= MAX_CODE_POINT && IsScalar(cps[i])
    ensures IsText(UpToNul(EncodeAll(cps)))
    ensures (forall i | 0 <= i < |cps| :: cps[i] > 0) ==> UpToNul(EncodeAll(cps)) == EncodeAll(cps)
  {
    hide Encode;
    if cps == [] {
      assert Spelled([], "");
    } else {
      var cp, rest := cps[0], EncodeAll(cps[1..]);
      TextUpToNul(cps[1..]);
      if cp == 0 {
        NulByte();
        assert EncodeAll(cps)[0] == '\0';
        assert Spelled([], "");
      } else {
        ScalarRange(cp);
        NoNulByte(cp);
        NulLater(Encode(cp), rest);
        var more :| Spelled(more, UpToNul(rest));
        PrependSpelled(cp, more, UpToNul(rest));
      }
    }
  }

  lemma PrependSpelled(cp: nat, more: seq<nat>, s: string)
    requires cp <= MAX_CODE_POINT && 0 < cp && IsScalar(cp) && Spelled(more, s)
    ensures Spelled([cp] + more, Encode(cp) + s)
  {
    hide Encode;
    assert ([cp] + more)[1..] == more;
  }

  lemma ScalarRange(cp: nat)
    requires IsScalar(cp)
    ensures cp <= MAX_CODE_POINT
  {
  }

  lemma NulByte()
    ensures Encode(0) == "\0"
  {
  }

  lemma NoNulByte(cp: nat)
    requires 0 < cp <= MAX_CODE_POINT
    ensures IsCString(Encode(cp))
  {
  }

  lemma {:induction false} NulLater(a: string, b: string)
    requires IsCString(a)
    ensures UpToNul(a + b) == a + UpToNul(b)
  {
    if a == "" {
      assert a + b == b;
    } else {
      NulLater(a[1..], b);
      assert (a + b)[1..] == a[1..] + b;
    }
  }

  /** Encoding and decoding, in either byte order, gives a C string back exactly when it is valid UTF-8. */
  lemma Utf16RoundTrip(s: string, little: bool)
    requires IsCString(s)
    ensures UpToNul(FromUtf16(ToUtf16(s, little), little)) == s <==> IsText(s)
  {
    hide UpToNul, ToUtf16, CodePoints, EncodeAll;
    if IsText(s) {
      var cps :| Spelled(cps, s);
      TextReturns(cps, little);
      TextUpToNul(cps);
    }
    TextUpToNul(CodePoints(ToUtf16(s, little), little));
  }

  // ----- the two functions as they run -----

  lemma ToUtf16Step(s: string, i: nat, little: bool)
    requires i < |s|
    ensures var d := LooseFirst(s[i..]);
            && i + d.len <= |s|
            && ToUtf16(s[i..], little) == CodeBytes(d.cp, little) + ToUtf16(s[i + d.len..], little)
  {
    var d := LooseFirst(s[i..]);
    assert s[i..][d.len..] == s[i + d.len..];
  }

  /** enc_utf8_to_utf16: the buffer of 4 * (length + 1) + 4 bytes never has to grow. */
  method EncUtf8ToUtf16(s: string, little: bool) returns (out: array<char>, op: nat)
    ensures op <= out.Length && out[..op] == ToUtf16(s, little)
  {
    hide LooseFirst, CodeBytes, ToUtf16, High, Low, UnitBytes;
    var outcap := (|s| + 1) * 4 + 4;
    out := new char[outcap];
    op := 0;
    var i := 0;
    NothingToEncode(little);
    assert s[0..] == s;
    while i < |s|
      invariant i <= |s| && op <= 4 * i
      invariant out[..op] + ToUtf16(s[i..], little) == ToUtf16(s, little)
    {
      ToUtf16Step(s, i, little);
      ghost var before := out[..op];
      var d := LooseFirst(s[i..]);
      i := i + d.len;
      if d.cp <= 0xFFFF {
        assert op + 2 + 2 <= outcap;
        OneUnit(d.cp, little);
        op := WriteUnit(out, op, d.cp, little);
      } else {
        assert op + 4 + 2 <= outcap;
        TwoUnits(d.cp, little);
        op := WriteUnit(out, op, High(d.cp), little);
        op := WriteUnit(out, op, Low(d.cp), little);
      }
      assert out[..op] == before + CodeBytes(d.cp, little);
    }
    assert s[i..] == "";
  }

  lemma NothingToEncode(little: bool)
    ensures ToUtf16("", little) == ""
  {
  }

  lemma OneUnit(cp: nat, little: bool)
    requires cp < 0x10000
    ensures CodeBytes(cp, little) == UnitBytes(cp, little)
  {
  }

  lemma TwoUnits(cp: nat, little: bool)
    requires cp >= 0x10000
    ensures CodeBytes(cp, little) == UnitBytes(High(cp), little) + UnitBytes(Low(cp), little)
  {
  }

  method WriteUnit(out: array<char>, op: nat, u: nat, little: bool) returns (next: nat)
    requires op + 2 <= out.Length && u < 0x10000
    modifies out
    ensures next == op + 2 && |UnitBytes(u, little)| == 2
    ensures out[..next] == old(out[..op]) + UnitBytes(u, little)
  {
    if little {
      out[op] := Byte(u % 256);
      out[op + 1] := Byte(u / 256);
    } else {
      out[op] := Byte(u / 256);
      out[op + 1] := Byte(u % 256);
    }
    return op + 2;
  }

  lemma FromStep(b: string, i: nat, little: bool)
    requires i + 1 < |b|
    ensures var d := UnitMeaning(b[i..], little);
            FromUtf16(b[i..], little) == Encode(d.cp) + FromUtf16(b[i + d.len..], little)
  {
    hide UnitMeaning, Encode;
    var d := UnitMeaning(b[i..], little);
    assert b[i..][d.len..] == b[i + d.len..];
    var more := CodePoints(b[i + d.len..], little);
    assert ([d.cp] + more)[1..] == more;
  }

  lemma FromEnd(b: string, i: nat, little: bool)
    requires i <= |b| <= i + 1
    ensures FromUtf16(b[i..], little) == if i == |b| then "" else Encode(UNKNOWN)
  {
    hide Encode;
    if i == |b| {
      assert b[i..] == "";
    } else {
      assert EncodeAll([UNKNOWN]) == Encode(UNKNOWN) + EncodeAll([]);
    }
  }

  /** dec_utf16_to_utf8: the buffer of 3 * size + 16 bytes never has to grow, with its terminator. */
  method DecUtf16ToUtf8(buf: string, little: bool) returns (out: array<char>, op: nat)
    ensures op < out.Length && out[..op] == FromUtf16(buf, little) && out[op] == '\0'
  {
    hide UnitMeaning, Encode, FromUtf16;
    var sz := |buf|;
    var outcap := sz * 3 + 16;
    out := new char[outcap];
    op := 0;
    var i := 0;
    assert buf[0..] == buf;
    while i + 1 < sz
      invariant i <= sz && op <= 2 * i
      invariant out[..op] + FromUtf16(buf[i..], little) == FromUtf16(buf, little)
    {
      FromStep(buf, i, little);
      ghost var before := out[..op];
      var d := UnitMeaning(buf[i..], little);
      i := i + d.len;
      EncodedSize(d.cp);
      assert op + |Encode(d.cp)| + 1 <= outcap;
      op := WriteBytes(out, op, Encode(d.cp));
      assert out[..op] == before + Encode(d.cp);
    }
    FromEnd(buf, i, little);
    if i < sz {
      UnknownBytes();
      op := WriteBytes(out, op, "\U{EF}\U{BF}\U{BD}");
    }
    assert out[..op] == FromUtf16(buf, little);
    out[op] := '\0';
  }

  lemma EncodedSize(cp: nat)
    requires IsScalar(cp)
    ensures |Encode(cp)| <= if cp < 0x10000 then 3 else 4
  {
  }

  lemma UnknownBytes()
    ensures Encode(UNKNOWN) == "\U{EF}\U{BF}\U{BD}"
  {
  }

  method WriteBytes(out: array<char>, op: nat, bytes: string) returns (next: nat)
    requires op + |bytes| <= out.Length
    modifies out
    ensures next == op + |bytes| && out[..next] == old(out[..op]) + bytes
  {
    next := op;
    for k := 0 to |bytes|
      invariant next == op + k && out[..next] == old(out[..op]) + bytes[..k]
    {
      out[next] := bytes[k];
      next := next + 1;
    }
  }
}
