/**
 * UTF-8 (section 3 of RFC 3629).  A string stands for bytes: characters below 256; the
 * places of a C string from its end on read as its terminator.
 */
module Utf8 {
  import opened Common

  predicate IsBytes(s: string) {
    forall i | 0 <= i < |s| :: s[i] as int < 256
  }

  /** The bytes of a C string: none is the terminator. */
  predicate IsCString(s: string) {
    forall i | 0 <= i < |s| :: 0 < s[i] as int < 256
  }

  function Byte(n: nat): char
    requires n < 256
  {
    n as char
  }

  /** The byte at a place of a C string. */
  function At(s: string, i: nat): char {
    if i < |s| then s[i] else '\0'
  }

  /** A C string ends at its first terminator. */
  function UpToNul(s: string): string {
    if s == "" || s[0] == '\0' then "" else [s[0]] + UpToNul(s[1..])
  }

  const MAX_CODE_POINT := 0x10FFFF

  predicate IsSurrogate(cp: nat) {
    0xD800 <= cp <= 0xDFFF
  }

  predicate IsScalar(cp: nat) {
    cp <= MAX_CODE_POINT && !IsSurrogate(cp)
  }

  // ----- the arithmetic of lead and continuation bytes -----

  function Trail(n: nat): nat {
    0x80 + n % 64
  }

  function Lead2(cp: nat): nat {
    0xC0 + cp / 64
  }

  function Lead3(cp: nat): nat {
    0xE0 + cp / 4096
  }

  function Lead4(cp: nat): nat {
    0xF0 + cp / 262144
  }

  function Join2(a: nat, b: nat): nat {
    a % 32 * 64 + b % 64
  }

  function Join3(a: nat, b: nat, c: nat): nat {
    a % 16 * 4096 + b % 64 * 64 + c % 64
  }

  function Join4(a: nat, b: nat, c: nat, d: nat): nat {
    a % 8 * 262144 + b % 64 * 4096 + c % 64 * 64 + d % 64
  }

  predicate Continues(b: nat) {
    0x80 <= b < 0xC0
  }

  lemma Trails(n: nat)
    ensures Continues(Trail(n))
  {
  }

  lemma Split2(cp: nat)
    requires cp < 0x800
    ensures 0xC0 <= Lead2(cp) < 0xE0 && Join2(Lead2(cp), Trail(cp)) == cp
  {
  }

  lemma Split3(cp: nat)
    requires cp < 0x10000
    ensures 0xE0 <= Lead3(cp) < 0xF0 && Join3(Lead3(cp), Trail(cp / 64), Trail(cp)) == cp
  {
    assert cp / 4096 == cp / 64 / 64;
  }

  lemma Split4(cp: nat)
    requires cp < 0x200000
    ensures 0xF0 <= Lead4(cp) < 0xF8 && Join4(Lead4(cp), Trail(cp / 4096), Trail(cp / 64), Trail(cp)) == cp
  {
    var p, q := cp / 64, cp / 64 / 64;
    assert cp == Grouped(q / 64, q % 64, p % 64, cp % 64);
    Groups(q / 64, q % 64, p % 64, cp % 64);
  }

  lemma Joined2(a: nat, b: nat)
    requires 0xC0 <= a < 0xE0 && Continues(b)
    ensures Join2(a, b) < 0x800 && Lead2(Join2(a, b)) == a && Trail(Join2(a, b)) == b
  {
  }

  lemma Joined3(a: nat, b: nat, c: nat)
    requires 0xE0 <= a < 0xF0 && Continues(b) && Continues(c)
    ensures Join3(a, b, c) < 0x10000
    ensures Lead3(Join3(a, b, c)) == a && Trail(Join3(a, b, c) / 64) == b && Trail(Join3(a, b, c)) == c
  {
    var cp := Join3(a, b, c);
    assert cp == ((a - 0xE0) * 64 + (b - 0x80)) * 64 + (c - 0x80);
    assert cp / 64 == (a - 0xE0) * 64 + (b - 0x80);
  }

  lemma Joined4(a: nat, b: nat, c: nat, d: nat)
    requires 0xF0 <= a < 0xF8 && Continues(b) && Continues(c) && Continues(d)
    ensures Lead4(Join4(a, b, c, d)) == a && Trail(Join4(a, b, c, d) / 4096) == b
    ensures Trail(Join4(a, b, c, d) / 64) == c && Trail(Join4(a, b, c, d)) == d
  {
    JoinedIsGrouped(a, b, c, d);
    hide Join4;
    Groups(a - 0xF0, b - 0x80, c - 0x80, d - 0x80);
    LastGroup(a - 0xF0, b - 0x80);
    LastGroup((a - 0xF0) * 64 + (b - 0x80), c - 0x80);
  }

  lemma JoinedIsGrouped(a: nat, b: nat, c: nat, d: nat)
    requires 0xF0 <= a < 0xF8 && Continues(b) && Continues(c) && Continues(d)
    ensures Join4(a, b, c, d) == Grouped(a - 0xF0, b - 0x80, c - 0x80, d - 0x80)
  {
  }

  lemma LastGroup(n: nat, d: nat)
    requires d < 64
    ensures (n * 64 + d) % 64 == d
  {
  }

  function Grouped(a: nat, b: nat, c: nat, d: nat): nat {
    ((a * 64 + b) * 64 + c) * 64 + d
  }

  lemma Groups(a: nat, b: nat, c: nat, d: nat)
    requires b < 64 && c < 64 && d < 64
    ensures var n := Grouped(a, b, c, d);
            n % 64 == d && n / 64 == (a * 64 + b) * 64 + c && n / 4096 == a * 64 + b && n / 262144 == a
  {
  }

  // ----- encoding -----

  /** The bytes of one code point; also defined for surrogates, which no valid text has. */
  function Encode(cp: nat): (s: string)
    requires cp <= MAX_CODE_POINT
    ensures 1 <= |s| <= 4 && IsBytes(s)
  {
    if cp < 0x80 then [Byte(cp)]
    else if cp < 0x800 then [Byte(Lead2(cp)), Byte(Trail(cp))]
    else if cp < 0x10000 then [Byte(Lead3(cp)), Byte(Trail(cp / 64)), Byte(Trail(cp))]
    else [Byte(Lead4(cp)), Byte(Trail(cp / 4096)), Byte(Trail(cp / 64)), Byte(Trail(cp))]
  }

  /** The text of a sequence of code points. */
  function EncodeAll(cps: seq<nat>): string
    requires forall i | 0 <= i < |cps| :: cps[i] <= MAX_CODE_POINT
  {
    if cps == [] then "" else Encode(cps[0]) + EncodeAll(cps[1..])
  }

  datatype Decoded = Decoded(cp: nat, len: nat)

  function Code(s: string, i: nat): nat {
    At(s, i) as int
  }

  /** The code point at the start, in its shortest form; surrogates are let through. */
  function DecodeFirst(s: string): (r: Option<Decoded>)
    requires s != ""
  {
    var c := Code(s, 0);
    if c < 0x80 then Some(Decoded(c, 1))
    else if 0xC0 <= c < 0xE0 && Continues(Code(s, 1)) then
      var cp := Join2(c, Code(s, 1));
      if cp < 0x80 then None else Some(Decoded(cp, 2))
    else if 0xE0 <= c < 0xF0 && Continues(Code(s, 1)) && Continues(Code(s, 2)) then
      var cp := Join3(c, Code(s, 1), Code(s, 2));
      if cp < 0x800 then None else Some(Decoded(cp, 3))
    else if 0xF0 <= c < 0xF8 && Continues(Code(s, 1)) && Continues(Code(s, 2)) && Continues(Code(s, 3)) then
      var cp := Join4(c, Code(s, 1), Code(s, 2), Code(s, 3));
      if cp < 0x10000 || cp > MAX_CODE_POINT then None else Some(Decoded(cp, 4))
    else None
  }

  /** Decoding finds the code point that was encoded, whatever follows. */
  lemma DecodeEncode(cp: nat, rest: string)
    requires cp <= MAX_CODE_POINT
    ensures DecodeFirst(Encode(cp) + rest) == Some(Decoded(cp, |Encode(cp)|))
  {
    hide Trail, Lead2, Lead3, Lead4, Join2, Join3, Join4;
    Trails(cp);
    Trails(cp / 64);
    Trails(cp / 4096);
    if cp < 0x80 {
    } else if cp < 0x800 {
      Split2(cp);
    } else if cp < 0x10000 {
      Split3(cp);
    } else {
      Split4(cp);
    }
  }

  /** What decodes is the encoding of what was found: no text has two readings. */
  lemma EncodeDecode(s: string)
    requires s != "" && DecodeFirst(s).Some?
    ensures var d := DecodeFirst(s).value; d.cp <= MAX_CODE_POINT && d.len <= |s| && s[..d.len] == Encode(d.cp)
  {
    hide Trail, Lead2, Lead3, Lead4, Join2, Join3, Join4;
    var a, b, c, d := Code(s, 0), Code(s, 1), Code(s, 2), Code(s, 3);
    if a < 0x80 {
    } else if a < 0xE0 {
      Joined2(a, b);
    } else if a < 0xF0 {
      Joined3(a, b, c);
    } else {
      Joined4(a, b, c, d);
    }
  }
}
