/**
 * Integers as text in a base from 2 to 64, with a prefix that names the base
 * (src/builtins.c:675-922, digit tables of src/parser.c:403-543).  A string stands for
 * the bytes of a C string up to its terminator.
 */
module Numerals {
  import opened Common
  import opened Utf8

  const INT64_MAX: int := 0x7FFF_FFFF_FFFF_FFFF
  const INT64_MIN: int := -0x8000_0000_0000_0000

  newtype int64 = x: int | -0x8000_0000_0000_0000 <= x <= 0x7FFF_FFFF_FFFF_FFFF
  newtype uint64 = x: int | 0 <= x <= 0xFFFF_FFFF_FFFF_FFFF

  /** is_valid_numeric_base */
  predicate IsBase(base: int) {
    2 <= base <= 64
  }

  type Base = b: int | 2 <= b <= 64 witness 2

  // ----- digits -----

  const DECIMAL := "0123456789"
  const UPPER := "ABCDEFGHIJKLMNOPQRSTUVWXYZ"
  const LOWER := "abcdefghijklmnopqrstuvwxyz"

  /** k_digits64 */
  const DIGITS64 := DECIMAL + UPPER + LOWER + "+_"

  /** k_digits58: no 0, I, O or l. */
  const DIGITS58 := DECIMAL[1..] + UPPER[..8] + UPPER[9..14] + UPPER[15..] + LOWER[..11] + LOWER[12..]

  function Alphabet(base: Base): (a: string)
    ensures |a| >= base
  {
    AlphabetSizes();
    if base == 58 then DIGITS58 else DIGITS64
  }

  lemma AlphabetSizes()
    ensures |DIGITS58| == 58 && |DIGITS64| == 64
  {
    assert |DECIMAL| == 10 && |UPPER| == 26 && |LOWER| == 26;
  }

  function Offset(c: char, first: char): int {
    c as int - first as int
  }

  /** digit_value_for_base: the tables k_digit64_tbl and k_digit58_tbl, -1 for no digit. */
  function DigitValue(base: Base, c: char): (d: int)
    ensures -1 <= d < 64
  {
    if base == 58 then
      if '1' <= c <= '9' then Offset(c, '1')
      else if 'A' <= c <= 'H' then 9 + Offset(c, 'A')
      else if 'J' <= c <= 'N' then 17 + Offset(c, 'J')
      else if 'P' <= c <= 'Z' then 22 + Offset(c, 'P')
      else if 'a' <= c <= 'k' then 33 + Offset(c, 'a')
      else if 'm' <= c <= 'z' then 44 + Offset(c, 'm')
      else -1
    else
      if '0' <= c <= '9' then Offset(c, '0')
      else if 'A' <= c <= 'Z' then 10 + Offset(c, 'A')
      else if 'a' <= c <= 'z' then 36 + Offset(c, 'a')
      else if c == '+' then 62
      else if c == '_' then 63
      else -1
  }

  lemma Runs()
    ensures |DECIMAL| == 10 && forall i | 0 <= i < 10 :: DECIMAL[i] as int == '0' as int + i
    ensures |UPPER| == 26 && forall i | 0 <= i < 26 :: UPPER[i] as int == 'A' as int + i
    ensures |LOWER| == 26 && forall i | 0 <= i < 26 :: LOWER[i] as int == 'a' as int + i
  {
  }

  lemma CharOf58(d: nat)
    requires d < 58
    ensures |DIGITS58| == 58
    ensures DIGITS58[d] as int == d + (if d < 9 then 49 else if d < 17 then 56 else if d < 22 then 57
                                       else if d < 33 then 58 else if d < 44 then 64 else 65)
  {
    hide DIGITS58, DECIMAL, UPPER, LOWER;
    Runs();
    Pieces58();
    if d < 9 {
      assert DIGITS58[d] == DECIMAL[d + 1];
    } else if d < 17 {
      assert DIGITS58[d] == UPPER[d - 9];
    } else if d < 22 {
      assert DIGITS58[d] == UPPER[d - 8];
    } else if d < 33 {
      assert DIGITS58[d] == UPPER[d - 7];
    } else if d < 44 {
      assert DIGITS58[d] == LOWER[d - 33];
    } else {
      assert DIGITS58[d] == LOWER[d - 32];
    }
  }

  lemma Pieces58()
    ensures |DECIMAL| == 10 && |UPPER| == 26 && |LOWER| == 26
    ensures DIGITS58 == DECIMAL[1..] + UPPER[..8] + UPPER[9..14] + UPPER[15..] + LOWER[..11] + LOWER[12..]
  {
  }

  lemma CharOf64(d: nat)
    requires d < 64
    ensures |DIGITS64| == 64
    ensures DIGITS64[d] as int == if d < 10 then d + 48 else if d < 36 then d + 55 else if d < 62 then d + 61
                                  else if d == 62 then 43 else 95
  {
    hide DIGITS64, DECIMAL, UPPER, LOWER;
    Runs();
    Pieces64();
  }

  lemma Pieces64()
    ensures |DECIMAL| == 10 && |UPPER| == 26 && |LOWER| == 26
    ensures DIGITS64 == DECIMAL + UPPER + LOWER + "+_"
  {
  }

  /** The table that is read inverts the alphabet that is printed, both ways. */
  lemma DigitsInverse(base: Base, d: nat)
    requires d < |Alphabet(base)|
    ensures DigitValue(base, Alphabet(base)[d]) == d
    ensures forall c: char | DigitValue(base, c) == d :: Alphabet(base)[d] == c
  {
    hide DIGITS58, DIGITS64;
    AlphabetSizes();
    if base == 58 {
      CharOf58(d);
    } else {
      CharOf64(d);
    }
  }

  // ----- numerals as mathematics -----

  /** The digits of a positive number, none for 0. */
  function Digits(base: Base, n: nat): string
  {
    hide DIGITS58, DIGITS64;
    if n == 0 then "" else Digits(base, n / base) + [Alphabet(base)[n % base]]
  }

  function Numeral(base: Base, n: nat): string {
    if n == 0 then "0" else Digits(base, n)
  }

  /** One more digit on the right. */
  function Shift(base: Base, front: Option<nat>, d: int): Option<nat> {
    if front.None? || d < 0 || d >= base then None else Some(front.value * base + d)
  }

  /** The number that a string of digits denotes, if every character is a digit of the base. */
  function Denoted(base: Base, s: string): Option<nat> {
    if s == "" then Some(0) else Shift(base, Denoted(base, s[..|s| - 1]), DigitValue(base, s[|s| - 1]))
  }

  lemma DenotedPush(base: Base, s: string, c: char)
    ensures Denoted(base, s + [c]) == Shift(base, Denoted(base, s), DigitValue(base, c))
  {
    hide Shift, DigitValue;
    assert (s + [c])[..|s|] == s;
  }

  lemma {:induction false} DigitsDenote(base: Base, n: nat)
    ensures Denoted(base, Digits(base, n)) == Some(n)
  {
    hide DIGITS58, DIGITS64, DigitValue, Denoted, Alphabet, Shift;
    DivMod(base, n);
    if n == 0 {
      DenotedEmpty(base);
    } else {
      DigitsDenote(base, n / base);
      DigitsInverse(base, n % base);
      DenotedPush(base, Digits(base, n / base), Alphabet(base)[n % base]);
    }
  }

  lemma DenotedEmpty(base: Base)
    ensures Denoted(base, "") == Some(0)
  {
  }

  /** "0" denotes zero in every base but 58, where the digit zero is "1". */
  lemma NumeralDenotes(base: Base, n: nat)
    ensures Denoted(base, Numeral(base, n)) == if n == 0 && base == 58 then None else Some(n)
  {
    if n == 0 {
      assert "0"[..0] == "";
    } else {
      DigitsDenote(base, n);
    }
  }

  function Power2(k: nat): nat {
    if k == 0 then 1 else 2 * Power2(k - 1)
  }

  /** A number of k bits has at most k digits, so the buffer of 160 bytes is large enough. */
  lemma {:induction false} DigitCount(base: Base, n: nat, k: nat)
    requires n < Power2(k)
    ensures |Digits(base, n)| <= k
  {
    hide DIGITS58, DIGITS64, Alphabet;
    if n > 0 {
      HalfOrLess(base, n);
      FewerBits(n, n / base, k);
      DigitCount(base, n / base, k - 1);
    }
  }

  lemma FewerBits(n: nat, q: nat, k: nat)
    requires 0 < n < Power2(k) && q <= n / 2
    ensures k > 0 && q < Power2(k - 1)
  {
  }

  lemma DivMod(base: Base, n: nat)
    ensures 0 <= n / base && 0 <= n % base < base && (n > 0 ==> n / base < n)
    ensures Shift(base, Some(n / base), n % base) == Some(n)
  {
    HalfOrLess(base, n);
    assert n / base * base + n % base == n;
  }

  lemma HalfOrLess(base: Base, n: nat)
    ensures n / base <= n / 2
  {
    var q := n / base;
    QuotientLaw(n, base);
    AtLeastDouble(q, base);
  }

  lemma QuotientLaw(n: nat, b: int)
    requires b > 0
    ensures n == n / b * b + n % b
  {
  }

  lemma AtLeastDouble(q: nat, b: int)
    requires b >= 2
    ensures 2 * q <= q * b
  {
  }

  lemma ShiftGrows(base: Base, front: Option<nat>, d: int)
    ensures Shift(base, front, d).Some? ==> front.Some? && front.value <= Shift(base, front, d).value
  {
    if front.Some? {
      assert front.value <= front.value * base;
    }
  }

  /** An extension of a string of digits denotes at least as much, and an extension of a bad string is bad. */
  lemma {:induction false} DenotedGrows(base: Base, s: string, i: nat)
    requires i <= |s|
    ensures Denoted(base, s).Some? ==>
            Denoted(base, s[..i]).Some? && Denoted(base, s[..i]).value <= Denoted(base, s).value
  {
    hide DigitValue, Shift;
    if i < |s| {
      var t := s[..|s| - 1];
      DenotedGrows(base, t, i);
      assert t[..i] == s[..i];
      ShiftGrows(base, Denoted(base, t), DigitValue(base, s[|s| - 1]));
    } else {
      assert s[..i] == s;
    }
  }

  // ----- prefixes -----

  function DecimalDigit(d: nat): char
    requires d < 10
  {
    ('0' as int + d) as char
  }

  /** base_prefix_str */
  function Prefix(base: Base): string {
    match base
    case 2 => "0b"
    case 8 => "0o"
    case 10 => "0d"
    case 16 => "0x"
    case 32 => "0t"
    case 58 => "0c"
    case 64 => "0s"
    case _ => LongPrefix(base)
  }

  function LongPrefix(base: Base): string {
    "0r" + [DecimalDigit(base / 10), DecimalDigit(base % 10)]
  }

  /** Both spellings of a base are read. */
  predicate IsPrefix(s: string, base: Base) {
    s == Prefix(base) || s == LongPrefix(base)
  }

  function LetterBase(c: char): Option<Base> {
    match c
    case 'b' => Some(2)
    case 'o' => Some(8)
    case 'd' => Some(10)
    case 'x' => Some(16)
    case 't' => Some(32)
    case 'c' => Some(58)
    case 's' => Some(64)
    case _ => None
  }

  datatype Prefixed = Prefixed(base: Base, digits: string)

  /** parse_numeric_prefix: what follows a prefix, and the base it names. */
  function SplitPrefix(s: string): (r: Option<Prefixed>)
  {
    if At(s, 0) != '0' || |s| < 2 then None
    else if LetterBase(s[1]).Some? then Some(Prefixed(LetterBase(s[1]).value, s[2..]))
    else if s[1] != 'r' || !('0' <= At(s, 2) <= '9') || !('0' <= At(s, 3) <= '9') then None
    else
      var base := Offset(s[2], '0') * 10 + Offset(s[3], '0');
      if !IsBase(base) then None else Some(Prefixed(base, s[4..]))
  }

  /** A string splits in exactly one way, and in no way if it does not start with a prefix. */
  lemma SplitIsPrefix(s: string)
    ensures SplitPrefix(s).Some? ==>
            exists p :: IsPrefix(p, SplitPrefix(s).value.base) && s == p + SplitPrefix(s).value.digits
  {
    if SplitPrefix(s).Some? {
      var r := SplitPrefix(s).value;
      var n := if LetterBase(s[1]).Some? then 2 else 4;
      assert s == s[..n] + r.digits;
      if n == 2 {
        assert s[..2] == Prefix(r.base);
      } else {
        assert s[..4] == LongPrefix(r.base);
      }
    }
  }

  lemma PrefixSplits(p: string, base: Base, digits: string)
    requires IsPrefix(p, base)
    ensures SplitPrefix(p + digits) == Some(Prefixed(base, digits))
  {
    var s := p + digits;
    if |p| == 2 {
      assert s[2..] == digits;
    } else {
      assert s[4..] == digits;
    }
  }

  // ----- what is printed and what is read -----

  /** The text of an integer; a base that is none counts as 2. */
  function IntText(v: int, base: int): string {
    var b: Base := if IsBase(base) then base else 2;
    (if v < 0 then "-" else "") + Prefix(b) + Numeral(b, Magnitude(v))
  }

  function Magnitude(v: int): nat {
    if v < 0 then -v else v
  }

  function Signed(neg: bool, n: nat): int {
    if neg then -(n as int) else n
  }

  /** The text is an optional minus, a prefix of the base and at least one digit, and denotes n. */
  ghost predicate Spells(text: string, base: Base, n: int) {
    exists neg, p, digits :: SpellsWith(text, base, n, neg, p, digits)
  }

  ghost predicate SpellsWith(text: string, base: Base, n: int, neg: bool, p: string, digits: string) {
    && IsPrefix(p, base) && digits != ""
    && text == (if neg then "-" else "") + (p + digits)
    && Denoted(base, digits).Some?
    && n == Signed(neg, Denoted(base, digits).value)
  }

  datatype Parsed = Parsed(value: int, base: Base)

  function Unsigned(text: string): string {
    if At(text, 0) == '-' then text[1..] else text
  }

  /** parse_prefixed_int_string as a function: the text as written, unless too large. */
  function ParseInt(text: string): (r: Option<Parsed>) {
    match SplitPrefix(Unsigned(text))
    case None => None
    case Some(Prefixed(base, digits)) =>
      var n := Denoted(base, digits);
      if digits == "" || n.None? || n.value > INT64_MAX then None
      else Some(Parsed(Signed(At(text, 0) == '-', n.value), base))
  }

  /** A text is accepted exactly when it is a well-formed numeral of magnitude at most 2^63 - 1, with its value. */
  lemma AcceptsExactly(text: string, n: int, base: Base)
    ensures ParseInt(text) == Some(Parsed(n, base)) <==> Spells(text, base, n) && Magnitude(n) <= INT64_MAX
  {
    hide Denoted, SplitPrefix, IsPrefix;
    if ParseInt(text).Some? {
      AcceptedIsSpelled(text);
    }
    if Spells(text, base, n) && Magnitude(n) <= INT64_MAX {
      var neg, p, digits :| SpellsWith(text, base, n, neg, p, digits);
      SpelledIsAccepted(text, base, n, neg, p, digits);
    }
  }

  lemma AcceptedIsSpelled(text: string)
    requires ParseInt(text).Some?
    ensures Spells(text, ParseInt(text).value.base, ParseInt(text).value.value)
            && Magnitude(ParseInt(text).value.value) <= INT64_MAX
  {
    hide Denoted, SplitPrefix, IsPrefix;
    var neg, s := At(text, 0) == '-', Unsigned(text);
    SplitIsPrefix(s);
    var r := SplitPrefix(s).value;
    var p :| IsPrefix(p, r.base) && s == p + r.digits;
    assert text == (if neg then "-" else "") + s;
    assert SpellsWith(text, r.base, ParseInt(text).value.value, neg, p, r.digits);
  }

  lemma SpelledIsAccepted(text: string, base: Base, n: int, neg: bool, p: string, digits: string)
    requires SpellsWith(text, base, n, neg, p, digits) && Magnitude(n) <= INT64_MAX
    ensures ParseInt(text) == Some(Parsed(n, base))
  {
    hide Denoted, SplitPrefix, IsPrefix;
    PrefixSplits(p, base, digits);
    PrefixHead(p, base);
    assert At(text, 0) == '-' <==> neg;
    assert Unsigned(text) == p + digits;
  }

  lemma PrefixHead(p: string, base: Base)
    requires IsPrefix(p, base)
    ensures |p| >= 2 && p[0] == '0'
  {
  }

  /** Printing and parsing give back every 64-bit integer and its base, but zero in base 58 and -2^63. */
  lemma IntRoundTrip(v: int, base: Base)
    requires INT64_MIN <= v <= INT64_MAX
    ensures ParseInt(IntText(v, base)) == Some(Parsed(v, base)) <==> !(v == 0 && base == 58) && v != INT64_MIN
  {
    hide Denoted, SplitPrefix, IsPrefix, Prefix, Numeral;
    var digits := Numeral(base, Magnitude(v));
    NumeralDenotes(base, Magnitude(v));
    NumeralNotEmpty(base, Magnitude(v));
    assert IsPrefix(Prefix(base), base) by {
      PrefixIsOne(base);
    }
    PrefixSplits(Prefix(base), base, digits);
    PrefixHead(Prefix(base), base);
    var text := IntText(v, base);
    assert text == (if v < 0 then "-" else "") + (Prefix(base) + digits);
    assert Unsigned(text) == Prefix(base) + digits;
  }

  lemma PrefixIsOne(base: Base)
    ensures IsPrefix(Prefix(base), base)
  {
  }

  lemma NumeralNotEmpty(base: Base, n: nat)
    ensures Numeral(base, n) != ""
  {
    hide DIGITS58, DIGITS64;
  }

  // ----- the printer and the parser -----

  const DIGITS_BUF := 160

  /** int_to_base_prefixed_str */
  method IntToBasePrefixedStr(val: int64, wanted: int) returns (out: string)
    ensures out == IntText(val as int, wanted)
  {
    hide Prefix, Numeral, DIGITS58, DIGITS64;
    var base: Base := if IsBase(wanted) then wanted else 2;
    var isNegative := val < 0;
    // C negates -2^63 to itself; as an unsigned word that is 2^63 too.
    var uval: uint64 := if isNegative then (-(val as int)) as uint64 else val as uint64;
    var digitsBuf := new char[DIGITS_BUF];
    var dpos := WriteDigits(digitsBuf, base, uval);
    var sign := if isNegative then "-" else "";
    return sign + Prefix(base) + digitsBuf[dpos + 1..DIGITS_BUF - 1];
  }

  /** Its loop: digits from the right into the buffer, which never runs out. */
  method WriteDigits(digitsBuf: array<char>, base: Base, whole: uint64) returns (dpos: int)
    requires digitsBuf.Length == DIGITS_BUF
    modifies digitsBuf
    ensures 0 <= dpos + 1 < DIGITS_BUF && digitsBuf[DIGITS_BUF - 1] == '\0'
    ensures digitsBuf[dpos + 1..DIGITS_BUF - 1] == Numeral(base, whole as nat)
  {
    hide Digits, Power2, DIGITS58, DIGITS64;
    dpos := DIGITS_BUF - 1;
    digitsBuf[dpos] := '\0';
    dpos := dpos - 1;
    if whole == 0 {
      digitsBuf[dpos] := '0';
      dpos := dpos - 1;
      return;
    }
    var alphabet, uval := Alphabet(base), whole;
    WordFits(whole as nat);
    DigitCount(base, whole as nat, 64);
    while uval > 0 && dpos >= 0
      invariant -1 <= dpos < DIGITS_BUF - 1 && digitsBuf[DIGITS_BUF - 1] == '\0'
      invariant Digits(base, whole as nat) == Digits(base, uval as nat) + digitsBuf[dpos + 1..DIGITS_BUF - 1]
    {
      DigitsStep(base, uval as nat);
      var d := uval as int % base;
      ghost var done := digitsBuf[dpos + 1..DIGITS_BUF - 1];
      digitsBuf[dpos] := alphabet[d];
      assert digitsBuf[dpos..DIGITS_BUF - 1] == [alphabet[d]] + done;
      dpos := dpos - 1;
      uval := (uval as int / base) as uint64;
    }
    NoDigits(base);
  }

  lemma WordFits(n: nat)
    requires n <= 0xFFFF_FFFF_FFFF_FFFF
    ensures n < Power2(64)
  {
    hide Power2;
    Power2Add(32, 32);
    Power2Add(16, 16);
    Power2Add(8, 8);
    Power2Of8();
  }

  lemma Power2Of8()
    ensures Power2(8) == 256
  {
  }

  lemma {:induction false} Power2Add(i: nat, j: nat)
    ensures Power2(i + j) == Power2(i) * Power2(j)
  {
    if i > 0 {
      Power2Add(i - 1, j);
    }
  }

  lemma DigitsStep(base: Base, n: nat)
    requires n > 0
    ensures 0 <= n / base < n && 0 <= n % base < base
    ensures Digits(base, n) == Digits(base, n / base) + [Alphabet(base)[n % base]]
  {
    hide DIGITS58, DIGITS64, Alphabet;
    DivMod(base, n);
  }

  lemma NoDigits(base: Base)
    ensures Digits(base, 0) == ""
  {
  }

  /** parse_prefixed_int_string: every product and sum of the accumulator fits 64 bits. */
  method ParsePrefixedIntString(text: string) returns (ok: bool, val: int64, base: Base)
    ensures ok <==> ParseInt(text).Some?
    ensures ok ==> ParseInt(text) == Some(Parsed(val as int, base))
  {
    hide SplitPrefix, Denoted, DigitValue;
    val, base := 0, 2;
    var neg := At(text, 0) == '-';
    var s := if neg then text[1..] else text;
    var prefixed := SplitPrefix(s);
    if prefixed.None? || prefixed.value.digits == "" {
      return false, 0, 2;
    }
    base := prefixed.value.base;
    var digits := prefixed.value.digits;
    if '.' in digits {
      NoPoint(base, digits);
      return false, 0, 2;
    }
    var acc: int64 := 0;
    var i := 0;
    DenotedEmpty(base);
    assert digits[..0] == "";
    while i < |digits|
      invariant i <= |digits| && acc >= 0
      invariant Denoted(base, digits[..i]) == Some(acc as nat)
    {
      var dv := DigitValue(base, digits[i]);
      DenotedPush(base, digits[..i], digits[i]);
      assert digits[..i + 1] == digits[..i] + [digits[i]];
      DenotedGrows(base, digits, i + 1);
      if dv < 0 || dv >= base {
        return false, 0, 2;
      }
      OverflowCheck(acc as nat, dv, base);
      if acc as int > (INT64_MAX - dv) / base {
        return false, 0, 2;
      }
      acc := (acc as int * base) as int64 + dv as int64;
      i := i + 1;
    }
    assert digits[..i] == digits;
    return true, if neg then -acc else acc, base;
  }

  lemma OverflowCheck(acc: nat, dv: nat, base: Base)
    requires dv < base
    ensures acc > (INT64_MAX - dv) / base <==> acc * base + dv > INT64_MAX
  {
    var q, r := (INT64_MAX - dv) / base, (INT64_MAX - dv) % base;
    assert INT64_MAX - dv == q * base + r && 0 <= r < base;
    if acc > q {
      assert acc * base >= (q + 1) * base;
    } else {
      assert acc * base <= q * base;
    }
  }

  lemma NoPoint(base: Base, digits: string)
    requires '.' in digits
    ensures Denoted(base, digits).None?
  {
    hide Denoted;
    var i :| 0 <= i < |digits| && digits[i] == '.';
    assert digits[..i + 1] == digits[..i] + ['.'];
    DenotedPush(base, digits[..i], '.');
    DenotedGrows(base, digits, i + 1);
  }
}
