/**
 * The integer root (src/builtins.c:5662-5735): a doubling search, then a binary search,
 * both with powers computed by repeated multiplication in 64 bits.  A product that leaves
 * 64 bits, undefined in C, is the outcome Overflow here.
 */
module IntRoot {
  import opened Common
  import opened Numerals

  function Pow(b: nat, e: nat): nat {
    if e == 0 then 1 else Pow(b, e - 1) * b
  }

  /** r is the integer n-th root of x. */
  predicate IsRoot(r: nat, x: nat, n: nat) {
    Pow(r, n) <= x < Pow(r + 1, n)
  }

  // ----- powers -----

  lemma TimesMono(a: nat, b: nat, c: nat, d: nat)
    requires a <= b && c <= d
    ensures a * c <= b * d
  {
    assert a * c <= b * c;
    assert b * c <= b * d;
  }

  lemma {:induction false} PowMono(a: nat, b: nat, n: nat)
    requires a <= b
    ensures Pow(a, n) <= Pow(b, n)
  {
    if n > 0 {
      PowMono(a, b, n - 1);
      TimesMono(Pow(a, n - 1), Pow(b, n - 1), a, b);
    }
  }

  lemma {:induction false} PowPrefix(b: nat, i: nat, n: nat)
    requires b >= 1 && i <= n
    ensures 1 <= Pow(b, i) <= Pow(b, n)
    decreases n
  {
    if i < n {
      PowPrefix(b, i, n - 1);
      TimesMono(Pow(b, n - 1), Pow(b, n - 1), 1, b);
    } else if n > 0 {
      PowPrefix(b, n - 1, n - 1);
      TimesMono(1, Pow(b, n - 1), 1, b);
    }
  }

  lemma PowSquare(b: nat, n: nat)
    requires b >= 1 && n >= 2
    ensures b * b <= Pow(b, n)
  {
    assert Pow(b, 1) == b;
    assert Pow(b, 2) == b * b;
    PowPrefix(b, 2, n);
  }

  lemma {:induction false} PowDouble(h: nat, n: nat)
    ensures Pow(2 * h, n) == Pow(2, n) * Pow(h, n)
  {
    if n > 0 {
      PowDouble(h, n - 1);
      Regroup(Pow(2, n - 1), Pow(h, n - 1), h);
    }
  }

  lemma Regroup(a: nat, b: nat, h: nat)
    ensures a * b * (2 * h) == a * 2 * (b * h)
  {
  }

  lemma ZeroPow(n: nat)
    requires n > 0
    ensures Pow(0, n) == 0
  {
  }

  lemma {:induction false} OnePow(n: nat)
    ensures Pow(1, n) == 1
  {
    if n > 0 {
      OnePow(n - 1);
    }
  }

  /** The root is unique. */
  lemma RootUnique(r: nat, s: nat, x: nat, n: nat)
    requires IsRoot(r, x, n) && IsRoot(s, x, n)
    ensures r == s
  {
    if r < s {
      PowMono(r + 1, s, n);
    } else if s < r {
      PowMono(s + 1, r, n);
    }
  }

  // ----- powers of two -----

  predicate PowerOfTwo(d: nat) {
    d == 1 || (d > 1 && d % 2 == 0 && PowerOfTwo(d / 2))
  }

  lemma {:induction false} NoneBetween(a: nat, b: nat)
    requires PowerOfTwo(a) && PowerOfTwo(b) && a < 2 * b
    ensures a <= b
  {
    if a > 1 && b > 1 {
      NoneBetween(a / 2, b / 2);
    }
  }

  lemma {:induction false} PowLinear(b: nat, n: nat)
    requires n > 0
    ensures b <= Pow(b, n)
  {
    if b > 0 {
      assert Pow(b, 0) == 1 && Pow(b, 1) == b;
      PowPrefix(b, 1, n);
    }
  }

  /** From hi on, doubled until the power exceeds x. */
  function Doubled(hi: nat, x: nat, n: nat): (top: nat)
    requires hi > 0 && n > 0
    ensures top >= hi && Pow(top, n) > x
    decreases x + 1 - hi
  {
    if Pow(hi, n) > x then hi
    else
      PowLinear(hi, n);
      Doubled(2 * hi, x, n)
  }

  /** The least power of two whose n-th power exceeds x. */
  function Top(x: nat, n: nat): nat
    requires n > 0
  {
    Doubled(1, x, n)
  }

  lemma {:induction false} DoubledIs(hi: nat, x: nat, n: nat)
    requires PowerOfTwo(hi) && n > 0 && (hi > 1 ==> Pow(hi / 2, n) <= x)
    ensures PowerOfTwo(Doubled(hi, x, n))
    ensures Doubled(hi, x, n) > 1 ==> Pow(Doubled(hi, x, n) / 2, n) <= x
    decreases x + 1 - hi
  {
    if Pow(hi, n) <= x {
      PowLinear(hi, n);
      assert (2 * hi) / 2 == hi;
      DoubledIs(2 * hi, x, n);
    }
  }

  lemma TopIsLeast(x: nat, n: nat)
    requires n > 0
    ensures PowerOfTwo(Top(x, n)) && Pow(Top(x, n), n) > x && (Top(x, n) > 1 ==> Pow(Top(x, n) / 2, n) <= x)
  {
    DoubledIs(1, x, n);
  }

  // ----- when the products fit -----

  predicate FitsAbove(p: nat, x: nat) {
    x < p <= INT64_MAX
  }

  ghost predicate PowerFits(b: nat, x: nat, n: nat) {
    exists j: nat :: j <= n && FitsAbove(Pow(b, j), x)
  }

  ghost predicate BelowFits(top: nat, x: nat, n: nat) {
    exists d: nat :: d < top && PowerOfTwo(d) && FitsAbove(Pow(top - d, n), x)
  }

  /**
   * Some power of the top of the doubling search lands between x and the end of 64 bits; and
   * either the top is just above the root, or the n-th power of some number a power of two
   * below it lands there.
   */
  ghost predicate Fits(x: nat, n: nat)
    requires n > 0
  {
    var top := Top(x, n);
    PowerFits(top, x, n) && (Pow(top - 1, n) <= x || BelowFits(top, x, n))
  }

  // ----- the loops -----

  function Product(a: int64, b: int64): (p: Option<int64>)
    ensures p == if -0x8000_0000_0000_0000 <= (a as int) * (b as int) <= INT64_MAX
            then Some(((a as int) * (b as int)) as int64) else None
  {
    var p := (a as int) * (b as int);
    if -0x8000_0000_0000_0000 <= p <= INT64_MAX then Some(p as int64) else None
  }

  /** The inner loop of the doubling search, which stops as soon as the product is too large; none for an overflow. */
  method PowerUpTo(b: int64, n: int64, x: int64) returns (pw: Option<int64>)
    requires b >= 1 && n >= 0 && x >= 0
    ensures pw.Some? ==> (pw.value > x <==> Pow(b as nat, n as nat) > x as nat)
    ensures pw.None? <==> Pow(b as nat, n as nat) > x as nat && !PowerFits(b as nat, x as nat, n as nat)
  {
    hide Pow;
    var acc: int64 := 1;
    var i: int64 := 0;
    PowStart(b as nat);
    while i < n && acc <= x
      invariant 0 <= i <= n && acc as int == Pow(b as nat, i as nat)
    {
      PowStep(b as nat, i as nat);
      var p := Product(acc, b);
      if p.None? {
        PowerOverflows(b as nat, i as nat, n as nat, x as nat);
        return None;
      }
      acc := p.value;
      i := i + 1;
    }
    PowPrefix(b as nat, i as nat, n as nat);
    if acc > x {
      assert FitsAbove(Pow(b as nat, i as nat), x as nat);
    }
    return Some(acc);
  }

  lemma PowerOverflows(b: nat, i: nat, n: nat, x: nat)
    requires b >= 1 && i < n && Pow(b, i) <= x <= INT64_MAX && Pow(b, i + 1) > INT64_MAX
    ensures Pow(b, n) > x && !PowerFits(b, x, n)
  {
    hide Pow;
    PowPrefix(b, i + 1, n);
    forall j: nat | j <= n ensures !FitsAbove(Pow(b, j), x) {
      if j <= i {
        PowPrefix(b, j, i);
      } else {
        PowPrefix(b, i + 1, j);
      }
    }
  }

  lemma PowStart(b: nat)
    ensures Pow(b, 0) == 1
  {
  }

  lemma PowStep(b: nat, i: nat)
    ensures Pow(b, i + 1) == Pow(b, i) * b
  {
  }

  /** The inner loop of the binary search: the whole power. */
  method Power(b: int64, n: int64) returns (pw: Option<int64>)
    requires b >= 1 && n >= 0
    ensures pw.None? <==> Pow(b as nat, n as nat) > INT64_MAX
    ensures pw.Some? ==> pw.value as int == Pow(b as nat, n as nat)
  {
    hide Pow;
    var acc: int64 := 1;
    var i: int64 := 0;
    PowStart(b as nat);
    while i < n
      invariant 0 <= i <= n && acc as int == Pow(b as nat, i as nat)
    {
      PowStep(b as nat, i as nat);
      PowPrefix(b as nat, i as nat + 1, n as nat);
      var p := Product(acc, b);
      if p.None? {
        return None;
      }
      acc := p.value;
      i := i + 1;
    }
    return Some(acc);
  }

  /** A bound that fits into 64 bits with room for doubling. */
  lemma SquareFits(h: nat, x: nat)
    requires h * h <= x <= INT64_MAX
    ensures h < 0x1_0000_0000
  {
    if h >= 0x1_0000_0000 {
      TimesMono(0x1_0000_0000, h, 0x1_0000_0000, h);
      assert false;
    }
  }

  /** Doubling: the top, unless no power of it fits; the shift itself never overflows. */
  method UpperBound(x: int64, n: int64) returns (hi: Option<int64>)
    requires x >= 0 && n >= 2
    ensures hi.Some? ==> hi.value as int == Top(x as nat, n as nat)
    ensures hi.None? <==> !PowerFits(Top(x as nat, n as nat), x as nat, n as nat)
    ensures hi.Some? ==> hi.value <= 0x2_0000_0000
  {
    hide Pow;
    var h: int64 := 1;
    while true
      invariant 1 <= h <= 0x2_0000_0000 && Doubled(h as nat, x as nat, n as nat) == Top(x as nat, n as nat)
      decreases 2 * (x as int) + 2 - (h as int)
    {
      var pw := PowerUpTo(h, n, x);
      if pw.None? {
        return None;
      }
      if pw.value > x {
        PowUpToFits(h as nat, x as nat, n as nat);
        return Some(h);
      }
      PowSquare(h as nat, n as nat);
      TimesMono(1, h as nat, h as nat, h as nat);
      SquareFits(h as nat, x as nat);
      h := h * 2;
    }
  }

  /** Where the search for the top ends is the top. */
  lemma PowUpToFits(hi: nat, x: nat, n: nat)
    requires hi >= 1 && n >= 1 && Pow(hi, n) > x
    ensures Doubled(hi, x, n) == hi
  {
  }

  lemma HalfPower(w: nat)
    requires PowerOfTwo(w) && w > 1
    ensures w % 2 == 0 && PowerOfTwo(w / 2)
  {
  }

  lemma FitsBelow(top: nat, d: nat, x: nat, n: nat)
    requires d < top && PowerOfTwo(d) && FitsAbove(Pow(top - d, n), x)
    ensures BelowFits(top, x, n)
  {
  }

  /** The two searches; none for an overflow. */
  method Search(x: int64, n: int64) returns (r: Option<int64>)
    requires x >= 0 && n >= 2
    ensures r.None? <==> !Fits(x as nat, n as nat)
    ensures r.Some? ==> r.value >= 0 && IsRoot(r.value as nat, x as nat, n as nat)
  {
    hide Pow, Top, PowerOfTwo, BelowFits, PowerFits;
    var top := UpperBound(x, n);
    if top.None? {
      return None;
    }
    var lo, hi := 0, top.value;
    ghost var w := hi as nat;
    TopIsLeast(x as nat, n as nat);
    ZeroPow(n as nat);
    while lo + 1 < hi
      invariant 0 <= lo < hi <= top.value && PowerOfTwo(w) && (hi - lo) as int == w
      invariant Pow(lo as nat, n as nat) <= x as nat < Pow(hi as nat, n as nat)
      invariant hi < top.value ==> Pow(hi as nat, n as nat) <= INT64_MAX
      invariant hi < top.value ==> BelowFits(top.value as nat, x as nat, n as nat)
      decreases hi - lo
    {
      HalfPower(w);
      var mid := (lo + hi) / 2;
      PowMono(mid as nat, hi as nat, n as nat);
      var pw := Power(mid, n);
      w := w / 2;
      if pw.None? {
        NothingFits(top.value as nat, w, x as nat, n as nat);
        return None;
      }
      if pw.value <= x {
        lo := mid;
      } else {
        if hi == top.value {
          FitsBelow(top.value as nat, w, x as nat, n as nat);
        }
        hi := mid;
      }
    }
    return Some(lo);
  }

  /** If the first middle above the root overflows, so would all others of its form. */
  lemma NothingFits(top: nat, w: nat, x: nat, n: nat)
    requires PowerOfTwo(w) && 2 * w <= top && top - w >= 1 && n >= 1
    requires Pow(top - 2 * w, n) <= x && Pow(top - w, n) > INT64_MAX && x <= INT64_MAX
    ensures Pow(top - 1, n) > x
    ensures !BelowFits(top, x, n)
  {
    hide Pow;
    PowMono(top - w, top - 1, n);
    forall d: nat | d < top && PowerOfTwo(d) ensures !FitsAbove(Pow(top - d, n), x) {
      if d < 2 * w {
        NoneBetween(d, w);
        PowMono(top - w, top - d, n);
      } else {
        PowMono(top - d, top - 2 * w, n);
      }
    }
  }

  // ----- the root -----

  datatype Outcome = Root(r: int64) | Rejected | Overflow

  /** What the root of two integers is, in unbounded integers; none for an error. */
  ghost predicate Rooted(x: int, n: int, r: Option<int>) {
    if n == 0 then r.None?
    else if n < 0 then (if x == 1 || x == -1 then r == Some(x) else r.None?)
    else if n == 1 then r == Some(x)
    else if x >= 0 then r.Some? && r.value >= 0 && IsRoot(r.value, x, n)
    else if n % 2 == 0 then r.None?
    else r.Some? && r.value <= 0 && IsRoot(-r.value, -x, n)
  }

  /** No search, or the products of both searches fit. */
  ghost predicate InRange(x: int, n: int) {
    n >= 2 && (x >= 0 || n % 2 == 1) ==> Magnitude(x) <= INT64_MAX && Fits(Magnitude(x), n)
  }

  /**
   * builtin_root on integers.  Both searches end; some product leaves 64 bits if and only if
   * the arguments are not in range; otherwise the result has the sign of x and the magnitude
   * of its n-th root.
   */
  method IntegerRoot(x: int64, n: int64) returns (out: Outcome)
    ensures out.Overflow? <==> !InRange(x as int, n as int)
    ensures !out.Overflow? ==> Rooted(x as int, n as int, if out.Root? then Some(out.r as int) else None)
  {
    hide Pow, IsRoot, Fits;
    if n == 0 {
      return Rejected;
    }
    if n < 0 {
      if x == 0 {
        return Rejected;
      }
      if x != 1 && x != -1 {
        return Rejected;
      }
      return Root(x);
    }
    if n == 1 {
      return Root(x);
    }
    if x >= 0 {
      var lo := Search(x, n);
      return if lo.None? then Overflow else Root(lo.value);
    }
    if n % 2 == 0 {
      return Rejected;
    }
    if x == -0x8000_0000_0000_0000 {
      return Overflow;
    }
    var lo := Search(-x, n);
    return if lo.None? then Overflow else Root(-lo.value);
  }

  // ----- who is in range -----

  /** The magnitude leaves room for n doublings. */
  ghost predicate Roomy(x: int, n: int) {
    n >= 2 ==> Magnitude(x) * Pow(2, n) <= INT64_MAX
  }

  /** Room for n doublings is enough: then even the n-th power of the top fits. */
  lemma RoomyIsInRange(x: int, n: int)
    requires Roomy(x, n)
    ensures InRange(x, n)
  {
    hide Pow, Doubled;
    if n >= 2 {
      var m := Magnitude(x);
      var top := Top(m, n);
      OnePow(n);
      PowPrefix(2, 0, n);
      PowStart(2);
      TimesMono(m, m, 1, Pow(2, n));
      TopIsLeast(m, n);
      if top > 1 {
        PowDouble(top / 2, n);
        TimesMono(Pow(2, n), Pow(2, n), Pow(top / 2, n), m);
      }
      assert FitsAbove(Pow(top, n), m);
      if Pow(top - 1, n) > m {
        PowMono(top - 1, top, n);
        ZeroPow(n);
        assert PowerOfTwo(1) && FitsAbove(Pow(top - 1, n), m);
      }
    }
  }

  lemma {:induction false} PowerTimes(a: nat, b: nat)
    requires PowerOfTwo(a) && PowerOfTwo(b)
    ensures PowerOfTwo(a * b)
  {
    if a > 1 {
      PowerTimes(a / 2, b);
      HalfTimes(a / 2, b);
    }
  }

  lemma HalfTimes(h: nat, b: nat)
    requires h >= 1 && b >= 1
    ensures (2 * h) * b > 1 && (2 * h) * b == 2 * (h * b)
  {
    TimesMono(1, h, 1, b);
  }

  lemma LargePowers()
    ensures PowerOfTwo(0x8000_0000) && PowerOfTwo(0x1_0000_0000)
  {
    assert PowerOfTwo(2) && PowerOfTwo(4);
    PowerTimes(4, 4);
    PowerTimes(16, 16);
    PowerTimes(0x100, 0x100);
    PowerTimes(0x8000, 0x1_0000) by {
      PowerTimes(4, 2);
      PowerTimes(8, 0x100);
      PowerTimes(0x800, 16);
    }
    PowerTimes(2, 0x8000_0000);
  }

  /** The square root needs a top of at most 2^31: exactly the numbers below 2^62 are in range. */
  lemma SquareInRange(x: nat)
    requires x <= INT64_MAX
    ensures InRange(x, 2) <==> x < 0x4000_0000_0000_0000
  {
    hide Pow, Top, PowerOfTwo;
    LargePowers();
    TopIsLeast(x, 2);
    PowTwo(Top(x, 2));
    PowTwo(Top(x, 2) / 2);
    if x < 0x4000_0000_0000_0000 {
      SmallSquare(x);
    } else {
      LargeSquare(x);
    }
  }

  lemma SmallSquare(x: nat)
    requires x < 0x4000_0000_0000_0000
    ensures Fits(x, 2)
  {
    var top := Top(x, 2);
    TopIsLeast(x, 2);
    hide Pow, Top;
    PowTwo(top);
    PowTwo(top - 1);
    if top > 1 {
      PowTwo(top / 2);
      if top / 2 >= 0x8000_0000 {
        TimesMono(0x8000_0000, top / 2, 0x8000_0000, top / 2);
        assert false;
      }
    }
    LargePowers();
    NoneBetween(top, 0x8000_0000);
    TimesMono(top, 0x8000_0000, top, 0x8000_0000);
    assert FitsAbove(Pow(top, 2), x);
    if Pow(top - 1, 2) > x {
      TimesMono(top - 1, top, top - 1, top);
      assert PowerOfTwo(1) && FitsAbove(Pow(top - 1, 2), x);
    }
  }

  /** The square root of 2^62 and above multiplies 2^32 with itself to see that it is too large. */
  lemma LargeSquare(x: nat)
    requires 0x4000_0000_0000_0000 <= x <= INT64_MAX
    ensures !Fits(x, 2)
  {
    var top := Top(x, 2);
    TopIsLeast(x, 2);
    hide Pow, Top, PowerOfTwo;
    PowTwo(top);
    if top <= 0x8000_0000 {
      TimesMono(top, 0x8000_0000, top, 0x8000_0000);
      assert false;
    }
    LargePowers();
    NoneBetween(0x1_0000_0000, top);
    TimesMono(0x1_0000_0000, top, 0x1_0000_0000, top);
    PowTwo(top / 2);
    SquareFits(top / 2, x);
    forall j: nat | j <= 2 ensures !FitsAbove(Pow(top, j), x) {
    }
  }

  /** Any exponent of 63 and more is in range below 2^62, although no room is left for so many doublings. */
  lemma HighRootInRange(x: nat, n: nat)
    requires 1 <= x < 0x4000_0000_0000_0000 && n >= 63
    ensures InRange(x, n) && !Roomy(x, n)
  {
    hide Pow, Doubled;
    PowTwoTo62();
    OnePow(n);
    PowPrefix(2, 63, n);
    PowStep(2, 62);
    TimesMono(1, x, Pow(2, n), Pow(2, n));
    var j := LeastAbove(x);
    assert Doubled(2, x, n) == 2 by {
      PowUpToFits(2, x, n);
    }
    assert Top(x, n) == 2 by {
      assert Doubled(1, x, n) == Doubled(2, x, n) by {
        DoubledOnce(x, n);
      }
    }
    assert FitsAbove(Pow(2, j), x);
  }

  lemma DoubledOnce(x: nat, n: nat)
    requires n >= 1 && Pow(1, n) <= x
    ensures Doubled(1, x, n) == Doubled(2, x, n)
  {
  }

  lemma PowTwoTo62()
    ensures Pow(2, 62) == 0x4000_0000_0000_0000
  {
    PowTwo(2);
    hide Pow;
    PowAdds(2, 2, 1);
    PowAdds(2, 2, 2);
    PowAdds(2, 4, 3);
    PowAdds(2, 4, 4);
    PowAdds(2, 8, 7);
    PowAdds(2, 8, 8);
    PowAdds(2, 16, 15);
    PowAdds(2, 31, 31);
  }

  lemma {:induction false} PowAdds(b: nat, m: nat, n: nat)
    ensures Pow(b, m + n) == Pow(b, m) * Pow(b, n)
  {
    if n > 0 {
      PowAdds(b, m, n - 1);
      assert m + n - 1 + 1 == m + n;
    }
  }

  /** The first power of two above x is at most twice x. */
  lemma LeastAbove(x: nat) returns (j: nat)
    requires 1 <= x < 0x4000_0000_0000_0000
    ensures j <= 62 && FitsAbove(Pow(2, j), x)
  {
    hide Pow;
    PowTwoTo62();
    PowStart(2);
    j := 0;
    while Pow(2, j) <= x
      invariant j <= 62 && (j > 0 ==> Pow(2, j) <= 2 * x)
      decreases 62 - j
    {
      PowStep(2, j);
      if j == 62 {
        assert false;
      }
      j := j + 1;
    }
  }

  lemma PowTwo(b: nat)
    ensures Pow(b, 0) == 1 && Pow(b, 1) == b && Pow(b, 2) == b * b
  {
    assert Pow(b, 0) == 1;
  }
}
