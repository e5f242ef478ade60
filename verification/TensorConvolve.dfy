/**
 * The two-argument convolution of integer tensors (src/builtins.c:5035-5143) and the
 * N-dimensional sum that it computes, with the border of the input repeated outwards.
 */
module TensorConvolve {
  import opened Shapes
  import opened RowMajor
  import opened TensorScatter

  // ----- sums over a box of indices -----

  /** Nested sums, one for each dimension. */
  function BoxSum(shape: Shape, f: Index -> int): int
    decreases |shape|, 0
  {
    if shape == [] then f([]) else SliceSum(shape, f, shape[0])
  }

  /** Over the first n positions of the first dimension. */
  function SliceSum(shape: Shape, f: Index -> int, n: nat): int
    requires shape != []
    decreases |shape| - 1, n + 1
  {
    if n == 0 then 0 else SliceSum(shape, f, n - 1) + BoxSum(shape[1..], Under(f, n - 1))
  }

  function Under(f: Index -> int, i: nat): Index -> int {
    (rest: Index) => f([i] + rest)
  }

  /** One sum over the first n places, as the loop has it. */
  function PlaceSum(shape: Shape, f: Index -> int, n: nat): int
    requires n <= Product(shape)
  {
    if n == 0 then 0 else PlaceSum(shape, f, n - 1) + f(Unravel(shape, n - 1))
  }

  /** The places of slice i come in the order of the places of a slice. */
  lemma {:induction false} SlicePlaces(shape: Shape, f: Index -> int, i: nat, r: nat)
    requires shape != [] && i < shape[0] && r <= Product(shape[1..])
             && Times(i, Product(shape[1..])) + r <= Product(shape)
    ensures Times(i, Product(shape[1..])) <= Product(shape)
    ensures PlaceSum(shape, f, Times(i, Product(shape[1..])) + r) ==
            PlaceSum(shape, f, Times(i, Product(shape[1..]))) + PlaceSum(shape[1..], Under(f, i), r)
  {
    hide Product, Times;
    if r > 0 {
      SlicePlaces(shape, f, i, r - 1);
      UnravelSlice(shape, i, r - 1);
    }
  }

  lemma UnravelSlice(shape: Shape, i: nat, r: nat)
    requires shape != [] && i < shape[0] && r < Product(shape[1..])
    ensures Times(i, Product(shape[1..])) + r < Product(shape)
    ensures Unravel(shape, Times(i, Product(shape[1..])) + r) == [i] + Unravel(shape[1..], r)
  {
    JoinPlace(i, r, shape[0], Product(shape[1..]));
  }

  lemma TimesStep(i: nat, n: nat)
    ensures Times(i + 1, n) == Times(i, n) + n && Times(0, n) == 0
  {
  }

  lemma ProductIs(shape: Shape)
    requires shape != []
    ensures Product(shape) == Times(shape[0], Product(shape[1..]))
  {
  }

  lemma TimesBelow(i: nat, j: nat, n: nat)
    requires i <= j
    ensures Times(i, n) <= Times(j, n)
  {
    TimesMono(i, j, n);
  }

  lemma {:induction false} FirstSlices(shape: Shape, f: Index -> int, i: nat)
    requires shape != [] && i <= shape[0]
    requires forall g: Index -> int :: PlaceSum(shape[1..], g, Product(shape[1..])) == BoxSum(shape[1..], g)
    ensures Times(i, Product(shape[1..])) <= Product(shape)
    ensures PlaceSum(shape, f, Times(i, Product(shape[1..]))) == SliceSum(shape, f, i)
    decreases i
  {
    hide Times, Product;
    var n := Product(shape[1..]);
    ProductIs(shape);
    TimesBelow(i, shape[0], n);
    TimesStep(0, n);
    if i > 0 {
      TimesStep(i - 1, n);
      FirstSlices(shape, f, i - 1);
      SlicePlaces(shape, f, i - 1, n);
    }
  }

  /** The sum over all places is the nested sum over all indices. */
  lemma {:induction false} PlaceSumIsBoxSum(shape: Shape, f: Index -> int)
    ensures PlaceSum(shape, f, Product(shape)) == BoxSum(shape, f)
    decreases |shape|
  {
    if shape == [] {
      assert Unravel(shape, 0) == [];
      assert PlaceSum(shape, f, 1) == PlaceSum(shape, f, 0) + f(Unravel(shape, 0));
    } else {
      forall g: Index -> int ensures PlaceSum(shape[1..], g, Product(shape[1..])) == BoxSum(shape[1..], g) {
        PlaceSumIsBoxSum(shape[1..], g);
      }
      FirstSlices(shape, f, shape[0]);
      ProductIs(shape);
    }
  }

  /** A sum with one term is that term. */
  lemma {:induction false} OneTerm(shape: Shape, f: Index -> int, c: Index, n: nat)
    requires InBox(shape, c) && n <= Product(shape)
    requires forall i | InBox(shape, i) && i != c :: f(i) == 0
    ensures PlaceSum(shape, f, n) == if Offset(shape, c) < n then f(c) else 0
  {
    hide Product, Offset, Unravel;
    OffsetInBounds(shape, c);
    if n > 0 {
      OneTerm(shape, f, c, n - 1);
      UnravelInBox(shape, n - 1);
    }
  }

  // ----- the convolution -----

  /** The nearest position inside. */
  function Clamp(rel: int, dim: nat): (r: nat)
    requires dim > 0
    ensures r < dim
    ensures 0 <= rel < dim ==> r == rel
  {
    if rel < 0 then 0 else if rel >= dim then dim - 1 else rel
  }

  /** The input index that kernel index k meets at output index idx. */
  function Source(x: Shape, k: Shape, idx: Index, kidx: Index): (r: Index)
    requires |x| == |k| == |idx| == |kidx| && NoZero(x)
    ensures InBox(x, r)
  {
    seq(|x|, d requires 0 <= d < |x| => Clamp((idx[d] + kidx[d]) as int - k[d] / 2, x[d]))
  }

  function IntOf(e: Elem): int {
    if e.Int? then e.i else 0
  }

  /** Input times kernel at one kernel index; nothing outside the kernel. */
  function Term(x: Shape, xs: seq<Elem>, k: Shape, ks: seq<Elem>, idx: Index, kidx: Index): int
    requires |x| == |k| && NoZero(x) && |xs| == Product(x) && |ks| == Product(k) && InBox(x, idx)
  {
    if !InBox(k, kidx) then 0 else
      var s := Source(x, k, idx, kidx);
      OffsetInBounds(x, s);
      OffsetInBounds(k, kidx);
      IntOf(xs[Offset(x, s)]) * IntOf(ks[Offset(k, kidx)])
  }

  function Terms(x: Shape, xs: seq<Elem>, k: Shape, ks: seq<Elem>, idx: Index): Index -> int
    requires |x| == |k| && NoZero(x) && |xs| == Product(x) && |ks| == Product(k) && InBox(x, idx)
  {
    (kidx: Index) => Term(x, xs, k, ks, idx, kidx)
  }

  /** The convolution at one output index: the sum over the kernel's indices. */
  function ConvolvedAt(x: Shape, xs: seq<Elem>, k: Shape, ks: seq<Elem>, idx: Index): int
    requires |x| == |k| && NoZero(x) && |xs| == Product(x) && |ks| == Product(k) && InBox(x, idx)
  {
    BoxSum(k, Terms(x, xs, k, ks, idx))
  }

  // ----- what fits into 64 bits -----

  /** The value of an int64_t. */
  predicate InWord(v: int) {
    -0x8000_0000_0000_0000 <= v < 0x8000_0000_0000_0000
  }

  /** The product and the sum of one turn of the loop over the kernel. */
  ghost predicate TurnFits(k: Shape, f: Index -> int, n: nat)
    requires n < Product(k)
  {
    InWord(f(Unravel(k, n))) && InWord(PlaceSum(k, f, n + 1))
  }

  /** No product and no partial sum of the loop over the kernel leaves 64 bits. */
  ghost predicate Roomy(k: Shape, f: Index -> int) {
    forall n | 0 <= n < Product(k) :: TurnFits(k, f, n)
  }

  lemma TurnSums(k: Shape, f: Index -> int, n: nat, product: int)
    requires n < Product(k) && product == f(Unravel(k, n))
    ensures PlaceSum(k, f, n + 1) == PlaceSum(k, f, n) + product
    ensures TurnFits(k, f, n) <==> InWord(product) && InWord(PlaceSum(k, f, n) + product)
  {
  }

  /** The same at every output index. */
  ghost predicate RoomyEverywhere(x: Shape, xs: seq<Elem>, k: Shape, ks: seq<Elem>)
    requires |x| == |k| && |xs| == Product(x) && |ks| == Product(k)
  {
    NoZero(x) ==> forall idx | InBox(x, idx) :: Roomy(k, Terms(x, xs, k, ks, idx))
  }

  function Size(v: int): nat {
    if v < 0 then -v else v
  }

  predicate Within(xs: seq<Elem>, bound: nat) {
    forall p | 0 <= p < |xs| :: Size(IntOf(xs[p])) <= bound
  }

  /** Elements of which even the largest product, once for every kernel element, fits leave room. */
  lemma SmallElementsAreRoomy(x: Shape, xs: seq<Elem>, k: Shape, ks: seq<Elem>, a: nat, b: nat)
    requires |x| == |k| && |xs| == Product(x) && |ks| == Product(k)
    requires Within(xs, a) && Within(ks, b) && Times(Product(k), Times(a, b)) < 0x8000_0000_0000_0000
    ensures RoomyEverywhere(x, xs, k, ks)
  {
    hide Product, Times, Terms, Unravel;
    if NoZero(x) {
      forall idx, n | InBox(x, idx) && 0 <= n < Product(k)
        ensures TurnFits(k, Terms(x, xs, k, ks, idx), n)
      {
        SmallSums(x, xs, k, ks, idx, a, b, n + 1);
        TermIsSmall(x, xs, k, ks, idx, a, b, n);
        TimesBelow(n + 1, Product(k), Times(a, b));
        TimesBelow(1, Product(k), Times(a, b));
        TimesStep(0, Times(a, b));
      }
    }
  }

  lemma TermIsSmall(x: Shape, xs: seq<Elem>, k: Shape, ks: seq<Elem>, idx: Index, a: nat, b: nat, n: nat)
    requires |x| == |k| && NoZero(x) && |xs| == Product(x) && |ks| == Product(k) && InBox(x, idx) && n < |ks|
    requires Within(xs, a) && Within(ks, b)
    ensures Size(Terms(x, xs, k, ks, idx)(Unravel(k, n))) <= Times(a, b)
  {
    TermHere(x, xs, k, ks, idx, n);
    ProductWithin(IntOf(xs[Offset(x, Source(x, k, idx, Unravel(k, n)))]), IntOf(ks[n]), a, b);
  }

  lemma ProductWithin(u: int, v: int, a: nat, b: nat)
    requires Size(u) <= a && Size(v) <= b
    ensures Size(u * v) <= Times(a, b)
  {
    var p: int, q: int := Size(u), Size(v);
    TimesBelow(p, a, q);
    assert Times(a, q) == Times(q, a) && Times(a, b) == Times(b, a);
    TimesBelow(q, b, a);
    assert u * v == p * q || u * v == 0 - p * q;
  }

  lemma {:induction false} SmallSums(x: Shape, xs: seq<Elem>, k: Shape, ks: seq<Elem>, idx: Index, a: nat, b: nat,
      n: nat)
    requires |x| == |k| && NoZero(x) && |xs| == Product(x) && |ks| == Product(k) && InBox(x, idx) && n <= |ks|
    requires Within(xs, a) && Within(ks, b)
    ensures Size(PlaceSum(k, Terms(x, xs, k, ks, idx), n)) <= Times(n, Times(a, b))
  {
    hide Product, Times, Terms, Unravel, Within;
    if n > 0 {
      SmallSums(x, xs, k, ks, idx, a, b, n - 1);
      TermIsSmall(x, xs, k, ks, idx, a, b, n - 1);
      TimesStep(n - 1, Times(a, b));
    } else {
      TimesStep(0, Times(a, b));
    }
  }

  // ----- the kernel's centre -----

  predicate AllOdd(shape: Shape) {
    forall d | 0 <= d < |shape| :: shape[d] % 2 == 1
  }

  function Centre(k: Shape): Index {
    seq(|k|, d requires 0 <= d < |k| => k[d] / 2)
  }

  lemma CentreMeetsItself(x: Shape, k: Shape, idx: Index)
    requires |x| == |k| && NoZero(x) && AllOdd(k) && InBox(x, idx)
    ensures InBox(k, Centre(k)) && Source(x, k, idx, Centre(k)) == idx
  {
    assert Source(x, k, idx, Centre(k)) == idx;
  }

  /** A kernel that is 1 at its centre and 0 elsewhere gives the input back. */
  lemma IdentityKernel(x: Shape, xs: seq<Elem>, k: Shape, ks: seq<Elem>, idx: Index)
    requires |x| == |k| && NoZero(x) && AllOdd(k) && |xs| == Product(x) && |ks| == Product(k) && InBox(x, idx)
    requires InBox(k, Centre(k)) && Offset(k, Centre(k)) < |ks| && ks[Offset(k, Centre(k))] == Int(1)
    requires forall p | 0 <= p < |ks| && p != Offset(k, Centre(k)) :: ks[p] == Int(0)
    ensures Offset(x, idx) < |xs| && ConvolvedAt(x, xs, k, ks, idx) == IntOf(xs[Offset(x, idx)])
  {
    hide Product, Offset, BoxSum;
    var f, c := Terms(x, xs, k, ks, idx), Centre(k);
    OffsetInBounds(x, idx);
    CentreMeetsItself(x, k, idx);
    forall i | InBox(k, i) && i != c ensures f(i) == 0 {
      OffsetInBounds(k, i);
      if Offset(k, i) == Offset(k, c) {
        OffsetInjective(k, i, c);
      }
    }
    OneTerm(k, f, c, Product(k));
    PlaceSumIsBoxSum(k, f);
  }

  // ----- the loops -----

  /** The multi-index of a place. */
  method DecodeIndex(shape: Shape, strides: seq<nat>, pos: nat) returns (idx: Index)
    requires IsStrides(shape, strides) && pos < Product(shape)
    ensures idx == Unravel(shape, pos)
  {
    hide Product, Unravel, IsStrides, Quot, Rem;
    idx := [];
    var rem := pos;
    var d := 0;
    assert shape[0..] == shape;
    while d < |shape|
      invariant d <= |shape| && 0 <= rem < Product(shape[d..])
      invariant Unravel(shape, pos) == idx + Unravel(shape[d..], rem)
    {
      UnravelStep(shape, strides, d, rem);
      idx := idx + [Quot(rem, strides[d])];
      rem := Rem(rem, strides[d]);
      d := d + 1;
    }
    assert idx + [] == idx;
  }

  /** The place of the input element, each position kept inside. */
  method SourceOffset(x: Tensor<Elem>, k: Shape, idx: Index, kidx: Index, centers: seq<nat>) returns (offset: nat)
    requires x.Valid() && |x.shape| == |k| == |idx| == |kidx| == |centers| && NoZero(x.shape)
    requires forall d | 0 <= d < |k| :: centers[d] == k[d] / 2
    ensures offset == Offset(x.shape, Source(x.shape, k, idx, kidx))
  {
    hide Product, Offset, IsStrides, Times;
    ghost var s := Source(x.shape, k, idx, kidx);
    offset := 0;
    var d := 0;
    assert x.shape[0..] == x.shape && s[0..] == s;
    while d < |x.shape|
      invariant d <= |x.shape|
      invariant offset + Offset(x.shape[d..], s[d..]) == Offset(x.shape, s)
    {
      OffsetStep(x.shape, x.strides, d, s);
      var rel: int := idx[d] + kidx[d];
      rel := rel - centers[d];
      if rel < 0 {
        rel := 0;
      }
      if rel >= x.shape[d] {
        rel := x.shape[d] - 1;
      }
      assert rel == s[d];
      offset := offset + Times(rel, x.strides[d]);
      d := d + 1;
    }
    NoOffset(x.shape[d..], s[d..]);
  }

  /** What one turn of the inner loop finds. */
  lemma TermHere(x: Shape, xs: seq<Elem>, k: Shape, ks: seq<Elem>, idx: Index, kpos: nat)
    requires |x| == |k| && NoZero(x) && |xs| == Product(x) && |ks| == Product(k) && InBox(x, idx) && kpos < |ks|
    ensures var s := Source(x, k, idx, Unravel(k, kpos));
            Offset(x, s) < |xs|
            && Terms(x, xs, k, ks, idx)(Unravel(k, kpos)) == IntOf(xs[Offset(x, s)]) * IntOf(ks[kpos])
  {
    UnravelInBox(k, kpos);
    OffsetInBounds(x, Source(x, k, idx, Unravel(k, kpos)));
  }

  /** A sum, an element that is no integer, or a product or sum that leaves 64 bits. */
  datatype Sum = Total(value: int) | NotInt | SumOverflow

  /** The loop over the kernel for one output element. */
  method Accumulate(x: Tensor<Elem>, k: Tensor<Elem>, idx: Index, centers: seq<nat>) returns (acc: Sum)
    requires x.Valid() && k.Valid() && |x.shape| == |k.shape| == |centers| && NoZero(x.shape) && InBox(x.shape, idx)
    requires AllOdd(k.shape) && forall d | 0 <= d < |centers| :: centers[d] == k.shape[d] / 2
    ensures acc.Total? ==>
              && acc.value == ConvolvedAt(x.shape, x.data[..], k.shape, k.data[..], idx)
              && Roomy(k.shape, Terms(x.shape, x.data[..], k.shape, k.data[..], idx))
              && (forall p | 0 <= p < k.data.Length :: k.data[p].Int?)
              && Offset(x.shape, idx) < x.data.Length && x.data[Offset(x.shape, idx)].Int?
    ensures acc.SumOverflow? ==> !Roomy(k.shape, Terms(x.shape, x.data[..], k.shape, k.data[..], idx))
    ensures acc.NotInt? ==> !AllInts(x) || !AllInts(k)
  {
    hide Product, Offset, Unravel, IsStrides, BoxSum, Terms, Source, InBox, TurnFits, InWord;
    ghost var f := Terms(x.shape, x.data[..], k.shape, k.data[..], idx);
    ghost var c := Centre(k.shape);
    CentreMeetsItself(x.shape, k.shape, idx);
    OffsetInBounds(k.shape, c);
    OffsetInBounds(x.shape, idx);
    UnravelInBox(k.shape, Offset(k.shape, c));
    var sum := 0;
    var kpos := 0;
    while kpos < k.data.Length
      invariant kpos <= k.data.Length && sum == PlaceSum(k.shape, f, kpos)
      invariant forall p | 0 <= p < kpos :: k.data[p].Int? && TurnFits(k.shape, f, p)
      invariant kpos > Offset(k.shape, c) ==> x.data[Offset(x.shape, idx)].Int?
    {
      var kidx := DecodeIndex(k.shape, k.strides, kpos);
      TermHere(x.shape, x.data[..], k.shape, k.data[..], idx, kpos);
      var offset := SourceOffset(x, k.shape, idx, kidx, centers);
      var vx, vk := x.data[offset], k.data[kpos];
      if !vx.Int? || !vk.Int? {
        return NotInt;
      }
      var product := vx.i * vk.i;
      TurnSums(k.shape, f, kpos, product);
      if !InWord(product) || !InWord(sum + product) {
        return SumOverflow;
      }
      sum := sum + product;
      kpos := kpos + 1;
    }
    PlaceSumIsBoxSum(k.shape, f);
    return Total(sum);
  }

  /** No element of the tensor is anything but an integer. */
  ghost predicate AllInts(t: Tensor<Elem>)
    reads t.data
  {
    forall p | 0 <= p < t.data.Length :: t.data[p].Int?
  }

  const MAX_DIMS := 64

  /** The arguments the convolution works on. */
  ghost predicate Convolvable(x: Tensor<Elem>, k: Tensor<Elem>)
    reads x.data, k.data
  {
    && |x.shape| == |k.shape| && AllOdd(k.shape)
    && (x.data.Length > 0 ==> |x.shape| <= MAX_DIMS && AllInts(x) && AllInts(k))
  }

  datatype Convolution = Convolved(t: Tensor<Elem>) | Refused | Overflow

  /**
   * builtin_conv for two tensors of integers: every element is the sum at its index. On fit
   * arguments something leaves 64 bits if and only if they are not roomy; on unfit ones an
   * overflow may come before the refusal.
   */
  method Convolve(x: Tensor<Elem>, k: Tensor<Elem>) returns (r: Convolution)
    requires x.Valid() && k.Valid()
    ensures r.Convolved? <==> Convolvable(x, k) && RoomyEverywhere(x.shape, x.data[..], k.shape, k.data[..])
    ensures r.Overflow? ==> |x.shape| == |k.shape| && !RoomyEverywhere(x.shape, x.data[..], k.shape, k.data[..])
    ensures r.Refused? ==> !Convolvable(x, k)
    ensures r.Convolved? ==> r.t.Valid() && r.t.elem == x.elem && r.t.shape == x.shape
    ensures r.Convolved? && x.data.Length > 0 ==>
              NoZero(x.shape)
              && forall idx | InBox(x.shape, idx) ::
                   r.t.At(idx) == Int(ConvolvedAt(x.shape, x.data[..], k.shape, k.data[..], idx))
  {
    hide Product, Offset, Unravel, IsStrides, BoxSum, ConvolvedAt, Roomy, Terms;
    if |x.shape| != |k.shape| {
      return Refused;
    }
    var d := 0;
    while d < |k.shape|
      invariant d <= |k.shape| && forall e | 0 <= e < d :: k.shape[e] % 2 == 1
    {
      if k.shape[d] % 2 == 0 {
        assert !AllOdd(k.shape);
        return Refused;
      }
      d := d + 1;
    }
    var ot := new Tensor(x.elem, x.shape, Other(0));
    var centers := seq(|k.shape|, e requires 0 <= e < |k.shape| => k.shape[e] / 2);
    NonEmptyShape(x.shape);
    var pos := 0;
    while pos < x.data.Length
      invariant pos <= x.data.Length
      invariant pos > 0 ==> |x.shape| <= MAX_DIMS && AllInts(k)
      invariant forall p | 0 <= p < pos :: x.data[p].Int? && ElemDone(x, k, ot, p)
    {
      if |x.shape| > MAX_DIMS {
        return Refused;
      }
      var idx := DecodeIndex(x.shape, x.strides, pos);
      UnravelInBox(x.shape, pos);
      var acc := Accumulate(x, k, idx, centers);
      match acc {
        case NotInt =>
          return Refused;
        case SumOverflow =>
          return Overflow;
        case Total(value) =>
          ot.data[pos] := Int(value);
      }
      pos := pos + 1;
    }
    forall idx | InBox(x.shape, idx) && x.data.Length > 0
      ensures ot.At(idx) == Int(ConvolvedAt(x.shape, x.data[..], k.shape, k.data[..], idx))
      ensures Roomy(k.shape, Terms(x.shape, x.data[..], k.shape, k.data[..], idx))
    {
      OffsetInBounds(x.shape, idx);
      assert ElemDone(x, k, ot, Offset(x.shape, idx));
    }
    return Convolved(ot);
  }

  /** The output at a place is right, and there was room for it. */
  ghost predicate ElemDone(x: Tensor<Elem>, k: Tensor<Elem>, ot: Tensor<Elem>, p: nat)
    requires x.Valid() && k.Valid() && ot.Valid() && ot.shape == x.shape && |x.shape| == |k.shape|
             && p < x.data.Length && NoZero(x.shape)
    reads x.data, k.data, ot.data
  {
    UnravelInBox(x.shape, p);
    && ot.data[p] == Int(ConvolvedAt(x.shape, x.data[..], k.shape, k.data[..], Unravel(x.shape, p)))
    && Roomy(k.shape, Terms(x.shape, x.data[..], k.shape, k.data[..], Unravel(x.shape, p)))
  }
}
