/**
 * Tensors in row-major order (src/value.h:30-39, src/value.c:208-243): offsets and indices
 * by multiplication, division and remainder on strides.
 */
module RowMajor {
  import opened Shapes

  type Shape = seq<nat>
  type Index = seq<nat>

  /** The index lies within the shape. */
  predicate InBox(shape: Shape, idx: Index) {
    |idx| == |shape| && forall d | 0 <= d < |shape| :: idx[d] < shape[d]
  }

  /** The place of an index: each position times the number of elements behind one step of it. */
  function Offset(shape: Shape, idx: Index): nat
    requires |idx| == |shape|
  {
    if shape == [] then 0 else idx[0] * Product(shape[1..]) + Offset(shape[1..], idx[1..])
  }

  /** The index of a place, one division at a time. */
  function Unravel(shape: Shape, pos: nat): (idx: Index)
    requires Product(shape) > 0
    ensures |idx| == |shape|
  {
    if shape == [] then [] else
      Positive(shape);
      [pos / Product(shape[1..])] + Unravel(shape[1..], pos % Product(shape[1..]))
  }

  // ----- arithmetic -----

  /** Division, remainder and product of sizes. */
  function Quot(a: nat, b: nat): nat
    requires b > 0
  {
    a / b
  }

  function Rem(a: nat, b: nat): nat
    requires b > 0
  {
    a % b
  }

  function Times(a: nat, b: nat): nat {
    a * b
  }

  lemma Positive(shape: Shape)
    requires shape != [] && Product(shape) > 0
    ensures shape[0] > 0 && Product(shape[1..]) > 0
  {
    PositiveFactors(shape[0], Product(shape[1..]));
  }

  lemma SplitPlace(pos: nat, d: nat, n: nat)
    requires n > 0 && pos < d * n
    ensures pos / n < d && 0 <= pos % n < n && pos == pos / n * n + pos % n
  {
    QuotientLaw(pos, n);
    if pos / n >= d {
      TimesMono(d, pos / n, n);
      assert false;
    }
  }

  lemma QuotientLaw(pos: nat, n: nat)
    requires n > 0
    ensures pos == pos / n * n + pos % n && 0 <= pos % n < n && pos / n >= 0
  {
  }

  lemma TimesMono(a: nat, b: nat, n: nat)
    requires a <= b
    ensures a * n <= b * n
  {
  }

  lemma JoinPlace(i: nat, r: nat, d: nat, n: nat)
    requires i < d && r < n
    ensures i * n + r < d * n
    ensures (i * n + r) / n == i && (i * n + r) % n == r
  {
    TimesMono(i + 1, d, n);
    QuotientLaw(i * n + r, n);
    SameQuotient(i, r, (i * n + r) / n, (i * n + r) % n, n);
  }

  lemma SameQuotient(i: nat, r: nat, j: nat, s: nat, n: nat)
    requires r < n && s < n && i * n + r == j * n + s
    ensures i == j && r == s
  {
    if i < j {
      TimesMono(i + 1, j, n);
    } else if j < i {
      TimesMono(j + 1, i, n);
    }
  }

  // ----- places and indices correspond -----

  lemma {:induction false} OffsetInBounds(shape: Shape, idx: Index)
    requires InBox(shape, idx)
    ensures Product(shape) > 0 && Offset(shape, idx) < Product(shape)
    ensures Unravel(shape, Offset(shape, idx)) == idx
  {
    if shape != [] {
      OffsetInBounds(shape[1..], idx[1..]);
      JoinPlace(idx[0], Offset(shape[1..], idx[1..]), shape[0], Product(shape[1..]));
      assert idx == [idx[0]] + idx[1..];
    }
  }

  lemma {:induction false} UnravelInBox(shape: Shape, pos: nat)
    requires pos < Product(shape)
    ensures InBox(shape, Unravel(shape, pos)) && Offset(shape, Unravel(shape, pos)) == pos
  {
    if shape != [] {
      Positive(shape);
      var n := Product(shape[1..]);
      SplitPlace(pos, shape[0], n);
      UnravelInBox(shape[1..], pos % n);
      var idx := Unravel(shape, pos);
      assert idx[1..] == Unravel(shape[1..], pos % n);
      BoxStep(shape, idx);
    }
  }

  lemma BoxStep(shape: Shape, idx: Index)
    requires shape != [] && |idx| == |shape|
    ensures InBox(shape, idx) <==> idx[0] < shape[0] && InBox(shape[1..], idx[1..])
  {
    if idx[0] < shape[0] && InBox(shape[1..], idx[1..]) {
      forall d | 0 <= d < |shape| ensures idx[d] < shape[d] {
        if d > 0 {
          assert idx[d] == idx[1..][d - 1] && shape[d] == shape[1..][d - 1];
        }
      }
    }
  }

  /** Different indices have different places. */
  lemma OffsetInjective(shape: Shape, i: Index, j: Index)
    requires InBox(shape, i) && InBox(shape, j) && Offset(shape, i) == Offset(shape, j)
    ensures i == j
  {
    OffsetInBounds(shape, i);
    OffsetInBounds(shape, j);
  }

  // ----- strides -----

  /** compute_strides: the stride of a dimension is the number of elements behind one step of it. */
  predicate IsStrides(shape: Shape, strides: seq<nat>) {
    |strides| == |shape| && forall d | 0 <= d < |shape| :: strides[d] == Product(shape[d + 1..])
  }

  method ComputeStrides(shape: Shape) returns (strides: seq<nat>, len: nat)
    ensures IsStrides(shape, strides) && len == Product(shape)
  {
    hide Product;
    len := 1;
    strides := seq(|shape|, _ => 0);
    var i := |shape|;
    EmptyProduct();
    assert shape[i..] == [];
    while i > 0
      invariant 0 <= i <= |shape| == |strides| && len == Product(shape[i..])
      invariant forall d | i <= d < |shape| :: strides[d] == Product(shape[d + 1..])
    {
      i := i - 1;
      strides := strides[i := len];
      ProductStep(shape, i);
      len := len * shape[i];
    }
    assert shape[0..] == shape;
  }

  lemma EmptyProduct()
    ensures Product([]) == 1
  {
  }

  lemma ProductStep(shape: Shape, i: nat)
    requires i < |shape|
    ensures Product(shape[i..]) == Product(shape[i + 1..]) * shape[i]
  {
    assert shape[i..][0] == shape[i] && shape[i..][1..] == shape[i + 1..];
  }

  /** From dimension d on: the first division of the rest of a place. */
  lemma UnravelStep(shape: Shape, strides: seq<nat>, d: nat, rem: nat)
    requires IsStrides(shape, strides) && d < |shape| && rem < Product(shape[d..])
    ensures |strides| == |shape| && strides[d] > 0
    ensures Quot(rem, strides[d]) < shape[d] && Rem(rem, strides[d]) < Product(shape[d + 1..])
    ensures Unravel(shape[d..], rem) == [Quot(rem, strides[d])] + Unravel(shape[d + 1..], Rem(rem, strides[d]))
  {
    assert shape[d..][0] == shape[d] && shape[d..][1..] == shape[d + 1..];
    Positive(shape[d..]);
    SplitPlace(rem, shape[d], Product(shape[d + 1..]));
  }

  /** From dimension d on: the first term of an offset. */
  lemma OffsetStep(shape: Shape, strides: seq<nat>, d: nat, idx: Index)
    requires IsStrides(shape, strides) && d < |shape| == |idx|
    ensures |strides| == |shape|
    ensures Offset(shape[d..], idx[d..]) == Times(idx[d], strides[d]) + Offset(shape[d + 1..], idx[d + 1..])
  {
    assert shape[d..][0] == shape[d] && shape[d..][1..] == shape[d + 1..];
    assert idx[d..][0] == idx[d] && idx[d..][1..] == idx[d + 1..];
  }

  lemma NoOffset(shape: Shape, idx: Index)
    requires shape == [] == idx
    ensures Offset(shape, idx) == 0
  {
  }

  // ----- tensors -----

  type ElemType = nat

  class Tensor<T> {
    const elem: ElemType
    const shape: Shape
    const strides: seq<nat>
    const data: array<T>

    ghost predicate Valid() {
      IsStrides(shape, strides) && data.Length == Product(shape)
    }

    /** value_tensor_new, every element the same. */
    constructor (elem: ElemType, shape: Shape, fill: T)
      ensures Valid() && this.elem == elem && this.shape == shape && fresh(data)
      ensures forall p | 0 <= p < data.Length :: data[p] == fill
    {
      var s, n := ComputeStrides(shape);
      this.elem := elem;
      this.shape := shape;
      strides := s;
      data := new T[n](_ => fill);
    }

    /** The element at an index. */
    ghost function At(idx: Index): T
      requires Valid() && InBox(shape, idx)
      reads data
    {
      OffsetInBounds(shape, idx);
      data[Offset(shape, idx)]
    }
  }
}
