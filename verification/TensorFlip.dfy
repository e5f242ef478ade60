/** flip_dim (src/builtins.c:5164-5196): a tensor with the elements along one dimension reversed. */
module TensorFlip {
  import opened Common
  import opened Shapes
  import opened RowMajor

  /** The index mirrored in one dimension. */
  function Flip(shape: Shape, dim: nat, idx: Index): (r: Index)
    requires InBox(shape, idx) && dim < |shape|
    ensures InBox(shape, r)
  {
    idx[dim := shape[dim] - 1 - idx[dim]]
  }

  /** Where the element at a place goes. */
  function FlipPlace(shape: Shape, dim: nat, pos: nat): (r: nat)
    requires dim < |shape| && pos < Product(shape)
    ensures r < Product(shape)
  {
    UnravelInBox(shape, pos);
    var idx := Flip(shape, dim, Unravel(shape, pos));
    OffsetInBounds(shape, idx);
    Offset(shape, idx)
  }

  /** Flipping places twice leads back: so it is a bijection and every cell is written exactly once. */
  lemma FlipPlaceTwice(shape: Shape, dim: nat, pos: nat)
    requires dim < |shape| && pos < Product(shape)
    ensures FlipPlace(shape, dim, FlipPlace(shape, dim, pos)) == pos
  {
    UnravelInBox(shape, pos);
    var idx := Unravel(shape, pos);
    OffsetInBounds(shape, Flip(shape, dim, idx));
    assert Flip(shape, dim, Flip(shape, dim, idx)) == idx;
  }

  /** The data of the flipped tensor. */
  function Flipped<T>(shape: Shape, dim: nat, data: seq<T>): (r: seq<T>)
    requires dim < |shape| && |data| == Product(shape)
    ensures |r| == |data|
  {
    seq(|data|, p requires 0 <= p < |data| => data[FlipPlace(shape, dim, p)])
  }

  /** Each element of the flipped data is the one at the mirrored index. */
  lemma FlippedAt<T>(shape: Shape, dim: nat, data: seq<T>, idx: Index)
    requires dim < |shape| && |data| == Product(shape) && InBox(shape, idx)
    ensures Offset(shape, idx) < |data| && Offset(shape, Flip(shape, dim, idx)) < |data|
    ensures Flipped(shape, dim, data)[Offset(shape, idx)] == data[Offset(shape, Flip(shape, dim, idx))]
  {
    OffsetInBounds(shape, idx);
    OffsetInBounds(shape, Flip(shape, dim, idx));
  }

  /** Flipping the same dimension twice changes nothing. */
  lemma FlippedTwice<T>(shape: Shape, dim: nat, data: seq<T>)
    requires dim < |shape| && |data| == Product(shape)
    ensures Flipped(shape, dim, Flipped(shape, dim, data)) == data
  {
    forall p | 0 <= p < |data| ensures Flipped(shape, dim, Flipped(shape, dim, data))[p] == data[p] {
      FlipPlaceTwice(shape, dim, p);
    }
  }

  /** The inner loop: divide out an index, mirror one position, multiply it back. */
  method MirroredPlace<T>(t: Tensor<T>, dim: nat, src: nat) returns (dst: nat)
    requires t.Valid() && dim < |t.shape| && src < t.data.Length
    ensures dst == FlipPlace(t.shape, dim, src)
  {
    hide Product, Offset, Unravel, IsStrides, Quot, Rem, Times;
    ghost var idx := Unravel(t.shape, src);
    UnravelInBox(t.shape, src);
    ghost var flipped := Flip(t.shape, dim, idx);
    var rem := src;
    dst := 0;
    var d := 0;
    assert t.shape[0..] == t.shape && idx[0..] == idx && flipped[0..] == flipped;
    while d < |t.shape|
      invariant d <= |t.shape| && 0 <= rem < Product(t.shape[d..])
      invariant idx[d..] == Unravel(t.shape[d..], rem)
      invariant dst + Offset(t.shape[d..], flipped[d..]) == Offset(t.shape, flipped)
    {
      UnravelStep(t.shape, t.strides, d, rem);
      OffsetStep(t.shape, t.strides, d, flipped);
      assert idx[d..][0] == idx[d] && idx[d..][1..] == idx[d + 1..];
      var pos := Quot(rem, t.strides[d]);
      rem := Rem(rem, t.strides[d]);
      var flipPos := if d == dim then t.shape[d] - 1 - pos else pos;
      dst := dst + Times(flipPos, t.strides[d]);
      d := d + 1;
    }
    NoOffset(t.shape[d..], flipped[d..]);
  }

  /** builtin_tflip; none for a dimension out of range. */
  method FlipDim<T>(t: Tensor<T>, dim1: int, fill: T) returns (r: Option<Tensor<T>>)
    requires t.Valid()
    ensures r.None? <==> dim1 < 1 || dim1 > |t.shape|
    ensures r.Some? ==> r.value.Valid() && r.value.elem == t.elem && r.value.shape == t.shape
    ensures r.Some? ==> r.value.data[..] == Flipped(t.shape, dim1 - 1, t.data[..])
  {
    hide Product, FlipPlace;
    if dim1 < 1 || dim1 > |t.shape| {
      return None;
    }
    var dim := dim1 - 1;
    var ot := new Tensor(t.elem, t.shape, fill);
    var src := 0;
    while src < t.data.Length
      invariant src <= t.data.Length
      invariant forall p | 0 <= p < src :: ot.data[FlipPlace(t.shape, dim, p)] == t.data[p]
    {
      var dst := MirroredPlace(t, dim, src);
      FlipPlaceTwice(t.shape, dim, src);
      ghost var before := ot.data[..];
      ot.data[dst] := t.data[src];
      forall p | 0 <= p < src ensures ot.data[FlipPlace(t.shape, dim, p)] == t.data[p] {
        FlipPlaceTwice(t.shape, dim, p);
        assert before[FlipPlace(t.shape, dim, p)] == t.data[p];
      }
      src := src + 1;
    }
    forall p | 0 <= p < t.data.Length ensures ot.data[p] == Flipped(t.shape, dim, t.data[..])[p] {
      FlipPlaceTwice(t.shape, dim, p);
    }
    return Some(ot);
  }
}
