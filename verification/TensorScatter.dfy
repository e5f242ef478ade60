/** scatter (src/builtins.c:5309-5421): a copy of a tensor with a box of it replaced by another tensor. */
module TensorScatter {
  import opened Common
  import opened Shapes
  import opened RowMajor

  /** Elements that are integers, and the rest. */
  datatype Elem = Int(i: int) | Other(id: nat)

  // ----- the box -----

  /** The index lies in the box of the given span at lo. */
  predicate InSpan(lo: Index, span: Shape, idx: Index)
    requires |lo| == |span| == |idx|
  {
    InSpanUpTo(lo, span, idx, |lo|)
  }

  /** In its first n positions. */
  predicate InSpanUpTo(lo: Index, span: Shape, idx: Index, n: nat)
    requires |lo| == |span| == |idx| && n <= |lo|
  {
    forall d | 0 <= d < n :: lo[d] <= idx[d] < lo[d] + span[d]
  }

  function Minus(idx: Index, lo: Index): Index
    requires |idx| == |lo| && forall d | 0 <= d < |lo| :: lo[d] <= idx[d]
  {
    seq(|idx|, d requires 0 <= d < |idx| => idx[d] - lo[d])
  }

  function Plus(idx: Index, lo: Index): Index
    requires |idx| == |lo|
  {
    seq(|idx|, d requires 0 <= d < |idx| => idx[d] + lo[d])
  }

  /** The box fits into the shape. */
  predicate Fits(shape: Shape, lo: Index, span: Shape) {
    |lo| == |span| == |shape| && forall d | 0 <= d < |shape| :: lo[d] + span[d] <= shape[d]
  }

  /** What ends up at a place. */
  function ScatteredElem<T>(shape: Shape, lo: Index, span: Shape, src: seq<T>, dst: seq<T>, pos: nat): T
    requires Fits(shape, lo, span) && |src| == Product(span) && |dst| == Product(shape) && pos < |dst|
  {
    UnravelInBox(shape, pos);
    var idx := Unravel(shape, pos);
    if InSpan(lo, span, idx) then
      OffsetInBounds(span, Minus(idx, lo));
      src[Offset(span, Minus(idx, lo))]
    else dst[pos]
  }

  function Scattered<T>(shape: Shape, lo: Index, span: Shape, src: seq<T>, dst: seq<T>): (r: seq<T>)
    requires Fits(shape, lo, span) && |src| == Product(span) && |dst| == Product(shape)
    ensures |r| == |dst|
  {
    seq(|dst|, p requires 0 <= p < |dst| => ScatteredElem(shape, lo, span, src, dst, p))
  }

  /** Reading the box back gives the source. */
  lemma ReadBack<T>(shape: Shape, lo: Index, span: Shape, src: seq<T>, dst: seq<T>, idx: Index)
    requires Fits(shape, lo, span) && |src| == Product(span) && |dst| == Product(shape) && InBox(span, idx)
    ensures InBox(shape, Plus(idx, lo)) && Offset(shape, Plus(idx, lo)) < |dst| && Offset(span, idx) < |src|
    ensures Scattered(shape, lo, span, src, dst)[Offset(shape, Plus(idx, lo))] == src[Offset(span, idx)]
  {
    OffsetInBounds(span, idx);
    OffsetInBounds(shape, Plus(idx, lo));
    assert Minus(Plus(idx, lo), lo) == idx;
  }

  /** Everything outside the box is as it was. */
  lemma OutsideUnchanged<T>(shape: Shape, lo: Index, span: Shape, src: seq<T>, dst: seq<T>, idx: Index)
    requires Fits(shape, lo, span) && |src| == Product(span) && |dst| == Product(shape)
    requires InBox(shape, idx) && !InSpan(lo, span, idx)
    ensures Offset(shape, idx) < |dst| && Scattered(shape, lo, span, src, dst)[Offset(shape, idx)] ==
            dst[Offset(shape, idx)]
  {
    OffsetInBounds(shape, idx);
  }

  // ----- the spans that are asked for -----

  /** -1 is the last position. */
  function Forward(i: int, dim: nat): int {
    if i < 0 then dim + i + 1 else i
  }

  /** Bounds from 1, not 0, in order, within the dimension, and as long as the source. */
  predicate GoodSpan(l: Elem, h: Elem, dim: nat, len: nat) {
    && l.Int? && h.Int? && l.i != 0 && h.i != 0
    && 1 <= Forward(l.i, dim) <= Forward(h.i, dim) <= dim
    && Forward(h.i, dim) - Forward(l.i, dim) + 1 == len
  }

  /** All arguments are as scatter wants them. */
  ghost predicate Accepted(src: Tensor<Elem>, dst: Tensor<Elem>, ind: Tensor<Elem>)
    requires src.Valid() && dst.Valid() && ind.Valid()
    reads ind.data
  {
    && ind.shape == [|dst.shape|, 2] && |src.shape| == |dst.shape| && src.elem == dst.elem
    && forall d | 0 <= d < |dst.shape| :: SpanOk(src, dst, ind, d)
  }

  ghost predicate SpanOk(src: Tensor<Elem>, dst: Tensor<Elem>, ind: Tensor<Elem>, d: nat)
    requires ind.Valid() && ind.shape == [|dst.shape|, 2] && d < |src.shape| == |dst.shape|
    reads ind.data
  {
    RankOfIndex(ind.shape);
    GoodSpan(ind.data[2 * d], ind.data[2 * d + 1], dst.shape[d], src.shape[d])
  }

  lemma RankOfIndex(shape: Shape)
    requires |shape| == 2 && shape[1] == 2
    ensures Product(shape) == 2 * shape[0] && Product(shape[1..]) == 2 && Product(shape[2..]) == 1
  {
    hide Product;
    assert shape[0..] == shape && shape[2..] == [];
    EmptyProduct();
    ProductStep(shape, 1);
    ProductStep(shape, 0);
  }

  /** The loop that reads the bounds. */
  method ReadSpans(src: Tensor<Elem>, dst: Tensor<Elem>, ind: Tensor<Elem>) returns (lo: Option<Index>)
    requires src.Valid() && dst.Valid() && ind.Valid()
    requires ind.shape == [|dst.shape|, 2] && |src.shape| == |dst.shape|
    ensures lo.Some? <==> forall d | 0 <= d < |dst.shape| :: SpanOk(src, dst, ind, d)
    ensures lo.Some? ==> Fits(dst.shape, lo.value, src.shape)
    ensures lo.Some? ==> forall d | 0 <= d < |dst.shape| :: 2 * d < ind.data.Length && ind.data[2 * d].Int?
                                                          && lo.value[d] == Forward(ind.data[2 * d].i, dst.shape[d]) - 1
  {
    hide Product;
    var low: Index := [];
    var d := 0;
    RankOfIndex(ind.shape);
    while d < |dst.shape|
      invariant d <= |dst.shape| && |low| == d
      invariant forall k | 0 <= k < d ::
                SpanOk(src, dst, ind, k) && low[k] == Forward(ind.data[2 * k].i, dst.shape[k]) - 1
      invariant forall k | 0 <= k < d :: low[k] + src.shape[k] <= dst.shape[k]
    {
      var base := d * ind.strides[0];
      var vlo := ind.data[base + 0 * ind.strides[1]];
      var vhi := ind.data[base + 1 * ind.strides[1]];
      assert base == 2 * d && ind.strides[1] == 1;
      if !vlo.Int? || !vhi.Int? {
        assert !SpanOk(src, dst, ind, d);
        return None;
      }
      var l, h := vlo.i, vhi.i;
      if l == 0 || h == 0 {
        assert !SpanOk(src, dst, ind, d);
        return None;
      }
      if l < 0 {
        l := dst.shape[d] + l + 1;
      }
      if h < 0 {
        h := dst.shape[d] + h + 1;
      }
      var l0, h0 := l - 1, h - 1;
      if l0 < 0 || h0 < 0 || h0 >= dst.shape[d] || l0 > h0 {
        assert !SpanOk(src, dst, ind, d);
        return None;
      }
      if h0 - l0 + 1 != src.shape[d] {
        assert !SpanOk(src, dst, ind, d);
        return None;
      }
      low := low + [l0];
      d := d + 1;
    }
    return Some(low);
  }

  // ----- the copy -----

  /** The inner loop: whether a place lies in the box, and where its element is in the source. */
  method SourcePlace(dst: Tensor<Elem>, src: Tensor<Elem>, lo: Index, pos: nat)
      returns (inside: bool, dstOffset: nat, srcOffset: nat)
    requires dst.Valid() && src.Valid() && pos < dst.data.Length && Fits(dst.shape, lo, src.shape)
    ensures dstOffset == pos
    ensures inside == InSpan(lo, src.shape, Unravel(dst.shape, pos))
    ensures inside ==> srcOffset == Offset(src.shape, Minus(Unravel(dst.shape, pos), lo))
  {
    hide Product, Offset, Unravel, IsStrides, Quot, Rem, Times, InSpanUpTo, Minus;
    var rank := |dst.shape|;
    ghost var idx := Unravel(dst.shape, pos);
    UnravelInBox(dst.shape, pos);
    ghost var within := InSpan(lo, src.shape, idx);
    ghost var rel := Relative(lo, src.shape, idx);
    var rem := pos;
    dstOffset, srcOffset, inside := 0, 0, true;
    var d := 0;
    assert dst.shape[0..] == dst.shape && idx[0..] == idx && rel[0..] == rel && src.shape[0..] == src.shape;
    SpanStart(lo, src.shape, idx);
    while d < rank
      invariant d <= rank && 0 <= rem < Product(dst.shape[d..])
      invariant idx[d..] == Unravel(dst.shape[d..], rem)
      invariant dstOffset + Offset(dst.shape[d..], idx[d..]) == Offset(dst.shape, idx)
      invariant inside <==> InSpanUpTo(lo, src.shape, idx, d)
      invariant within ==> inside && srcOffset + Offset(src.shape[d..], rel[d..]) == Offset(src.shape, rel)
    {
      UnravelStep(dst.shape, dst.strides, d, rem);
      OffsetStep(dst.shape, dst.strides, d, idx);
      OffsetStep(src.shape, src.strides, d, rel);
      SpanStep(lo, src.shape, idx, d);
      assert idx[d..][0] == idx[d] && idx[d..][1..] == idx[d + 1..];
      var i := Quot(rem, dst.strides[d]);
      rem := Rem(rem, dst.strides[d]);
      if i < lo[d] || i > lo[d] as int + src.shape[d] - 1 {
        inside := false;
      } else {
        srcOffset := srcOffset + Times(i - lo[d], src.strides[d]);
      }
      dstOffset := dstOffset + Times(i, dst.strides[d]);
      d := d + 1;
    }
    NoOffset(dst.shape[d..], idx[d..]);
    NoOffset(src.shape[d..], rel[d..]);
  }

  /** The index within the box, if it lies there. */
  ghost function Relative(lo: Index, span: Shape, idx: Index): (rel: Index)
    requires |lo| == |span| == |idx|
    ensures |rel| == |idx|
    ensures InSpan(lo, span, idx) ==> rel == Minus(idx, lo)
  {
    if InSpan(lo, span, idx) then Minus(idx, lo) else idx
  }

  lemma SpanStart(lo: Index, span: Shape, idx: Index)
    requires |lo| == |span| == |idx|
    ensures InSpanUpTo(lo, span, idx, 0)
  {
  }

  lemma SpanStep(lo: Index, span: Shape, idx: Index, d: nat)
    requires d < |lo| == |span| == |idx|
    ensures InSpanUpTo(lo, span, idx, d + 1) <==> InSpanUpTo(lo, span, idx, d) && lo[d] <= idx[d] < lo[d] + span[d]
    ensures InSpan(lo, span, idx) ==> InSpanUpTo(lo, span, idx, d + 1) && Relative(lo, span, idx)[d] == idx[d] - lo[d]
  {
  }

  /** builtin_scat: none unless the arguments are accepted. */
  method Scatter(src: Tensor<Elem>, dst: Tensor<Elem>, ind: Tensor<Elem>)
      returns (r: Option<Tensor<Elem>>, ghost lo: Index)
    requires src.Valid() && dst.Valid() && ind.Valid()
    ensures r.Some? <==> Accepted(src, dst, ind)
    ensures r.Some? ==>
            r.value.Valid() && r.value.elem == dst.elem && r.value.shape == dst.shape
            && Fits(dst.shape, lo, src.shape)
    ensures r.Some? ==> forall d | 0 <= d < |dst.shape| :: 2 * d < ind.data.Length && ind.data[2 * d].Int?
                                                         && lo[d] == Forward(ind.data[2 * d].i, dst.shape[d]) - 1
    ensures r.Some? ==> r.value.data[..] == Scattered(dst.shape, lo, src.shape, src.data[..], dst.data[..])
  {
    hide Product, ScatteredElem;
    lo := [];
    var rank := |dst.shape|;
    if |ind.shape| != 2 || ind.shape[0] != rank || ind.shape[1] != 2 || |src.shape| != rank || src.elem != dst.elem {
      return None, lo;
    }
    assert ind.shape == [rank, 2];
    var low := ReadSpans(src, dst, ind);
    if low.None? {
      return None, lo;
    }
    lo := low.value;
    var ot := new Tensor(dst.elem, dst.shape, Other(0));
    ghost var goal := Scattered(dst.shape, lo, src.shape, src.data[..], dst.data[..]);
    var pos := 0;
    while pos < dst.data.Length
      invariant pos <= dst.data.Length
      invariant forall p | 0 <= p < pos :: ot.data[p] == goal[p]
    {
      var inside, dstOffset, srcOffset := SourcePlace(dst, src, low.value, pos);
      ScatteredHere(dst.shape, lo, src.shape, src.data[..], dst.data[..], pos);
      if inside {
        ot.data[dstOffset] := src.data[srcOffset];
      } else {
        ot.data[dstOffset] := dst.data[dstOffset];
      }
      pos := pos + 1;
    }
    return Some(ot), lo;
  }

  lemma ScatteredHere<T>(shape: Shape, lo: Index, span: Shape, src: seq<T>, dst: seq<T>, pos: nat)
    requires Fits(shape, lo, span) && |src| == Product(span) && |dst| == Product(shape) && pos < |dst|
    ensures var idx := Unravel(shape, pos);
            if InSpan(lo, span, idx) then
              Offset(span, Minus(idx, lo)) < |src|
              && Scattered(shape, lo, span, src, dst)[pos] == src[Offset(span, Minus(idx, lo))]
            else Scattered(shape, lo, span, src, dst)[pos] == dst[pos]
  {
    UnravelInBox(shape, pos);
    var idx := Unravel(shape, pos);
    if InSpan(lo, span, idx) {
      OffsetInBounds(span, Minus(idx, lo));
    }
  }
}
