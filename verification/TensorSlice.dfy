/**
 * Assignment to a slice of a tensor: the tensor branch of assign_index_chain
 * (src/interpreter.c:2855-3133).
 */
module TensorSlice {
  import opened Common
  import opened Shapes
  import opened RowMajor
  import opened TensorScatter

  /** One index expression, evaluated: everything, a range from 1 with both ends, or one position. */
  datatype Selector = Wild | Range(first: int, last: int) | One(at: int)

  // ----- which positions a selector means -----

  /** Start and end as they are after negative ends are counted from behind and both are clamped. */
  datatype Ends = Ends(start: int, end: int)

  function Asked(sel: Selector, dim: nat): Ends {
    match sel
    case Wild => Ends(1, dim)
    case Range(s, e) => Ends(s, e)
    case One(i) => Ends(i, i)
  }

  function FromBehind(i: int, dim: nat): int {
    if i < 0 then dim + i + 1 else i
  }

  function Normal(a: Ends, dim: nat): Ends {
    var s, e := FromBehind(a.start, dim), FromBehind(a.end, dim);
    var s', e' := if s < 1 then 1 else s, if e > dim then dim else e;
    if s' > e' then Ends(1, 0) else Ends(s', e')
  }

  /** A position, counted from 1, that the selector selects. */
  predicate Selects(sel: Selector, dim: nat, i: int) {
    && 1 <= i <= dim
    && FromBehind(Asked(sel, dim).start, dim) <= i <= FromBehind(Asked(sel, dim).end, dim)
  }

  /** Normalised ends enclose just the selected positions; they are empty if there are none. */
  lemma NormalIsSelection(sel: Selector, dim: nat)
    ensures var n := Normal(Asked(sel, dim), dim);
            && (forall i: int :: Selects(sel, dim, i) <==> n.start <= i <= n.end)
            && 1 <= n.start <= n.end + 1 <= dim + 1
  {
  }

  /** Where the write begins: at the first position if nothing is selected. */
  function Begin(n: Ends): int {
    if n.start <= n.end then n.start - 1 else 0
  }

  /** How many positions are written: one if nothing is selected. */
  function Width(n: Ends): int {
    if n.start <= n.end then n.end - n.start + 1 else 1
  }

  function SelectorAt(sels: seq<Selector>, d: nat): Selector {
    if d < |sels| then sels[d] else Wild
  }

  function NormalAt(shape: Shape, sels: seq<Selector>, d: nat): (n: Ends)
    requires d < |shape|
    ensures 1 <= n.start <= n.end + 1 <= shape[d] + 1
  {
    NormalIsSelection(SelectorAt(sels, d), shape[d]);
    Normal(Asked(SelectorAt(sels, d), shape[d]), shape[d])
  }

  function Begins(shape: Shape, sels: seq<Selector>): (lo: Index)
    ensures |lo| == |shape|
  {
    seq(|shape|, d requires 0 <= d < |shape| => Begin(NormalAt(shape, sels, d)))
  }

  function Widths(shape: Shape, sels: seq<Selector>): (len: Shape)
    ensures |len| == |shape| && NoZero(len)
  {
    seq(|shape|, d requires 0 <= d < |shape| => Width(NormalAt(shape, sels, d)))
  }

  lemma BoxFits(shape: Shape, sels: seq<Selector>)
    requires NoZero(shape)
    ensures Fits(shape, Begins(shape, sels), Widths(shape, sels))
  {
  }

  /** An index that all selectors select. */
  predicate Selected(shape: Shape, sels: seq<Selector>, idx: Index)
    requires |idx| == |shape|
  {
    forall d | 0 <= d < |shape| :: Selects(SelectorAt(sels, d), shape[d], idx[d] + 1)
  }

  /**
   * The box that is written is what was selected, unless some selector selects nothing:
   * then the first position of that dimension is written all the same.
   */
  lemma BoxIsSelection(shape: Shape, sels: seq<Selector>)
    ensures (forall idx: Index | |idx| == |shape| ::
               InSpan(Begins(shape, sels), Widths(shape, sels), idx) <==> Selected(shape, sels, idx))
       <==> forall d | 0 <= d < |shape| :: NormalAt(shape, sels, d).start <= NormalAt(shape, sels, d).end
  {
    var lo, len := Begins(shape, sels), Widths(shape, sels);
    if forall d | 0 <= d < |shape| :: NormalAt(shape, sels, d).start <= NormalAt(shape, sels, d).end {
      forall idx: Index | |idx| == |shape| ensures InSpan(lo, len, idx) <==> Selected(shape, sels, idx) {
        WholeBox(shape, sels, idx);
      }
    }
    if d :| 0 <= d < |shape| && NormalAt(shape, sels, d).start > NormalAt(shape, sels, d).end {
      NormalIsSelection(SelectorAt(sels, d), shape[d]);
      assert !Selects(SelectorAt(sels, d), shape[d], lo[d] + 1);
      assert InSpan(lo, len, lo) && !Selected(shape, sels, lo);
    }
  }

  lemma WholeBox(shape: Shape, sels: seq<Selector>, idx: Index)
    requires |idx| == |shape|
    requires forall d | 0 <= d < |shape| :: NormalAt(shape, sels, d).start <= NormalAt(shape, sels, d).end
    ensures InSpan(Begins(shape, sels), Widths(shape, sels), idx) <==> Selected(shape, sels, idx)
  {
    forall d | 0 <= d < |shape|
      ensures Selects(SelectorAt(sels, d), shape[d], idx[d] + 1)
         <==> Begins(shape, sels)[d] <= idx[d] < Begins(shape, sels)[d] + Widths(shape, sels)[d]
    {
      NormalIsSelection(SelectorAt(sels, d), shape[d]);
    }
  }

  /** Position 9 of a row of 3 selects nothing, but the first element is written. */
  lemma OutOfRangeWritesTheFirst()
    ensures var shape, sels := [3], [One(9)];
            && Begins(shape, sels) == [0] && Widths(shape, sels) == [1]
            && forall i | 0 <= i < 3 :: !Selected(shape, sels, [i])
  {
    var shape, sels := [3], [One(9)];
    assert NormalAt(shape, sels, 0) == Ends(1, 0);
    forall i | 0 <= i < 3 ensures !Selected(shape, sels, [i]) {
      assert SelectorAt(sels, 0) == One(9);
      assert !Selects(One(9), 3, [i][0] + 1);
    }
  }

  // ----- dropping the dimensions of width one -----

  /** The positions of the dimensions that stay. */
  function Drop(len: Shape, idx: Index): (r: Index)
    requires |len| == |idx|
  {
    if len == [] then []
    else if len[0] > 1 then [idx[0]] + Drop(len[1..], idx[1..])
    else Drop(len[1..], idx[1..])
  }

  /** Back again, with position 0 where a dimension was dropped. */
  function Insert(len: Shape, r: Index): (idx: Index)
    requires |r| == |Drop(len, len)|
    ensures |idx| == |len|
  {
    if len == [] then []
    else if len[0] > 1 then
      DropTail(len);
      [r[0]] + Insert(len[1..], r[1..])
    else
      DropTail(len);
      [0] + Insert(len[1..], r)
  }

  lemma {:induction false} DropLength(len: Shape, a: Index, b: Index)
    requires |a| == |b| == |len|
    ensures |Drop(len, a)| == |Drop(len, b)|
  {
    if len != [] {
      DropLength(len[1..], a[1..], b[1..]);
    }
  }

  lemma DropTail(len: Shape)
    requires len != []
    ensures |Drop(len, len)| == |Drop(len[1..], len[1..])| + if len[0] > 1 then 1 else 0
  {
  }

  /** Dropping and inserting are inverse within a box of positive widths, and keep places. */
  lemma {:induction false} InsertDrop(len: Shape, r: Index)
    requires NoZero(len) && InBox(Drop(len, len), r)
    ensures InBox(len, Insert(len, r)) && Drop(len, Insert(len, r)) == r
    ensures Offset(Drop(len, len), r) == Offset(len, Insert(len, r))
    ensures Product(Drop(len, len)) == Product(len)
  {
    if len != [] {
      DropTail(len);
      var tail := len[1..];
      var small := Drop(len, len);
      if len[0] > 1 {
        assert small[1..] == Drop(tail, tail);
        InsertDrop(tail, r[1..]);
        assert Insert(len, r)[1..] == Insert(tail, r[1..]);
        BoxStep(len, Insert(len, r));
        assert r == [r[0]] + r[1..];
      } else {
        InsertDrop(tail, r);
        assert Insert(len, r)[1..] == Insert(tail, r);
        BoxStep(len, Insert(len, r));
      }
    }
  }

  /** The dimensions that stay, counted from n. */
  function Kept(len: Shape, n: nat): (k: seq<nat>)
    ensures |k| == |Drop(len, len)|
    ensures forall j | 0 <= j < |k| :: n <= k[j] < n + |len|
  {
    if len == [] then [] else (if len[0] > 1 then [n] else []) + Kept(len[1..], n + 1)
  }

  lemma {:induction false} KeptAt(len: Shape, r: Index, n: nat, j: nat)
    requires |r| == |Drop(len, len)| && j < |r|
    ensures Insert(len, r)[Kept(len, n)[j] - n] == r[j]
    ensures Drop(len, len)[j] == len[Kept(len, n)[j] - n]
  {
    hide Kept, Insert, Drop;
    KeptHead(len, r, n);
    if len[0] > 1 {
      if j > 0 {
        KeptAt(len[1..], r[1..], n + 1, j - 1);
      }
    } else {
      KeptAt(len[1..], r, n + 1, j);
    }
  }

  lemma KeptHead(len: Shape, r: Index, n: nat)
    requires |r| == |Drop(len, len)| && r != []
    ensures len != []
    ensures len[0] > 1 ==>
              && Kept(len, n) == [n] + Kept(len[1..], n + 1)
              && |r[1..]| == |Drop(len[1..], len[1..])| && Insert(len, r) == [r[0]] + Insert(len[1..], r[1..])
              && Drop(len, len) == [len[0]] + Drop(len[1..], len[1..])
    ensures len[0] <= 1 ==>
              && Kept(len, n) == Kept(len[1..], n + 1)
              && |r| == |Drop(len[1..], len[1..])| && Insert(len, r) == [0] + Insert(len[1..], r)
              && Drop(len, len) == Drop(len[1..], len[1..])
  {
    DropTail(len);
    if len[0] <= 1 {
      assert [] + Kept(len[1..], n + 1) == Kept(len[1..], n + 1);
    }
  }

  // ----- the two sums of the offset -----

  /** The part of an offset that the given dimensions contribute. */
  function KeptSum(strides: seq<nat>, idx: Index, kept: seq<nat>): nat
    requires |strides| == |idx| && forall j | 0 <= j < |kept| :: kept[j] < |idx|
  {
    if kept == [] then 0 else Times(idx[kept[0]], strides[kept[0]]) + KeptSum(strides, idx, kept[1..])
  }

  /** The part of the dropped dimensions from d on. */
  function FixedSum(strides: seq<nat>, idx: Index, len: Shape, d: nat): nat
    requires |strides| == |idx| == |len| && d <= |len|
    decreases |len| - d
  {
    if d == |len| then 0
    else (if len[d] > 1 then 0 else Times(idx[d], strides[d])) + FixedSum(strides, idx, len, d + 1)
  }

  lemma {:induction false} OffsetIsBoth(shape: Shape, strides: seq<nat>, idx: Index, len: Shape, d: nat)
    requires IsStrides(shape, strides) && |idx| == |len| == |shape| && d <= |shape|
    ensures |strides| == |shape|
    ensures Offset(shape[d..], idx[d..]) == KeptSum(strides, idx, Kept(len[d..], d)) + FixedSum(strides, idx, len, d)
    decreases |shape| - d
  {
    hide Times, Offset;
    if d < |shape| {
      OffsetStep(shape, strides, d, idx);
      OffsetIsBoth(shape, strides, idx, len, d + 1);
      assert len[d..][0] == len[d] && len[d..][1..] == len[d + 1..];
      if len[d] > 1 {
        assert Kept(len[d..], d)[1..] == Kept(len[d + 1..], d + 1);
      } else {
        assert Kept(len[d..], d) == Kept(len[d + 1..], d + 1);
      }
    } else {
      NoOffset(shape[d..], idx[d..]);
    }
  }

  // ----- the box and the cells it meets -----

  /** The place of a cell within the box, if it lies there. */
  function BoxPlace(shape: Shape, lo: Index, len: Shape, pos: nat): (p: Option<nat>)
    requires Fits(shape, lo, len) && pos < Product(shape)
    ensures p.Some? ==> p.value < Product(len)
  {
    UnravelInBox(shape, pos);
    var idx := Unravel(shape, pos);
    if InSpan(lo, len, idx) then
      OffsetInBounds(len, Minus(idx, lo));
      Some(Offset(len, Minus(idx, lo)))
    else None
  }

  /** The cell at a place of the box. */
  function CellOf(shape: Shape, lo: Index, len: Shape, p: nat): (pos: nat)
    requires Fits(shape, lo, len) && p < Product(len)
    ensures pos < Product(shape)
  {
    UnravelInBox(len, p);
    var idx := Plus(Unravel(len, p), lo);
    OffsetInBounds(shape, idx);
    Offset(shape, idx)
  }

  /** Places of the box and cells in it correspond: distinct places hit distinct cells. */
  lemma CellsAndPlaces(shape: Shape, lo: Index, len: Shape, p: nat, pos: nat)
    requires Fits(shape, lo, len) && p < Product(len) && pos < Product(shape)
    ensures BoxPlace(shape, lo, len, pos) == Some(p) <==> pos == CellOf(shape, lo, len, p)
  {
    UnravelInBox(len, p);
    UnravelInBox(shape, pos);
    var r, idx := Unravel(len, p), Unravel(shape, pos);
    OffsetInBounds(shape, Plus(r, lo));
    assert Minus(Plus(r, lo), lo) == r;
    if BoxPlace(shape, lo, len, pos) == Some(p) {
      OffsetInjective(len, Minus(idx, lo), r);
      assert Plus(Minus(idx, lo), lo) == idx;
    }
  }

  /** What a cell holds once the first n elements are written. */
  predicate CellHolds<T(==)>(shape: Shape, lo: Index, len: Shape, src: seq<T>, before: seq<T>, n: nat, pos: nat, v: T)
    requires Fits(shape, lo, len) && |src| == Product(len) && |before| == Product(shape) && pos < |before|
  {
    var p := BoxPlace(shape, lo, len, pos);
    v == if p.Some? && p.value < n then src[p.value] else before[pos]
  }

  lemma AllWritten<T>(shape: Shape, lo: Index, len: Shape, src: seq<T>, before: seq<T>, after: seq<T>)
    requires Fits(shape, lo, len) && |src| == Product(len) && |before| == Product(shape) == |after|
    requires forall pos | 0 <= pos < |after| :: CellHolds(shape, lo, len, src, before, |src|, pos, after[pos])
    ensures after == Scattered(shape, lo, len, src, before)
  {
    forall pos | 0 <= pos < |after| ensures after[pos] == Scattered(shape, lo, len, src, before)[pos] {
      assert CellHolds(shape, lo, len, src, before, |src|, pos, after[pos]);
      ScatteredHere(shape, lo, len, src, before, pos);
    }
  }

  // ----- the loops -----

  /**
   * Ends for every dimension: as given, or everything. An index without a dimension is written
   * behind the end of both arrays.
   */
  method ReadEnds(shape: Shape, sels: seq<Selector>) returns (inside: bool, starts: seq<int>, ends: seq<int>)
    ensures inside <==> |sels| <= |shape|
    ensures |starts| == |ends| == |shape|
    ensures inside ==> forall d | 0 <= d < |shape| :: Ends(starts[d], ends[d]) == Asked(SelectorAt(sels, d), shape[d])
  {
    starts := seq(|shape|, _ => 1);
    ends := seq(|shape|, d requires 0 <= d < |shape| => shape[d] as int);
    var i := 0;
    while i < |sels|
      invariant i <= |sels| && i <= |shape| && |starts| == |ends| == |shape|
      invariant forall d | 0 <= d < |shape| ::
                  Ends(starts[d], ends[d]) == if d < i then Asked(sels[d], shape[d]) else Ends(1, shape[d])
    {
      if i == |shape| {
        return false, starts, ends;
      }
      match sels[i] {
        case Wild =>
          starts, ends := starts[i := 1], ends[i := shape[i]];
        case Range(s, e) =>
          starts, ends := starts[i := s], ends[i := e];
        case One(at) =>
          starts, ends := starts[i := at], ends[i := at];
      }
      i := i + 1;
    }
    inside := true;
  }

  /** The first i dimensions are normalised, the others as they were asked for. */
  predicate EndsDone(shape: Shape, sels: seq<Selector>, starts: seq<int>, ends: seq<int>, i: nat) {
    && |starts| == |ends| == |shape|
    && forall d | 0 <= d < |shape| ::
         Ends(starts[d], ends[d]) == if d < i then NormalAt(shape, sels, d) else Asked(SelectorAt(sels, d), shape[d])
  }

  lemma EndsStep(shape: Shape, sels: seq<Selector>, starts: seq<int>, ends: seq<int>, i: nat, s: int, e: int)
    requires i < |shape| && EndsDone(shape, sels, starts, ends, i) && Ends(s, e) == NormalAt(shape, sels, i)
    ensures EndsDone(shape, sels, starts[i := s], ends[i := e], i + 1)
  {
    hide NormalAt, Asked, SelectorAt;
  }

  /** Normalised ends, and the dimensions of more than one position in their order. */
  method Normalise(shape: Shape, sels: seq<Selector>)
      returns (inside: bool, starts: seq<int>, ends: seq<int>, kept: seq<nat>)
    ensures inside <==> |sels| <= |shape|
    ensures |starts| == |ends| == |shape|
    ensures inside ==> forall d | 0 <= d < |shape| :: Ends(starts[d], ends[d]) == NormalAt(shape, sels, d)
    ensures inside ==> kept == Kept(Widths(shape, sels), 0)
  {
    hide Normal, Asked, SelectorAt, Kept, NormalAt, Width;
    kept := [];
    inside, starts, ends := ReadEnds(shape, sels);
    if !inside {
      return;
    }
    assert EndsDone(shape, sels, starts, ends, 0);
    ghost var len := Widths(shape, sels);
    var i := 0;
    assert len[0..] == len;
    while i < |shape|
      invariant i <= |shape| && EndsDone(shape, sels, starts, ends, i)
      invariant Kept(len, 0) == kept + Kept(len[i..], i)
    {
      KeptStep(len, i);
      NormalHere(shape, sels, i);
      var s, e := Clamped(starts[i], ends[i], shape[i]);
      WidthOf(NormalAt(shape, sels, i), s, e);
      if s > e {
        EndsStep(shape, sels, starts, ends, i, 1, 0);
        starts, ends := starts[i := 1], ends[i := 0];
      } else {
        EndsStep(shape, sels, starts, ends, i, s, e);
        starts, ends := starts[i := s], ends[i := e];
        if e - s + 1 > 1 {
          kept := kept + [i];
        }
      }
      i := i + 1;
    }
    KeptEnd(len[i..], i);
    assert kept + [] == kept;
  }

  /** Counting from behind, and clamping. */
  method Clamped(start: int, end: int, dim: nat) returns (s: int, e: int)
    ensures Normal(Ends(start, end), dim) == if s > e then Ends(1, 0) else Ends(s, e)
  {
    s, e := start, end;
    if s < 0 {
      s := dim + s + 1;
    }
    if e < 0 {
      e := dim + e + 1;
    }
    if s < 1 {
      s := 1;
    }
    if e > dim {
      e := dim;
    }
  }

  lemma WidthOf(n: Ends, s: int, e: int)
    requires n == if s > e then Ends(1, 0) else Ends(s, e)
    ensures Width(n) > 1 <==> s <= e && e - s + 1 > 1
  {
  }

  lemma NormalHere(shape: Shape, sels: seq<Selector>, d: nat)
    requires d < |shape|
    ensures NormalAt(shape, sels, d) == Normal(Asked(SelectorAt(sels, d), shape[d]), shape[d])
    ensures Widths(shape, sels)[d] == Width(NormalAt(shape, sels, d))
  {
  }

  lemma KeptEnd(len: Shape, n: nat)
    requires len == []
    ensures Kept(len, n) == []
  {
  }

  lemma KeptStep(len: Shape, i: nat)
    requires i < |len|
    ensures Kept(len[i..], i) == (if len[i] > 1 then [i] else []) + Kept(len[i + 1..], i + 1)
  {
    assert len[i..][1..] == len[i + 1..];
  }

  /** The contribution of the dimensions that do not stay. */
  method FixedOffset(t: Tensor<Elem>, sels: seq<Selector>, starts: seq<int>, ends: seq<int>, ghost idx: Index)
      returns (offset: nat)
    requires t.Valid() && |starts| == |ends| == |idx| == |t.shape|
    requires forall d | 0 <= d < |t.shape| :: Ends(starts[d], ends[d]) == NormalAt(t.shape, sels, d)
    requires forall d | 0 <= d < |t.shape| && Widths(t.shape, sels)[d] == 1 :: idx[d] == Begins(t.shape, sels)[d]
    ensures offset == FixedSum(t.strides, idx, Widths(t.shape, sels), 0)
  {
    hide Times, NormalAt;
    offset := 0;
    ghost var len := Widths(t.shape, sels);
    var k := 0;
    while k < |t.shape|
      invariant k <= |t.shape|
      invariant FixedSum(t.strides, idx, len, 0) == offset + FixedSum(t.strides, idx, len, k)
    {
      assert Ends(starts[k], ends[k]) == NormalAt(t.shape, sels, k);
      if ends[k] - starts[k] + 1 <= 1 {
        var pos := if ends[k] >= starts[k] then starts[k] - 1 else 0;
        offset := offset + Times(pos, t.strides[k]);
      }
      k := k + 1;
    }
  }

  /**
   * Where the element at a place of the right-hand side goes: the sum over the kept dimensions
   * on top of the fixed ones.
   */
  method TargetOffset(t: Tensor<Elem>, sels: seq<Selector>, starts: seq<int>, kept: seq<nat>, rt: Tensor<Elem>,
      outIdx: nat, fixed: nat)
    returns (offset: nat)
    requires t.Valid() && rt.Valid() && |starts| == |t.shape|
    requires forall d | 0 <= d < |t.shape| && Widths(t.shape, sels)[d] > 1 :: starts[d] - 1 == Begins(t.shape, sels)[d]
    requires kept == Kept(Widths(t.shape, sels), 0) && rt.shape == Drop(Widths(t.shape, sels), Widths(t.shape, sels))
    requires outIdx < rt.data.Length && Product(rt.shape) == Product(Widths(t.shape, sels))
    requires forall idx: Index | OnFixed(t.shape, sels, idx) ::
             fixed == FixedSum(t.strides, idx, Widths(t.shape, sels), 0)
    ensures NoZero(t.shape) ==>
              && Fits(t.shape, Begins(t.shape, sels), Widths(t.shape, sels))
              && offset == CellOf(t.shape, Begins(t.shape, sels), Widths(t.shape, sels), outIdx)
  {
    hide Product, Unravel, Offset, IsStrides, Quot, Rem, Times, NormalAt, Kept, Drop, Insert, KeptSum, FixedSum,
         Begins, Widths;
    ghost var lo, len := Begins(t.shape, sels), Widths(t.shape, sels);
    ghost var r := Unravel(rt.shape, outIdx);
    ghost var idx := Target(t.shape, sels, rt.shape, outIdx);
    OffsetIsBoth(t.shape, t.strides, idx, len, 0);
    assert t.shape[0..] == t.shape && idx[0..] == idx && len[0..] == len && rt.shape[0..] == rt.shape && r[0..] == r
           && kept[0..] == kept;
    var rem := outIdx;
    offset := fixed;
    var d := 0;
    while d < |kept|
      invariant d <= |kept| && 0 <= rem < Product(rt.shape[d..]) && r[d..] == Unravel(rt.shape[d..], rem)
      invariant offset + KeptSum(t.strides, idx, kept[d..]) == Offset(t.shape, idx)
    {
      UnravelStep(rt.shape, rt.strides, d, rem);
      assert r[d..][0] == r[d] && r[d..][1..] == r[d + 1..];
      var pos := Quot(rem, rt.strides[d]);
      rem := Rem(rem, rt.strides[d]);
      var orig := kept[d];
      TargetAt(t.shape, sels, rt.shape, outIdx, d);
      KeptSumStep(t.strides, idx, kept, d);
      var srcPos := pos + (starts[orig] - 1);
      offset := offset + Times(srcPos, t.strides[orig]);
      d := d + 1;
    }
    KeptSumEnd(t.strides, idx, kept[d..]);
  }

  /** In the dimensions of width one the index is where the box begins. */
  predicate OnFixed(shape: Shape, sels: seq<Selector>, idx: Index) {
    |idx| == |shape| && forall d | 0 <= d < |shape| && Widths(shape, sels)[d] == 1 :: idx[d] == Begins(shape, sels)[d]
  }

  /** The index that a place of the right-hand side is written to; it lies within the tensor if that has elements. */
  ghost function Target(shape: Shape, sels: seq<Selector>, small: Shape, p: nat): (idx: Index)
    requires small == Drop(Widths(shape, sels), Widths(shape, sels))
             && p < Product(small) == Product(Widths(shape, sels))
    ensures OnFixed(shape, sels, idx)
    ensures NoZero(shape) ==>
              && Fits(shape, Begins(shape, sels), Widths(shape, sels))
              && InBox(shape, idx) && Offset(shape, idx) == CellOf(shape, Begins(shape, sels), Widths(shape, sels), p)
    ensures idx == Plus(Insert(Widths(shape, sels), Unravel(small, p)), Begins(shape, sels))
  {
    TargetIs(shape, sels, small, p);
    Plus(Insert(Widths(shape, sels), Unravel(small, p)), Begins(shape, sels))
  }

  lemma TargetIs(shape: Shape, sels: seq<Selector>, small: Shape, p: nat)
    requires small == Drop(Widths(shape, sels), Widths(shape, sels))
             && p < Product(small) == Product(Widths(shape, sels))
    ensures InBox(small, Unravel(small, p))
    ensures var idx := Plus(Insert(Widths(shape, sels), Unravel(small, p)), Begins(shape, sels));
            && OnFixed(shape, sels, idx)
            && (NoZero(shape) ==>
                  && Fits(shape, Begins(shape, sels), Widths(shape, sels))
                  && InBox(shape, idx)
                  && Offset(shape, idx) == CellOf(shape, Begins(shape, sels), Widths(shape, sels), p))
  {
    hide Product, Unravel, Offset, Drop, Insert, NormalAt;
    var lo, len := Begins(shape, sels), Widths(shape, sels);
    var r := Unravel(small, p);
    UnravelInBox(small, p);
    InsertDrop(len, r);
    OffsetInBounds(len, Insert(len, r));
    assert Insert(len, r) == Unravel(len, p);
    if NoZero(shape) {
      BoxFits(shape, sels);
      OffsetInBounds(shape, Plus(Insert(len, r), lo));
    }
  }

  lemma TargetAt(shape: Shape, sels: seq<Selector>, small: Shape, p: nat, j: nat)
    requires small == Drop(Widths(shape, sels), Widths(shape, sels))
             && p < Product(small) == Product(Widths(shape, sels))
    requires j < |small|
    ensures var k := Kept(Widths(shape, sels), 0)[j];
            && Widths(shape, sels)[k] > 1
            && Target(shape, sels, small, p)[k] == Unravel(small, p)[j] + Begins(shape, sels)[k]
  {
    hide Product, Unravel, Offset, Drop, Insert, NormalAt;
    KeptAt(Widths(shape, sels), Unravel(small, p), 0, j);
    KeptIsWide(Widths(shape, sels), 0, j);
  }

  lemma {:induction false} KeptIsWide(len: Shape, n: nat, j: nat)
    requires j < |Kept(len, n)|
    ensures len[Kept(len, n)[j] - n] > 1
  {
    if len[0] > 1 {
      if j > 0 {
        KeptIsWide(len[1..], n + 1, j - 1);
      }
    } else {
      KeptIsWide(len[1..], n + 1, j);
    }
  }

  lemma KeptSumStep(strides: seq<nat>, idx: Index, kept: seq<nat>, d: nat)
    requires |strides| == |idx| && d < |kept| && forall j | 0 <= j < |kept| :: kept[j] < |idx|
    ensures KeptSum(strides, idx, kept[d..]) ==
            Times(idx[kept[d]], strides[kept[d]]) + KeptSum(strides, idx, kept[d + 1..])
  {
    hide Times;
    assert kept[d..][1..] == kept[d + 1..];
  }

  lemma KeptSumEnd(strides: seq<nat>, idx: Index, kept: seq<nat>)
    requires |strides| == |idx| && kept == []
    ensures KeptSum(strides, idx, kept) == 0
  {
  }

  // ----- the assignment -----

  /** The value on the right: a tensor, or anything else with its type. */
  datatype Rhs = Scalar(value: Elem, ty: ElemType) | Array(t: Tensor<Elem>, value: Elem)

  /**
   * The loop over the elements of the right-hand side. The first write into a tensor without
   * elements is out of bounds. A tensor assigned to itself is written element by element to
   * where each was, and every element is freed right before it is read.
   */
  method FillBox(t: Tensor<Elem>, sels: seq<Selector>, starts: seq<int>, kept: seq<nat>, rt: Tensor<Elem>, fixed: nat)
    returns (inside: bool, freed: bool)
    requires t.Valid() && rt.Valid() && (rt == t || rt.data != t.data) && |starts| == |t.shape|
    requires forall d | 0 <= d < |t.shape| && Widths(t.shape, sels)[d] > 1 :: starts[d] - 1 == Begins(t.shape, sels)[d]
    requires kept == Kept(Widths(t.shape, sels), 0) && rt.shape == Drop(Widths(t.shape, sels), Widths(t.shape, sels))
    requires rt.data.Length == Product(Widths(t.shape, sels)) > 0
    requires forall idx: Index | OnFixed(t.shape, sels, idx) ::
             fixed == FixedSum(t.strides, idx, Widths(t.shape, sels), 0)
    modifies t.data
    ensures inside <==> NoZero(t.shape)
    ensures !inside ==> t.data[..] == old(t.data[..])
    ensures inside ==> Fits(t.shape, Begins(t.shape, sels), Widths(t.shape, sels))
    ensures inside ==>
              t.data[..] ==
                  Scattered(t.shape, Begins(t.shape, sels), Widths(t.shape, sels), old(rt.data[..]), old(t.data[..]))
    ensures inside ==> (freed <==> rt == t)
  {
    hide Product, IsStrides, NormalAt, Begins, Widths, Kept, Drop, FixedSum, BoxPlace, CellOf, Scattered, Fits;
    ghost var lo, len := Begins(t.shape, sels), Widths(t.shape, sels);
    ghost var src, before := rt.data[..], t.data[..];
    NonEmptyShape(t.shape);
    if NoZero(t.shape) {
      BoxFits(t.shape, sels);
      NothingWritten(t.shape, lo, len, src, before);
    }
    freed := false;
    var outIdx := 0;
    while outIdx < rt.data.Length
      invariant outIdx <= rt.data.Length && rt.data[..] == src
      invariant (freed ==> rt == t) && (outIdx > 0 ==> NoZero(t.shape) && (rt == t ==> freed))
      invariant !NoZero(t.shape) ==> t.data[..] == before
      invariant NoZero(t.shape) ==>
                  Fits(t.shape, lo, len) && BoxWritten(t.shape, lo, len, src, before, outIdx, t.data[..])
    {
      var offset := TargetOffset(t, sels, starts, kept, rt, outIdx, fixed);
      if offset >= t.data.Length {
        return false, freed;
      }
      ghost var after := t.data[..];
      OneMoreWritten(t.shape, lo, len, src, before, outIdx, after);
      if rt == t {
        SelfPlace(t.shape, sels, outIdx);
      }
      freed := freed || (rt.data == t.data && offset == outIdx);
      t.data[offset] := rt.data[outIdx];
      assert t.data[..] == after[offset := src[outIdx]];
      outIdx := outIdx + 1;
    }
    AllWritten(t.shape, lo, len, src, before, t.data[..]);
    inside := true;
  }

  /** A box of the shape of the whole tensor is the whole tensor, with every element at its place. */
  lemma SelfPlace(shape: Shape, sels: seq<Selector>, p: nat)
    requires shape == Drop(Widths(shape, sels), Widths(shape, sels)) && p < Product(shape)
    requires Fits(shape, Begins(shape, sels), Widths(shape, sels)) && p < Product(Widths(shape, sels))
    ensures CellOf(shape, Begins(shape, sels), Widths(shape, sels), p) == p
  {
    hide Product, Unravel, Offset, NormalAt, Drop, Begins, Widths;
    var lo, len := Begins(shape, sels), Widths(shape, sels);
    DropAll(len);
    UnravelInBox(shape, p);
    assert forall d | 0 <= d < |lo| :: lo[d] == 0;
    assert Plus(Unravel(shape, p), lo) == Unravel(shape, p);
  }

  /** Dimensions are dropped unless all are kept. */
  lemma {:induction false} DropAll(len: Shape)
    ensures |Drop(len, len)| <= |len|
    ensures |Drop(len, len)| == |len| ==> Drop(len, len) == len
  {
    if len != [] {
      DropAll(len[1..]);
    }
  }

  /** Every cell holds what it should once the first n elements are written. */
  ghost predicate BoxWritten<T>(shape: Shape, lo: Index, len: Shape, src: seq<T>, before: seq<T>, n: nat, after: seq<T>)
    requires Fits(shape, lo, len) && |src| == Product(len) && |before| == Product(shape)
  {
    && |after| == |before|
    && forall pos | 0 <= pos < |after| :: CellHolds(shape, lo, len, src, before, n, pos, after[pos])
  }

  lemma NothingWritten<T>(shape: Shape, lo: Index, len: Shape, src: seq<T>, before: seq<T>)
    requires Fits(shape, lo, len) && |src| == Product(len) && |before| == Product(shape)
    ensures BoxWritten(shape, lo, len, src, before, 0, before)
  {
    hide BoxPlace;
  }

  lemma OneMoreWritten<T>(shape: Shape, lo: Index, len: Shape, src: seq<T>, before: seq<T>, n: nat, after: seq<T>)
    requires Fits(shape, lo, len) && |src| == Product(len) && |before| == Product(shape) && n < |src|
    requires BoxWritten(shape, lo, len, src, before, n, after)
    ensures CellOf(shape, lo, len, n) < |after|
    ensures BoxWritten(shape, lo, len, src, before, n + 1, after[CellOf(shape, lo, len, n) := src[n]])
  {
    hide BoxPlace, CellOf;
    var next := after[CellOf(shape, lo, len, n) := src[n]];
    forall pos | 0 <= pos < |next| ensures CellHolds(shape, lo, len, src, before, n + 1, pos, next[pos]) {
      assert CellHolds(shape, lo, len, src, before, n, pos, after[pos]);
      CellsAndPlaces(shape, lo, len, n, pos);
    }
  }

  /** The right-hand side fits the selection. */
  ghost predicate Assignable(t: Tensor<Elem>, sels: seq<Selector>, rhs: Rhs) {
    var len := Widths(t.shape, sels);
    var small := Drop(len, len);
    if small == [] then rhs.Scalar? ==> rhs.ty == t.elem
    else rhs.Array? && rhs.t.shape == small && rhs.t.elem == t.elem
  }

  /** What is written: the one value, or the elements of the tensor. */
  ghost function Written(t: Tensor<Elem>, sels: seq<Selector>, rhs: Rhs): (src: seq<Elem>)
    requires Assignable(t, sels, rhs) && (rhs.Array? ==> rhs.t.Valid())
    reads if rhs.Array? then {rhs.t.data} else {}
    ensures |src| == Product(Widths(t.shape, sels))
  {
    var len := Widths(t.shape, sels);
    DropKeepsProduct(len);
    if Drop(len, len) == [] then
      EmptyProduct();
      [rhs.value]
    else rhs.t.data[..]
  }

  lemma {:induction false} DropKeepsProduct(len: Shape)
    requires NoZero(len)
    ensures Product(Drop(len, len)) == Product(len)
  {
    if len != [] {
      DropTail(len);
      DropKeepsProduct(len[1..]);
      if len[0] > 1 {
        assert Drop(len, len)[1..] == Drop(len[1..], len[1..]);
      }
    }
  }

  /** How an assignment ends; freed says that it has read elements right after freeing them. */
  datatype Assignment = Done(freed: bool) | Refused | OutOfBounds

  /**
   * The write leaves the arrays if and only if there are more indices than dimensions, or the
   * assignment is accepted and the tensor has no elements. Otherwise it is refused and nothing
   * changes, or exactly the cells of the box receive the elements, each at its index without the
   * dimensions of width one.
   */
  method AssignSlice(t: Tensor<Elem>, sels: seq<Selector>, rhs: Rhs) returns (outcome: Assignment)
    requires t.Valid()
    requires rhs.Array? ==> rhs.t.Valid() && (rhs.t == t || rhs.t.data != t.data)
    modifies t.data
    ensures outcome.OutOfBounds? <==> |sels| > |t.shape| || (Assignable(t, sels, rhs) && !NoZero(t.shape))
    ensures outcome.Refused? <==> |sels| <= |t.shape| && !Assignable(t, sels, rhs)
    ensures !outcome.Done? ==> t.data[..] == old(t.data[..])
    ensures outcome.Done? ==> Fits(t.shape, Begins(t.shape, sels), Widths(t.shape, sels))
    ensures outcome.Done? ==>
              t.data[..] ==
                  Scattered(t.shape, Begins(t.shape, sels), Widths(t.shape, sels), old(Written(t, sels, rhs)),
                  old(t.data[..]))
    ensures outcome.Done? ==> (outcome.freed <==> rhs.Array? && rhs.t == t && Kept(Widths(t.shape, sels), 0) != [])
  {
    hide Product, NormalAt, Kept, Drop, FixedSum, Scattered;
    ghost var lo, len := Begins(t.shape, sels), Widths(t.shape, sels);
    DropKeepsProduct(len);
    NonEmptyShape(len);
    var inside, starts, ends, kept := Normalise(t.shape, sels);
    if !inside {
      return OutOfBounds;
    }
    assert forall d | 0 <= d < |t.shape| :: Ends(starts[d], ends[d]) == NormalAt(t.shape, sels, d);
    var fixed := FixedOffset(t, sels, starts, ends, lo);
    if kept == [] {
      if rhs.Scalar? && rhs.ty != t.elem {
        return Refused;
      }
      inside := WriteOne(t, sels, rhs.value, fixed);
      return if inside then Done(false) else OutOfBounds;
    }
    if rhs.Scalar? {
      return Refused;
    }
    var rt := rhs.t;
    var same := SameShape(starts, ends, kept, rt.shape, t.shape, sels);
    if !same || rt.elem != t.elem {
      return Refused;
    }
    FixedForAll(t, sels, fixed);
    var freed;
    inside, freed := FillBox(t, sels, starts, kept, rt, fixed);
    return if inside then Done(freed) else OutOfBounds;
  }

  /** All dimensions fixed: the write of a single element. */
  method WriteOne(t: Tensor<Elem>, sels: seq<Selector>, v: Elem, fixed: nat) returns (inside: bool)
    requires t.Valid() && |t.strides| == |t.shape| && Kept(Widths(t.shape, sels), 0) == []
    requires fixed == FixedSum(t.strides, Begins(t.shape, sels), Widths(t.shape, sels), 0)
    modifies t.data
    ensures inside <==> NoZero(t.shape)
    ensures !inside ==> t.data[..] == old(t.data[..])
    ensures inside ==>
            Fits(t.shape, Begins(t.shape, sels), Widths(t.shape, sels)) && Product(Widths(t.shape, sels)) == 1
    ensures inside ==>
              t.data[..] == Scattered(t.shape, Begins(t.shape, sels), Widths(t.shape, sels), [v], old(t.data[..]))
  {
    hide Product, NormalAt, Kept, Drop, FixedSum, Scattered, Begins, Widths;
    ghost var lo, len := Begins(t.shape, sels), Widths(t.shape, sels);
    NonEmptyShape(t.shape);
    ghost var before := t.data[..];
    if NoZero(t.shape) {
      BoxFits(t.shape, sels);
      OnlyCell(t.shape, t.strides, lo, len, fixed);
      OneCellWritten(t.shape, lo, len, v, before);
    }
    if fixed >= t.data.Length {
      return false;
    }
    t.data[fixed] := v;
    assert t.data[..] == before[fixed := v];
    return true;
  }

  /** The right-hand side has the shape of the kept dimensions. */
  method SameShape(starts: seq<int>, ends: seq<int>, kept: seq<nat>, small: Shape, shape: Shape, sels: seq<Selector>)
      returns (same: bool)
    requires |starts| == |ends| == |shape| && kept == Kept(Widths(shape, sels), 0)
    requires forall d | 0 <= d < |shape| :: Ends(starts[d], ends[d]) == NormalAt(shape, sels, d)
    ensures same <==> small == Drop(Widths(shape, sels), Widths(shape, sels))
  {
    hide NormalAt, Kept, Drop, Insert;
    ghost var len := Widths(shape, sels);
    if |small| != |kept| {
      return false;
    }
    var d := 0;
    while d < |kept|
      invariant d <= |kept| && forall j | 0 <= j < d :: small[j] == Drop(len, len)[j]
    {
      KeptAt(len, Drop(len, len), 0, d);
      KeptIsWide(len, 0, d);
      assert Ends(starts[kept[d]], ends[kept[d]]) == NormalAt(shape, sels, kept[d]);
      if small[d] != ends[kept[d]] - starts[kept[d]] + 1 {
        return false;
      }
      d := d + 1;
    }
    return true;
  }

  /** If no dimension is kept the fixed offset is the one cell of the box. */
  lemma OnlyCell(shape: Shape, strides: seq<nat>, lo: Index, len: Shape, fixed: nat)
    requires IsStrides(shape, strides) && Fits(shape, lo, len) && NoZero(len) && Kept(len, 0) == []
    requires |strides| == |shape| && fixed == FixedSum(strides, lo, len, 0)
    ensures Product(len) == 1 && fixed == CellOf(shape, lo, len, 0)
  {
    hide Product, Offset, FixedSum, Kept;
    DropKeepsProduct(len);
    EmptyProduct();
    assert Drop(len, len) == [];
    OffsetIsBoth(shape, strides, lo, len, 0);
    assert shape[0..] == shape && lo[0..] == lo && len[0..] == len;
    UnravelInBox(len, 0);
    KeptSumEnd(strides, lo, []);
    AllOnes(len);
    assert Plus(Unravel(len, 0), lo) == lo;
  }

  lemma {:induction false} AllOnes(len: Shape)
    requires NoZero(len) && Kept(len, 0) == [] && Product(len) > 0
    ensures forall d | 0 <= d < |len| :: len[d] == 1
    ensures forall idx: Index, d | InBox(len, idx) && 0 <= d < |len| :: idx[d] == 0
  {
    forall d | 0 <= d < |len| ensures len[d] == 1 {
      NotKept(len, 0, d);
    }
  }

  lemma {:induction false} NotKept(len: Shape, n: nat, d: nat)
    requires d < |len| && Kept(len, n) == []
    ensures len[d] <= 1
  {
    if d > 0 {
      NotKept(len[1..], n + 1, d - 1);
    }
  }

  lemma OneCellWritten<T>(shape: Shape, lo: Index, len: Shape, v: T, before: seq<T>)
    requires Fits(shape, lo, len) && Product(len) == 1 && |before| == Product(shape)
    ensures CellOf(shape, lo, len, 0) < |before|
    ensures before[CellOf(shape, lo, len, 0) := v] == Scattered(shape, lo, len, [v], before)
  {
    hide BoxPlace, CellOf, Scattered, Product;
    NothingWritten(shape, lo, len, [v], before);
    OneMoreWritten(shape, lo, len, [v], before, 0, before);
    AllWritten(shape, lo, len, [v], before, before[CellOf(shape, lo, len, 0) := v]);
  }

  lemma FixedForAll(t: Tensor<Elem>, sels: seq<Selector>, fixed: nat)
    requires t.Valid() && |t.strides| == |t.shape|
             && fixed == FixedSum(t.strides, Begins(t.shape, sels), Widths(t.shape, sels), 0)
    ensures forall idx: Index | OnFixed(t.shape, sels, idx) ::
            fixed == FixedSum(t.strides, idx, Widths(t.shape, sels), 0)
  {
    hide FixedSum, NormalAt;
    forall idx: Index | OnFixed(t.shape, sels, idx)
      ensures fixed == FixedSum(t.strides, idx, Widths(t.shape, sels), 0) {
      SameFixed(t.strides, idx, Begins(t.shape, sels), Widths(t.shape, sels), 0);
    }
  }

  lemma {:induction false} SameFixed(strides: seq<nat>, a: Index, b: Index, len: Shape, d: nat)
    requires |strides| == |a| == |b| == |len| && d <= |len| && NoZero(len)
    requires forall k | 0 <= k < |len| && len[k] == 1 :: a[k] == b[k]
    ensures FixedSum(strides, a, len, d) == FixedSum(strides, b, len, d)
    decreases |len| - d
  {
    hide Times;
    if d < |len| {
      SameFixed(strides, a, b, len, d + 1);
    }
  }
}
