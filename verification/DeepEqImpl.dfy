/**
 * The algorithm of value_deep_eq_impl: two containers that are being compared already
 * are assumed equal.  It decides bisimilarity.
 */
module DeepEqImpl {
  import opened Common
  import opened Heap
  import opened DeepEq

  datatype EqSeenPair = EqSeenPair(a: Addr, b: Addr, tensor: bool)

  /** The pairs in the set, either way round. */
  function RelOf(items: seq<EqSeenPair>): Rel {
    (set p | p in items :: (p.a, p.b)) + (set p | p in items :: (p.b, p.a))
  }

  predicate PairOk(h: Store, p: EqSeenPair) {
    p.a in h && p.b in h && h[p.a].Tensor? == h[p.b].Tensor? == p.tensor
  }

  ghost predicate SeenOk(h: Store, items: seq<EqSeenPair>) {
    forall i | 0 <= i < |items| :: PairOk(h, items[i])
  }

  lemma RelOfIn(items: seq<EqSeenPair>, x: Addr, y: Addr)
    ensures (x, y) in RelOf(items) <==>
            exists i :: 0 <= i < |items|
              && ((items[i].a == x && items[i].b == y) || (items[i].a == y && items[i].b == x))
  {
    if i :| 0 <= i < |items| && ((items[i].a == x && items[i].b == y) || (items[i].a == y && items[i].b == x)) {
      var p := items[i];
      assert p in items;
      assert (p.a, p.b) in RelOf(items) && (p.b, p.a) in RelOf(items);
    }
    if (x, y) in RelOf(items) {
      var p :| p in items && ((p.a == x && p.b == y) || (p.b == x && p.a == y));
      var i :| 0 <= i < |items| && items[i] == p;
    }
  }

  lemma RelOfMono(items: seq<EqSeenPair>, items': seq<EqSeenPair>)
    requires items <= items'
    ensures RelOf(items) <= RelOf(items')
  {
    forall x, y | (x, y) in RelOf(items) ensures (x, y) in RelOf(items') {
      RelOfIn(items, x, y);
      RelOfIn(items', x, y);
      var i :| 0 <= i < |items| && ((items[i].a == x && items[i].b == y) || (items[i].a == y && items[i].b == x));
      assert items'[i] == items[i];
    }
    forall p | p in RelOf(items) ensures p in RelOf(items') {
      assert (p.0, p.1) in RelOf(items);
    }
  }

  class EqSeenSet {
    var items: seq<EqSeenPair>

    constructor ()
      ensures items == []
    {
      items := [];
    }

    /** eq_seen_contains */
    method Contains(h: Store, a: Addr, b: Addr, tensor: bool) returns (found: bool)
      requires SeenOk(h, items) && PairOk(h, EqSeenPair(a, b, tensor))
      ensures found <==> (a, b) in RelOf(items)
    {
      RelOfIn(items, a, b);
      var i := 0;
      while i < |items|
        invariant i <= |items|
        invariant forall j | 0 <= j < i ::
                  !((items[j].a == a && items[j].b == b) || (items[j].a == b && items[j].b == a))
      {
        assert PairOk(h, items[i]);
        if items[i].tensor == tensor && ((items[i].a == a && items[i].b == b) || (items[i].a == b && items[i].b == a)) {
          return true;
        }
        i := i + 1;
      }
      return false;
    }

    /** eq_seen_add */
    method Add(a: Addr, b: Addr, tensor: bool)
      modifies this
      ensures items == old(items) + [EqSeenPair(a, b, tensor)]
    {
      items := items + [EqSeenPair(a, b, tensor)];
    }
  }

  // ----- what the set of assumed pairs is worth -----

  /** The pairs from place n on agree, assuming all of them. */
  ghost predicate Supported(h: Store, items: seq<EqSeenPair>, n: nat) {
    && SeenOk(h, items)
    && forall i | n <= i < |items| :: Match(RelOf(items), h[items[i].a], h[items[i].b])
  }

  lemma SupportedMore(h: Store, items: seq<EqSeenPair>, items': seq<EqSeenPair>, n: nat)
    requires n <= |items| && items <= items' && Supported(h, items, n) && Supported(h, items', |items|)
    ensures Supported(h, items', n)
  {
    RelOfMono(items, items');
    forall i | n <= i < |items'| ensures Match(RelOf(items'), h[items'[i].a], h[items'[i].b]) {
      if i < |items| {
        MatchMono(RelOf(items), RelOf(items'), h[items[i].a], h[items[i].b]);
      }
    }
  }

  /** Once every pair is supported the set is a bisimulation. */
  lemma SupportedIsBisimulation(h: Store, items: seq<EqSeenPair>)
    requires Supported(h, items, 0)
    ensures Bisimulation(h, RelOf(items))
  {
    var rel := RelOf(items);
    forall x: Addr, y: Addr | (x, y) in rel ensures x in h && y in h && Match(rel, h[x], h[y]) {
      RelOfIn(items, x, y);
      var i :| 0 <= i < |items| && ((items[i].a == x && items[i].b == y) || (items[i].a == y && items[i].b == x));
      assert PairOk(h, items[i]);
      if items[i].a != x || items[i].b != y {
        MatchBack(rel, h[y], h[x]);
        SelfInverse(items);
      }
    }
  }

  lemma SelfInverse(items: seq<EqSeenPair>)
    ensures Inverse(RelOf(items)) == RelOf(items)
  {
    forall x: Addr, y: Addr ensures (x, y) in RelOf(items) <==> (y, x) in RelOf(items) {
      RelOfIn(items, x, y);
      RelOfIn(items, y, x);
    }
    forall p | p in RelOf(items) ensures p in Inverse(RelOf(items)) {
      InverseIn(RelOf(items), p.1, p.0);
      assert (p.0, p.1) in RelOf(items);
    }
    forall p | p in Inverse(RelOf(items)) ensures p in RelOf(items) {
      InverseIn(RelOf(items), p.1, p.0);
      assert (p.1, p.0) in RelOf(items);
    }
  }

  // ----- one direction of the map test is enough -----

  function Elements(s: seq<nat>): (r: set<nat>)
    ensures forall x :: x in r <==> x in s
  {
    set x | x in s
  }

  lemma {:induction false} ElementCount(s: seq<nat>)
    requires Distinct(s)
    ensures |Elements(s)| == |s|
  {
    if s != [] {
      var n := |s| - 1;
      ElementCount(s[..n]);
      assert s == s[..n] + [s[n]];
      assert Elements(s) == Elements(s[..n]) + {s[n]};
    }
  }

  function Below(n: nat): (r: set<nat>)
    ensures |r| == n && forall x: nat :: x in r <==> x < n
  {
    if n == 0 then {} else Below(n - 1) + {n - 1}
  }

  /** n distinct numbers below n are all the numbers below n. */
  lemma DistinctCovers(s: seq<nat>, j: nat)
    requires Distinct(s) && (forall i | 0 <= i < |s| :: s[i] < |s|) && j < |s|
    ensures j in s
  {
    ElementCount(s);
    if j !in s {
      assert Elements(s) <= Below(|s|) - {j};
      CardinalityMono(Elements(s), Below(|s|) - {j});
    }
  }

  lemma {:induction false} CardinalityMono(a: set<nat>, b: set<nat>)
    requires a <= b
    ensures |a| <= |b|
  {
    if a != {} {
      var x :| x in a;
      CardinalityMono(a - {x}, b - {x});
    }
  }

  ghost function PartnerOf(rel: Rel, x: Item, ys: seq<Item>): (j: nat)
    requires HasPartner(rel, x, ys)
    ensures j < |ys| && SameItem(rel, x, ys[j])
  {
    var j :| 0 <= j < |ys| && SameItem(rel, x, ys[j]);
    j
  }

  lemma SameKey(a: Val, b: Val, c: Val)
    requires ScalarEq(a, c) && ScalarEq(b, c)
    ensures ScalarEq(a, b)
  {
  }

  lemma SameKeyRight(a: Val, b: Val, c: Val)
    requires ScalarEq(c, a) && ScalarEq(c, b)
    ensures ScalarEq(a, b)
  {
  }

  lemma OneSideIsEnough(rel: Rel, xs: seq<Item>, ys: seq<Item>)
    requires KeysDistinct(xs) && |xs| == |ys|
    requires forall i | 0 <= i < |xs| :: HasPartner(rel, xs[i], ys)
    ensures MapMatch(rel, xs, ys)
  {
    hide ScalarEq, Related;
    var s := seq(|xs|, i requires 0 <= i < |xs| => PartnerOf(rel, xs[i], ys));
    forall i, j | 0 <= i < j < |s| ensures s[i] != s[j] {
      if s[i] == s[j] {
        SameKey(xs[i].key, xs[j].key, ys[s[i]].key);
      }
    }
    forall j | 0 <= j < |ys| ensures IsPartner(rel, xs, ys[j]) {
      DistinctCovers(s, j);
      var i :| 0 <= i < |s| && s[i] == j;
      assert SameItem(rel, xs[i], ys[j]);
    }
  }

  // ----- why a mismatch is one -----

  lemma BisimilarCells(h: Store, a: Val, b: Val)
    requires Bisimilar(h, a, b) && Pointer(a).Some? && Pointer(b).Some? && Pointer(a) != Pointer(b)
    ensures exists rel :: Bisimulation(h, rel) && (Pointer(a).value, Pointer(b).value) in rel
  {
    var rel :| Bisimulation(h, rel) && Related(rel, a, b);
  }

  /** Corresponding elements of bisimilar tensors are bisimilar. */
  lemma ElementsBisimilar(h: Store, x: Addr, y: Addr, i: nat)
    requires x in h && y in h && h[x].Tensor? && h[y].Tensor? && x != y
    requires i < |h[x].data| && i < |h[y].data|
    ensures Bisimilar(h, VTensor(Some(x)), VTensor(Some(y))) ==> Bisimilar(h, h[x].data[i], h[y].data[i])
  {
    if Bisimilar(h, VTensor(Some(x)), VTensor(Some(y))) {
      BisimilarCells(h, VTensor(Some(x)), VTensor(Some(y)));
      var rel :| Bisimulation(h, rel) && (x, y) in rel;
      assert Related(rel, h[x].data[i], h[y].data[i]);
    }
  }

  lemma ShapesDiffer(h: Store, a: Val, b: Val)
    requires Pointer(a).Some? && Pointer(b).Some? && Pointer(a) != Pointer(b)
    requires Pointer(a).value in h && Pointer(b).value in h
    requires forall rel :: !Match(rel, h[Pointer(a).value], h[Pointer(b).value])
    ensures !Bisimilar(h, a, b)
  {
    if Bisimilar(h, a, b) {
      BisimilarCells(h, a, b);
    }
  }

  /** Every key of a map has, in a bisimilar map, a partner with a bisimilar value. */
  lemma EntriesBisimilar(h: Store, x: Addr, y: Addr, i: nat)
    requires x in h && y in h && h[x].Map? && h[y].Map? && x != y
    requires i < |h[x].items|
    ensures Bisimilar(h, VMap(Some(x)), VMap(Some(y))) ==>
              exists j :: 0 <= j < |h[y].items| && ScalarEq(h[x].items[i].key, h[y].items[j].key)
                          && Bisimilar(h, h[x].items[i].value, h[y].items[j].value)
  {
    if Bisimilar(h, VMap(Some(x)), VMap(Some(y))) {
      BisimilarCells(h, VMap(Some(x)), VMap(Some(y)));
      var rel :| Bisimulation(h, rel) && (x, y) in rel;
      assert Match(rel, h[x], h[y]);
      assert HasPartner(rel, h[x].items[i], h[y].items);
      var j :| 0 <= j < |h[y].items| && SameItem(rel, h[x].items[i], h[y].items[j]);
      assert Bisimilar(h, h[x].items[i].value, h[y].items[j].value);
    }
  }

  lemma ScalarsBisimilar(h: Store, a: Val, b: Val)
    requires Pointer(a).None? || Pointer(b).None?
    ensures Bisimilar(h, a, b) <==> Related({}, a, b)
  {
    if Related({}, a, b) {
      assert Bisimulation(h, {});
    }
  }

  /** What the comparison promises about the set: it only grows, and on success what was added is supported. */
  ghost predicate Grown(h: Store, items: seq<EqSeenPair>, items': seq<EqSeenPair>) {
    items <= items' && SeenOk(h, items')
  }

  ghost function Unseen(h: Store, items: seq<EqSeenPair>): set<(Addr, Addr)> {
    (set x, y | x in h && y in h :: (x, y)) - RelOf(items)
  }

  lemma UnseenShrinks(h: Store, items: seq<EqSeenPair>, items': seq<EqSeenPair>, x: Addr, y: Addr, tensor: bool)
    requires x in h && y in h && (x, y) !in RelOf(items)
    requires items + [EqSeenPair(x, y, tensor)] <= items'
    ensures Unseen(h, items') < Unseen(h, items)
  {
    RelOfMono(items, items');
    RelOfIn(items', x, y);
    assert items'[|items|] == EqSeenPair(x, y, tensor);
    assert (x, y) in Unseen(h, items) && (x, y) !in Unseen(h, items');
  }

  // ----- the algorithm -----

  /** value_deep_eq_impl */
  method Compare(h: Store, a: Val, b: Val, seen: EqSeenSet) returns (eq: bool)
    requires HeapOk(h) && Pointed(h, a) && Pointed(h, b) && SeenOk(h, seen.items)
    modifies seen
    ensures Grown(h, old(seen.items), seen.items)
    ensures Pointer(a).None? || Pointer(b).None? ==> seen.items == old(seen.items)
    ensures eq ==> Related(RelOf(seen.items), a, b) && Supported(h, seen.items, |old(seen.items)|)
    ensures !eq ==> !Bisimilar(h, a, b)
    decreases Unseen(h, seen.items), 1
  {
    if Pointer(a).None? || Pointer(b).None? {
      ScalarsBisimilar(h, a, b);
      return Related({}, a, b);
    }
    var x, y := Pointer(a).value, Pointer(b).value;
    if a.VTensor? != b.VTensor? {
      ScalarEqOfPointers(h, a, b);
      return false;
    }
    if x == y {
      return true;
    }
    var known := seen.Contains(h, x, y, a.VTensor?);
    if known {
      return true;
    }
    if a.VTensor? {
      eq := CompareTensors(h, x, y, seen);
    } else {
      eq := CompareMaps(h, x, y, seen);
    }
  }

  lemma ScalarEqOfPointers(h: Store, a: Val, b: Val)
    requires Pointer(a).Some? && Pointer(b).Some? && a.VTensor? != b.VTensor?
    ensures !Bisimilar(h, a, b)
  {
  }

  /** What was found for the first i elements survives the growth of the set. */
  lemma ElementsStay(h: Store, items: seq<EqSeenPair>, items': seq<EqSeenPair>, n: nat, xs: seq<Val>, ys: seq<Val>,
      i: nat)
    requires n <= |items| && items <= items' && Supported(h, items, n) && Supported(h, items', |items|)
    requires i <= |xs| && i <= |ys| && forall j | 0 <= j < i :: Related(RelOf(items), xs[j], ys[j])
    ensures Supported(h, items', n)
    ensures forall j | 0 <= j < i :: Related(RelOf(items'), xs[j], ys[j])
  {
    hide Supported, Related, RelOf;
    RelOfMono(items, items');
    SupportedMore(h, items, items', n);
    forall j | 0 <= j < i ensures Related(RelOf(items'), xs[j], ys[j]) {
      RelatedMono(RelOf(items), RelOf(items'), xs[j], ys[j]);
    }
  }

  /** The case VAL_TENSOR, for two different tensors not yet assumed equal. */
  method CompareTensors(h: Store, x: Addr, y: Addr, seen: EqSeenSet) returns (eq: bool)
    requires HeapOk(h) && x in h && y in h && h[x].Tensor? && h[y].Tensor? && x != y
    requires SeenOk(h, seen.items) && (x, y) !in RelOf(seen.items)
    modifies seen
    ensures Grown(h, old(seen.items), seen.items)
    ensures eq ==> (x, y) in RelOf(seen.items) && Supported(h, seen.items, |old(seen.items)|)
    ensures !eq ==> !Bisimilar(h, VTensor(Some(x)), VTensor(Some(y)))
    decreases Unseen(h, seen.items), 0
  {
    hide Bisimilar;
    var s, t := h[x], h[y];
    ghost var start := seen.items;
    seen.Add(x, y, true);
    ghost var begun := seen.items;
    if s.elem != t.elem || s.shape != t.shape || |s.data| != |t.data| {
      ShapesDiffer(h, VTensor(Some(x)), VTensor(Some(y)));
      return false;
    }
    var i := 0;
    while i < |s.data|
      invariant i <= |s.data|
      invariant begun <= seen.items && Supported(h, seen.items, |begun|)
      invariant forall j | 0 <= j < i :: Related(RelOf(seen.items), s.data[j], t.data[j])
    {
      ghost var before := seen.items;
      assert CellOk(h, s) && CellOk(h, t);
      UnseenShrinks(h, start, before, x, y, true);
      var same := Compare(h, s.data[i], t.data[i], seen);
      if !same {
        ElementsBisimilar(h, x, y, i);
        return false;
      }
      ElementsStay(h, before, seen.items, |begun|, s.data, t.data, i);
      i := i + 1;
    }
    RelOfIn(seen.items, x, y);
    assert seen.items[|start|] == EqSeenPair(x, y, true);
    return true;
  }

  /** What was found for the first i entries survives the growth of the set. */
  lemma PartnersStay(h: Store, items: seq<EqSeenPair>, items': seq<EqSeenPair>, n: nat, xs: seq<Item>, ys: seq<Item>,
      i: nat)
    requires n <= |items| && items <= items' && Supported(h, items, n) && Supported(h, items', |items|)
    requires i <= |xs| && forall k | 0 <= k < i :: HasPartner(RelOf(items), xs[k], ys)
    ensures Supported(h, items', n)
    ensures forall k | 0 <= k < i :: HasPartner(RelOf(items'), xs[k], ys)
  {
    hide Supported, HasPartner, RelOf;
    RelOfMono(items, items');
    SupportedMore(h, items, items', n);
    forall k | 0 <= k < i ensures HasPartner(RelOf(items'), xs[k], ys) {
      PartnerMono(RelOf(items), RelOf(items'), xs[k], ys);
    }
  }

  /** The case VAL_MAP: for each entry the first entry of the other map with an equal key. */
  method CompareMaps(h: Store, x: Addr, y: Addr, seen: EqSeenSet) returns (eq: bool)
    requires HeapOk(h) && x in h && y in h && h[x].Map? && h[y].Map? && x != y
    requires SeenOk(h, seen.items) && (x, y) !in RelOf(seen.items)
    modifies seen
    ensures Grown(h, old(seen.items), seen.items)
    ensures eq ==> (x, y) in RelOf(seen.items) && Supported(h, seen.items, |old(seen.items)|)
    ensures !eq ==> !Bisimilar(h, VMap(Some(x)), VMap(Some(y)))
    decreases Unseen(h, seen.items), 0
  {
    var xs, ys := h[x].items, h[y].items;
    assert CellOk(h, h[x]) && CellOk(h, h[y]);
    ghost var start := seen.items;
    seen.Add(x, y, false);
    ghost var begun := seen.items;
    if |xs| != |ys| {
      ShapesDiffer(h, VMap(Some(x)), VMap(Some(y)));
      return false;
    }
    var i := 0;
    while i < |xs|
      invariant i <= |xs|
      invariant begun <= seen.items && Supported(h, seen.items, |begun|)
      invariant forall k | 0 <= k < i :: HasPartner(RelOf(seen.items), xs[k], ys)
    {
      ghost var before := seen.items;
      UnseenShrinks(h, start, before, x, y, false);
      var found := FindPartner(h, xs[i], ys, seen);
      if !found {
        EntriesBisimilar(h, x, y, i);
        return false;
      }
      PartnersStay(h, before, seen.items, |begun|, xs, ys, i);
      i := i + 1;
    }
    RelOfIn(seen.items, x, y);
    assert seen.items[|start|] == EqSeenPair(x, y, false);
    OneSideIsEnough(RelOf(seen.items), xs, ys);
    return true;
  }

  lemma PartnerMono(rel: Rel, rel': Rel, x: Item, ys: seq<Item>)
    requires rel <= rel' && HasPartner(rel, x, ys)
    ensures HasPartner(rel', x, ys)
  {
    var j :| 0 <= j < |ys| && SameItem(rel, x, ys[j]);
    RelatedMono(rel, rel', x.value, ys[j].value);
  }

  /** The inner loop over the other map. */
  method FindPartner(h: Store, x: Item, ys: seq<Item>, seen: EqSeenSet) returns (found: bool)
    requires HeapOk(h) && IsKey(x.key) && Pointed(h, x.value) && CellOk(h, Map(ys)) && SeenOk(h, seen.items)
    modifies seen
    ensures Grown(h, old(seen.items), seen.items)
    ensures found ==> HasPartner(RelOf(seen.items), x, ys) && Supported(h, seen.items, |old(seen.items)|)
    ensures !found ==> forall j | 0 <= j < |ys| :: ScalarEq(x.key, ys[j].key) ==> !Bisimilar(h, x.value, ys[j].value)
    decreases Unseen(h, seen.items), 2
  {
    var j := 0;
    while j < |ys|
      invariant j <= |ys| && seen.items == old(seen.items)
      invariant forall k | 0 <= k < j :: !ScalarEq(x.key, ys[k].key)
    {
      var sameKey := Compare(h, x.key, ys[j].key, seen);
      ScalarsBisimilar(h, x.key, ys[j].key);
      if sameKey {
        found := Compare(h, x.value, ys[j].value, seen);
        OnlyOneKey(x, ys, j);
        assert found ==> SameItem(RelOf(seen.items), x, ys[j]);
        return;
      }
      j := j + 1;
    }
    return false;
  }

  lemma OnlyOneKey(x: Item, ys: seq<Item>, j: nat)
    requires KeysDistinct(ys) && j < |ys| && ScalarEq(x.key, ys[j].key)
    ensures forall k | 0 <= k < |ys| && ScalarEq(x.key, ys[k].key) :: k == j
  {
    forall k | 0 <= k < |ys| && ScalarEq(x.key, ys[k].key) ensures k == j {
      SameKeyRight(ys[k].key, ys[j].key, x.key);
      SameKeyRight(ys[j].key, ys[k].key, x.key);
    }
  }

  /**
   * value_deep_eq: on every heap of tensors and maps, with cycles or without, the result
   * is true exactly when the values are bisimilar, and then the pairs that were assumed
   * equal are a bisimulation that relates them.
   */
  method ValueDeepEq(h: Store, a: Val, b: Val) returns (eq: bool, ghost rel: Rel)
    requires HeapOk(h) && Pointed(h, a) && Pointed(h, b)
    ensures eq <==> Bisimilar(h, a, b)
    ensures eq ==> Bisimulation(h, rel) && Related(rel, a, b)
  {
    var seen := new EqSeenSet();
    eq := Compare(h, a, b, seen);
    rel := RelOf(seen.items);
    if eq {
      SupportedIsBisimulation(h, seen.items);
    }
  }
}
