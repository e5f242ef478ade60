/**
 * Deep equality of values on a heap with cycles (src/builtins.c:5928-6074), and the
 * bisimilarity that it decides.
 */
module DeepEq {
  import opened Heap

  type Rel = set<(Addr, Addr)>

  // ----- bisimilarity -----

  /** Values are related when they are equal scalars, the same container, or related containers. */
  predicate Related(rel: Rel, a: Val, b: Val) {
    match (a, b)
    case (VTensor(None), VTensor(None)) => true
    case (VTensor(Some(x)), VTensor(Some(y))) => x == y || (x, y) in rel
    case (VMap(None), VMap(None)) => true
    case (VMap(Some(x)), VMap(Some(y))) => x == y || (x, y) in rel
    case _ => ScalarEq(a, b)
  }

  /** Two map entries with equal keys and related values. */
  predicate SameItem(rel: Rel, x: Item, y: Item) {
    ScalarEq(x.key, y.key) && Related(rel, x.value, y.value)
  }

  ghost predicate TensorMatch(rel: Rel, xs: seq<Val>, ys: seq<Val>) {
    |xs| == |ys| && forall i | 0 <= i < |xs| :: Related(rel, xs[i], ys[i])
  }

  ghost predicate HasPartner(rel: Rel, x: Item, ys: seq<Item>) {
    exists j :: 0 <= j < |ys| && SameItem(rel, x, ys[j])
  }

  ghost predicate IsPartner(rel: Rel, xs: seq<Item>, y: Item) {
    exists i :: 0 <= i < |xs| && SameItem(rel, xs[i], y)
  }

  ghost predicate MapMatch(rel: Rel, xs: seq<Item>, ys: seq<Item>) {
    && |xs| == |ys|
    && (forall i {:trigger HasPartner(rel, xs[i], ys)} | 0 <= i < |xs| :: HasPartner(rel, xs[i], ys))
    && (forall j {:trigger IsPartner(rel, xs, ys[j])} | 0 <= j < |ys| :: IsPartner(rel, xs, ys[j]))
  }

  /** The two containers agree up to the relation. */
  ghost predicate Match(rel: Rel, c: Cell, d: Cell) {
    match (c, d)
    case (Tensor(e, s, xs), Tensor(f, t, ys)) => e == f && s == t && TensorMatch(rel, xs, ys)
    case (Map(xs), Map(ys)) => MapMatch(rel, xs, ys)
    case _ => false
  }

  ghost predicate Bisimulation(h: Store, rel: Rel) {
    forall x, y :: (x, y) in rel ==> x in h && y in h && Match(rel, h[x], h[y])
  }

  /** Some bisimulation relates the two values. */
  ghost predicate Bisimilar(h: Store, a: Val, b: Val) {
    exists rel :: Bisimulation(h, rel) && Related(rel, a, b)
  }

  lemma RelatedMono(rel: Rel, rel': Rel, a: Val, b: Val)
    requires rel <= rel' && Related(rel, a, b)
    ensures Related(rel', a, b)
  {
  }

  lemma MatchMono(rel: Rel, rel': Rel, c: Cell, d: Cell)
    requires rel <= rel' && Match(rel, c, d)
    ensures Match(rel', c, d)
  {
    hide Related, ScalarEq;
    if c.Tensor? {
      forall i | 0 <= i < |c.data| ensures Related(rel', c.data[i], d.data[i]) {
        RelatedMono(rel, rel', c.data[i], d.data[i]);
      }
    } else {
      MapMono(rel, rel', c.items, d.items);
    }
  }

  lemma MapMono(rel: Rel, rel': Rel, xs: seq<Item>, ys: seq<Item>)
    requires rel <= rel' && MapMatch(rel, xs, ys)
    ensures MapMatch(rel', xs, ys)
  {
    hide Related, ScalarEq;
    forall i, j | 0 <= i < |xs| && 0 <= j < |ys| && SameItem(rel, xs[i], ys[j]) ensures SameItem(rel', xs[i], ys[j]) {
      RelatedMono(rel, rel', xs[i].value, ys[j].value);
    }
    forall i | 0 <= i < |xs| ensures HasPartner(rel', xs[i], ys) {
      assert HasPartner(rel, xs[i], ys);
    }
    forall j | 0 <= j < |ys| ensures IsPartner(rel', xs, ys[j]) {
      assert IsPartner(rel, xs, ys[j]);
    }
  }

  // ----- bisimilarity is symmetric and transitive -----

  function Inverse(rel: Rel): Rel {
    set p | p in rel :: (p.1, p.0)
  }

  lemma InverseIn(rel: Rel, x: Addr, y: Addr)
    ensures (y, x) in Inverse(rel) <==> (x, y) in rel
  {
    if (x, y) in rel {
      assert (x, y).1 == y;
    }
  }

  lemma RelatedBack(rel: Rel, a: Val, b: Val)
    requires Related(rel, a, b)
    ensures Related(Inverse(rel), b, a)
  {
    if Pointer(a).Some? && Pointer(b).Some? {
      InverseIn(rel, Pointer(a).value, Pointer(b).value);
    }
  }

  lemma SameItemBack(rel: Rel, x: Item, y: Item)
    requires SameItem(rel, x, y)
    ensures SameItem(Inverse(rel), y, x)
  {
    RelatedBack(rel, x.value, y.value);
  }

  lemma MapBack(rel: Rel, xs: seq<Item>, ys: seq<Item>)
    requires MapMatch(rel, xs, ys)
    ensures MapMatch(Inverse(rel), ys, xs)
  {
    hide SameItem, Inverse;
    forall i, j | 0 <= i < |xs| && 0 <= j < |ys| && SameItem(rel, xs[i], ys[j])
      ensures SameItem(Inverse(rel), ys[j], xs[i]) {
      SameItemBack(rel, xs[i], ys[j]);
    }
    forall j | 0 <= j < |ys| ensures HasPartner(Inverse(rel), ys[j], xs) {
      assert IsPartner(rel, xs, ys[j]);
    }
    forall i | 0 <= i < |xs| ensures IsPartner(Inverse(rel), ys, xs[i]) {
      assert HasPartner(rel, xs[i], ys);
    }
  }

  lemma MatchBack(rel: Rel, c: Cell, d: Cell)
    requires Match(rel, c, d)
    ensures Match(Inverse(rel), d, c)
  {
    hide Related, MapMatch, Inverse;
    if c.Tensor? {
      forall i | 0 <= i < |c.data| ensures Related(Inverse(rel), d.data[i], c.data[i]) {
        RelatedBack(rel, c.data[i], d.data[i]);
      }
    } else {
      MapBack(rel, c.items, d.items);
    }
  }

  lemma BisimilarSymmetric(h: Store, a: Val, b: Val)
    requires Bisimilar(h, a, b)
    ensures Bisimilar(h, b, a)
  {
    var rel :| Bisimulation(h, rel) && Related(rel, a, b);
    forall y, x | (y, x) in Inverse(rel) ensures y in h && x in h && Match(Inverse(rel), h[y], h[x]) {
      InverseIn(rel, x, y);
      MatchBack(rel, h[x], h[y]);
    }
    RelatedBack(rel, a, b);
  }

  /** Related addresses, or the same one. */
  predicate Linked(rel: Rel, x: Addr, y: Addr) {
    x == y || (x, y) in rel
  }

  /** Composition, up to identity on either side; a container is not paired with itself. */
  ghost function Compose(h: Store, r: Rel, s: Rel): Rel {
    set x, y, z | x in h && y in h && z in h && x != z && Linked(r, x, y) && Linked(s, y, z) :: (x, z)
  }

  lemma RelatedThrough(h: Store, r: Rel, s: Rel, a: Val, b: Val, c: Val)
    requires Related(r, a, b) && Related(s, b, c)
    requires Pointed(h, a) && Pointed(h, b) && Pointed(h, c)
    ensures Related(Compose(h, r, s), a, c)
  {
    if Pointer(a).Some? {
      assert Linked(r, Pointer(a).value, Pointer(b).value) && Linked(s, Pointer(b).value, Pointer(c).value);
      if Pointer(a) != Pointer(c) {
        assert (Pointer(a).value, Pointer(c).value) in Compose(h, r, s);
      }
    }
  }

  lemma ScalarThrough(a: Val, b: Val, c: Val)
    requires ScalarEq(a, b) && ScalarEq(b, c)
    ensures ScalarEq(a, c)
  {
  }

  lemma SameItemThrough(h: Store, r: Rel, s: Rel, x: Item, y: Item, z: Item)
    requires SameItem(r, x, y) && SameItem(s, y, z)
    requires Pointed(h, x.value) && Pointed(h, y.value) && Pointed(h, z.value)
    ensures SameItem(Compose(h, r, s), x, z)
  {
    hide Compose, Related, ScalarEq, Pointed;
    RelatedThrough(h, r, s, x.value, y.value, z.value);
    ScalarThrough(x.key, y.key, z.key);
  }

  lemma MapThrough(h: Store, r: Rel, s: Rel, xs: seq<Item>, ys: seq<Item>, zs: seq<Item>)
    requires MapMatch(r, xs, ys) && MapMatch(s, ys, zs)
    requires CellOk(h, Map(xs)) && CellOk(h, Map(ys)) && CellOk(h, Map(zs))
    ensures MapMatch(Compose(h, r, s), xs, zs)
  {
    hide Compose, SameItem, Pointed, KeysDistinct;
    var t := Compose(h, r, s);
    forall i | 0 <= i < |xs| ensures HasPartner(t, xs[i], zs) {
      assert HasPartner(r, xs[i], ys);
      var j :| 0 <= j < |ys| && SameItem(r, xs[i], ys[j]);
      assert HasPartner(s, ys[j], zs);
      var k :| 0 <= k < |zs| && SameItem(s, ys[j], zs[k]);
      SameItemThrough(h, r, s, xs[i], ys[j], zs[k]);
    }
    forall k | 0 <= k < |zs| ensures IsPartner(t, xs, zs[k]) {
      assert IsPartner(s, ys, zs[k]);
      var j :| 0 <= j < |ys| && SameItem(s, ys[j], zs[k]);
      assert IsPartner(r, xs, ys[j]);
      var i :| 0 <= i < |xs| && SameItem(r, xs[i], ys[j]);
      SameItemThrough(h, r, s, xs[i], ys[j], zs[k]);
    }
  }

  lemma MatchThrough(h: Store, r: Rel, s: Rel, c: Cell, d: Cell, e: Cell)
    requires Match(r, c, d) && Match(s, d, e)
    requires CellOk(h, c) && CellOk(h, d) && CellOk(h, e)
    ensures Match(Compose(h, r, s), c, e)
  {
    hide Compose, Related, MapMatch, KeysDistinct, Pointed;
    if c.Tensor? {
      forall i | 0 <= i < |c.data| ensures Related(Compose(h, r, s), c.data[i], e.data[i]) {
        RelatedThrough(h, r, s, c.data[i], d.data[i], e.data[i]);
      }
    } else {
      MapThrough(h, r, s, c.items, d.items, e.items);
    }
  }

  lemma ComposeBisimulation(h: Store, r: Rel, s: Rel)
    requires HeapOk(h) && Bisimulation(h, r) && Bisimulation(h, s)
    ensures Bisimulation(h, Compose(h, r, s))
  {
    var t := Compose(h, r, s);
    assert r - Same(h) <= t && s - Same(h) <= t by {
      Parts(h, r, s);
    }
    forall x, z | (x, z) in t ensures x in h && z in h && Match(t, h[x], h[z]) {
      var y :| y in h && Linked(r, x, y) && Linked(s, y, z);
      if x == y {
        DropSame(h, s, t, h[x], h[z]);
      } else if y == z {
        DropSame(h, r, t, h[x], h[z]);
      } else {
        MatchThrough(h, r, s, h[x], h[y], h[z]);
      }
    }
  }

  ghost function Same(h: Store): Rel {
    set x | x in h :: (x, x)
  }

  lemma Parts(h: Store, r: Rel, s: Rel)
    requires Bisimulation(h, r) && Bisimulation(h, s)
    ensures r - Same(h) <= Compose(h, r, s) && s - Same(h) <= Compose(h, r, s)
  {
    forall p | p in r - Same(h) ensures p in Compose(h, r, s) {
      assert (p.0, p.1) in r && p.0 in h && p.1 in h && Linked(r, p.0, p.1) && Linked(s, p.1, p.1);
    }
    forall p | p in s - Same(h) ensures p in Compose(h, r, s) {
      assert (p.0, p.1) in s && p.0 in h && p.1 in h && Linked(r, p.0, p.0) && Linked(s, p.0, p.1);
    }
  }

  /** Pairs of a container with itself are not needed. */
  lemma DropSame(h: Store, r: Rel, t: Rel, c: Cell, d: Cell)
    requires Match(r, c, d) && r - Same(h) <= t
    ensures Match(t, c, d)
  {
    if c.Tensor? {
      forall i | 0 <= i < |c.data| ensures Related(t, c.data[i], d.data[i]) {
        RelatedDrop(h, r, t, c.data[i], d.data[i]);
      }
    } else {
      MapDrop(h, r, t, c.items, d.items);
    }
  }

  lemma RelatedDrop(h: Store, r: Rel, t: Rel, a: Val, b: Val)
    requires Related(r, a, b) && r - Same(h) <= t
    ensures Related(t, a, b)
  {
    if Pointer(a).Some? && Pointer(b).Some? && Pointer(a) != Pointer(b) && (Pointer(a).value, Pointer(b).value) in r {
      assert (Pointer(a).value, Pointer(b).value) !in Same(h);
    }
  }

  lemma MapDrop(h: Store, r: Rel, t: Rel, xs: seq<Item>, ys: seq<Item>)
    requires MapMatch(r, xs, ys) && r - Same(h) <= t
    ensures MapMatch(t, xs, ys)
  {
    hide Related, ScalarEq, Same;
    forall i, j | 0 <= i < |xs| && 0 <= j < |ys| && SameItem(r, xs[i], ys[j]) ensures SameItem(t, xs[i], ys[j]) {
      RelatedDrop(h, r, t, xs[i].value, ys[j].value);
    }
    forall i | 0 <= i < |xs| ensures HasPartner(t, xs[i], ys) {
      assert HasPartner(r, xs[i], ys);
    }
    forall j | 0 <= j < |ys| ensures IsPartner(t, xs, ys[j]) {
      assert IsPartner(r, xs, ys[j]);
    }
  }

  lemma BisimilarTransitive(h: Store, a: Val, b: Val, c: Val)
    requires HeapOk(h) && Pointed(h, a) && Pointed(h, b) && Pointed(h, c)
    requires Bisimilar(h, a, b) && Bisimilar(h, b, c)
    ensures Bisimilar(h, a, c)
  {
    var r :| Bisimulation(h, r) && Related(r, a, b);
    var s :| Bisimulation(h, s) && Related(s, b, c);
    ComposeBisimulation(h, r, s);
    RelatedThrough(h, r, s, a, b, c);
  }
}
