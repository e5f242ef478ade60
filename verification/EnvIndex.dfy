/**
 * One environment's table and its open-addressing index (src/env.c:22-93, 239-250, 328-355).
 *
 * A slot holds a pointer into the block of entries: the block itself and a place in it.
 * Growing the block allocates a new one, after which the old pointers are stale.
 */
module EnvIndex {
  import opened Common
  import opened EnvModel

  datatype Slot = Empty | To(block: array<Entry>, index: nat)

  // ----- the hash -----

  /** Exclusive or of the low `bits` bits of two numbers. */
  function Xor(a: nat, b: nat, bits: nat): nat {
    if bits == 0 then 0
    else (if a % 2 == b % 2 then 0 else 1) + 2 * Xor(a / 2, b / 2, bits - 1)
  }

  /** env_hash_name on 64-bit size_t, over the bytes of the name. */
  function HashName(name: Name): nat {
    if name == "" then 5381
    else
      var h := HashName(name[..|name| - 1]) * 33 % 0x1_0000_0000_0000_0000;
      var c := name[|name| - 1] as nat % 256;
      h - h % 256 + Xor(h % 256, c, 8)
  }

  // ----- probe paths -----

  /** The slot tried after d steps. With a capacity that is a power of two, `& mask` is `% cap`. */
  function Pos(h: nat, d: nat, cap: nat): (p: nat)
    requires cap > 0
    ensures p < cap
  {
    (h + d) % cap
  }

  lemma NextPos(h: nat, d: nat, cap: nat)
    requires cap > 0
    ensures (Pos(h, d, cap) + 1) % cap == Pos(h, d + 1, cap)
  {
    var q, p := (h + d) / cap, Pos(h, d, cap);
    assert h + d == q * cap + p;
    if p + 1 < cap {
      ModUnique(h + d + 1, cap, q, p + 1);
      ModUnique(p + 1, cap, 0, p + 1);
    } else {
      NextMultiple(q, cap);
      ModUnique(h + d + 1, cap, q + 1, 0);
      ModUnique(cap, cap, 1, 0);
    }
  }

  lemma NextMultiple(q: nat, cap: nat)
    ensures (q + 1) * cap == q * cap + cap
  {
  }

  lemma Multiple(k: int, cap: nat)
    requires cap > 0
    ensures k >= 1 ==> k * cap >= cap
    ensures k <= -1 ==> k * cap + cap <= 0
  {
    if k >= 1 {
      assert k * cap == (k - 1) * cap + cap;
    } else if k <= -1 {
      assert k * cap == (k + 1) * cap - cap;
    }
  }

  /** Quotient and remainder are unique. */
  lemma ModUnique(x: int, cap: nat, q: int, r: int)
    requires cap > 0 && x == q * cap + r && 0 <= r < cap
    ensures x / cap == q && x % cap == r
  {
    var k := x / cap - q;
    assert x == (x / cap) * cap + x % cap;
    assert k * cap == (x / cap) * cap - q * cap;
    Multiple(k, cap);
  }

  /** Every slot lies on every probe path. */
  lemma PathReaches(h: nat, p: nat, cap: nat) returns (d: nat)
    requires p < cap
    ensures d < cap && Pos(h, d, cap) == p
  {
    var r := h % cap;
    d := if p >= r then p - r else p + cap - r;
    var q := h / cap;
    assert h == q * cap + r;
    if p >= r {
      ModUnique(h + d, cap, q, p);
    } else {
      assert (q + 1) * cap == q * cap + cap;
      ModUnique(h + d, cap, q + 1, p);
    }
  }

  // ----- the table -----

  /** How many slots are taken. */
  function Occupied(slots: seq<Slot>): nat {
    if slots == [] then 0
    else Occupied(slots[..|slots| - 1]) + if slots[|slots| - 1] == Empty then 0 else 1
  }

  lemma {:induction false} OccupiedSet(slots: seq<Slot>, p: nat, x: Slot)
    requires p < |slots| && slots[p] == Empty && x != Empty
    ensures Occupied(slots[p := x]) == Occupied(slots) + 1
  {
    var n := |slots| - 1;
    if p < n {
      OccupiedSet(slots[..n], p, x);
      assert slots[p := x][..n] == slots[..n][p := x];
    } else {
      assert slots[p := x][..n] == slots[..n];
    }
  }

  lemma {:induction false} SomeEmpty(slots: seq<Slot>)
    requires Occupied(slots) < |slots|
    ensures exists p :: 0 <= p < |slots| && slots[p] == Empty
  {
    var n := |slots| - 1;
    if slots[n] != Empty {
      SomeEmpty(slots[..n]);
      var p :| 0 <= p < n && slots[..n][p] == Empty;
      assert slots[p] == Empty;
    }
  }

  lemma {:induction false} NoneOccupied(slots: seq<Slot>)
    requires forall p | 0 <= p < |slots| :: slots[p] == Empty
    ensures Occupied(slots) == 0
  {
    if slots != [] {
      NoneOccupied(slots[..|slots| - 1]);
    }
  }

  predicate PowerOfTwo(n: nat) {
    n == 1 || (n > 1 && n % 2 == 0 && PowerOfTwo(n / 2))
  }

  /** Slot x is met on the path of hash h before any gap. */
  ghost predicate OnPath(slots: seq<Slot>, h: nat, x: Slot)
    requires |slots| > 0
  {
    exists d: nat :: d < |slots| && slots[Pos(h, d, |slots|)] == x && NoGap(slots, h, d)
  }

  ghost predicate NoGap(slots: seq<Slot>, h: nat, d: nat)
    requires |slots| > 0
  {
    forall i: nat :: i < d ==> slots[Pos(h, i, |slots|)] != Empty
  }

  /** A table that is not full has a gap on every path. */
  lemma GapOnPath(slots: seq<Slot>, h: nat) returns (d: nat)
    requires Occupied(slots) < |slots|
    ensures d < |slots| && slots[Pos(h, d, |slots|)] == Empty
  {
    SomeEmpty(slots);
    var p :| 0 <= p < |slots| && slots[p] == Empty;
    d := PathReaches(h, p, |slots|);
  }

  lemma Doubled(n: nat)
    ensures PowerOfTwo(8)
    ensures PowerOfTwo(n) ==> PowerOfTwo(n * 2)
  {
    assert PowerOfTwo(2) && PowerOfTwo(4);
  }

  /** Filling a gap disturbs no path. */
  lemma FillKeepsPath(slots: seq<Slot>, h: nat, x: Slot, p: nat, y: Slot)
    requires p < |slots| && slots[p] == Empty && x != Empty && y != Empty
    requires OnPath(slots, h, x)
    ensures OnPath(slots[p := y], h, x)
  {
    var d: nat :| d < |slots| && slots[Pos(h, d, |slots|)] == x && NoGap(slots, h, d);
    assert NoGap(slots[p := y], h, d);
  }

  /** All slots point into the block, below n, and the first k entries are found on their paths. */
  ghost predicate Indexed(slots: seq<Slot>, block: array<Entry>, es: seq<Entry>, k: nat)
    requires k <= |es|
  {
    && (forall p | 0 <= p < |slots| :: slots[p] != Empty ==> slots[p].block == block && slots[p].index < |es|)
    && (k > 0 ==> |slots| > 0)
    && (forall i | 0 <= i < k :: OnPath(slots, HashName(es[i].name), To(block, i)))
  }

  /** The name is in none of the slots before the d-th on the path. */
  ghost predicate Unmet(slots: seq<Slot>, es: seq<Entry>, name: Name, h: nat, d: nat)
    requires |slots| > 0
  {
    forall i: nat :: i < d ==>
      var x := slots[Pos(h, i, |slots|)];
      x != Empty && x.index < |es| ==> es[x.index].name != name
  }

  /** Storing entry k into the first gap on its path indexes it as well. */
  lemma Placed(slots: seq<Slot>, block: array<Entry>, es: seq<Entry>, k: nat, d: nat)
    requires k < |es| && Indexed(slots, block, es, k) && d < |slots|
    requires NoGap(slots, HashName(es[k].name), d) && slots[Pos(HashName(es[k].name), d, |slots|)] == Empty
    ensures
      var p := Pos(HashName(es[k].name), d, |slots|);
      && Indexed(slots[p := To(block, k)], block, es, k + 1)
      && Occupied(slots[p := To(block, k)]) == Occupied(slots) + 1
  {
    var h := HashName(es[k].name);
    var p := Pos(h, d, |slots|);
    var after := slots[p := To(block, k)];
    OccupiedSet(slots, p, To(block, k));
    forall i | 0 <= i < k ensures OnPath(after, HashName(es[i].name), To(block, i)) {
      assert OnPath(slots, HashName(es[i].name), To(block, i));
      FillKeepsPath(slots, HashName(es[i].name), To(block, i), p, To(block, k));
    }
    assert NoGap(after, h, d) && after[Pos(h, d, |after|)] == To(block, k);
  }

  /**
   * The exact sizes.  The sixth definition finds the load limit of the first table
   * reached; the rebuild it sets off places the new entry, and it is then placed once
   * more.  So with six to eight entries one slot is taken twice over, until growing the
   * block rebuilds the table; otherwise every entry has one slot.
   */
  ghost predicate SizesOk(count: nat, capacity: nat, table: nat, used: nat) {
    || (capacity == 0 && table == 0 && count == 0 && used == 0)
    || (capacity == 8 && count < 6 && table == 8 && used == count)
    || (capacity == 8 && 6 <= count <= 8 && table == 16 && used == count + 1)
    || (capacity >= 16 && 8 <= count <= capacity && table == 2 * capacity && used == count)
  }

  class Env {
    var entries: array<Entry>
    var count: nat
    var slots: array<Slot>
    var used: nat

    /** The environment's entries, in the order in which they were defined. */
    function Contents(): (es: seq<Entry>)
      requires count <= entries.Length
      reads this, entries
    {
      entries[..count]
    }

    /**
     * The index: no table or a power of two of at least 8 slots, at most seven tenths of
     * them taken, all pointing into the current block, and every entry found on its
     * probe path without a gap.
     */
    ghost predicate Valid()
      reads this, entries, slots
    {
      && count <= entries.Length
      && NamesDiffer(Contents())
      && (slots.Length == 0 || (slots.Length >= 8 && PowerOfTwo(slots.Length)))
      && used == Occupied(slots[..]) <= slots.Length * 7 / 10
      && SizesOk(count, entries.Length, slots.Length, used)
      && Indexed(slots[..], entries, Contents(), count)
    }

    constructor ()
      ensures Valid() && Contents() == []
      ensures fresh(entries) && fresh(slots)
    {
      entries := new Entry[0];
      slots := new Slot[0];
      count, used := 0, 0;
    }

    /** The probe loop that looks for a free slot, and the store into it. */
    method Place(k: nat)
      requires k < count <= entries.Length
      requires Occupied(slots[..]) == used < slots.Length
      requires Indexed(slots[..], entries, Contents(), k)
      modifies this`used, slots
      ensures Occupied(slots[..]) == used == old(used) + 1
      ensures Indexed(slots[..], entries, Contents(), k + 1)
    {
      ghost var before, es := slots[..], Contents();
      var h := HashName(entries[k].name);
      var idx := h % slots.Length;
      ghost var last := GapOnPath(before, h);
      ghost var d: nat := 0;
      while slots[idx] != Empty
        invariant slots[..] == before && used == old(used)
        invariant idx == Pos(h, d, |before|) && d <= last
        invariant NoGap(before, h, d)
        decreases last - d
      {
        NextPos(h, d, |before|);
        idx := (idx + 1) % slots.Length;
        d := d + 1;
      }
      slots[idx] := To(entries, k);
      used := used + 1;
      assert slots[..] == before[idx := To(entries, k)];
      Placed(before, entries, es, k, d);
    }

    /** env_ht_rebuild */
    method Rebuild()
      requires count <= entries.Length
      requires count < if slots.Length == 0 then 8 else slots.Length * 2
      modifies this`used, this`slots
      ensures fresh(slots)
      ensures slots.Length == if old(slots.Length) == 0 then 8 else old(slots.Length) * 2
      ensures used == Occupied(slots[..]) == count
      ensures Indexed(slots[..], entries, Contents(), count)
    {
      var cap := if slots.Length == 0 then 8 else slots.Length * 2;
      slots := new Slot[cap](_ => Empty);
      used := 0;
      NoneOccupied(slots[..]);
      var i := 0;
      while i < count
        invariant i <= count
        invariant fresh(slots) && slots.Length == cap
        invariant used == Occupied(slots[..]) == i
        invariant Indexed(slots[..], entries, Contents(), i)
      {
        Place(i);
        i := i + 1;
      }
    }

    /**
     * env_ht_insert of the entry just counted.  When the load limit is reached the
     * rebuild has already placed it, and it is placed once more.
     */
    method Insert()
      requires 0 < count <= entries.Length
      requires slots.Length >= 8 && used == Occupied(slots[..]) <= slots.Length * 7 / 10
      requires count <= slots.Length
      requires Indexed(slots[..], entries, Contents(), count - 1)
      modifies this`used, this`slots, slots
      ensures slots == old(slots) || fresh(slots)
      ensures if old(used) + 1 > old(slots.Length) * 7 / 10
              then slots.Length == old(slots.Length) * 2 && used == count + 1
              else slots.Length == old(slots.Length) && used == old(used) + 1
      ensures used == Occupied(slots[..])
      ensures Indexed(slots[..], entries, Contents(), count)
    {
      if used + 1 > slots.Length * 7 / 10 {
        Rebuild();
        WholeIndexed(slots[..], entries, Contents(), count - 1);
      }
      Place(count - 1);
    }

    /** env_ht_find: finds exactly what the linear scan finds. */
    method Find(name: Name) returns (r: Option<nat>)
      requires Valid()
      ensures r == FindLocal(Contents(), name)
    {
      hide NamesDiffer, PowerOfTwo, Occupied, SizesOk;
      if slots.Length == 0 {
        return None;
      }
      ghost var table, es := slots[..], Contents();
      var h := HashName(name);
      var idx := h % slots.Length;
      ghost var last := GapOnPath(table, h);
      ghost var d: nat := 0;
      while slots[idx] != Empty
        invariant idx == Pos(h, d, |table|) && d <= last
        invariant NoGap(table, h, d)
        invariant Unmet(table, es, name, h, d)
        decreases last - d
      {
        assert table[idx].block == entries && table[idx].index < |es|;
        if slots[idx].block[slots[idx].index].name == name {
          UniqueName(es, slots[idx].index);
          return Some(slots[idx].index);
        }
        NextPos(h, d, |table|);
        idx := (idx + 1) % slots.Length;
        d := d + 1;
      }
      NotOnPath(table, entries, es, name, d);
      return None;
    }

    /** env_find_local: the index first, the linear scan if it has nothing. */
    method FindEntry(name: Name) returns (r: Option<nat>)
      requires Valid()
      ensures r == FindLocal(Contents(), name)
    {
      hide NamesDiffer, Indexed, PowerOfTwo, Occupied, SizesOk;
      r := Find(name);
      if r.Some? {
        return;
      }
      var i := 0;
      while i < count
        invariant i <= count
        invariant forall j | 0 <= j < i :: Contents()[j].name != name
      {
        if entries[i].name == name {
          assert false;  // the scan never finds what the index has missed
        }
        i := i + 1;
      }
    }

    /** env_define_direct */
    method Define(name: Name, t: DeclType, base: int, schema: Value) returns (ok: bool)
      requires Valid()
      modifies this, entries, slots
      ensures Valid()
      ensures ok == FindLocal(old(Contents()), name).None?
      ensures Contents() == if ok then old(Contents()) + [NewEntry(name, t, base, schema)] else old(Contents())
      ensures (entries == old(entries) || fresh(entries)) && (slots == old(slots) || fresh(slots))
      ensures entries != old(entries) <==> ok && old(count) == old(entries.Length)
    {
      hide NamesDiffer, Indexed, PowerOfTwo, Occupied, FindLocal;
      var found := FindEntry(name);
      if found.Some? {
        return false;
      }
      if count + 1 > entries.Length {
        Grow();
      }
      Append(NewEntry(name, t, base, schema));
      return true;
    }

    /**
     * The end of set_alias where the chain of the target ends in this very environment: a
     * pointer to its end is held while the name is defined.  It is left pointing into the
     * old block exactly if the name is new, may be declared, and the block is full.
     */
    method DefineHolding(name: Name, t: DeclType, base: int, declare: bool, end: nat) returns (ok: bool, held: Slot)
      requires Valid() && end < count
      modifies this, entries, slots
      ensures Valid() && held == To(old(entries), end)
      ensures ok == (declare || FindLocal(old(Contents()), name).Some?)
      ensures held.block != entries <==>
              FindLocal(old(Contents()), name).None? && declare && old(count) == old(entries.Length)
      ensures held.block == entries ==> end < count && entries[end] == old(entries[end])
      ensures Contents() == if FindLocal(old(Contents()), name).None? && declare
                            then old(Contents()) + [NewEntry(name, t, base, Null)] else old(Contents())
    {
      held := To(entries, end);
      var found := FindEntry(name);
      ok := true;
      if found.None? {
        if !declare {
          return false, held;
        }
        ghost var es := Contents();
        var defined := Define(name, t, base, Null);
        assert Contents()[end] == es[end];
      }
    }

    /** The new entry is counted first and put into the index then. */
    method Append(x: Entry)
      requires count < entries.Length && NamesDiffer(Contents()) && FindLocal(Contents(), x.name).None?
      requires slots.Length >= 8 && PowerOfTwo(slots.Length)
      requires used == Occupied(slots[..]) <= slots.Length * 7 / 10
      requires SizesOk(count, entries.Length, slots.Length, used)
      requires Indexed(slots[..], entries, Contents(), count)
      modifies this`count, this`used, this`slots, entries, slots
      ensures Valid() && Contents() == old(Contents()) + [x]
      ensures slots == old(slots) || fresh(slots)
    {
      hide NamesDiffer, Indexed, PowerOfTwo, Occupied, FindLocal;
      ghost var es := Contents();
      Doubled(slots.Length);
      NewName(es, x);
      entries[count] := x;
      count := count + 1;
      assert Contents() == es + [x];
      SameIndex(slots[..], entries, es, es + [x]);
      Insert();
      assert Contents() == es + [x];
    }

    /** realloc to a new block, and the rebuild of the index that is stale after it. */
    method Grow()
      requires Valid() && count == entries.Length
      modifies this`entries, this`slots, this`used
      ensures count < entries.Length && Contents() == old(Contents())
      ensures fresh(entries) && fresh(slots)
      ensures slots.Length >= 8 && PowerOfTwo(slots.Length)
      ensures entries.Length == if count == 0 then 8 else 2 * count
      ensures slots.Length == if count == 0 then 8 else 4 * count
      ensures used == Occupied(slots[..]) == count
      ensures Indexed(slots[..], entries, Contents(), count)
    {
      hide NamesDiffer, Indexed, PowerOfTwo;
      var block := entries;
      var cap := if block.Length == 0 then 8 else block.Length * 2;
      var grown := new Entry[cap](_ => NewEntry("", TUnknown, 0, Null));
      var i := 0;
      while i < count
        invariant i <= count
        invariant entries == block && slots == old(slots) && used == old(used)
        invariant grown[..i] == block[..i]
        modifies grown
      {
        grown[i] := block[i];
        i := i + 1;
      }
      entries := grown;
      Doubled(slots.Length);
      Rebuild();
    }

    /** Writing the fields of an entry in place. */
    method Update(i: nat, x: Entry)
      requires Valid() && i < count && x.name == entries[i].name
      modifies entries
      ensures Valid() && Contents() == old(Contents())[i := x]
    {
      ghost var es := Contents();
      entries[i] := x;
      assert Contents() == es[i := x];
      SameIndex(slots[..], entries, es, Contents());
    }
  }

  // ----- about lists of entries -----

  ghost predicate NamesDiffer(es: seq<Entry>) {
    forall i, j | 0 <= i < j < |es| :: es[i].name != es[j].name
  }

  lemma NewName(es: seq<Entry>, x: Entry)
    requires NamesDiffer(es) && FindLocal(es, x.name).None?
    ensures NamesDiffer(es + [x])
  {
  }

  lemma UniqueName(es: seq<Entry>, i: nat)
    requires NamesDiffer(es) && i < |es|
    ensures FindLocal(es, es[i].name) == Some(i)
  {
  }

  /** The index of some entries is an index of any entries with the same names, and more behind them. */
  lemma SameIndex(slots: seq<Slot>, block: array<Entry>, es: seq<Entry>, es': seq<Entry>)
    requires Indexed(slots, block, es, |es|)
    requires |es| <= |es'| && forall i | 0 <= i < |es| :: es'[i].name == es[i].name
    ensures Indexed(slots, block, es', |es|)
  {
  }

  lemma WholeIndexed(slots: seq<Slot>, block: array<Entry>, es: seq<Entry>, k: nat)
    requires Indexed(slots, block, es, |es|) && k <= |es|
    ensures Indexed(slots, block, es, k)
  {
  }

  /** A probe that ends at a gap without meeting the name has proved that no entry has it. */
  lemma NotOnPath(slots: seq<Slot>, block: array<Entry>, es: seq<Entry>, name: Name, d: nat)
    requires |slots| > 0 && Indexed(slots, block, es, |es|)
    requires NoGap(slots, HashName(name), d) && slots[Pos(HashName(name), d, |slots|)] == Empty
    requires Unmet(slots, es, name, HashName(name), d)
    ensures FindLocal(es, name).None?
  {
    hide Indexed, NoGap, Unmet, Pos;
    if FindLocal(es, name).Some? {
      AbsentAt(slots, block, es, name, d, FindLocal(es, name).value);
    }
  }

  lemma AbsentAt(slots: seq<Slot>, block: array<Entry>, es: seq<Entry>, name: Name, d: nat, k: nat)
    requires |slots| > 0 && Indexed(slots, block, es, |es|) && k < |es|
    requires NoGap(slots, HashName(name), d) && slots[Pos(HashName(name), d, |slots|)] == Empty
    requires Unmet(slots, es, name, HashName(name), d)
    ensures es[k].name != name
  {
    hide HashName, Pos;
    var h := HashName(es[k].name);
    assert OnPath(slots, h, To(block, k));
    var e: nat :| e < |slots| && slots[Pos(h, e, |slots|)] == To(block, k) && NoGap(slots, h, e);
    if es[k].name == name {
      MeetsBefore(slots, h, e, d);
    }
  }

  lemma MeetsBefore(slots: seq<Slot>, h: nat, e: nat, d: nat)
    requires |slots| > 0 && NoGap(slots, h, e) && slots[Pos(h, d, |slots|)] == Empty
    ensures e <= d
  {
  }
}
