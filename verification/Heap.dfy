/** Values that may contain themselves: tensors and maps are cells of a heap (src/value.h:30-73). */
module Heap {
  import opened Common

  type Addr = nat

  datatype Float = Num(r: real) | PosInf | NegInf | NaN

  datatype Val =
    | VNull
    | VBool(b: bool)
    | VInt(i: int)
    | VFloat(f: Float)
    | VStr(s: Option<string>)
    | VFunc(fn: nat)
    | VThread(th: nat)
    | VTensor(t: Option<Addr>)
    | VMap(m: Option<Addr>)

  datatype Item = Item(key: Val, value: Val)

  datatype Cell =
    | Tensor(elem: nat, shape: seq<nat>, data: seq<Val>)
    | Map(items: seq<Item>)

  type Store = map<Addr, Cell>

  /** The comparisons of value_deep_eq_impl that do not look into a container. */
  predicate ScalarEq(a: Val, b: Val) {
    match a
    case VBool(_) => a == b
    case VInt(_) => a == b
    case VFloat(f) => a == b && f != NaN
    case VStr(_) => a == b
    case VFunc(_) => a == b
    case VThread(_) => a == b
    case _ => false
  }

  /** map_key_equals (src/value.c:461) accepts ints, floats and strings as keys. */
  predicate IsKey(v: Val) {
    v.VInt? || v.VFloat? || v.VStr?
  }

  predicate Pointed(h: Store, v: Val) {
    && (v.VTensor? && v.t.Some? ==> v.t.value in h && h[v.t.value].Tensor?)
    && (v.VMap? && v.m.Some? ==> v.m.value in h && h[v.m.value].Map?)
  }

  predicate KeysDistinct(items: seq<Item>) {
    && (forall i | 0 <= i < |items| :: IsKey(items[i].key))
    && (forall i, j | 0 <= i < j < |items| :: !ScalarEq(items[i].key, items[j].key))
  }

  predicate CellOk(h: Store, c: Cell) {
    match c
    case Tensor(_, _, data) => forall i | 0 <= i < |data| :: Pointed(h, data[i])
    case Map(items) => KeysDistinct(items) && forall i | 0 <= i < |items| :: Pointed(h, items[i].value)
  }

  /** Pointers lead to cells of their kind, and the keys of a map are distinct. */
  ghost predicate HeapOk(h: Store) {
    forall p :: p in h ==> CellOk(h, h[p])
  }

  /** The container a value points to. */
  function Pointer(v: Val): Option<Addr> {
    match v
    case VTensor(t) => t
    case VMap(m) => m
    case _ => None
  }
}
