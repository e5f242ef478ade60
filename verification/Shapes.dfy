/** The sizes of tensors. */
module Shapes {
  /** The number of elements of a shape. */
  function Product(shape: seq<nat>): nat {
    if shape == [] then 1 else shape[0] * Product(shape[1..])
  }

  predicate NoZero(shape: seq<nat>) {
    forall d | 0 <= d < |shape| :: shape[d] > 0
  }

  lemma PositiveFactors(a: nat, b: nat)
    ensures a * b > 0 <==> a > 0 && b > 0
  {
  }

  /** A shape has elements exactly when none of its dimensions is zero. */
  lemma {:induction false} NonEmptyShape(shape: seq<nat>)
    ensures Product(shape) > 0 <==> NoZero(shape)
  {
    if shape != [] {
      PositiveFactors(shape[0], Product(shape[1..]));
      NonEmptyShape(shape[1..]);
      assert NoZero(shape) <==> shape[0] > 0 && NoZero(shape[1..]) by {
        assert forall d | 0 < d < |shape| :: shape[d] == shape[1..][d - 1];
      }
    }
  }
}
