/** Embedding vectors over exact arithmetic, and the validation every provider result passes
    (app/rag/embeddings.py:445-483). */
module Vectors {
  import opened Common

  type Vector = seq<real>

  function Dot(a: Vector, b: Vector): real
    requires |a| == |b|
  {
    if a == [] then 0.0 else a[0] * b[0] + Dot(a[1..], b[1..])
  }

  /** A norm within 0.05 of one, said of its square. */
  predicate UnitLength(v: Vector) {
    0.9025 <= Dot(v, v) <= 1.1025
  }

  predicate ValidVectors(vs: seq<Vector>, count: nat, dimension: Option<nat>) {
    && |vs| == count
    && (forall i :: 0 <= i < |vs| ==> |vs[i]| > 0 && |vs[i]| == |vs[0]| && UnitLength(vs[i]))
    && (forall i :: 0 <= i < |vs| && dimension.Some? ==> |vs[i]| == dimension.value)
  }
}
