/** `calculate_cosine_similarity` (helpers/correlation_engine.py): the dot product of two
    vectors divided by the product of their norms, with a deliberate 0.0 floor when either
    norm is zero. Real square roots are not computable here, so the Euclidean norm
    (`numpy.linalg.norm`) is a parameter `norm`; the properties below need only the zero
    guard and the fact that the dot product commutes. */
module Similarity {

  /** `numpy.dot` of two vectors of equal length. */
  function Dot(a: seq<real>, b: seq<real>): real
    requires |a| == |b|
  {
    if a == [] then 0.0 else a[0] * b[0] + Dot(a[1..], b[1..])
  }

  lemma {:induction false} DotSymmetric(a: seq<real>, b: seq<real>)
    requires |a| == |b|
    ensures Dot(a, b) == Dot(b, a)
  {
    if a != [] {
      DotSymmetric(a[1..], b[1..]);
    }
  }

  /** Cosine similarity. The caller guarantees equal dimensions (numpy raises otherwise). */
  function Cosine(v1: seq<real>, v2: seq<real>, norm: seq<real> -> real): (r: real)
    requires |v1| == |v2|
    ensures norm(v1) == 0.0 || norm(v2) == 0.0 ==> r == 0.0
    ensures norm(v1) != 0.0 && norm(v2) != 0.0 ==> r * (norm(v1) * norm(v2)) == Dot(v1, v2)
  {
    if norm(v1) == 0.0 || norm(v2) == 0.0 then 0.0
    else Dot(v1, v2) / (norm(v1) * norm(v2))
  }

  /** Similarity does not depend on the order of its arguments. */
  lemma CosineSymmetric(v1: seq<real>, v2: seq<real>, norm: seq<real> -> real)
    requires |v1| == |v2|
    ensures Cosine(v1, v2, norm) == Cosine(v2, v1, norm)
  {
    DotSymmetric(v1, v2);
    assert norm(v1) * norm(v2) == norm(v2) * norm(v1);
  }
}
