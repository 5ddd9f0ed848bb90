/**
 `Math.ceil` on exact reals, and the "least whole number of boxes" reading
 of `Math.ceil(total / perBox)` that the flooring estimate relies on.
 */
module Ceiling {

  /** `Math.ceil(x)`: the least integer not below `x`. */
  function Ceil(x: real): (n: int)
    ensures x <= n as real < x + 1.0
  {
    -((-x).Floor)
  }

  /** `n` boxes of `perBox` each cover `total`, and one box fewer would not. */
  ghost predicate IsLeastCover(n: int, total: real, perBox: real) {
    n as real * perBox >= total && (n - 1) as real * perBox < total
  }

  /** No integer below `x` reaches `Ceil(x)`: it is the least one not below `x`. */
  lemma CeilIsLeast(x: real, m: int)
    requires x <= m as real
    ensures Ceil(x) <= m
  {
  }

  /** Any integer within one unit above `x` is `Ceil(x)`. */
  lemma CeilUnique(x: real, n: int)
    requires x <= n as real < x + 1.0
    ensures n == Ceil(x)
  {
  }

  lemma CeilMonotone(x: real, y: real)
    requires x <= y
    ensures Ceil(x) <= Ceil(y)
  {
  }

  /** Scaling by a positive factor keeps the order of reals. */
  lemma ScaleMonotone(a: real, b: real, k: real)
    requires k > 0.0
    ensures a <= b <==> a * k <= b * k
  {
  }

  /** `Math.ceil(total / perBox)` boxes cover `total` with less than one box to spare. */
  lemma CeilDivIsLeastCover(total: real, perBox: real)
    requires perBox > 0.0
    ensures IsLeastCover(Ceil(total / perBox), total, perBox)
  {
    var q := total / perBox;
    var n := Ceil(q);
    assert q * perBox == total;
    ScaleMonotone(q, n as real, perBox);
    ScaleMonotone(q, (n - 1) as real, perBox);
  }

  /** A least cover is below every cover. */
  lemma LeastCoverIsMinimal(n: int, m: int, total: real, perBox: real)
    requires perBox > 0.0
    requires IsLeastCover(n, total, perBox)
    requires m as real * perBox >= total
    ensures n <= m
  {
    if m < n {
      ScaleMonotone(m as real, (n - 1) as real, perBox);
    }
  }

  /** There is only one least cover, and it is `Math.ceil(total / perBox)`. */
  lemma LeastCoverIsCeilDiv(n: int, total: real, perBox: real)
    requires perBox > 0.0
    requires IsLeastCover(n, total, perBox)
    ensures n == Ceil(total / perBox)
  {
    var c := Ceil(total / perBox);
    CeilDivIsLeastCover(total, perBox);
    LeastCoverIsMinimal(n, c, total, perBox);
    LeastCoverIsMinimal(c, n, total, perBox);
  }
}
