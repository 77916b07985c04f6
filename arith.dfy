/** Division and multiplication facts for a divisor that is not a literal.
    The bundle width is a platform constant that the model leaves unknown,
    so every `p / W`, `p % W` and `k * W` is non-linear for the solver; these
    helpers give it the few facts the lane arithmetic needs. */
module Arith {

  lemma MulNonneg(a: int, b: int)
    requires a >= 0 && b >= 0
    ensures a * b >= 0
  {
  }

  lemma MulSub(a: int, b: int, w: int)
    ensures (a - b) * w == a * w - b * w
  {
  }

  /** One more unit of a range `[a, b)` adds one more `w`. */
  lemma MulStep(w: int, a: int, b: int)
    ensures w * (b - a) == w * (b - 1 - a) + w
  {
  }

  lemma MulAdd(a: int, b: int, w: int)
    ensures (a + b) * w == a * w + b * w
  {
  }

  /** The quotient and remainder of Euclidean division are unique. */
  lemma DivModUnique(x: int, w: int, q: int, r: int)
    requires w > 0 && 0 <= r < w && x == q * w + r
    ensures x / w == q && x % w == r
  {
    var q', r' := x / w, x % w;
    var d := q - q';
    MulSub(q, q', w);
    assert d * w == r' - r;
    if d >= 1 {
      MulNonneg(d - 1, w);
      MulSub(d, 1, w);
      assert false;
    } else if d <= -1 {
      MulNonneg(-d - 1, w);
      MulSub(-d, 1, w);
      MulSub(0, d, w);
      assert false;
    }
  }

  /** Multiplying by a positive number preserves and reflects `<=`. */
  lemma MulLeIff(a: int, b: int, w: int)
    requires w > 0
    ensures a <= b <==> a * w <= b * w
  {
    if a <= b {
      MulNonneg(b - a, w);
      MulSub(b, a, w);
    } else {
      MulNonneg(a - b - 1, w);
      MulSub(a - b, 1, w);
      MulSub(a, b, w);
    }
  }

  /** `q * w + r` with `r < w` lies below `(q + 1) * w`, hence below `n * w` for any `n > q`. */
  lemma SlotBelow(q: int, r: int, n: int, w: int)
    requires w > 0 && 0 <= r < w && q < n
    ensures q * w + r < n * w
  {
    MulLeIff(q + 1, n, w);
    MulAdd(q, 1, w);
  }

  /** Multiplying by a non-negative number preserves `<=`. */
  lemma MulMono(w: int, a: int, b: int)
    requires w >= 0 && a <= b
    ensures w * a <= w * b
  {
    MulNonneg(w, b - a);
    MulSub(b, a, w);
  }

  lemma MulDouble(a: int, b: int)
    ensures a * (2 * b) == 2 * (a * b)
  {
  }

  /** Euclidean division of a natural number by a positive one. */
  lemma DivModBounds(x: int, w: int)
    requires w > 0 && x >= 0
    ensures x == x / w * w + x % w && 0 <= x % w < w && x / w >= 0
    ensures x / w * w <= x
  {
  }
}
