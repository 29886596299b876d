/** Numbers and texts, whatever they stand for. */
module Basics {
  function Max(a: int, b: int): (m: int)
    ensures m >= a && m >= b && m in {a, b}
  {
    if a >= b then a else b
  }

  function Min(a: int, b: int): (m: int)
    ensures m <= a && m <= b && m in {a, b}
  {
    if a <= b then a else b
  }

  lemma PositiveProduct(x: real, y: real)
    requires x > 0.0 && y > 0.0
    ensures x * y > 0.0
  {
  }

  /** Scaling keeps order: by how much the larger of two numbers exceeds the other. */
  lemma ScalingGap(w: real, x: real, y: real) returns (gap: real)
    requires w >= 0.0 && x <= y
    ensures w * y == w * x + gap && gap >= 0.0
    ensures w > 0.0 && x < y ==> gap > 0.0
  {
    gap := if w > 0.0 && x < y then w * (y - x) else 0.0;
    if w > 0.0 && x < y {
      PositiveProduct(w, y - x);
      assert w * (y - x) == w * y - w * x;
    } else {
      assert w == 0.0 || x == y;
    }
  }

  lemma QuotientGrows(x: real, y: real, d: real)
    requires d > 0.0 && x <= y
    ensures x / d <= y / d
    ensures x < y ==> x / d < y / d
  {
  }

  lemma Associate(a: string, b: string, c: string)
    ensures a + b + c == a + (b + c)
  {
  }

  lemma Regroup(a: string, b: string, c: string, d: string)
    ensures a + b + c + d == a + (b + c + d)
  {
    Associate(a, b, c);
    Associate(a, b + c, d);
  }
}
