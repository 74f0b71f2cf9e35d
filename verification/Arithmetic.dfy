/** Non-linear facts, each proved once. */
module Arithmetic {

  lemma MulMono(a: nat, b: nat, c: nat)
    requires a <= b
    ensures a * c <= b * c
  {
    assert b * c == a * c + (b - a) * c;
  }

  lemma DivBounds(a: nat, b: nat)
    requires b > 0
    ensures (a / b) * b <= a < (a / b) * b + b
  {
  }

  /** A number lies in one block of length `w` only. */
  lemma SameBlock(d: nat, y: nat, w: nat, x: nat)
    requires x < w && d * w <= y * w + x < d * w + w
    ensures d == y
  {
    if d < y {
      MulMono(d + 1, y, w);
    } else if y < d {
      MulMono(y + 1, d, w);
    }
  }

  lemma DivModUnique(w: nat, y: nat, x: nat)
    requires x < w
    ensures (y * w + x) / w == y && (y * w + x) % w == x
  {
    DivBounds(y * w + x, w);
    SameBlock((y * w + x) / w, y, w, x);
  }

  /** Dividing keeps a product bound. */
  lemma DivBelow(k: nat, h: nat, w: nat)
    requires w > 0 && k < h * w
    ensures k / w < h
  {
    DivBounds(k, w);
    if h <= k / w {
      MulMono(h, k / w, w);
    }
  }

  lemma RealQuotient(s: real, c: real, top: real)
    requires c > 0.0 && 0.0 <= s <= top * c
    ensures c * (s / c) == s && 0.0 <= s / c <= top
  {
    var q := s / c;
    assert q * c == s;
    RealCancel(0.0, q, c);
    RealCancel(q, top, c);
  }

  lemma RealCancel(a: real, b: real, c: real)
    requires c > 0.0 && a * c <= b * c
    ensures a <= b
  {
    assert (b - a) * c >= 0.0;
  }
}
