/** Division by a positive divisor that is not a literal. */
module Division {
  function Times(w: int, k: int): int { w * k }

  lemma MulAtLeast(w: int, d: int)
    requires w > 0
    ensures d >= 1 ==> w * d >= w
    ensures d <= -1 ==> w * d <= -w
  {}

  lemma DivisionUnique(a: int, w: int, q: int, r: int)
    requires w > 0 && a == w * q + r && 0 <= r < w
    ensures a / w == q
  {
    MulAtLeast(w, a / w - q);
    assert w * (a / w - q) == r - a % w;
  }

  lemma Regroup(w: int, k: int, p: int, s: int)
    ensures w * (k * p + s) == (w * k) * p + w * s
  {
    assert w * (k * p) == (w * k) * p;
  }

  lemma MulBelow(w: int, s: int, k: int)
    requires w > 0 && 0 <= s <= k - 1
    ensures 0 <= w * s && w * s + w <= w * k
  {
    assert w * k - w * s == w * (k - s);
    MulAtLeast(w, k - s);
  }

  lemma DivDiv(a: int, w: int, k: int)
    requires w > 0 && k > 0
    ensures Times(w, k) > 0 && a / Times(w, k) == a / w / k
  {
    var q, r := a / w, a % w;
    var p, s := q / k, q % k;
    MulBelow(w, s, k);
    Regroup(w, k, p, s);
    DivisionUnique(a, Times(w, k), p, w * s + r);
  }

  /** Quotients of a difference: one less when the remainders borrow. */
  lemma DivDifference(a: int, m: int, w: int)
    requires w > 0
    ensures (a - m) / w == a / w - m / w - if a % w < m % w then 1 else 0
  {
    var q, r := a / w - m / w, a % w - m % w;
    if r >= 0 {
      assert w * q == w * (a / w) - w * (m / w);
      DivisionUnique(a - m, w, q, r);
    } else {
      assert w * (q - 1) == w * (a / w) - w * (m / w) - w;
      DivisionUnique(a - m, w, q - 1, r + w);
    }
  }

  lemma DivMonotone(a: int, b: int, w: int)
    requires w > 0 && a <= b
    ensures a / w <= b / w
  {
    var d := b / w - a / w;
    assert w * d == b - a - b % w + a % w;
    MulAtLeast(w, d);
  }

  /** The later of a cell's start and a time in or before the cell is in it. */
  lemma LaterInCell(lo: int, c: int, w: int)
    requires w > 0 && c >= lo / w
    ensures (if lo > Times(w, c) then lo else Times(w, c)) / w == c
  {
    if lo > Times(w, c) {
      DivMonotone(Times(w, c), lo, w);
    }
    DivisionUnique(Times(w, c), w, c, 0);
  }

  lemma MulMonotone(w: int, a: int, b: int)
    requires w > 0 && a <= b
    ensures Times(w, a) <= Times(w, b)
  {
    if a < b {
      MulAtLeast(w, b - a);
      assert w * (b - a) == w * b - w * a;
    }
  }
}
