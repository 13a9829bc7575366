/** The few facts about division and multiples that the rate limiters rest on. */
module Division {

  lemma {:induction false} MulAtLeast(d: int, w: int)
    requires w > 0
    ensures d >= 1 ==> d * w >= w
    ensures d <= -1 ==> d * w <= -w
  {
    if d >= 1 {
      assert (d - 1) * w >= 0;
    } else if d <= -1 {
      assert (-d - 1) * w >= 0;
    }
  }

  lemma {:induction false} MulMonotone(a: int, b: int, w: int)
    requires a <= b && 0 <= w
    ensures a * w <= b * w
  {
    assert (b - a) * w >= 0;
  }

  /** Quotient and remainder are determined by q * w + r. */
  lemma {:induction false} QuotientUnique(q: int, r: int, q': int, r': int, w: int)
    requires 0 <= r < w && 0 <= r' < w
    requires q * w + r == q' * w + r'
    ensures q == q' && r == r'
  {
    assert (q' - q) * w == r - r';
    MulAtLeast(q' - q, w);
  }

  lemma {:induction false} DivModOf(q: int, r: int, w: int)
    requires 0 <= r < w
    ensures (q * w + r) / w == q
    ensures (q * w + r) % w == r
  {
    var t := q * w + r;
    QuotientUnique(q, r, t / w, t % w, w);
  }

  /** Two multiples of w: the later one starts at or after the end of the earlier. */
  lemma {:induction false} MultiplesApart(p: int, q: int, w: int)
    requires w > 0
    ensures p == q || p * w + w <= q * w || q * w + w <= p * w
  {
    MulAtLeast(q - p, w);
    assert (q - p) * w == q * w - p * w;
  }

  /** Division rounds down: the quotient reaches m exactly from m * w on. */
  lemma {:induction false} QuotAtLeast(x: int, w: int, m: int)
    requires w > 0
    ensures x / w >= m <==> x >= m * w
  {
    var q, r := x / w, x % w;
    assert x == q * w + r && 0 <= r < w;
    MulAtLeast(m - q, w);
    assert (m - q) * w == m * w - q * w;
    if q >= m {
      MulMonotone(m, q, w);
    }
  }

  lemma {:induction false} QuotShift(x: int, k: int, w: int)
    requires w > 0
    ensures (x - k * w) / w == x / w - k
  {
    var q, r := x / w, x % w;
    assert x - k * w == (q - k) * w + r;
    DivModOf(q - k, r, w);
  }

  lemma {:induction false} QuotMonotone(x: int, y: int, w: int)
    requires w > 0 && x <= y
    ensures x / w <= y / w
  {
    QuotAtLeast(x, w, x / w);
    QuotAtLeast(y, w, x / w);
  }
}
