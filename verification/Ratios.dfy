/** Real arithmetic shared by the two letterboxes. */
module Ratios {

  /** A real number cut off towards zero, as a cast to an integer does it. */
  function Truncated(r: real): int {
    if r >= 0.0 then r.Floor else -((-r).Floor)
  }

  lemma Positive(a: real, b: real)
    requires a > 0.0 && b > 0.0
    ensures a / b > 0.0 && (a / b) * b == a
  {
  }

  lemma MulOrder(a: real, b: real, k: real)
    requires a <= b && k > 0.0
    ensures a * k <= b * k
    ensures a < b ==> a * k < b * k
  {
  }

  lemma Cancel(a: real, b: real, k: real)
    requires k > 0.0 && a * k <= b * k
    ensures a <= b
  {
    if a > b {
      MulOrder(b, a, k);
    }
  }

  lemma CompareRatios(bw: real, bh: real, ow: real, oh: real)
    requires bw > 0.0 && bh > 0.0 && ow > 0.0 && oh > 0.0
    ensures bw / bh >= ow / oh <==> bw * oh >= ow * bh
  {
    var p, q := bw / bh, ow / oh;
    assert p * bh == bw && q * oh == ow;
    if p >= q {
      MulOrder(q, p, bh * oh);
    } else {
      MulOrder(p, q, bh * oh);
    }
    assert bw * oh == p * (bh * oh);
    assert ow * bh == q * (bh * oh);
  }

  lemma Scaled(side: real, other: real, k: real)
    requires side > 0.0
    ensures (k / side) * side == k
    ensures (k / side) * other == k * (other / side)
    ensures (k / side) * other * side == k * other
  {
  }

  lemma DividedByRatio(k: real, w: real, h: real)
    requires w > 0.0 && h > 0.0
    ensures w / h > 0.0 && k / (w / h) == (k / w) * h
  {
    Positive(w, h);
    var q := w / h;
    assert (k / w) * h * q == k;
  }

  lemma WholePart(r: real, n: int)
    requires 0.0 <= r <= n as real
    ensures 0 <= r.Floor <= n && r - 1.0 < r.Floor as real <= r
  {
  }

  /** Bounds of a quotient are bounds of its numerator. */
  lemma QuotientBounds(d: real, k: real, low: real, high: real)
    requires k > 0.0
    ensures low < d / k <==> low * k < d
    ensures d / k < high <==> d < high * k
    ensures low <= d / k <==> low * k <= d
    ensures d / k <= high <==> d <= high * k
  {
    var q := d / k;
    assert q * k == d;
    BoundTimes(low, q, k);
    BoundTimes(q, high, k);
  }

  lemma BoundTimes(a: real, b: real, k: real)
    requires k > 0.0
    ensures a < b <==> a * k < b * k
    ensures a <= b <==> a * k <= b * k
  {
    if a < b {
      MulOrder(a, b, k);
    } else {
      MulOrder(b, a, k);
    }
  }
}
