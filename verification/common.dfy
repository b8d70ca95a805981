/** Shared helpers: an optional value, the clamp both scripts use, and linear and
    bilinear interpolation with the bounds they keep. */
module Common {

  /** The conventional Some/None datatype; stands for JavaScript's null. */
  datatype Option<+T> = None | Some(value: T)

  /** Geographic bounds in degrees. */
  datatype GeoBounds = GeoBounds(west: real, east: real, north: real, south: real)

  function MinR(a: real, b: real): real { if a <= b then a else b }
  function MaxR(a: real, b: real): real { if a <= b then b else a }
  function MinI(a: int, b: int): int { if a <= b then a else b }
  function MaxI(a: int, b: int): int { if a <= b then b else a }

  function Min4(a: real, b: real, c: real, d: real): real { MinR(MinR(a, b), MinR(c, d)) }
  function Max4(a: real, b: real, c: real, d: real): real { MaxR(MaxR(a, b), MaxR(c, d)) }

  /** `Math.min(Math.max(value, min), max)` on integers. */
  function Clamp(value: int, lo: int, hi: int): (r: int)
    ensures lo <= hi ==> lo <= r <= hi
    ensures lo <= value <= hi ==> r == value
    ensures lo <= hi && value < lo ==> r == lo
    ensures lo <= hi && hi < value ==> r == hi
  {
    MinI(MaxI(value, lo), hi)
  }

  lemma ClampMono(a: int, b: int, lo: int, hi: int)
    requires a <= b
    ensures Clamp(a, lo, hi) <= Clamp(b, lo, hi)
  {
  }

  /** `Math.min(Math.max(value, min), max)` on reals. */
  function ClampR(value: real, lo: real, hi: real): (r: real)
    ensures lo <= hi ==> lo <= r <= hi
    ensures lo <= value <= hi ==> r == value
    ensures lo <= hi && value < lo ==> r == lo
    ensures lo <= hi && hi < value ==> r == hi
  {
    MinR(MaxR(value, lo), hi)
  }

  /** `Math.floor` on a real. */
  function Floor(x: real): (r: int)
    ensures r as real <= x < r as real + 1.0
  {
    x.Floor
  }

  /** `Math.ceil` on a real. */
  function Ceil(x: real): (r: int)
    ensures r as real - 1.0 < x <= r as real
  {
    -((-x).Floor)
  }

  /** JavaScript's `%` on integers: the remainder takes the sign of the dividend. */
  function JsRem(a: int, b: int): (r: int)
    requires b > 0
    ensures a >= 0 ==> 0 <= r < b
    ensures a < 0 ==> -b < r <= 0
    ensures r % b == a % b
  {
    if a >= 0 then a % b
    else
      NegatedRemainder(a, b);
      -((-a) % b)
  }

  /** For a negative dividend, the negated remainder of its magnitude lies in
      (-b, 0] and is congruent to it modulo b. */
  lemma NegatedRemainder(a: int, b: int)
    requires a < 0 && b > 0
    ensures -b < -((-a) % b) <= 0
    ensures (-((-a) % b)) % b == a % b
  {
    var q, m := (-a) / b, (-a) % b;
    assert a == (-q) * b + (-m) by {
      assert -a == q * b + m;
      assert (-q) * b == -(q * b);
    }
    MultipleShift(-q, b, -m);
  }

  /** Adding a multiple of `b` does not change the Euclidean remainder. */
  lemma MultipleShift(k: int, b: int, x: int)
    requires b > 0
    ensures (k * b + x) % b == x % b
  {
    var q, m := x / b, x % b;
    assert x == q * b + m;
    assert k * b + x == (k + q) * b + m;
    DivModUnique(k * b + x, b, k + q, m);
  }

  /** The quotient and remainder of Euclidean division are unique. */
  lemma DivModUnique(a: int, b: int, q: int, m: int)
    requires b > 0 && 0 <= m < b && a == q * b + m
    ensures a / b == q && a % b == m
  {
    var q', m' := a / b, a % b;
    assert a == q' * b + m';
    assert (q - q') * b == m' - m;
    if q > q' {
      MulAtLeast(q - q', b);
    } else if q < q' {
      MulAtLeast(q' - q, b);
    }
  }

  lemma MulAtLeast(k: int, b: int)
    requires k >= 1 && b >= 0
    ensures k * b >= b
  {
    if k > 1 {
      MulAtLeast(k - 1, b);
      assert k * b == (k - 1) * b + b;
    }
  }

  /** The absolute value. */
  function AbsR(x: real): (r: real)
    ensures r >= 0.0 && (r == x || r == -x)
  {
    if x < 0.0 then -x else x
  }

  /** Dividing by a positive scale and multiplying back gives the value back. */
  lemma DivMulCancel(a: real, scale: real)
    requires scale > 0.0
    ensures (a / scale) * scale == a
  {
  }

  lemma MulDivCancel(a: real, n: real)
    requires n > 0.0
    ensures n * (a / n) == a
  {
    DivMulCancel(a, n);
  }

  /** `a + (b - a) * t`, the interpolation step both bilinear samplers use. */
  function Lerp(a: real, b: real, t: real): real
  {
    a + (b - a) * t
  }

  lemma MulNonneg(x: real, y: real)
    requires x >= 0.0 && y >= 0.0
    ensures x * y >= 0.0
  {
  }

  lemma MulPos(x: real, y: real)
    requires x > 0.0 && y > 0.0
    ensures x * y > 0.0
  {
  }

  lemma LerpBetween(a: real, b: real, t: real)
    requires 0.0 <= t <= 1.0
    ensures MinR(a, b) <= Lerp(a, b, t) <= MaxR(a, b)
  {
    if a <= b {
      MulNonneg(b - a, t);
      MulNonneg(b - a, 1.0 - t);
      assert (b - a) * t + (b - a) * (1.0 - t) == b - a;
    } else {
      MulNonneg(a - b, t);
      MulNonneg(a - b, 1.0 - t);
      assert (a - b) * t + (a - b) * (1.0 - t) == a - b;
    }
  }

  lemma FractionBelow(v: real, span: real)
    requires 0.0 <= v < span
    ensures 0.0 <= v / span < 1.0
  {
    var f := v / span;
    assert f * span == v;
    if f >= 1.0 {
      MulNonneg(f - 1.0, span);
      assert false;
    }
    if f < 0.0 {
      MulPos(-f, span);
      assert false;
    }
  }

  lemma MulStrictBelow(a: real, b: real, c: real)
    requires a < b && c > 0.0
    ensures a * c < b * c
  {
    MulPos(b - a, c);
  }

  lemma ScaledAbove(q: real, k: real, w: real, v: real)
    requires q * w == v && k <= q && w > 0.0
    ensures k * w <= v
  {
    MulNonneg(q - k, w);
  }

  lemma ScaledBelow(q: real, k1: real, w: real, v: real)
    requires q * w == v && q < k1 && w > 0.0
    ensures v < k1 * w
  {
    MulPos(k1 - q, w);
  }

  /** Interpolate along x first, then along the other axis, as both samplers do. */
  function Bilinear(h00: real, h10: real, h01: real, h11: real, sx: real, sy: real): real
  {
    Lerp(Lerp(h00, h10, sx), Lerp(h01, h11, sx), sy)
  }

  lemma BilinearBetween(h00: real, h10: real, h01: real, h11: real, sx: real, sy: real)
    requires 0.0 <= sx <= 1.0 && 0.0 <= sy <= 1.0
    ensures Min4(h00, h10, h01, h11) <= Bilinear(h00, h10, h01, h11, sx, sy) <= Max4(h00, h10, h01, h11)
  {
    LerpBetween(h00, h10, sx);
    LerpBetween(h01, h11, sx);
    LerpBetween(Lerp(h00, h10, sx), Lerp(h01, h11, sx), sy);
  }

  /** Least element of a non-empty sequence. */
  function MinOf(s: seq<real>): (m: real)
    requires |s| > 0
    ensures forall i :: 0 <= i < |s| ==> m <= s[i]
    ensures exists i :: 0 <= i < |s| && m == s[i]
  {
    if |s| == 1 then s[0]
    else
      var rest := MinOf(s[1..]);
      assert forall i :: 1 <= i < |s| ==> s[i] == s[1..][i - 1];
      if s[0] <= rest then s[0] else rest
  }

  /** Greatest element of a non-empty sequence. */
  function MaxOf(s: seq<real>): (m: real)
    requires |s| > 0
    ensures forall i :: 0 <= i < |s| ==> s[i] <= m
    ensures exists i :: 0 <= i < |s| && m == s[i]
  {
    if |s| == 1 then s[0]
    else
      var rest := MaxOf(s[1..]);
      assert forall i :: 1 <= i < |s| ==> s[i] == s[1..][i - 1];
      if s[0] >= rest then s[0] else rest
  }

  /** The element at `i`, or 0 when `i` is outside the sequence (`a[i] ?? 0`). */
  function At0(s: seq<real>, i: int): real
  {
    if 0 <= i < |s| then s[i] else 0.0
  }

  /** Row-major position of (row, col) in a grid with `cols` columns, and its bound. */
  lemma GridIndexBound(row: int, col: int, rows: int, cols: int)
    requires 0 <= row < rows && 0 <= col < cols
    ensures 0 <= row * cols + col < rows * cols
  {
    assert row * cols <= (rows - 1) * cols;
    assert (rows - 1) * cols + cols == rows * cols;
  }
}
