/** Samples as integers: scaled by L/maxval and cut towards zero on the server, divided by L on the client. */
module Scaling {

  /** A C conversion from floating point to an integer type. */
  function Trunc(t: real): int {
    if 0.0 <= t then t.Floor else -((-t).Floor)
  }

  /** What the server sends: L is 32767 for I16 and 127 for I8. */
  function Quantise(sample: real, maxval: real, L: int): int
    requires 0.0 < maxval
  {
    Trunc(sample * (L as real / maxval))
  }

  /** What the client makes of it. */
  function Rescale(q: int, L: int): real
    requires L >= 1
  {
    q as real / L as real
  }

  lemma TruncBounds(t: real)
    ensures 0.0 <= t ==> 0 <= Trunc(t) && t - 1.0 < Trunc(t) as real <= t
    ensures t <= 0.0 ==> Trunc(t) <= 0 && t <= Trunc(t) as real < t + 1.0
  {
  }

  lemma DivMul(a: real, b: real)
    requires b != 0.0
    ensures (a / b) * b == a
  {
  }

  lemma ScaleSample(s: real, m: real, L: int)
    requires 0.0 < m && L >= 1
    ensures s * (L as real / m) == (s / m) * L as real
  {
    var l := L as real;
    assert s * (l / m) == (s * l) / m;
    assert (s / m) * l == (s * l) / m;
  }

  lemma MulOrder(a: real, b: real, m: real)
    requires 0.0 < m
    ensures a < b <==> a * m < b * m
  {
    if a < b {
      assert 0.0 < (b - a) * m;
    } else {
      assert 0.0 <= (a - b) * m;
    }
  }

  lemma DivideBy(a: real, b: real, l: real)
    requires 0.0 < l && -1.0 < a - b * l < 1.0
    ensures -1.0 / l < a / l - b < 1.0 / l
  {
    DivMul(a, l);
    DivMul(1.0, l);
    DivMul(-1.0, l);
    MulOrder(a / l - b, 1.0 / l, l);
    MulOrder(-1.0 / l, a / l - b, l);
  }

  /** Scaling, cutting and rescaling recovers sample/maxval to within one quantum, for every sample. */
  lemma RoundTrip(s: real, m: real, L: int)
    requires 0.0 < m && L >= 1
    ensures -1.0 / L as real < Rescale(Quantise(s, m, L), L) - s / m < 1.0 / L as real
  {
    ScaleSample(s, m, L);
    TruncBounds(s * (L as real / m));
    DivideBy(Quantise(s, m, L) as real, s / m, L as real);
  }

  /** A sample is sent as a number in [-L, L] if and only if it stays below maxval * (L + 1) / L. */
  lemma QuantiseFits(s: real, m: real, L: int)
    requires 0.0 < m && L >= 1
    ensures -L <= Quantise(s, m, L) <= L <==> -m * (L + 1) as real < s * L as real < m * (L + 1) as real
  {
    var t := s * (L as real / m);
    TruncBounds(t);
    ScaleSample(s, m, L);
    DivMul(s, m);
    assert t * m == s * L as real by { Regroup(s / m, m, L as real); }
    var top := (L + 1) as real;
    MulOrder(t, top, m);
    MulOrder(-top, t, m);
  }

  lemma Regroup(a: real, m: real, l: real)
    ensures (a * l) * m == (a * m) * l
  {
  }
}
