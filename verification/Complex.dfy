/** Complex numbers over exact reals, with the algebra the filter proofs need. */
module ComplexNumbers {

  datatype Complex = Complex(re: real, im: real)

  const ZERO := Complex(0.0, 0.0)
  const ONE := Complex(1.0, 0.0)

  function Add(a: Complex, b: Complex): Complex {
    Complex(a.re + b.re, a.im + b.im)
  }

  function Mul(a: Complex, b: Complex): Complex {
    Complex(a.re * b.re - a.im * b.im, a.re * b.im + a.im * b.re)
  }

  function Scale(t: real, a: Complex): Complex {
    Complex(t * a.re, t * a.im)
  }

  function Conj(a: Complex): Complex {
    Complex(a.re, -a.im)
  }

  /** Squared modulus. */
  function Norm2(a: Complex): real {
    a.re * a.re + a.im * a.im
  }

  /** On the unit circle: e^(i*angle) for some angle. */
  predicate Unit(u: Complex) {
    Norm2(u) == 1.0
  }

  /** Of modulus at most r. */
  predicate Within(a: Complex, r: real) {
    0.0 <= r && Norm2(a) <= r * r
  }

  function Pow(w: Complex, n: nat): Complex {
    if n == 0 then ONE else Mul(Pow(w, n - 1), w)
  }

  function Abs(t: real): real {
    if t < 0.0 then -t else t
  }

  lemma MulCommutes(a: Complex, b: Complex)
    ensures Mul(a, b) == Mul(b, a)
  {
  }

  lemma MulAssociates(a: Complex, b: Complex, c: Complex)
    ensures Mul(Mul(a, b), c) == Mul(a, Mul(b, c))
  {
  }

  lemma MulDistributes(a: Complex, b: Complex, c: Complex)
    ensures Mul(a, Add(b, c)) == Add(Mul(a, b), Mul(a, c))
  {
  }

  lemma MulZero(a: Complex)
    ensures Mul(a, ZERO) == ZERO == Mul(ZERO, a)
  {
  }

  lemma MulScale(t: real, a: Complex, b: Complex)
    ensures Mul(a, Scale(t, b)) == Scale(t, Mul(a, b))
  {
  }

  lemma {:induction false} PowAdd(w: Complex, m: nat, n: nat)
    ensures Pow(w, m + n) == Mul(Pow(w, m), Pow(w, n))
  {
    if n != 0 {
      PowAdd(w, m, n - 1);
      MulAssociates(Pow(w, m), Pow(w, n - 1), w);
    }
  }

  lemma PowMulStep(w: Complex, d: nat, n: nat, e: nat)
    requires Pow(Pow(w, d), n) == Pow(w, e)
    ensures Pow(Pow(w, d), n + 1) == Pow(w, e + d)
  {
    PowAdd(w, e, d);
  }

  lemma {:induction false} PowMul(w: Complex, d: nat, n: nat, e: nat)
    requires e == n * d
    ensures Pow(Pow(w, d), n) == Pow(w, e)
  {
    if n != 0 {
      PowMul(w, d, n - 1, LessOne(n, d));
      PowMulStep(w, d, n - 1, LessOne(n, d));
    }
  }

  function LessOne(n: nat, d: nat): (e: nat)
    requires n >= 1
    ensures e == (n - 1) * d && e + d == n * d
  {
    (n - 1) * d
  }

  lemma NormMul(a: Complex, b: Complex)
    ensures Norm2(Mul(a, b)) == Norm2(a) * Norm2(b)
  {
  }

  lemma UnitMul(u: Complex, v: Complex)
    requires Unit(u) && Unit(v)
    ensures Unit(Mul(u, v))
  {
    NormMul(u, v);
  }

  lemma {:induction false} UnitPow(w: Complex, n: nat)
    requires Unit(w)
    ensures Unit(Pow(w, n))
  {
    if n != 0 {
      UnitPow(w, n - 1);
      UnitMul(Pow(w, n - 1), w);
    }
  }

  /** Multiplying by a unit does not change the modulus. */
  lemma WithinUnit(a: Complex, r: real, u: Complex)
    requires Within(a, r) && Unit(u)
    ensures Within(Mul(a, u), r)
  {
    NormMul(a, u);
  }

  /** Both components of a complex number of modulus at most r are at most r. */
  lemma Components(a: Complex, r: real)
    requires Within(a, r)
    ensures Abs(a.re) <= r && Abs(a.im) <= r
  {
    SquareNonNegative(a.re);
    SquareNonNegative(a.im);
    RootBound(a.re, r);
    RootBound(a.im, r);
  }

  /** A unit-modulus factor can be cancelled. */
  lemma CancelUnit(u: Complex, a: Complex, b: Complex)
    requires Unit(u)
    requires Mul(u, a) == Mul(u, b)
    ensures a == b
  {
    UndoUnit(u, a);
    UndoUnit(u, b);
  }

  lemma UndoUnit(u: Complex, a: Complex)
    requires Unit(u)
    ensures Mul(Conj(u), u) == ONE
    ensures Mul(Conj(u), Mul(u, a)) == a
  {
    MulAssociates(Conj(u), u, a);
  }

  lemma SquareNonNegative(t: real)
    ensures 0.0 <= t * t
  {
  }

  lemma RootBound(t: real, r: real)
    requires 0.0 <= r && t * t <= r * r
    ensures -r <= t <= r
  {
    if r < t {
      StrictSquare(r, t);
    } else if r < -t {
      StrictSquare(r, -t);
    }
  }

  lemma StrictSquare(r: real, t: real)
    requires 0.0 <= r < t
    ensures r * r < t * t
  {
    var e := t - r;
    assert t * t == r * r + (2.0 * r + e) * e;
    assert 0.0 < (2.0 * r + e) * e;
  }
}
