/** How loud a channel can get: the documented meaning of a worker's `maxval`. */
module Amplitude {
  import opened ComplexNumbers
  import opened XlateSpec
  import opened XlateLimits
  import opened Decimation
  import opened Scaling

  /** The sum of |taps| over the first n taps. */
  function SumAbs(h: seq<real>, n: nat): (m: real)
    requires n <= |h|
    ensures 0.0 <= m
  {
    if n == 0 then 0.0 else SumAbs(h, n - 1) + Abs(h[n - 1])
  }

  function MaxAmplitude(h: seq<real>): real {
    SumAbs(h, |h|)
  }

  // ---- one sample

  /** "Samples from range [-1, 1]": of modulus at most one, or with both components in the range. */
  datatype Range = Disc | Box

  predicate In(r: Range, b: Complex) {
    match r
    case Disc => Within(b, 1.0)
    case Box => Abs(b.re) <= 1.0 && Abs(b.im) <= 1.0
  }

  ghost predicate AllIn(r: Range, x: seq<Complex>) {
    forall i :: 0 <= i < |x| ==> In(r, x[i])
  }

  /** The largest component such a sample can have once it has been turned by a unit c. */
  function Weight(r: Range, c: Complex): (t: real)
    ensures 0.0 <= t
  {
    match r
    case Disc => 1.0
    case Box => Abs(c.re) + Abs(c.im)
  }

  /** The sample that has it. */
  function Best(r: Range, c: Complex): Complex {
    match r
    case Disc => Conj(c)
    case Box => Complex(if c.re < 0.0 then -1.0 else 1.0, if c.im < 0.0 then 1.0 else -1.0)
  }

  lemma BestIsIn(r: Range, c: Complex)
    requires Unit(c)
    ensures In(r, Best(r, c)) && In(r, Scale(-1.0, Best(r, c))) && In(r, ZERO)
    ensures Mul(c, Best(r, c)).re == Weight(r, c)
  {
    if r == Disc {
      assert Mul(c, Conj(c)).re == Norm2(c);
    }
  }

  lemma WeightBound(r: Range, c: Complex, b: Complex)
    requires Unit(c) && In(r, b)
    ensures Abs(Mul(c, b).re) <= Weight(r, c) && Abs(Mul(c, b).im) <= Weight(r, c)
  {
    hide Mul, Within;
    match r {
      case Disc =>
        MulCommutes(c, b);
        WithinUnit(b, 1.0, c);
        Components(Mul(b, c), 1.0);
      case Box => TurnedInBox(c, b);
    }
  }

  lemma TurnedInBox(c: Complex, b: Complex)
    requires Abs(b.re) <= 1.0 && Abs(b.im) <= 1.0
    ensures Abs(Mul(c, b).re) <= Abs(c.re) + Abs(c.im) && Abs(Mul(c, b).im) <= Abs(c.re) + Abs(c.im)
  {
    hide Mul, Dot, Abs;
    MulParts(c, b);
    SameAbs(b.im);
    BoxBound(c.re, b.re, c.im, -b.im);
    BoxBound(c.re, b.im, c.im, b.re);
  }

  function Dot(a: real, b: real, c: real, d: real): real {
    a * b + c * d
  }

  lemma MulParts(c: Complex, b: Complex)
    ensures Mul(c, b).re == Dot(c.re, b.re, c.im, -b.im) && Mul(c, b).im == Dot(c.re, b.im, c.im, b.re)
  {
  }

  lemma SameAbs(a: real)
    ensures Abs(-a) == Abs(a)
  {
  }

  lemma BoxBound(a: real, b: real, c: real, d: real)
    requires Abs(b) <= 1.0 && Abs(d) <= 1.0
    ensures Abs(Dot(a, b, c, d)) <= Abs(a) + Abs(c)
  {
    ProductInBox(a, b);
    ProductInBox(c, d);
  }

  lemma ProductInBox(a: real, b: real)
    requires Abs(b) <= 1.0
    ensures Abs(a * b) <= Abs(a)
  {
  }

  /** In the disc a unit makes no difference; in the box it can make up to the square root of two. */
  lemma WeightInBox(c: Complex)
    requires Unit(c)
    ensures 1.0 <= Weight(Box, c) * Weight(Box, c) <= 2.0
  {
    var a, b := Abs(c.re), Abs(c.im);
    assert a * a == c.re * c.re && b * b == c.im * c.im;
    BetweenSquares(a, b);
  }

  lemma BetweenSquares(a: real, b: real)
    requires 0.0 <= a && 0.0 <= b
    ensures a * a + b * b <= (a + b) * (a + b) <= 2.0 * (a * a + b * b)
  {
    NotNegative(a, b);
    SquareNonNegative(a - b);
    assert (a + b) * (a + b) == a * a + 2.0 * (a * b) + b * b;
    assert (a - b) * (a - b) == a * a - 2.0 * (a * b) + b * b;
  }

  // ---- one position

  /** Tap j meets a sample when the first m samples are there. */
  predicate Meets(half: nat, at: nat, m: nat, j: nat) {
    half <= at + j < half + m
  }

  /** The largest component of an output at oscillator u: what each tap that meets a sample can add. */
  function Peak(r: Range, half: nat, at: nat, m: nat, h: seq<real>, v: Complex, u: Complex, n: nat): (t: real)
    requires n <= |h|
    ensures 0.0 <= t
  {
    if n == 0 then 0.0 else
      var rest := Peak(r, half, at, m, h, v, u, n - 1);
      var w := Weight(r, Mul(u, Pow(v, n - 1)));
      NotNegative(Abs(h[n - 1]), w);
      if Meets(half, at, m, n - 1) then rest + Abs(h[n - 1]) * w else rest
  }

  lemma NotNegative(a: real, b: real)
    requires 0.0 <= a && 0.0 <= b
    ensures 0.0 <= a * b
  {
  }

  /** What one more tap adds to the turned dot product. */
  lemma TurnedTerm(x: seq<Complex>, half: nat, at: nat, h: seq<real>, v: Complex, u: Complex, n: nat)
    requires n < |h|
    ensures Mul(u, Fir(x, half, at, RotateTaps(h, v), n + 1))
            == Add(Mul(u, Fir(x, half, at, RotateTaps(h, v), n)),
                   Scale(h[n], Mul(Mul(u, Pow(v, n)), PadAt(x, half, at + n))))
  {
    hide Mul, Add, Scale, Pow, PadAt;
    var s := PadAt(x, half, at + n);
    MulDistributes(u, Fir(x, half, at, RotateTaps(h, v), n), Mul(s, RotateTaps(h, v)[n]));
    TapTerm(u, Pow(v, n), h[n], s);
  }

  lemma {:induction false} PeakBound(
    r: Range, x: seq<Complex>, half: nat, at: nat, h: seq<real>, v: Complex, u: Complex, n: nat)
    requires n <= |h| && AllIn(r, x) && Unit(v) && Unit(u)
    ensures var y := Mul(u, Fir(x, half, at, RotateTaps(h, v), n));
            var t := Peak(r, half, at, |x|, h, v, u, n);
            Abs(y.re) <= t && Abs(y.im) <= t
  {
    hide Mul, Pow, Unit, Weight, In, Fir, RotateTaps, Add, Scale, Abs, PadAt, Best;
    NoTaps(x, half, at, RotateTaps(h, v), u);
    if n != 0 {
      PeakBound(r, x, half, at, h, v, u, n - 1);
      TurnedTerm(x, half, at, h, v, u, n - 1);
      var c := TapUnit(u, v, n - 1);
      var b := PadAt(x, half, at + n - 1);
      var y := Mul(u, Fir(x, half, at, RotateTaps(h, v), n - 1));
      var t := Peak(r, half, at, |x|, h, v, u, n - 1);
      if Meets(half, at, |x|, n - 1) {
        SampleMet(r, x, half, at, n - 1);
        WeightBound(r, c, b);
        TermBound(y, t, h[n - 1], Mul(c, b), Weight(r, c));
      } else {
        NoSample(x, half, at, n - 1);
        MulZero(c);
        NoTerm(y, h[n - 1]);
      }
    }
  }

  lemma NoTaps(x: seq<Complex>, half: nat, at: nat, taps: seq<Complex>, u: Complex)
    ensures Mul(u, Fir(x, half, at, taps, 0)) == ZERO && Abs(ZERO.re) == 0.0 == Abs(ZERO.im)
  {
    MulZero(u);
  }

  lemma TapUnit(u: Complex, v: Complex, j: nat) returns (c: Complex)
    requires Unit(u) && Unit(v)
    ensures c == Mul(u, Pow(v, j)) && Unit(c)
  {
    hide Mul, Pow, Unit;
    UnitPow(v, j);
    c := Mul(u, Pow(v, j));
    UnitMul(u, Pow(v, j));
  }

  lemma SampleMet(r: Range, x: seq<Complex>, half: nat, at: nat, j: nat)
    requires AllIn(r, x) && Meets(half, at, |x|, j)
    ensures In(r, PadAt(x, half, at + j))
  {
    hide In;
  }

  lemma NoSample(x: seq<Complex>, half: nat, at: nat, j: nat)
    requires !Meets(half, at, |x|, j)
    ensures PadAt(x, half, at + j) == ZERO
  {
  }

  lemma TermBound(y: Complex, t: real, h: real, z: Complex, w: real)
    requires Abs(y.re) <= t && Abs(y.im) <= t && Abs(z.re) <= w && Abs(z.im) <= w
    ensures var s := Add(y, Scale(h, z)); Abs(s.re) <= t + Abs(h) * w && Abs(s.im) <= t + Abs(h) * w
  {
    var a := Abs(h) * w;
    ScaledSample(h, z, w, a);
    hide Scale;
    SumBound(y.re, t, Scale(h, z).re, a);
    SumBound(y.im, t, Scale(h, z).im, a);
  }

  lemma ScaledSample(h: real, z: Complex, w: real, a: real)
    requires Abs(z.re) <= w && Abs(z.im) <= w && a == Abs(h) * w
    ensures Abs(Scale(h, z).re) <= a && Abs(Scale(h, z).im) <= a
  {
    hide Scale, Abs;
    ScaledRe(h, z, w);
    ScaledIm(h, z, w);
  }

  lemma ScaledRe(h: real, z: Complex, w: real)
    requires Abs(z.re) <= w
    ensures Abs(Scale(h, z).re) <= Abs(h) * w
  {
    ScaledBound(h, z.re, w);
  }

  lemma ScaledIm(h: real, z: Complex, w: real)
    requires Abs(z.im) <= w
    ensures Abs(Scale(h, z).im) <= Abs(h) * w
  {
    ScaledBound(h, z.im, w);
  }

  lemma SumBound(a: real, s: real, b: real, t: real)
    requires Abs(a) <= s && Abs(b) <= t
    ensures Abs(a + b) <= s + t
  {
  }

  lemma NoTerm(y: Complex, h: real)
    ensures Add(y, Scale(h, ZERO)) == y
  {
  }

  lemma ScaledBound(t: real, a: real, b: real)
    requires Abs(a) <= b
    ensures Abs(t * a) <= Abs(t) * b
  {
    assert Abs(t * a) == Abs(t) * Abs(a);
    assert Abs(t) * Abs(a) <= Abs(t) * b;
  }

  /** The loudest stream for this position: every sample is the one its tap can make most of. */
  function Loudest(r: Range, half: nat, at: nat, m: nat, h: seq<real>, v: Complex, u: Complex): (x: seq<Complex>)
    ensures |x| == m
    ensures forall i :: 0 <= i < m ==> x[i] == LoudestSample(r, half, at, h, v, u, i)
  {
    seq(m, i requires 0 <= i < m => LoudestSample(r, half, at, h, v, u, i))
  }

  function LoudestSample(r: Range, half: nat, at: nat, h: seq<real>, v: Complex, u: Complex, i: nat): Complex {
    if 0 <= i + half - at < |h| then
      var b := Best(r, Mul(u, Pow(v, i + half - at)));
      if h[i + half - at] < 0.0 then Scale(-1.0, b) else b
    else ZERO
  }

  lemma LoudestIsIn(r: Range, half: nat, at: nat, m: nat, h: seq<real>, v: Complex, u: Complex)
    requires Unit(v) && Unit(u)
    ensures AllIn(r, Loudest(r, half, at, m, h, v, u))
  {
    hide Unit, In, Best, Mul, Pow;
    forall i | 0 <= i < m ensures In(r, LoudestSample(r, half, at, h, v, u, i)) {
      var j := if 0 <= i + half - at then i + half - at else 0;
      UnitPow(v, j);
      UnitMul(u, Pow(v, j));
      BestIsIn(r, Mul(u, Pow(v, j)));
    }
  }

  lemma {:induction false} PeakReached(
    r: Range, half: nat, at: nat, m: nat, h: seq<real>, v: Complex, u: Complex, n: nat)
    requires n <= |h| && Unit(v) && Unit(u)
    ensures Mul(u, Fir(Loudest(r, half, at, m, h, v, u), half, at, RotateTaps(h, v), n)).re
            == Peak(r, half, at, m, h, v, u, n)
  {
    hide Mul, Pow, Unit, Weight, Fir, RotateTaps, Add, Scale, Abs, PadAt, Best, Loudest;
    var x := Loudest(r, half, at, m, h, v, u);
    NoTaps(x, half, at, RotateTaps(h, v), u);
    if n != 0 {
      var j := n - 1;
      PeakReached(r, half, at, m, h, v, u, j);
      TurnedTerm(x, half, at, h, v, u, j);
      var c := TapUnit(u, v, j);
      var y := Mul(u, Fir(x, half, at, RotateTaps(h, v), j));
      if Meets(half, at, m, j) {
        LoudestMet(r, half, at, m, h, v, u, j);
        LoudestTerm(r, y, h[j], c);
      } else {
        NoSample(x, half, at, j);
        MulZero(c);
        NoTerm(y, h[j]);
      }
    }
  }

  lemma LoudestMet(r: Range, half: nat, at: nat, m: nat, h: seq<real>, v: Complex, u: Complex, j: nat)
    requires j < |h| && Meets(half, at, m, j)
    ensures PadAt(Loudest(r, half, at, m, h, v, u), half, at + j)
            == var b := Best(r, Mul(u, Pow(v, j))); if h[j] < 0.0 then Scale(-1.0, b) else b
  {
    hide Best, Mul, Pow, Scale;
  }

  /** The term of the loudest sample. */
  lemma LoudestTerm(r: Range, y: Complex, t: real, c: Complex)
    requires Unit(c)
    ensures var b := Best(r, c);
            Add(y, Scale(t, Mul(c, if t < 0.0 then Scale(-1.0, b) else b))).re == y.re + Abs(t) * Weight(r, c)
  {
    hide Best, Weight, Mul, Unit, Add, Scale, Abs, In;
    BestIsIn(r, c);
    MulScale(-1.0, c, Best(r, c));
    SignedTerm(y, t, Mul(c, Best(r, c)));
  }

  lemma SignedTerm(y: Complex, t: real, z: Complex)
    ensures Add(y, Scale(t, if t < 0.0 then Scale(-1.0, z) else z)).re == y.re + Abs(t) * z.re
  {
    SignTimes(t, z.re);
  }

  lemma SignTimes(t: real, a: real)
    ensures t < 0.0 ==> t * (-1.0 * a) == Abs(t) * a
    ensures t >= 0.0 ==> t * a == Abs(t) * a
  {
  }

  /** In the disc no output exceeds the sum of |taps|. */
  lemma {:induction false} PeakInDisc(half: nat, at: nat, m: nat, h: seq<real>, v: Complex, u: Complex, n: nat)
    requires n <= |h|
    ensures Peak(Disc, half, at, m, h, v, u, n) <= SumAbs(h, n)
    ensures (forall j: nat :: j < n && h[j] != 0.0 ==> Meets(half, at, m, j)) ==>
              Peak(Disc, half, at, m, h, v, u, n) == SumAbs(h, n)
  {
    hide Mul, Pow;
    if n != 0 {
      PeakInDisc(half, at, m, h, v, u, n - 1);
    }
  }

  /** In the box the square root of two times that. */
  lemma {:induction false} PeakInBox(half: nat, at: nat, m: nat, h: seq<real>, v: Complex, u: Complex, n: nat, s: real)
    requires n <= |h| && Unit(v) && Unit(u) && 0.0 <= s && s * s == 2.0
    ensures Peak(Box, half, at, m, h, v, u, n) <= s * SumAbs(h, n)
  {
    hide Mul, Pow, Unit, Weight, Abs;
    if n != 0 {
      PeakInBox(half, at, m, h, v, u, n - 1, s);
      var c := TapUnit(u, v, n - 1);
      WeightInBox(c);
      RootOrder(Weight(Box, c), s);
      GrownBound(s, SumAbs(h, n - 1), Peak(Box, half, at, m, h, v, u, n - 1), Weight(Box, c), h[n - 1]);
    }
  }

  lemma GrownBound(s: real, a: real, peak: real, w: real, t: real)
    requires peak <= s * a && 0.0 <= w <= s
    ensures peak + Abs(t) * w <= s * (a + Abs(t)) && peak <= s * (a + Abs(t))
  {
    Ordered(w, s, Abs(t));
    NotNegative(s, Abs(t));
    assert s * (a + Abs(t)) == s * a + s * Abs(t);
  }

  lemma RootOrder(a: real, s: real)
    requires 0.0 <= a && 0.0 <= s && a * a <= s * s
    ensures a <= s
  {
    if s < a {
      StrictSquare(s, a);
    }
  }

  lemma Ordered(a: real, b: real, l: real)
    requires a <= b && 0.0 <= l
    ensures a * l <= b * l && l * a <= l * b
  {
  }

  // ---- the outputs of a run

  /** The settings are some taps, rotated by some units, under some unit rotations. */
  ghost predicate Rotated(cfgs: seq<Setting>, from: seq<Plan>) {
    && |from| == |cfgs|
    && forall n :: 0 <= n < |cfgs| ==>
         cfgs[n].taps == RotateTaps(from[n].h, from[n].w) && Unit(from[n].w) && Unit(cfgs[n].rotate)
  }

  /** The largest component output q of a run can have, over all streams. */
  function OutputPeak(r: Range, p: Shape, cfgs: seq<Setting>, from: seq<Plan>, q: nat): real
    requires p.S >= 1 && p.d >= 1 && |from| == |cfgs| && q < OutputCount(p, |cfgs|)
  {
    var n := OutputPacket(p, q, |cfgs|);
    Peak(r, p.half, Times(q, p.d), NextStart(p, n), from[n].h, from[n].w, Rotator(p, RotationsIn(cfgs), q), |from[n].h|)
  }

  /** On every stream in range no output of the run exceeds its peak: whatever the rotations, and even while taps
      still follow an earlier one. */
  lemma OutputsBounded(r: Range, p: Shape, x: seq<Complex>, cfgs: seq<Setting>, from: seq<Plan>, q: nat)
    requires p.S >= 1 && p.d >= 1 && Rotated(cfgs, from) && q < OutputCount(p, |cfgs|)
    requires |x| == Times(|cfgs|, p.S) && AllIn(r, x)
    ensures var y := Outputs(p, x, cfgs)[q];
            Abs(y.re) <= OutputPeak(r, p, cfgs, from, q) && Abs(y.im) <= OutputPeak(r, p, cfgs, from, q)
  {
    hide Mul, Unit, Times, OutputCount, OutputPacket, Rotator, RotateTaps, Fir, Abs, Peak, In;
    var n := OutputPacket(p, q, |cfgs|);
    OutputAt(p, x, cfgs, q);
    var u, seen := Rotator(p, RotationsIn(cfgs), q), x[..NextStart(p, n)];
    RotatorUnit(p, RotationsIn(cfgs), q);
    MulCommutes(u, FirAt(seen, p.half, Times(q, p.d), cfgs[n].taps));
    PeakBound(r, seen, p.half, Times(q, p.d), from[n].h, from[n].w, u, |from[n].h|);
  }

  /** And some stream in range reaches it. */
  lemma PeakOnSomeStream(r: Range, p: Shape, cfgs: seq<Setting>, from: seq<Plan>, q: nat) returns (x: seq<Complex>)
    requires p.S >= 1 && p.d >= 1 && Rotated(cfgs, from) && q < OutputCount(p, |cfgs|)
    ensures |x| == Times(|cfgs|, p.S) && AllIn(r, x)
    ensures Outputs(p, x, cfgs)[q].re == OutputPeak(r, p, cfgs, from, q)
  {
    hide Mul, Unit, Times, OutputCount, OutputPacket, Rotator, RotateTaps, Fir, Peak, In;
    var n, at := OutputPacket(p, q, |cfgs|), Times(q, p.d);
    var u, m := Rotator(p, RotationsIn(cfgs), q), NextStart(p, n);
    StreamBound(p, n, |cfgs|);
    RotatorUnit(p, RotationsIn(cfgs), q);
    var seen := Loudest(r, p.half, at, m, from[n].h, from[n].w, u);
    LoudestIsIn(r, p.half, at, m, from[n].h, from[n].w, u);
    ZeroIsIn(r);
    x := seen + seq(Times(|cfgs|, p.S) - m, _ => ZERO);
    assert x[..m] == seen;
    OutputAt(p, x, cfgs, q);
    MulCommutes(u, FirAt(seen, p.half, at, cfgs[n].taps));
    PeakReached(r, p.half, at, m, from[n].h, from[n].w, u, |from[n].h|);
  }

  lemma ZeroIsIn(r: Range)
    ensures In(r, ZERO)
  {
  }

  // ---- integer formats

  predicate Fits(y: Complex, maxval: real, L: int)
    requires 0.0 < maxval
  {
    -L <= Quantise(y.re, maxval, L) <= L && -L <= Quantise(y.im, maxval, L) <= L
  }

  /** The peak a leaves room for cutting towards zero: a * L / maxval < L + 1. */
  predicate Headroom(a: real, maxval: real, L: int) {
    a * L as real < maxval * (L + 1) as real
  }

  /** Output q of a run, sent under some maxval (not that of its taps, when they were swapped while the frame
      waited), fits the integer type on every stream in range if and only if L * peak < (L + 1) * maxval. */
  lemma ClippingExact(r: Range, p: Shape, cfgs: seq<Setting>, from: seq<Plan>, q: nat, maxval: real, L: int)
    requires p.S >= 1 && p.d >= 1 && Rotated(cfgs, from) && q < OutputCount(p, |cfgs|) && 0.0 < maxval && L >= 1
    ensures (forall x: seq<Complex> :: |x| == Times(|cfgs|, p.S) && AllIn(r, x) ==>
               Fits(Outputs(p, x, cfgs)[q], maxval, L))
            <==> Headroom(OutputPeak(r, p, cfgs, from, q), maxval, L)
  {
    hide Fits, Headroom, OutputPeak, AllIn, Abs, Times, PhaseAfter, PacketOut, RotateTaps, Unit;
    if Headroom(OutputPeak(r, p, cfgs, from, q), maxval, L) {
      forall x: seq<Complex> | |x| == Times(|cfgs|, p.S) && AllIn(r, x)
        ensures Fits(Outputs(p, x, cfgs)[q], maxval, L)
      {
        OutputsBounded(r, p, x, cfgs, from, q);
        SampleFits(Outputs(p, x, cfgs)[q], OutputPeak(r, p, cfgs, from, q), maxval, L);
      }
    } else {
      var x := PeakOnSomeStream(r, p, cfgs, from, q);
      LoudestClips(Outputs(p, x, cfgs)[q], maxval, L);
    }
  }

  lemma LoudestClips(y: Complex, maxval: real, L: int)
    requires 0.0 < maxval && L >= 1 && !Headroom(y.re, maxval, L)
    ensures !Fits(y, maxval, L)
  {
    QuantiseFits(y.re, maxval, L);
  }

  lemma SampleFits(y: Complex, a: real, maxval: real, L: int)
    requires 0.0 < maxval && L >= 1 && Abs(y.re) <= a && Abs(y.im) <= a
    requires Headroom(a, maxval, L)
    ensures Fits(y, maxval, L)
  {
    ComponentFits(y.re, a, maxval, L);
    ComponentFits(y.im, a, maxval, L);
  }

  lemma ComponentFits(s: real, a: real, maxval: real, L: int)
    requires 0.0 < maxval && L >= 1 && Abs(s) <= a && Headroom(a, maxval, L)
    ensures -L <= Quantise(s, maxval, L) <= L
  {
    Ordered(s, a, L as real);
    Ordered(-a, s, L as real);
    assert (-a) * L as real == -(a * L as real);
    QuantiseFits(s, maxval, L);
  }

  /** With samples of modulus at most one, frames sent under their own taps' maxval always fit. */
  lemma OwnMaxvalNeverClips(p: Shape, x: seq<Complex>, cfgs: seq<Setting>, from: seq<Plan>, q: nat, L: int)
    requires p.S >= 1 && p.d >= 1 && Rotated(cfgs, from) && q < OutputCount(p, |cfgs|) && L >= 1
    requires |x| == Times(|cfgs|, p.S) && AllIn(Disc, x)
    requires 0.0 < MaxAmplitude(from[OutputPacket(p, q, |cfgs|)].h)
    ensures Fits(Outputs(p, x, cfgs)[q], MaxAmplitude(from[OutputPacket(p, q, |cfgs|)].h), L)
  {
    var n := OutputPacket(p, q, |cfgs|);
    var h, maxval := from[n].h, MaxAmplitude(from[n].h);
    OutputsBounded(Disc, p, x, cfgs, from, q);
    PeakInDisc(p.half, Times(q, p.d), NextStart(p, n), h, from[n].w, Rotator(p, RotationsIn(cfgs), q), |h|);
    hide Fits, Abs, MaxAmplitude, Times, Outputs, OutputCount, OutputPacket, AllIn, Peak;
    OwnHeadroom(maxval, L);
    SampleFits(Outputs(p, x, cfgs)[q], maxval, maxval, L);
  }

  lemma OwnHeadroom(maxval: real, L: int)
    requires 0.0 < maxval
    ensures Headroom(maxval, maxval, L)
  {
    assert maxval * (L + 1) as real == maxval * L as real + maxval;
  }

  /** With saturated samples (both components in [-1, 1]) it does not: one tap, and the sample 1 + i turned by the
      unit 0.6 - 0.8i, give 1.4 where maxval is 1. */
  lemma SaturatedClips() returns (p: Shape, x: seq<Complex>, cfgs: seq<Setting>, from: seq<Plan>)
    ensures p.S == 1 == p.d && Rotated(cfgs, from) && |cfgs| == 2 && |x| == Times(2, p.S) && AllIn(Box, x)
    ensures 1 < OutputCount(p, |cfgs|) && MaxAmplitude(from[OutputPacket(p, 1, 2)].h) == 1.0
    ensures Outputs(p, x, cfgs)[1] == Complex(1.4, -0.2)
    ensures Quantise(Outputs(p, x, cfgs)[1].re, 1.0, 32767) == 45873
    ensures !Fits(Outputs(p, x, cfgs)[1], 1.0, 32767)
  {
    var w := Complex(0.6, -0.8);
    p := Shape(1, 0, 1);
    x := [ZERO, Complex(1.0, 1.0)];
    from := [Plan([1.0], w), Plan([1.0], w)];
    cfgs := Settings(from);
    hide *;
    TwoPackets(p);
    OneTap();
    SaturatedInputs(x, from, cfgs, w);
    SaturatedOutput(p, x, cfgs, w);
    SaturatedSample();
  }

  lemma SaturatedInputs(x: seq<Complex>, from: seq<Plan>, cfgs: seq<Setting>, w: Complex)
    requires x == [ZERO, Complex(1.0, 1.0)] && w == Complex(0.6, -0.8)
    requires from == [Plan([1.0], w), Plan([1.0], w)] && cfgs == Settings(from)
    ensures AllIn(Box, x) && Rotated(cfgs, from)
    ensures from[1].h == [1.0] && |cfgs| == 2 && forall n :: 0 <= n < 2 ==> cfgs[n] == Setting(RotateTaps([1.0], w), w)
  {
    UnitTurn(w);
    hide Unit, RotateTaps;
  }

  lemma UnitTurn(w: Complex)
    requires w == Complex(0.6, -0.8)
    ensures Unit(w)
  {
  }

  lemma SaturatedSample()
    ensures Quantise(1.4, 1.0, 32767) == 45873 && !Fits(Complex(1.4, -0.2), 1.0, 32767)
  {
    assert 1.4 * (32767.0 / 1.0) == 45873.8;
  }

  lemma OneTap()
    ensures MaxAmplitude([1.0]) == 1.0
  {
    assert SumAbs([1.0], 1) == SumAbs([1.0], 0) + Abs(1.0);
  }

  lemma SaturatedOutput(p: Shape, x: seq<Complex>, cfgs: seq<Setting>, w: Complex)
    requires p == Shape(1, 0, 1) && x == [ZERO, Complex(1.0, 1.0)] && w == Complex(0.6, -0.8)
    requires |cfgs| == 2 && forall n :: 0 <= n < 2 ==> cfgs[n] == Setting(RotateTaps([1.0], w), w)
    ensures |x| == Times(2, p.S) && 1 < OutputCount(p, 2) && OutputPacket(p, 1, 2) == 1
    ensures Outputs(p, x, cfgs)[1] == Complex(1.4, -0.2)
  {
    hide *;
    TwoPackets(p);
    OutputAt(p, x, cfgs, 1);
    FirstTurn(p, cfgs, w);
    assert x[..2] == x;
    SaturatedFir(x, RotateTaps([1.0], w), w);
  }

  lemma FirstTurn(p: Shape, cfgs: seq<Setting>, w: Complex)
    requires p == Shape(1, 0, 1) && |cfgs| == 2 && forall n :: 0 <= n < 2 ==> cfgs[n].rotate == w
    ensures OutputCount(p, 2) == 2 && Rotator(p, RotationsIn(cfgs), 1) == w
  {
    TwoPackets(p);
    RotatorIsPower(p, RotationsIn(cfgs), w, 1);
    PowOne(w);
  }

  lemma TwoPackets(p: Shape)
    requires p == Shape(1, 0, 1)
    ensures Times(2, p.S) == 2 && NextStart(p, 1) == 2 && Times(1, p.d) == 1
    ensures OutputCount(p, 2) == 2 && OutputPacket(p, 1, 2) == 1
  {
    CountUnique(2, 1, 2);
    CountUnique(1, 1, 1);
    OutputPacketUnique(p, 1, 2, 1);
  }

  lemma SaturatedFir(x: seq<Complex>, taps: seq<Complex>, w: Complex)
    requires x == [ZERO, Complex(1.0, 1.0)] && w == Complex(0.6, -0.8) && taps == RotateTaps([1.0], w)
    ensures Mul(FirAt(x, 0, 1, taps), w) == Complex(1.4, -0.2)
  {
    assert taps[0] == Scale(1.0, Pow(w, 0)) == ONE;
    assert Fir(x, 0, 1, taps, 1) == Add(Fir(x, 0, 1, taps, 0), Mul(PadAt(x, 0, 1), taps[0]));
  }
}
