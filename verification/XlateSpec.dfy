/** What a channel worker computes, said twice: as it computes it (rotated taps, filter, decimate, then a
    slow rotator whose phase carries over) and as the textbook does (mix at full rate, low-pass, keep every
    d-th sample) -- with one rotation; with several, packet by packet. */
module XlateSpec {
  import opened ComplexNumbers
  import opened Decimation

  /** S samples a packet, a lookback of `half` samples (MAXTAPS floats are MAXTAPS/2 complex samples),
      decimation d. */
  datatype Shape = Shape(S: nat, half: nat, d: nat)

  /** What was in force while one packet was processed: the rotated taps and e^(i*rotate). */
  datatype Setting = Setting(taps: seq<Complex>, rotate: Complex)

  /** What a client asks for: low-pass taps h, and a mixer that turns by w every sample. */
  datatype Plan = Plan(h: seq<real>, w: Complex)

  /** Sample i of the stream x, delayed by `half` and extended by zeros both ways. */
  function PadAt(x: seq<Complex>, half: nat, i: int): Complex {
    if half <= i < half + |x| then x[i - half] else ZERO
  }

  /** The worker's dot product at position `at`, over the first n taps. */
  function Fir(x: seq<Complex>, half: nat, at: int, taps: seq<Complex>, n: nat): Complex
    requires n <= |taps|
  {
    if n == 0 then ZERO else Add(Fir(x, half, at, taps, n - 1), Mul(PadAt(x, half, at + n - 1), taps[n - 1]))
  }

  function FirAt(x: seq<Complex>, half: nat, at: int, taps: seq<Complex>): Complex {
    Fir(x, half, at, taps, |taps|)
  }

  /** Low-pass taps turned into band-pass taps: tap j is multiplied by w^j. */
  function RotateTaps(h: seq<real>, w: Complex): (taps: seq<Complex>)
    ensures |taps| == |h| && forall j :: 0 <= j < |h| ==> taps[j] == Scale(h[j], Pow(w, j))
  {
    seq(|h|, j requires 0 <= j < |h| => Scale(h[j], Pow(w, j)))
  }

  // ---- packets and the grid

  /** Which packet a position of the stream falls into. */
  function PacketOf(p: Shape, at: nat, packets: nat): (n: nat)
    requires p.S >= 1 && at < Times(packets, p.S)
    ensures n < packets && Times(n, p.S) <= at < Times(n, p.S) + p.S
  {
    PacketBounds(p.S, at, packets);
    at / p.S
  }

  lemma PacketBounds(S: nat, at: nat, packets: nat)
    requires S >= 1 && at < Times(packets, S)
    ensures 0 <= at / S < packets && Times(at / S, S) <= at < Times(at / S, S) + S
  {
    if at / S >= packets {
      MulMonotone(packets, at / S, S);
    }
  }

  lemma SamePacket(S: nat, at: nat, k: nat, l: nat)
    requires Times(k, S) <= at < Times(k, S) + S
    requires Times(l, S) <= at < Times(l, S) + S
    ensures k == l
  {
    if k < l {
      MulMonotone(k + 1, l, S);
      NextMultiple(k, S);
    } else if l < k {
      MulMonotone(l + 1, k, S);
      NextMultiple(l, S);
    }
  }

  /** How many outputs there are after `packets` packets. */
  function OutputCount(p: Shape, packets: nat): nat
    requires p.d >= 1
  {
    Count(Times(packets, p.S), p.d)
  }

  /** Which packet output q is computed from. */
  function OutputPacket(p: Shape, q: nat, packets: nat): (n: nat)
    requires p.S >= 1 && p.d >= 1 && q < OutputCount(p, packets)
    ensures n < packets && OutputCount(p, n) <= q < OutputCount(p, n + 1)
    ensures Times(n, p.S) <= Times(q, p.d) < Times(n, p.S) + p.S
  {
    BelowCount(q, Times(packets, p.S), p.d);
    var n := PacketOf(p, Times(q, p.d), packets);
    NextMultiple(n, p.S);
    BelowCount(q, Times(n, p.S), p.d);
    BelowCount(q, Times(n + 1, p.S), p.d);
    n
  }

  lemma OutputPacketUnique(p: Shape, q: nat, packets: nat, n: nat)
    requires p.S >= 1 && p.d >= 1 && q < OutputCount(p, packets)
    requires OutputCount(p, n) <= q < OutputCount(p, n + 1)
    ensures OutputPacket(p, q, packets) == n
  {
    NextMultiple(n, p.S);
    BelowCount(q, Times(n, p.S), p.d);
    BelowCount(q, Times(n + 1, p.S), p.d);
    SamePacket(p.S, Times(q, p.d), OutputPacket(p, q, packets), n);
  }

  lemma OutputCountMonotone(p: Shape, m: nat, n: nat)
    requires p.d >= 1 && m <= n
    ensures OutputCount(p, m) <= OutputCount(p, n)
  {
    MulMonotone(m, n, p.S);
    CountMonotone(Times(m, p.S), Times(n, p.S), p.d);
  }

  // ---- the simple form

  /** The delayed stream, mixed at full rate. */
  function Mixed(x: seq<Complex>, half: nat, w: Complex, k: nat): Complex {
    Mul(Pow(w, k), PadAt(x, half, k))
  }

  /** The mixed stream filtered with real taps, at position `at`. */
  function LowPass(x: seq<Complex>, half: nat, w: Complex, at: nat, h: seq<real>, n: nat): Complex
    requires n <= |h|
  {
    if n == 0 then ZERO
    else Add(LowPass(x, half, w, at, h, n - 1), Scale(h[n - 1], Mixed(x, half, w, at + n - 1)))
  }

  /** Keep positions 0, d, 2d, ...; each uses the real taps in force for its packet. */
  function Simple(p: Shape, x: seq<Complex>, hs: seq<seq<real>>, w: Complex): (y: seq<Complex>)
    requires p.S >= 1 && p.d >= 1
    ensures |y| == OutputCount(p, |hs|)
  {
    seq(OutputCount(p, |hs|), q requires 0 <= q < OutputCount(p, |hs|) => SimpleAt(p, x, hs, w, q))
  }

  function SimpleAt(p: Shape, x: seq<Complex>, hs: seq<seq<real>>, w: Complex, q: nat): Complex
    requires p.S >= 1 && p.d >= 1 && q < OutputCount(p, |hs|)
  {
    var h := hs[OutputPacket(p, q, |hs|)];
    LowPass(x, p.half, w, Times(q, p.d), h, |h|)
  }

  // ---- packet by packet, when the rotation changes too

  /** The rotator at output q: it starts at 1 and turns, from one output position to the next, by d times the
      rotation in force for the packet it is in. */
  function Rotator(p: Shape, ws: seq<Complex>, q: nat): Complex
    requires p.S >= 1 && p.d >= 1 && q <= OutputCount(p, |ws|)
  {
    if q == 0 then ONE
    else Mul(Rotator(p, ws, q - 1), Pow(ws[OutputPacket(p, q - 1, |ws|)], p.d))
  }

  /** The window at position `at`, mixed by what stands at u at its first sample and turns by w every sample, then
      filtered with real taps. */
  function LowPassFrom(x: seq<Complex>, half: nat, u: Complex, w: Complex, at: nat, h: seq<real>, n: nat): Complex
    requires n <= |h|
  {
    if n == 0 then ZERO
    else
      Add(LowPassFrom(x, half, u, w, at, h, n - 1),
          Scale(h[n - 1], Mul(Mul(u, Pow(w, n - 1)), PadAt(x, half, at + n - 1))))
  }

  /** In each packet the simple form at that packet's taps and rotation, times a unit that carries over (see
      PiecewiseIsCarried in XlateLimits). This is not one mixed stream: windows of two packets that overlap mix
      the samples they share each in their own way (see Mixing). */
  function Piecewise(p: Shape, x: seq<Complex>, plans: seq<Plan>): (y: seq<Complex>)
    requires p.S >= 1 && p.d >= 1
    ensures |y| == OutputCount(p, |plans|)
  {
    seq(OutputCount(p, |plans|), q requires 0 <= q < OutputCount(p, |plans|) => PiecewiseAt(p, x, plans, q))
  }

  function PiecewiseAt(p: Shape, x: seq<Complex>, plans: seq<Plan>, q: nat): Complex
    requires p.S >= 1 && p.d >= 1 && q < OutputCount(p, |plans|)
  {
    var plan := plans[OutputPacket(p, q, |plans|)];
    LowPassFrom(x, p.half, Rotator(p, Rotations(plans), q), plan.w, Times(q, p.d), plan.h, |plan.h|)
  }

  function Rotations(plans: seq<Plan>): (ws: seq<Complex>)
    ensures |ws| == |plans| && forall n :: 0 <= n < |plans| ==> ws[n] == plans[n].w
  {
    seq(|plans|, n requires 0 <= n < |plans| => plans[n].w)
  }

  /** One rotation throughout. */
  function Steady(hs: seq<seq<real>>, w: Complex): (plans: seq<Plan>)
    ensures |plans| == |hs| && forall n :: 0 <= n < |hs| ==> plans[n] == Plan(hs[n], w)
  {
    seq(|hs|, n requires 0 <= n < |hs| => Plan(hs[n], w))
  }

  // ---- the fast form

  /** Outputs a packet contributes: the grid positions inside it. */
  function Emitted(p: Shape, n: nat): nat
    requires p.d >= 1
  {
    CountMonotone(Times(n, p.S), NextStart(p, n), p.d);
    Count(NextStart(p, n), p.d) - Count(Times(n, p.S), p.d)
  }

  function NextStart(p: Shape, n: nat): (m: nat)
    ensures m == Times(n + 1, p.S) == Times(n, p.S) + p.S
  {
    NextMultiple(n, p.S);
    Times(n, p.S) + p.S
  }

  /** The rotator's phase once the packets with these settings have been processed. */
  function PhaseAfter(p: Shape, cfgs: seq<Setting>): Complex
    requires p.d >= 1
  {
    if cfgs == [] then ONE else
      var n := |cfgs| - 1;
      Mul(PhaseAfter(p, cfgs[..n]), Pow(Pow(cfgs[n].rotate, p.d), Emitted(p, n)))
  }

  /** Output k of packet n; x is the stream up to and including that packet. */
  function PacketSample(p: Shape, x: seq<Complex>, first: nat, k: nat, cfg: Setting, phase: Complex): Complex {
    Mul(FirAt(x, p.half, Times(first + k, p.d), cfg.taps), Mul(phase, Pow(Pow(cfg.rotate, p.d), k)))
  }

  function PacketOut(p: Shape, x: seq<Complex>, cfg: Setting, n: nat, phase: Complex): (y: seq<Complex>)
    requires p.d >= 1
    ensures |y| == Emitted(p, n)
  {
    seq(Emitted(p, n), k requires 0 <= k < Emitted(p, n) =>
      PacketSample(p, x, Count(Times(n, p.S), p.d), k, cfg, phase))
  }

  /** Everything the worker has put out after |cfgs| packets of the stream x. */
  function Outputs(p: Shape, x: seq<Complex>, cfgs: seq<Setting>): (y: seq<Complex>)
    requires p.d >= 1 && |x| == Times(|cfgs|, p.S)
    ensures |y| == Count(|x|, p.d)
    decreases |cfgs|
  {
    if cfgs == [] then CountUnique(0, p.d, 0); [] else
      var n := |cfgs| - 1;
      assert NextStart(p, n) == |x|;
      Outputs(p, x[..Times(n, p.S)], cfgs[..n]) + PacketOut(p, x, cfgs[n], n, PhaseAfter(p, cfgs[..n]))
  }

  /** The worker's rotations. */
  function RotationsIn(cfgs: seq<Setting>): (ws: seq<Complex>)
    ensures |ws| == |cfgs| && forall n :: 0 <= n < |cfgs| ==> ws[n] == cfgs[n].rotate
  {
    seq(|cfgs|, n requires 0 <= n < |cfgs| => cfgs[n].rotate)
  }

  /** The settings that follow a plan: each packet's taps rotated by its own rotation. */
  function Settings(plans: seq<Plan>): (cfgs: seq<Setting>)
    ensures |cfgs| == |plans|
    ensures forall n :: 0 <= n < |plans| ==> cfgs[n] == Setting(RotateTaps(plans[n].h, plans[n].w), plans[n].w)
  {
    seq(|plans|, n requires 0 <= n < |plans| => Setting(RotateTaps(plans[n].h, plans[n].w), plans[n].w))
  }

  // ---- one position: rotating the taps is mixing the stream

  lemma {:induction false} RotatingTapsIsMixing(
    x: seq<Complex>, half: nat, u: Complex, w: Complex, at: nat, h: seq<real>, n: nat)
    requires n <= |h|
    ensures Mul(u, Fir(x, half, at, RotateTaps(h, w), n)) == LowPassFrom(x, half, u, w, at, h, n)
  {
    hide Mul, Scale, Add, Pow, PadAt;
    if n == 0 {
      MulZero(u);
    } else {
      var j := n - 1;
      var taps := RotateTaps(h, w);
      RotatingTapsIsMixing(x, half, u, w, at, h, j);
      MulDistributes(u, Fir(x, half, at, taps, j), Mul(PadAt(x, half, at + j), taps[j]));
      TapTerm(u, Pow(w, j), h[j], PadAt(x, half, at + j));
    }
  }

  /** u * (x * (t * v)) == t * ((u * v) * x) */
  lemma TapTerm(u: Complex, v: Complex, t: real, x: Complex)
    ensures Mul(u, Mul(x, Scale(t, v))) == Scale(t, Mul(Mul(u, v), x))
  {
    MulScale(t, x, v);
    MulScale(t, u, Mul(x, v));
    MulCommutes(x, v);
    MulAssociates(u, v, x);
  }

  // ---- the rotator

  /** With one rotation throughout it stands at w to the position. */
  lemma {:induction false} RotatorIsPower(p: Shape, ws: seq<Complex>, w: Complex, q: nat)
    requires p.S >= 1 && p.d >= 1 && q <= OutputCount(p, |ws|)
    requires forall n :: 0 <= n < |ws| ==> ws[n] == w
    ensures Rotator(p, ws, q) == Pow(w, Times(q, p.d))
  {
    hide Mul, Times, OutputCount, OutputPacket;
    if q == 0 {
      NoneBelowZero(p.d, p.d);
    } else {
      RotatorIsPower(p, ws, w, q - 1);
      NextMultiple(q - 1, p.d);
      PowAdd(w, Times(q - 1, p.d), p.d);
    }
  }

  /** Then the phase-continuous form is the textbook form. */
  lemma PiecewiseIsSimple(p: Shape, x: seq<Complex>, hs: seq<seq<real>>, w: Complex)
    requires p.S >= 1 && p.d >= 1
    ensures Piecewise(p, x, Steady(hs, w)) == Simple(p, x, hs, w)
  {
    hide OutputCount, OutputPacket, Times, LowPass, LowPassFrom, Rotator;
    var plans := Steady(hs, w);
    forall q | 0 <= q < OutputCount(p, |hs|) ensures PiecewiseAt(p, x, plans, q) == SimpleAt(p, x, hs, w, q) {
      RotatorIsPower(p, Rotations(plans), w, q);
      var h := hs[OutputPacket(p, q, |hs|)];
      SameLowPass(x, p.half, w, Times(q, p.d), h, |h|);
    }
  }

  lemma {:induction false} SameLowPass(x: seq<Complex>, half: nat, w: Complex, at: nat, h: seq<real>, n: nat)
    requires n <= |h|
    ensures LowPassFrom(x, half, Pow(w, at), w, at, h, n) == LowPass(x, half, w, at, h, n)
  {
    hide Mul, Add, Scale, PadAt;
    if n != 0 {
      SameLowPass(x, half, w, at, h, n - 1);
      PowAdd(w, at, n - 1);
    }
  }

  /** It only depends on the packets before. */
  lemma {:induction false} RotatorStable(p: Shape, ws: seq<Complex>, m: nat, q: nat)
    requires p.S >= 1 && p.d >= 1 && m <= |ws| && q <= OutputCount(p, m)
    ensures q <= OutputCount(p, |ws|)
    ensures Rotator(p, ws[..m], q) == Rotator(p, ws, q)
  {
    OutputCountMonotone(p, m, |ws|);
    hide Mul, Times, OutputCount;
    if q != 0 {
      RotatorStable(p, ws, m, q - 1);
      OutputPacketUnique(p, q - 1, |ws|, OutputPacket(p, q - 1, m));
    }
  }

  /** Inside a packet it turns by its rotation to the d at every output. */
  lemma {:induction false} RotatorInside(p: Shape, ws: seq<Complex>, n: nat, k: nat)
    requires p.S >= 1 && p.d >= 1 && n < |ws| && OutputCount(p, n) + k <= OutputCount(p, n + 1)
    ensures OutputCount(p, n + 1) <= OutputCount(p, |ws|)
    ensures Rotator(p, ws, OutputCount(p, n) + k)
            == Mul(Rotator(p, ws, OutputCount(p, n)), Pow(Pow(ws[n], p.d), k))
  {
    hide Times, OutputCount, Mul, Pow;
    OutputCountMonotone(p, n + 1, |ws|);
    var u := Rotator(p, ws, OutputCount(p, n));
    PowZero(Pow(ws[n], p.d));
    MulOne(u);
    if k != 0 {
      RotatorInside(p, ws, n, k - 1);
      OutputPacketUnique(p, OutputCount(p, n) + k - 1, |ws|, n);
      MulAssociates(u, Pow(Pow(ws[n], p.d), k - 1), Pow(ws[n], p.d));
      PowNext(Pow(ws[n], p.d), k - 1);
    }
  }

  lemma PowZero(w: Complex)
    ensures Pow(w, 0) == ONE
  {
  }

  lemma PowNext(w: Complex, k: nat)
    ensures Pow(w, k + 1) == Mul(Pow(w, k), w)
  {
  }

  lemma MulOne(a: Complex)
    ensures Mul(a, ONE) == a == Mul(ONE, a)
  {
  }

  lemma {:induction false} RotatorUnit(p: Shape, ws: seq<Complex>, q: nat)
    requires p.S >= 1 && p.d >= 1 && q <= OutputCount(p, |ws|)
    requires forall n :: 0 <= n < |ws| ==> Unit(ws[n])
    ensures Unit(Rotator(p, ws, q))
  {
    OneIsUnit();
    hide Mul, Unit, Times, OutputCount, OutputPacket;
    if q != 0 {
      RotatorUnit(p, ws, q - 1);
      var w := ws[OutputPacket(p, q - 1, |ws|)];
      UnitPow(w, p.d);
      UnitMul(Rotator(p, ws, q - 1), Pow(w, p.d));
    }
  }

  lemma OneIsUnit()
    ensures Unit(ONE)
  {
  }

  // ---- the worker's phase is the rotator

  /** The phase the worker carries out of its packets is where the rotator stands at the next output. */
  lemma {:induction false} PhaseIsRotator(p: Shape, cfgs: seq<Setting>)
    requires p.S >= 1 && p.d >= 1
    ensures PhaseAfter(p, cfgs) == Rotator(p, RotationsIn(cfgs), OutputCount(p, |cfgs|))
  {
    hide Mul, Times, Pow, OutputCount;
    if cfgs == [] {
      NoOutputs(p);
    } else {
      var n := |cfgs| - 1;
      var ws := RotationsIn(cfgs);
      PhaseIsRotator(p, cfgs[..n]);
      assert RotationsIn(cfgs[..n]) == ws[..n];
      RotatorStable(p, ws, n, OutputCount(p, n));
      EmittedCount(p, n);
      RotatorInside(p, ws, n, Emitted(p, n));
    }
  }

  lemma NoneBelowZero(S: nat, d: nat)
    requires d >= 1
    ensures Times(0, S) == 0 == Count(0, d)
  {
    CountUnique(0, d, 0);
  }

  lemma NoOutputs(p: Shape)
    requires p.d >= 1
    ensures OutputCount(p, 0) == 0
  {
    NoneBelowZero(p.S, p.d);
  }

  lemma EmittedCount(p: Shape, n: nat)
    requires p.d >= 1
    ensures OutputCount(p, n + 1) == OutputCount(p, n) + Emitted(p, n)
  {
    assert NextStart(p, n) == Times(n + 1, p.S);
  }

  // ---- the worker's output

  /** Output q of any schedule of settings: the dot product over the stream up to and including its packet,
      times the rotator. */
  lemma {:induction false} OutputAt(p: Shape, x: seq<Complex>, cfgs: seq<Setting>, q: nat)
    requires p.S >= 1 && p.d >= 1 && |x| == Times(|cfgs|, p.S) && q < OutputCount(p, |cfgs|)
    ensures var n := OutputPacket(p, q, |cfgs|);
            && NextStart(p, n) <= |x|
            && Outputs(p, x, cfgs)[q]
               == Mul(FirAt(x[..NextStart(p, n)], p.half, Times(q, p.d), cfgs[n].taps),
                      Rotator(p, RotationsIn(cfgs), q))
    decreases |cfgs|
  {
    hide Mul, Times, Pow, OutputCount, FirAt, Rotator, PhaseAfter, Emitted, Outputs;
    NoOutputs(p);
    var m := |cfgs| - 1;
    LastPacket(p, x, cfgs, q);
    if q < OutputCount(p, m) {
      OutputAt(p, x[..Times(m, p.S)], cfgs[..m], q);
      OutputEarlier(p, x, cfgs, q);
    } else {
      OutputPacketUnique(p, q, |cfgs|, m);
      assert x[..|x|] == x;
      LastOutput(p, cfgs, q - OutputCount(p, m));
    }
  }

  /** The outputs of the last packet follow those of the packets before it. */
  lemma OutputsSplit(p: Shape, x: seq<Complex>, cfgs: seq<Setting>)
    requires p.d >= 1 && |x| == Times(|cfgs|, p.S) && |cfgs| >= 1
    ensures var m := |cfgs| - 1;
            && Times(m, p.S) <= |x| == NextStart(p, m)
            && Outputs(p, x, cfgs)
               == Outputs(p, x[..Times(m, p.S)], cfgs[..m]) + PacketOut(p, x, cfgs[m], m, PhaseAfter(p, cfgs[..m]))
  {
    hide Times, PacketOut, PhaseAfter, Count;
    assert NextStart(p, |cfgs| - 1) == |x|;
  }

  lemma LastPacket(p: Shape, x: seq<Complex>, cfgs: seq<Setting>, q: nat)
    requires p.d >= 1 && |x| == Times(|cfgs|, p.S) && |cfgs| >= 1 && q < OutputCount(p, |cfgs|)
    ensures Times(|cfgs| - 1, p.S) <= |x| == NextStart(p, |cfgs| - 1)
    ensures var m := |cfgs| - 1;
            Outputs(p, x, cfgs)[q]
            == if q < OutputCount(p, m) then Outputs(p, x[..Times(m, p.S)], cfgs[..m])[q]
               else PacketSample(p, x, OutputCount(p, m), q - OutputCount(p, m), cfgs[m], PhaseAfter(p, cfgs[..m]))
  {
    hide Times, PacketSample, PhaseAfter, Emitted, Count, Outputs;
    OutputsSplit(p, x, cfgs);
    EmittedCount(p, |cfgs| - 1);
  }

  lemma OutputEarlier(p: Shape, x: seq<Complex>, cfgs: seq<Setting>, q: nat)
    requires p.S >= 1 && p.d >= 1 && |x| == Times(|cfgs|, p.S) && |cfgs| >= 1 && q < OutputCount(p, |cfgs| - 1)
    ensures var m := |cfgs| - 1;
            && q < OutputCount(p, |cfgs|) && Times(m, p.S) <= |x|
            && var n := OutputPacket(p, q, m);
               && OutputPacket(p, q, |cfgs|) == n
               && (NextStart(p, n) <= Times(m, p.S) ==> x[..Times(m, p.S)][..NextStart(p, n)] == x[..NextStart(p, n)])
               && Rotator(p, RotationsIn(cfgs[..m]), q) == Rotator(p, RotationsIn(cfgs), q)
  {
    hide Mul, Times, Pow, OutputCount, Rotator;
    var m := |cfgs| - 1;
    OutputCountMonotone(p, m, |cfgs|);
    assert NextStart(p, m) == |x|;
    OutputPacketUnique(p, q, |cfgs|, OutputPacket(p, q, m));
    assert RotationsIn(cfgs[..m]) == RotationsIn(cfgs)[..m];
    RotatorStable(p, RotationsIn(cfgs), m, q);
  }

  lemma LastOutput(p: Shape, cfgs: seq<Setting>, k: nat)
    requires p.S >= 1 && p.d >= 1 && |cfgs| >= 1
    requires OutputCount(p, |cfgs| - 1) + k < OutputCount(p, |cfgs|)
    ensures var m := |cfgs| - 1;
            Mul(PhaseAfter(p, cfgs[..m]), Pow(Pow(cfgs[m].rotate, p.d), k))
            == Rotator(p, RotationsIn(cfgs), OutputCount(p, m) + k)
  {
    hide Mul, Times, Pow, OutputCount, PhaseAfter;
    var m := |cfgs| - 1;
    PhaseIsRotator(p, cfgs[..m]);
    assert RotationsIn(cfgs[..m]) == RotationsIn(cfgs)[..m];
    RotatorStable(p, RotationsIn(cfgs), m, OutputCount(p, m));
    RotatorInside(p, RotationsIn(cfgs), m, k);
  }
}
