/** One mixed stream: when the output of a channel whose rotation changes is that of a single mixer that runs at
    full rate in front of the low-pass. */
module Mixing {
  import opened ComplexNumbers
  import opened Decimation
  import opened XlateSpec
  import opened XlateLimits

  /** The rotation in force at a position of the stream: its packet's, or the last packet's past the end. */
  function RotationAt(p: Shape, ws: seq<Complex>, k: nat): Complex
    requires p.S >= 1 && ws != []
  {
    if k < Times(|ws|, p.S) then ws[PacketOf(p, k, |ws|)] else ws[|ws| - 1]
  }

  /** A full-rate oscillator: it starts at 1 and turns at every position by the rotation in force there. */
  function Oscillator(p: Shape, ws: seq<Complex>, k: nat): Complex
    requires p.S >= 1 && ws != []
  {
    if k == 0 then ONE else Mul(Oscillator(p, ws, k - 1), RotationAt(p, ws, k - 1))
  }

  /** The delayed stream, mixed by the oscillator and filtered with real taps, at position `at`. */
  function MixedLowPass(p: Shape, x: seq<Complex>, ws: seq<Complex>, at: nat, h: seq<real>, n: nat): Complex
    requires p.S >= 1 && ws != [] && n <= |h|
  {
    if n == 0 then ZERO
    else
      Add(MixedLowPass(p, x, ws, at, h, n - 1),
          Scale(h[n - 1], Mul(Oscillator(p, ws, at + n - 1), PadAt(x, p.half, at + n - 1))))
  }

  /** Keep positions 0, d, 2d, ... of the one mixed stream; each uses the real taps in force for its packet. */
  function OneMixer(p: Shape, x: seq<Complex>, plans: seq<Plan>): (y: seq<Complex>)
    requires p.S >= 1 && p.d >= 1
    ensures |y| == OutputCount(p, |plans|)
  {
    seq(OutputCount(p, |plans|), q requires 0 <= q < OutputCount(p, |plans|) => OneMixerAt(p, x, plans, q))
  }

  function OneMixerAt(p: Shape, x: seq<Complex>, plans: seq<Plan>, q: nat): Complex
    requires p.S >= 1 && p.d >= 1 && q < OutputCount(p, |plans|)
  {
    var h := plans[OutputPacket(p, q, |plans|)].h;
    MixedLowPass(p, x, Rotations(plans), Times(q, p.d), h, |h|)
  }

  // ---- with one rotation it is the textbook form

  lemma {:induction false} OscillatorIsPower(p: Shape, ws: seq<Complex>, w: Complex, k: nat)
    requires p.S >= 1 && ws != [] && forall n :: 0 <= n < |ws| ==> ws[n] == w
    ensures Oscillator(p, ws, k) == Pow(w, k)
  {
    hide Mul, Times;
    if k != 0 {
      OscillatorIsPower(p, ws, w, k - 1);
    }
  }

  lemma {:induction false} MixedIsLowPass(
    p: Shape, x: seq<Complex>, ws: seq<Complex>, w: Complex, at: nat, h: seq<real>, n: nat)
    requires p.S >= 1 && ws != [] && n <= |h| && forall n :: 0 <= n < |ws| ==> ws[n] == w
    ensures MixedLowPass(p, x, ws, at, h, n) == LowPass(x, p.half, w, at, h, n)
  {
    hide Mul, Add, Scale, PadAt, Pow, Oscillator;
    if n != 0 {
      MixedIsLowPass(p, x, ws, w, at, h, n - 1);
      OscillatorIsPower(p, ws, w, at + n - 1);
    }
  }

  lemma OneMixerIsSimple(p: Shape, x: seq<Complex>, hs: seq<seq<real>>, w: Complex)
    requires p.S >= 1 && p.d >= 1
    ensures OneMixer(p, x, Steady(hs, w)) == Simple(p, x, hs, w)
  {
    hide OutputCount, OutputPacket, Times, LowPass, MixedLowPass;
    var plans := Steady(hs, w);
    forall q | 0 <= q < OutputCount(p, |hs|) ensures OneMixerAt(p, x, plans, q) == SimpleAt(p, x, hs, w, q) {
      var h := hs[OutputPacket(p, q, |hs|)];
      MixedIsLowPass(p, x, Rotations(plans), w, Times(q, p.d), h, |h|);
    }
  }

  // ---- both forms as dot products

  /** The taps that mix and low-pass the window at position `at`. */
  function MixTaps(p: Shape, ws: seq<Complex>, at: nat, h: seq<real>): (taps: seq<Complex>)
    requires p.S >= 1 && ws != []
    ensures |taps| == |h| && forall j :: 0 <= j < |h| ==> taps[j] == Scale(h[j], Oscillator(p, ws, at + j))
  {
    seq(|h|, j requires 0 <= j < |h| => Scale(h[j], Oscillator(p, ws, at + j)))
  }

  function Turned(u: Complex, taps: seq<Complex>): (turned: seq<Complex>)
    ensures |turned| == |taps| && forall j :: 0 <= j < |taps| ==> turned[j] == Mul(u, taps[j])
  {
    seq(|taps|, j requires 0 <= j < |taps| => Mul(u, taps[j]))
  }

  lemma {:induction false} MixedIsFir(p: Shape, x: seq<Complex>, ws: seq<Complex>, at: nat, h: seq<real>, n: nat)
    requires p.S >= 1 && ws != [] && n <= |h|
    ensures MixedLowPass(p, x, ws, at, h, n) == Fir(x, p.half, at, MixTaps(p, ws, at, h), n)
  {
    hide Mul, Add, Scale, PadAt, Oscillator;
    if n != 0 {
      MixedIsFir(p, x, ws, at, h, n - 1);
      var o, s := Oscillator(p, ws, at + n - 1), PadAt(x, p.half, at + n - 1);
      MulScale(h[n - 1], s, o);
      MulCommutes(s, o);
    }
  }

  lemma {:induction false} TurnedFir(x: seq<Complex>, half: nat, at: nat, u: Complex, taps: seq<Complex>, n: nat)
    requires n <= |taps|
    ensures Mul(u, Fir(x, half, at, taps, n)) == Fir(x, half, at, Turned(u, taps), n)
  {
    hide Mul, Add, PadAt;
    if n == 0 {
      MulZero(u);
    } else {
      var s := PadAt(x, half, at + n - 1);
      TurnedFir(x, half, at, u, taps, n - 1);
      MulDistributes(u, Fir(x, half, at, taps, n - 1), Mul(s, taps[n - 1]));
      MulAssociates(u, s, taps[n - 1]);
      MulCommutes(u, s);
      MulAssociates(s, u, taps[n - 1]);
    }
  }

  // ---- exactly when they agree

  /** At output q the worker's taps, turned by its rotator, do to the samples that are there what mixing and
      low-passing does to all. */
  ghost predicate OutputMixed(p: Shape, cfgs: seq<Setting>, plans: seq<Plan>, q: nat)
    requires p.S >= 1 && p.d >= 1 && |plans| == |cfgs| && q < OutputCount(p, |cfgs|)
  {
    var n := OutputPacket(p, q, |cfgs|);
    SameEffect(p.half, Times(q, p.d), Turned(Rotator(p, RotationsIn(cfgs), q), cfgs[n].taps), NextStart(p, n),
               MixTaps(p, Rotations(plans), Times(q, p.d), plans[n].h), Times(|cfgs|, p.S))
  }

  /** Output q of one stream. */
  predicate SameOutput(p: Shape, x: seq<Complex>, cfgs: seq<Setting>, plans: seq<Plan>, q: nat)
    requires p.S >= 1 && p.d >= 1 && |plans| == |cfgs| && q < OutputCount(p, |cfgs|) && |x| == Times(|cfgs|, p.S)
  {
    Outputs(p, x, cfgs)[q] == OneMixer(p, x, plans)[q]
  }

  lemma OutputMixedExact(p: Shape, cfgs: seq<Setting>, plans: seq<Plan>, q: nat)
    requires p.S >= 1 && p.d >= 1 && |plans| == |cfgs| && q < OutputCount(p, |cfgs|)
    ensures (forall x: seq<Complex> :: |x| == Times(|cfgs|, p.S) ==> SameOutput(p, x, cfgs, plans, q))
            <==> OutputMixed(p, cfgs, plans, q)
  {
    hide Times, OutputCount, OutputPacket, SameOutput, Fir, SameEffect, Turned, MixTaps, Rotator;
    var n, at, len := OutputPacket(p, q, |cfgs|), Times(q, p.d), Times(|cfgs|, p.S);
    StreamBound(p, n, |cfgs|);
    var taps := Turned(Rotator(p, RotationsIn(cfgs), q), cfgs[n].taps);
    var wanted := MixTaps(p, Rotations(plans), at, plans[n].h);
    DotProductsExact(p.half, at, taps, NextStart(p, n), wanted, len);
    forall x: seq<Complex> | |x| == len
      ensures SameOutput(p, x, cfgs, plans, q)
              <==> FirAt(x[..NextStart(p, n)], p.half, at, taps) == FirAt(x, p.half, at, wanted)
    {
      OutputAsDotProducts(p, x, cfgs, plans, q);
    }
  }

  lemma OutputAsDotProducts(p: Shape, x: seq<Complex>, cfgs: seq<Setting>, plans: seq<Plan>, q: nat)
    requires p.S >= 1 && p.d >= 1 && |plans| == |cfgs| && q < OutputCount(p, |cfgs|) && |x| == Times(|cfgs|, p.S)
    ensures var n := OutputPacket(p, q, |cfgs|);
            && NextStart(p, n) <= |x|
            && (SameOutput(p, x, cfgs, plans, q)
                <==> FirAt(x[..NextStart(p, n)], p.half, Times(q, p.d),
                           Turned(Rotator(p, RotationsIn(cfgs), q), cfgs[n].taps))
                     == FirAt(x, p.half, Times(q, p.d), MixTaps(p, Rotations(plans), Times(q, p.d), plans[n].h)))
  {
    hide Times, OutputCount, OutputPacket, Outputs, Fir, Rotator, MixedLowPass, Mul;
    var n, at := OutputPacket(p, q, |cfgs|), Times(q, p.d);
    var u := Rotator(p, RotationsIn(cfgs), q);
    OutputAt(p, x, cfgs, q);
    var seen := x[..NextStart(p, n)];
    TurnedFir(seen, p.half, at, u, cfgs[n].taps, |cfgs[n].taps|);
    MulCommutes(u, FirAt(seen, p.half, at, cfgs[n].taps));
    MixedIsFir(p, x, Rotations(plans), at, plans[n].h, |plans[n].h|);
  }

  /** For every run of a worker, whatever its taps and rotations packet by packet: on every stream its output is
      the stream mixed by one full-rate oscillator, low-passed with the planned taps and decimated, if and only if
      at every grid position taps and rotator together are the mixer's. */
  lemma OneMixerExact(p: Shape, cfgs: seq<Setting>, plans: seq<Plan>)
    requires p.S >= 1 && p.d >= 1 && |plans| == |cfgs|
    ensures (forall x: seq<Complex> :: |x| == Times(|cfgs|, p.S) ==> Outputs(p, x, cfgs) == OneMixer(p, x, plans))
            <==> forall q: nat :: q < OutputCount(p, |cfgs|) ==> OutputMixed(p, cfgs, plans, q)
  {
    hide Times, OutputMixed, SameOutput, OutputCount, Outputs, OneMixer;
    if forall q: nat :: q < OutputCount(p, |cfgs|) ==> OutputMixed(p, cfgs, plans, q) {
      forall x: seq<Complex> | |x| == Times(|cfgs|, p.S) ensures Outputs(p, x, cfgs) == OneMixer(p, x, plans) {
        forall q: nat | q < OutputCount(p, |cfgs|) ensures SameOutput(p, x, cfgs, plans, q) {
          OutputMixedExact(p, cfgs, plans, q);
        }
        SameOutputs(p, x, cfgs, plans);
      }
    } else {
      var q: nat :| q < OutputCount(p, |cfgs|) && !OutputMixed(p, cfgs, plans, q);
      OutputMixedExact(p, cfgs, plans, q);
      var x: seq<Complex> :| |x| == Times(|cfgs|, p.S) && !SameOutput(p, x, cfgs, plans, q);
      SameOutputs(p, x, cfgs, plans);
    }
  }

  lemma SameOutputs(p: Shape, x: seq<Complex>, cfgs: seq<Setting>, plans: seq<Plan>)
    requires p.S >= 1 && p.d >= 1 && |plans| == |cfgs| && |x| == Times(|cfgs|, p.S)
    ensures Outputs(p, x, cfgs) == OneMixer(p, x, plans)
            <==> forall q: nat :: q < OutputCount(p, |cfgs|) ==> SameOutput(p, x, cfgs, plans, q)
  {
    hide Times, Count, OneMixerAt, PacketOut, PhaseAfter;
    var y, z := Outputs(p, x, cfgs), OneMixer(p, x, plans);
    assert |y| == |z| == OutputCount(p, |cfgs|);
    if forall q: nat :: q < OutputCount(p, |cfgs|) ==> SameOutput(p, x, cfgs, plans, q) {
      forall q: nat | q < |y| ensures y[q] == z[q] {
        assert SameOutput(p, x, cfgs, plans, q);
      }
    }
  }

  // ---- with taps rotated as planned

  lemma {:induction false} OscillatorUnit(p: Shape, ws: seq<Complex>, k: nat)
    requires p.S >= 1 && ws != [] && forall n :: 0 <= n < |ws| ==> Unit(ws[n])
    ensures Unit(Oscillator(p, ws, k))
  {
    OneIsUnit();
    hide Mul, Unit, Times;
    if k != 0 {
      OscillatorUnit(p, ws, k - 1);
      UnitMul(Oscillator(p, ws, k - 1), RotationAt(p, ws, k - 1));
    }
  }

  /** At output q every tap but zeros that meets a sample is mixed, by the packet's own rotation from where the
      rotator stands, as the oscillator mixes that sample. */
  ghost predicate KeepsStep(p: Shape, plans: seq<Plan>, q: nat)
    requires p.S >= 1 && p.d >= 1 && q < OutputCount(p, |plans|)
  {
    var plan, ws := plans[OutputPacket(p, q, |plans|)], Rotations(plans);
    forall j: nat :: j < |plan.h| && Met(p, |plans|, q, j) && plan.h[j] != 0.0 ==>
      Mul(Rotator(p, ws, q), Pow(plan.w, j)) == Oscillator(p, ws, Times(q, p.d) + j)
  }

  lemma SameScale(t: real, a: Complex, b: Complex)
    ensures Scale(t, a) == Scale(t, b) <==> t == 0.0 || a == b
  {
    if Scale(t, a) == Scale(t, b) && t != 0.0 {
      ScaleCancels(t, a, b);
    }
  }

  /** What the taps of output q do, tap by tap. */
  ghost predicate TapByTap(p: Shape, plans: seq<Plan>, q: nat, taps: seq<Complex>, wanted: seq<Complex>)
    requires p.S >= 1 && p.d >= 1 && q < OutputCount(p, |plans|)
  {
    var n, at, ws := OutputPacket(p, q, |plans|), Times(q, p.d), Rotations(plans);
    var h, w, u := plans[n].h, plans[n].w, Rotator(p, ws, q);
    && |taps| == |h| == |wanted|
    && (forall j: nat :: j < |h| ==>
          && (taps[j] == wanted[j] <==> h[j] == 0.0 || Mul(u, Pow(w, j)) == Oscillator(p, ws, at + j))
          && (wanted[j] == ZERO <==> h[j] == 0.0))
  }

  lemma MixedFits(p: Shape, plans: seq<Plan>, q: nat, taps: seq<Complex>, wanted: seq<Complex>)
    requires p.S >= 1 && p.d >= 1 && q < OutputCount(p, |plans|) && TapByTap(p, plans, q, taps, wanted)
    requires var n := OutputPacket(p, q, |plans|);
             SameEffect(p.half, Times(q, p.d), taps, NextStart(p, n), wanted, Times(|plans|, p.S))
    ensures FitsAt(p, Taps(plans), q) && KeepsStep(p, plans, q)
  {
    hide Times, OutputCount, OutputPacket, Pow, Mul, Rotator, Oscillator, TapOn;
    var n, at := OutputPacket(p, q, |plans|), Times(q, p.d);
    var h := plans[n].h;
    StreamBound(p, n, |plans|);
    forall j: nat | j < |h| && Late(p, |plans|, q, j) ensures h[j] == 0.0 {
      TapMeets(wanted, p.half, at, at + j - p.half);
    }
    forall j: nat | j < |h| && Met(p, |plans|, q, j) ensures taps[j] == wanted[j] {
      TapMeets(taps, p.half, at, at + j - p.half);
      TapMeets(wanted, p.half, at, at + j - p.half);
    }
  }

  lemma FitsMixed(p: Shape, plans: seq<Plan>, q: nat, taps: seq<Complex>, wanted: seq<Complex>)
    requires p.S >= 1 && p.d >= 1 && q < OutputCount(p, |plans|) && TapByTap(p, plans, q, taps, wanted)
    requires FitsAt(p, Taps(plans), q) && KeepsStep(p, plans, q)
    ensures var n := OutputPacket(p, q, |plans|);
            SameEffect(p.half, Times(q, p.d), taps, NextStart(p, n), wanted, Times(|plans|, p.S))
  {
    hide Times, OutputCount, OutputPacket, Pow, Mul, Rotator, Oscillator, TapOn;
    var n, at, len := OutputPacket(p, q, |plans|), Times(q, p.d), Times(|plans|, p.S);
    var h := plans[n].h;
    forall i: nat | i < len
      ensures (if i < NextStart(p, n) then TapOn(taps, p.half, at, i) else ZERO) == TapOn(wanted, p.half, at, i)
    {
      TapMeets(taps, p.half, at, i);
      TapMeets(wanted, p.half, at, i);
      if at <= i + p.half < at + |h| {
        var j: nat := i + p.half - at;
        if i < NextStart(p, n) {
          assert Met(p, |plans|, q, j);
        } else {
          assert Late(p, |plans|, q, j);
        }
      }
    }
  }

  lemma PlanTaps(p: Shape, plans: seq<Plan>, q: nat)
    requires p.S >= 1 && p.d >= 1 && q < OutputCount(p, |plans|) && forall n :: 0 <= n < |plans| ==> Unit(plans[n].w)
    ensures var n, ws := OutputPacket(p, q, |plans|), Rotations(plans);
            TapByTap(p, plans, q, Turned(Rotator(p, ws, q), RotateTaps(plans[n].h, plans[n].w)),
                     MixTaps(p, ws, Times(q, p.d), plans[n].h))
  {
    hide Times, OutputCount, OutputPacket, Scale, Pow, Unit, Mul, Rotator, Oscillator;
    var n, at, ws := OutputPacket(p, q, |plans|), Times(q, p.d), Rotations(plans);
    var h, w, u := plans[n].h, plans[n].w, Rotator(p, ws, q);
    var taps, wanted := Turned(u, RotateTaps(h, w)), MixTaps(p, ws, at, h);
    forall j: nat | j < |h|
      ensures taps[j] == wanted[j] <==> h[j] == 0.0 || Mul(u, Pow(w, j)) == Oscillator(p, ws, at + j)
      ensures wanted[j] == ZERO <==> h[j] == 0.0
    {
      MulScale(h[j], u, Pow(w, j));
      SameScale(h[j], Mul(u, Pow(w, j)), Oscillator(p, ws, at + j));
      OscillatorUnit(p, ws, at + j);
      ZeroTap(h[j], Oscillator(p, ws, at + j));
    }
  }

  lemma PlanMixed(p: Shape, plans: seq<Plan>, q: nat)
    requires p.S >= 1 && p.d >= 1 && q < OutputCount(p, |plans|) && forall n :: 0 <= n < |plans| ==> Unit(plans[n].w)
    ensures OutputMixed(p, Settings(plans), plans, q) <==> FitsAt(p, Taps(plans), q) && KeepsStep(p, plans, q)
  {
    hide Times, OutputCount, OutputPacket, Unit, Rotator, TapByTap, SameEffect, FitsAt, KeepsStep, MixTaps, Turned;
    PlanTaps(p, plans, q);
    var n, ws := OutputPacket(p, q, |plans|), Rotations(plans);
    assert RotationsIn(Settings(plans)) == ws;
    var taps := Turned(Rotator(p, ws, q), RotateTaps(plans[n].h, plans[n].w));
    var wanted := MixTaps(p, ws, Times(q, p.d), plans[n].h);
    if OutputMixed(p, Settings(plans), plans, q) {
      MixedFits(p, plans, q, taps, wanted);
    } else if FitsAt(p, Taps(plans), q) && KeepsStep(p, plans, q) {
      FitsMixed(p, plans, q, taps, wanted);
    }
  }

  /** A worker whose taps are rotated by the rotation in force for their packet puts out the low-passed stream of
      one full-rate mixer if and only if its taps fit and, at every output, every tap but zeros that meets a sample
      mixes it as that mixer does. With one rotation throughout that is always so (OneMixerIsSimple); a window that
      holds samples from both sides of a change of rotation mixes all of them at its own packet's rotation. */
  lemma PlansMixExactly(p: Shape, plans: seq<Plan>)
    requires p.S >= 1 && p.d >= 1 && forall n :: 0 <= n < |plans| ==> Unit(plans[n].w)
    ensures (forall x: seq<Complex> :: |x| == Times(|plans|, p.S) ==>
               Outputs(p, x, Settings(plans)) == OneMixer(p, x, plans))
            <==> Fits(p, Taps(plans)) && forall q: nat :: q < OutputCount(p, |plans|) ==> KeepsStep(p, plans, q)
  {
    hide Times, OutputCount, Outputs, OneMixer, OutputMixed, FitsAt, KeepsStep, Unit;
    OneMixerExact(p, Settings(plans), plans);
    forall q: nat | q < OutputCount(p, |plans|)
      ensures OutputMixed(p, Settings(plans), plans, q) <==> FitsAt(p, Taps(plans), q) && KeepsStep(p, plans, q)
    {
      PlanMixed(p, plans, q);
    }
  }
}
