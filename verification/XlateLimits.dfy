/** Exactly when a channel is what its client asked for: the fast form of XlateSpec against the simple one. */
module XlateLimits {
  import opened ComplexNumbers
  import opened Decimation
  import opened XlateSpec

  // ---- two lists of taps at one position

  /** The tap that meets sample i at position `at`; taps that are not there count as zero. */
  function TapOn(taps: seq<Complex>, half: nat, at: nat, i: nat): Complex {
    if 0 <= i + half - at < |taps| then taps[i + half - at] else ZERO
  }

  /** On a stream of `len` samples of which only the first m are there yet, `taps` does at position `at` what
      `wanted` does on the whole stream. */
  ghost predicate SameEffect(half: nat, at: nat, taps: seq<Complex>, m: nat, wanted: seq<Complex>, len: nat) {
    forall i: nat :: i < len ==> (if i < m then TapOn(taps, half, at, i) else ZERO) == TapOn(wanted, half, at, i)
  }

  /** The dot product over n places, with zeros after the last tap. */
  function FirPadded(x: seq<Complex>, half: nat, at: nat, taps: seq<Complex>, n: nat): Complex {
    if n == 0 then ZERO
    else
      Add(FirPadded(x, half, at, taps, n - 1),
          Mul(PadAt(x, half, at + n - 1), if n - 1 < |taps| then taps[n - 1] else ZERO))
  }

  lemma {:induction false} PaddingIsHarmless(x: seq<Complex>, half: nat, at: nat, taps: seq<Complex>, n: nat)
    ensures n <= |taps| ==> FirPadded(x, half, at, taps, n) == Fir(x, half, at, taps, n)
    ensures n >= |taps| ==> FirPadded(x, half, at, taps, n) == FirAt(x, half, at, taps)
  {
    hide Mul, PadAt;
    if n != 0 {
      PaddingIsHarmless(x, half, at, taps, n - 1);
      MulZero(PadAt(x, half, at + n - 1));
      AddZero(FirPadded(x, half, at, taps, n - 1));
    }
  }

  lemma AddZero(a: Complex)
    ensures Add(a, ZERO) == a
  {
  }

  lemma {:induction false} SameDotProduct(
    x: seq<Complex>, half: nat, at: nat, taps: seq<Complex>, m: nat, wanted: seq<Complex>, n: nat)
    requires m <= |x| && SameEffect(half, at, taps, m, wanted, |x|)
    ensures FirPadded(x[..m], half, at, taps, n) == FirPadded(x, half, at, wanted, n)
  {
    hide Mul, Add;
    if n != 0 {
      SameDotProduct(x, half, at, taps, m, wanted, n - 1);
      var i := at + n - 1 - half;
      MulZero(PadAt(x, half, at + n - 1));
      MulZero(if n - 1 < |taps| then taps[n - 1] else ZERO);
      MulZero(if n - 1 < |wanted| then wanted[n - 1] else ZERO);
      if 0 <= i < |x| {
        assert TapOn(wanted, half, at, i) == if n - 1 < |wanted| then wanted[n - 1] else ZERO;
        assert TapOn(taps, half, at, i) == if n - 1 < |taps| then taps[n - 1] else ZERO;
      }
    }
  }

  /** A one at place i among zeros. */
  function Impulse(len: nat, i: nat): (x: seq<Complex>)
    ensures |x| == len && forall k :: 0 <= k < len ==> x[k] == if k == i then ONE else ZERO
  {
    seq(len, k requires 0 <= k < len => if k == i then ONE else ZERO)
  }

  /** An impulse reads one tap off the filter. */
  lemma {:induction false} ReadTap(len: nat, i: nat, half: nat, at: nat, taps: seq<Complex>, n: nat)
    requires n <= |taps|
    ensures Fir(Impulse(len, i), half, at, taps, n)
            == if i < len && 0 <= i + half - at < n then taps[i + half - at] else ZERO
  {
    if n != 0 {
      ReadTap(len, i, half, at, taps, n - 1);
      MulZero(taps[n - 1]);
      MulOne(taps[n - 1]);
      AddZero(taps[n - 1]);
      var k := at + n - 1;
      assert PadAt(Impulse(len, i), half, k) == if i < len && k == half + i then ONE else ZERO;
    }
  }

  /** On every stream of that length the two dot products agree if and only if the taps have the same effect. */
  lemma DotProductsExact(half: nat, at: nat, taps: seq<Complex>, m: nat, wanted: seq<Complex>, len: nat)
    requires m <= len
    ensures (forall x: seq<Complex> :: |x| == len ==> FirAt(x[..m], half, at, taps) == FirAt(x, half, at, wanted))
            <==> SameEffect(half, at, taps, m, wanted, len)
  {
    hide Fir;
    if SameEffect(half, at, taps, m, wanted, len) {
      forall x: seq<Complex> | |x| == len ensures FirAt(x[..m], half, at, taps) == FirAt(x, half, at, wanted) {
        SameFir(x, half, at, taps, m, wanted);
      }
    } else {
      var i: nat :| i < len && (if i < m then TapOn(taps, half, at, i) else ZERO) != TapOn(wanted, half, at, i);
      Distinguish(half, at, taps, m, wanted, len, i);
    }
  }

  lemma SameFir(x: seq<Complex>, half: nat, at: nat, taps: seq<Complex>, m: nat, wanted: seq<Complex>)
    requires m <= |x| && SameEffect(half, at, taps, m, wanted, |x|)
    ensures FirAt(x[..m], half, at, taps) == FirAt(x, half, at, wanted)
  {
    var n := if |taps| < |wanted| then |wanted| else |taps|;
    SameDotProduct(x, half, at, taps, m, wanted, n);
    PaddingIsHarmless(x[..m], half, at, taps, n);
    PaddingIsHarmless(x, half, at, wanted, n);
  }

  lemma Distinguish(half: nat, at: nat, taps: seq<Complex>, m: nat, wanted: seq<Complex>, len: nat, i: nat)
    requires m <= len && i < len
    requires (if i < m then TapOn(taps, half, at, i) else ZERO) != TapOn(wanted, half, at, i)
    ensures FirAt(Impulse(len, i)[..m], half, at, taps) != FirAt(Impulse(len, i), half, at, wanted)
  {
    hide Fir;
    assert Impulse(len, i)[..m] == Impulse(m, i);
    ReadTap(m, i, half, at, taps, |taps|);
    ReadTap(len, i, half, at, wanted, |wanted|);
  }

  // ---- a whole run

  /** Output q of a worker with these settings is, on every stream, what the plan asks for. */
  ghost predicate OutputAsPlanned(p: Shape, cfgs: seq<Setting>, plans: seq<Plan>, q: nat)
    requires p.S >= 1 && p.d >= 1 && |plans| == |cfgs| && q < OutputCount(p, |cfgs|)
  {
    var n := OutputPacket(p, q, |cfgs|);
    SameEffect(p.half, Times(q, p.d), cfgs[n].taps, NextStart(p, n), RotateTaps(plans[n].h, plans[n].w),
               Times(|cfgs|, p.S))
  }

  ghost predicate AsPlanned(p: Shape, cfgs: seq<Setting>, plans: seq<Plan>)
    requires p.S >= 1 && p.d >= 1 && |plans| == |cfgs|
  {
    forall q: nat :: q < OutputCount(p, |cfgs|) ==> OutputAsPlanned(p, cfgs, plans, q)
  }

  lemma StreamBound(p: Shape, n: nat, packets: nat)
    requires n < packets
    ensures NextStart(p, n) <= Times(packets, p.S)
  {
    MulMonotone(n + 1, packets, p.S);
  }

  lemma PiecewiseOutput(p: Shape, x: seq<Complex>, plans: seq<Plan>, q: nat)
    requires p.S >= 1 && p.d >= 1 && q < OutputCount(p, |plans|)
    ensures var plan := plans[OutputPacket(p, q, |plans|)];
            Piecewise(p, x, plans)[q]
            == Mul(Rotator(p, Rotations(plans), q), FirAt(x, p.half, Times(q, p.d), RotateTaps(plan.h, plan.w)))
  {
    hide Times, OutputCount, OutputPacket, Rotator, LowPassFrom, RotateTaps, Fir, Mul;
    var plan := plans[OutputPacket(p, q, |plans|)];
    RotatingTapsIsMixing(x, p.half, Rotator(p, Rotations(plans), q), plan.w, Times(q, p.d), plan.h, |plan.h|);
  }

  /** One output on one stream. */
  lemma OutputSame(p: Shape, x: seq<Complex>, cfgs: seq<Setting>, plans: seq<Plan>, q: nat)
    requires p.S >= 1 && p.d >= 1 && |plans| == |cfgs| && |x| == Times(|cfgs|, p.S) && q < OutputCount(p, |cfgs|)
    requires RotationsIn(cfgs) == Rotations(plans)
    ensures var n := OutputPacket(p, q, |cfgs|);
            var at := Times(q, p.d);
            && NextStart(p, n) <= |x|
            && var seen := FirAt(x[..NextStart(p, n)], p.half, at, cfgs[n].taps);
               var wanted := FirAt(x, p.half, at, RotateTaps(plans[n].h, plans[n].w));
               && (seen == wanted ==> Outputs(p, x, cfgs)[q] == Piecewise(p, x, plans)[q])
               && (Unit(Rotator(p, RotationsIn(cfgs), q)) && Outputs(p, x, cfgs)[q] == Piecewise(p, x, plans)[q] ==>
                     seen == wanted)
  {
    hide Times, OutputCount, OutputPacket, Rotator, RotateTaps, FirAt, Mul, Unit, Outputs, Piecewise;
    var n := OutputPacket(p, q, |cfgs|);
    StreamBound(p, n, |cfgs|);
    OutputAt(p, x, cfgs, q);
    PiecewiseOutput(p, x, plans, q);
    var u := Rotator(p, RotationsIn(cfgs), q);
    var seen := FirAt(x[..NextStart(p, n)], p.half, Times(q, p.d), cfgs[n].taps);
    var wanted := FirAt(x, p.half, Times(q, p.d), RotateTaps(plans[n].h, plans[n].w));
    MulCommutes(seen, u);
    if Unit(u) && Mul(u, seen) == Mul(u, wanted) {
      CancelUnit(u, seen, wanted);
    }
  }

  /** A worker whose settings have the effect of the plan puts out exactly what was asked for. */
  lemma AsPlannedSuffices(p: Shape, x: seq<Complex>, cfgs: seq<Setting>, plans: seq<Plan>)
    requires p.S >= 1 && p.d >= 1 && |plans| == |cfgs| && |x| == Times(|cfgs|, p.S)
    requires RotationsIn(cfgs) == Rotations(plans) && AsPlanned(p, cfgs, plans)
    ensures Outputs(p, x, cfgs) == Piecewise(p, x, plans)
  {
    hide Times, Rotator, RotateTaps, FirAt, Mul, Unit, Outputs, Piecewise, OutputPacket;
    forall q: nat | q < OutputCount(p, |cfgs|) ensures Outputs(p, x, cfgs)[q] == Piecewise(p, x, plans)[q] {
      assert OutputAsPlanned(p, cfgs, plans, q);
      OutputSame(p, x, cfgs, plans, q);
      var n := OutputPacket(p, q, |cfgs|);
      SameFir(x, p.half, Times(q, p.d), cfgs[n].taps, NextStart(p, n), RotateTaps(plans[n].h, plans[n].w));
    }
  }

  /** For every run of a worker, whatever its taps and rotations were packet by packet: on every stream its
      concatenated output is, packet by packet, the simple form as planned, if and only if at
      every grid position the worker's taps act on the samples it has as the planned taps act on all. */
  lemma ChannelExact(p: Shape, cfgs: seq<Setting>, plans: seq<Plan>)
    requires p.S >= 1 && p.d >= 1 && |plans| == |cfgs|
    requires RotationsIn(cfgs) == Rotations(plans) && forall n :: 0 <= n < |cfgs| ==> Unit(cfgs[n].rotate)
    ensures (forall x: seq<Complex> :: |x| == Times(|cfgs|, p.S) ==> Outputs(p, x, cfgs) == Piecewise(p, x, plans))
            <==> AsPlanned(p, cfgs, plans)
  {
    hide Times, Outputs, Piecewise, OutputPacket, Rotator, Unit, OutputAsPlanned, OutputCount;
    if AsPlanned(p, cfgs, plans) {
      forall x: seq<Complex> | |x| == Times(|cfgs|, p.S) ensures Outputs(p, x, cfgs) == Piecewise(p, x, plans) {
        AsPlannedSuffices(p, x, cfgs, plans);
      }
    } else {
      var q: nat :| q < OutputCount(p, |cfgs|) && !OutputAsPlanned(p, cfgs, plans, q);
      var x := Counterexample(p, cfgs, plans, q);
    }
  }

  lemma Counterexample(p: Shape, cfgs: seq<Setting>, plans: seq<Plan>, q: nat) returns (x: seq<Complex>)
    requires p.S >= 1 && p.d >= 1 && |plans| == |cfgs| && q < OutputCount(p, |cfgs|)
    requires RotationsIn(cfgs) == Rotations(plans) && forall n :: 0 <= n < |cfgs| ==> Unit(cfgs[n].rotate)
    requires !OutputAsPlanned(p, cfgs, plans, q)
    ensures |x| == Times(|cfgs|, p.S) && Outputs(p, x, cfgs) != Piecewise(p, x, plans)
  {
    hide Times, Outputs, Piecewise, OutputPacket, Rotator, Unit, FirAt, RotateTaps, OutputCount, TapOn;
    var n, at, len := OutputPacket(p, q, |cfgs|), Times(q, p.d), Times(|cfgs|, p.S);
    var wanted, m := RotateTaps(plans[n].h, plans[n].w), NextStart(p, n);
    StreamBound(p, n, |cfgs|);
    var i: nat :|
      i < len && (if i < m then TapOn(cfgs[n].taps, p.half, at, i) else ZERO) != TapOn(wanted, p.half, at, i);
    Distinguish(p.half, at, cfgs[n].taps, m, wanted, len, i);
    x := Impulse(len, i);
    RotatorUnit(p, RotationsIn(cfgs), q);
    OutputSame(p, x, cfgs, plans, q);
  }

  // ---- taps that reach past the lookback, and taps that are not in tune

  /** At output q, tap j meets a sample that comes in a later packet (but does come). */
  predicate Late(p: Shape, packets: nat, q: nat, j: nat)
    requires p.S >= 1 && p.d >= 1 && q < OutputCount(p, packets)
  {
    p.half + NextStart(p, OutputPacket(p, q, packets)) <= Times(q, p.d) + j < p.half + Times(packets, p.S)
  }

  /** At output q, tap j meets a sample that is there. */
  predicate Met(p: Shape, packets: nat, q: nat, j: nat)
    requires p.S >= 1 && p.d >= 1 && q < OutputCount(p, packets)
  {
    p.half <= Times(q, p.d) + j < p.half + NextStart(p, OutputPacket(p, q, packets))
  }

  ghost predicate FitsAt(p: Shape, hs: seq<seq<real>>, q: nat)
    requires p.S >= 1 && p.d >= 1 && q < OutputCount(p, |hs|)
  {
    var h := hs[OutputPacket(p, q, |hs|)];
    forall j: nat :: j < |h| && Late(p, |hs|, q, j) ==> h[j] == 0.0
  }

  /** No tap but zeros is ever late. */
  ghost predicate Fits(p: Shape, hs: seq<seq<real>>)
    requires p.S >= 1 && p.d >= 1
  {
    forall q: nat :: q < OutputCount(p, |hs|) ==> FitsAt(p, hs, q)
  }

  /** Tap j; taps that are not there count as zero. */
  function Tap(taps: seq<Complex>, j: nat): Complex {
    if j < |taps| then taps[j] else ZERO
  }

  /** The taps of `from`, rotated as they were asked for, under the rotator of `to`. */
  function Detuned(from: seq<Plan>, to: seq<Plan>): (cfgs: seq<Setting>)
    requires |from| == |to|
    ensures |cfgs| == |to|
    ensures forall n :: 0 <= n < |to| ==> cfgs[n] == Setting(RotateTaps(from[n].h, from[n].w), to[n].w)
  {
    seq(|to|, n requires 0 <= n < |to| => Setting(RotateTaps(from[n].h, from[n].w), to[n].w))
  }

  /** At output q every tap that meets a sample is the tap the plan `to` asks for. */
  ghost predicate InTuneAt(p: Shape, from: seq<Plan>, to: seq<Plan>, q: nat)
    requires p.S >= 1 && p.d >= 1 && |from| == |to| && q < OutputCount(p, |to|)
  {
    var n := OutputPacket(p, q, |to|);
    forall j: nat :: Met(p, |to|, q, j) ==>
      Tap(RotateTaps(from[n].h, from[n].w), j) == Tap(RotateTaps(to[n].h, to[n].w), j)
  }

  ghost predicate InTune(p: Shape, from: seq<Plan>, to: seq<Plan>)
    requires p.S >= 1 && p.d >= 1 && |from| == |to|
  {
    forall q: nat :: q < OutputCount(p, |to|) ==> InTuneAt(p, from, to, q)
  }

  function Taps(plans: seq<Plan>): (hs: seq<seq<real>>)
    ensures |hs| == |plans| && forall n :: 0 <= n < |plans| ==> hs[n] == plans[n].h
  {
    seq(|plans|, n requires 0 <= n < |plans| => plans[n].h)
  }

  lemma ZeroTap(t: real, u: Complex)
    requires Unit(u)
    ensures Scale(t, u) == ZERO <==> t == 0.0
  {
    assert t * Norm2(u) == u.re * (t * u.re) + u.im * (t * u.im);
  }

  lemma NoTap(t: real, u: Complex)
    requires t == 0.0
    ensures Scale(t, u) == ZERO
  {
  }

  lemma TapMeets(taps: seq<Complex>, half: nat, at: nat, i: nat)
    ensures TapOn(taps, half, at, i) == if i + half >= at then Tap(taps, i + half - at) else ZERO
  {
  }

  lemma TunedIsPlanned(p: Shape, from: seq<Plan>, to: seq<Plan>, q: nat)
    requires p.S >= 1 && p.d >= 1 && |from| == |to| && q < OutputCount(p, |to|)
    requires FitsAt(p, Taps(to), q) && InTuneAt(p, from, to, q)
    ensures OutputAsPlanned(p, Detuned(from, to), to, q)
  {
    hide Times, OutputCount, OutputPacket, Scale, Pow, RotateTaps, TapOn;
    var n, at, len := OutputPacket(p, q, |to|), Times(q, p.d), Times(|to|, p.S);
    var taps, wanted := RotateTaps(from[n].h, from[n].w), RotateTaps(to[n].h, to[n].w);
    forall i: nat | i < len
      ensures (if i < NextStart(p, n) then TapOn(taps, p.half, at, i) else ZERO) == TapOn(wanted, p.half, at, i)
    {
      TapMeets(taps, p.half, at, i);
      TapMeets(wanted, p.half, at, i);
      if i + p.half >= at {
        var j: nat := i + p.half - at;
        if i < NextStart(p, n) {
          assert Met(p, |to|, q, j);
        } else {
          LateTap(p, to, q, j);
        }
      }
    }
  }

  lemma LateTap(p: Shape, to: seq<Plan>, q: nat, j: nat)
    requires p.S >= 1 && p.d >= 1 && q < OutputCount(p, |to|) && FitsAt(p, Taps(to), q) && Late(p, |to|, q, j)
    ensures var n := OutputPacket(p, q, |to|); Tap(RotateTaps(to[n].h, to[n].w), j) == ZERO
  {
    hide Times, OutputCount, OutputPacket, Scale, Pow;
    var n := OutputPacket(p, q, |to|);
    if j < |to[n].h| {
      NoTap(to[n].h[j], Pow(to[n].w, j));
    }
  }

  lemma PlannedIsTuned(p: Shape, from: seq<Plan>, to: seq<Plan>, q: nat)
    requires p.S >= 1 && p.d >= 1 && |from| == |to| && q < OutputCount(p, |to|)
    requires forall n :: 0 <= n < |to| ==> Unit(to[n].w)
    requires OutputAsPlanned(p, Detuned(from, to), to, q)
    ensures FitsAt(p, Taps(to), q) && InTuneAt(p, from, to, q)
  {
    hide Times, OutputCount, OutputPacket, Scale, Pow, Unit, RotateTaps, TapOn;
    var n, at := OutputPacket(p, q, |to|), Times(q, p.d);
    StreamBound(p, n, |to|);
    var taps, wanted := RotateTaps(from[n].h, from[n].w), RotateTaps(to[n].h, to[n].w);
    forall j: nat | Met(p, |to|, q, j) ensures Tap(taps, j) == Tap(wanted, j) {
      TapMeets(taps, p.half, at, at + j - p.half);
      TapMeets(wanted, p.half, at, at + j - p.half);
    }
    forall j: nat | j < |to[n].h| && Late(p, |to|, q, j) ensures to[n].h[j] == 0.0 {
      TapMeets(wanted, p.half, at, at + j - p.half);
      assert Tap(wanted, j) == Scale(to[n].h[j], Pow(to[n].w, j));
      UnitPow(to[n].w, j);
      ZeroTap(to[n].h[j], Pow(to[n].w, j));
    }
  }

  /** A worker whose taps are those of another plan, as a change of rotation leaves behind: its output is as
      planned on every stream if and only if the planned taps fit and, at every grid position, every tap that
      meets a sample is the planned one. */
  lemma DetunedExact(p: Shape, from: seq<Plan>, to: seq<Plan>)
    requires p.S >= 1 && p.d >= 1 && |from| == |to| && forall n :: 0 <= n < |to| ==> Unit(to[n].w)
    ensures (forall x: seq<Complex> :: |x| == Times(|to|, p.S) ==>
               Outputs(p, x, Detuned(from, to)) == Piecewise(p, x, to))
            <==> Fits(p, Taps(to)) && InTune(p, from, to)
  {
    hide Times, Outputs, Piecewise, OutputAsPlanned, OutputCount, OutputPacket, Unit, FitsAt, InTuneAt;
    var cfgs := Detuned(from, to);
    assert RotationsIn(cfgs) == Rotations(to);
    ChannelExact(p, cfgs, to);
    forall q: nat | q < OutputCount(p, |to|)
      ensures OutputAsPlanned(p, cfgs, to, q) <==> FitsAt(p, Taps(to), q) && InTuneAt(p, from, to, q)
    {
      if OutputAsPlanned(p, cfgs, to, q) {
        PlannedIsTuned(p, from, to, q);
      } else if FitsAt(p, Taps(to), q) && InTuneAt(p, from, to, q) {
        TunedIsPlanned(p, from, to, q);
      }
    }
  }

  /** With taps that fit, and rotated by the rotation in force for their packet, fast equals simple packet by
      packet. */
  lemma FastIsPiecewise(p: Shape, x: seq<Complex>, plans: seq<Plan>)
    requires p.S >= 1 && p.d >= 1 && |x| == Times(|plans|, p.S) && Fits(p, Taps(plans))
    ensures Outputs(p, x, Settings(plans)) == Piecewise(p, x, plans)
  {
    hide Times, Outputs, Piecewise, OutputAsPlanned, OutputCount, FitsAt;
    assert Detuned(plans, plans) == Settings(plans);
    forall q: nat | q < OutputCount(p, |plans|) ensures OutputAsPlanned(p, Settings(plans), plans, q) {
      assert FitsAt(p, Taps(plans), q);
      TunedIsPlanned(p, plans, plans, q);
    }
    assert RotationsIn(Settings(plans)) == Rotations(plans);
    AsPlannedSuffices(p, x, Settings(plans), plans);
  }

  /** And only with taps that fit: on every stream, for every schedule in which taps and rotation change together
      between packets. */
  lemma StreamingExact(p: Shape, plans: seq<Plan>)
    requires p.S >= 1 && p.d >= 1 && forall n :: 0 <= n < |plans| ==> Unit(plans[n].w)
    ensures (forall x: seq<Complex> :: |x| == Times(|plans|, p.S) ==>
               Outputs(p, x, Settings(plans)) == Piecewise(p, x, plans))
            <==> Fits(p, Taps(plans))
  {
    hide Times, Outputs, Piecewise, OutputCount, Unit, Fits;
    assert Detuned(plans, plans) == Settings(plans);
    DetunedExact(p, plans, plans);
  }

  /** With one rotation throughout: the textbook form. */
  lemma FastIsSimple(p: Shape, x: seq<Complex>, hs: seq<seq<real>>, w: Complex)
    requires p.S >= 1 && p.d >= 1 && |x| == Times(|hs|, p.S) && Fits(p, hs)
    ensures Outputs(p, x, Settings(Steady(hs, w))) == Simple(p, x, hs, w)
  {
    hide Times, Outputs, Piecewise, Simple, Fits;
    assert Taps(Steady(hs, w)) == hs;
    FastIsPiecewise(p, x, Steady(hs, w));
    PiecewiseIsSimple(p, x, hs, w);
  }

  /** Fast equals simple on every stream if and only if no tap but zeros is late. */
  lemma SimpleExact(p: Shape, hs: seq<seq<real>>, w: Complex)
    requires p.S >= 1 && p.d >= 1 && Unit(w)
    ensures (forall x: seq<Complex> :: |x| == Times(|hs|, p.S) ==>
               Outputs(p, x, Settings(Steady(hs, w))) == Simple(p, x, hs, w))
            <==> Fits(p, hs)
  {
    hide Times, Outputs, Piecewise, Simple, Fits, Unit;
    assert Taps(Steady(hs, w)) == hs;
    StreamingExact(p, Steady(hs, w));
    forall x: seq<Complex> | |x| == Times(|hs|, p.S) ensures Piecewise(p, x, Steady(hs, w)) == Simple(p, x, hs, w) {
      PiecewiseIsSimple(p, x, hs, w);
    }
  }

  // ---- how long a list may be

  /** The greatest common divisor, by subtraction. */
  function Gcd(a: nat, b: nat): (g: nat)
    requires a >= 1 && b >= 1
    ensures 1 <= g <= a && g <= b
    decreases a + b
  {
    if a == b then a else if a > b then Gcd(a - b, b) else Gcd(a, b - a)
  }

  lemma {:induction false} GcdDivides(a: nat, b: nat) returns (m: nat, n: nat)
    requires a >= 1 && b >= 1
    ensures a == m * Gcd(a, b) && b == n * Gcd(a, b)
    decreases a + b
  {
    if a == b {
      m, n := 1, 1;
    } else if a > b {
      m, n := GcdDivides(a - b, b);
      Spread(m, n, Gcd(a - b, b));
      m := m + n;
    } else {
      m, n := GcdDivides(a, b - a);
      Spread(m, n, Gcd(a, b - a));
      n := m + n;
    }
  }

  /** Some multiple of a lies just the divisor past a multiple of b. */
  lemma {:induction false} GcdReached(a: nat, b: nat) returns (m: nat, n: nat)
    requires a >= 1 && b >= 1
    ensures m >= 1 && m * a == n * b + Gcd(a, b)
    decreases a + b
  {
    if a == b {
      m, n := 1, 0;
    } else if a > b {
      m, n := GcdReached(a - b, b);
      Spread(m, n, b);
      TakeAway(m, a, b);
      n := m + n;
    } else {
      m, n := GcdReached(a, b - a);
      Spread(m, n, a);
      TakeAway(n, b, a);
      m := m + n;
    }
  }

  lemma Spread(m: nat, n: nat, g: nat)
    ensures (m + n) * g == m * g + n * g
  {
  }

  lemma TakeAway(m: nat, a: nat, b: nat)
    requires a >= b
    ensures m * (a - b) == m * a - m * b
  {
  }

  /** No grid position lies closer to the end of its packet than the divisor. */
  lemma GridGap(p: Shape, packets: nat, q: nat)
    requires p.S >= 1 && p.d >= 1 && q < OutputCount(p, packets)
    ensures Times(q, p.d) + Gcd(p.S, p.d) <= NextStart(p, OutputPacket(p, q, packets))
  {
    hide Times, OutputCount, Gcd;
    var n, g := OutputPacket(p, q, packets), Gcd(p.S, p.d);
    var a, b := GcdDivides(p.S, p.d);
    Regroup(n + 1, a, g, p.S);
    Regroup(q, b, g, p.d);
    MultipleGap((n + 1) * a, q * b, g);
  }

  lemma Regroup(n: nat, a: nat, g: nat, s: nat)
    requires s == a * g
    ensures Times(n, s) == Times(n * a, g)
  {
  }

  lemma MultipleGap(m: nat, n: nat, g: nat)
    ensures Times(m, g) > Times(n, g) ==> Times(m, g) >= Times(n, g) + g
  {
    if m <= n {
      MulMonotone(m, n, g);
    } else {
      MulMonotone(n + 1, m, g);
      NextMultiple(n, g);
    }
  }

  /** Lists of up to half + gcd(S, d) taps fit, in particular lists of half + 1. */
  lemma ShortTapsFit(p: Shape, hs: seq<seq<real>>)
    requires p.S >= 1 && p.d >= 1
    requires forall n :: 0 <= n < |hs| ==> |hs[n]| <= p.half + Gcd(p.S, p.d)
    ensures Fits(p, hs)
  {
    hide Times, OutputCount, OutputPacket, Gcd;
    forall q: nat | q < OutputCount(p, |hs|) ensures FitsAt(p, hs, q) {
      GridGap(p, |hs|, q);
    }
  }

  /** And no longer ones: every list of up to `len` taps can be used for any number of packets if and only if
      len <= half + gcd(S, d). That is half + 1 when S and d have no common divisor, and half + d when d divides S. */
  lemma LongestTaps(p: Shape, len: nat)
    requires p.S >= 1 && p.d >= 1
    ensures (forall hs: seq<seq<real>> :: (forall n :: 0 <= n < |hs| ==> |hs[n]| <= len) ==> Fits(p, hs))
            <==> len <= p.half + Gcd(p.S, p.d)
  {
    if len <= p.half + Gcd(p.S, p.d) {
      forall hs: seq<seq<real>> | forall n :: 0 <= n < |hs| ==> |hs[n]| <= len ensures Fits(p, hs) {
        ShortTapsFit(p, hs);
      }
    } else {
      var hs := TooLong(p);
    }
  }

  lemma TooLong(p: Shape) returns (hs: seq<seq<real>>)
    requires p.S >= 1 && p.d >= 1
    ensures forall n :: 0 <= n < |hs| ==> |hs[n]| == p.half + Gcd(p.S, p.d) + 1
    ensures !Fits(p, hs)
  {
    hide Times, OutputCount, Gcd, OutputPacket, Late;
    var g := Gcd(p.S, p.d);
    var m, q := GcdReached(p.S, p.d);
    TimesIs(m, p.S);
    TimesIs(q, p.d);
    var h := seq(p.half + g + 1, _ => 1.0);
    hs := seq(m + 1, _ => h);
    LateJustPast(p, m, q, g);
    assert h[p.half + g] == 1.0;
    assert hs[m - 1] == h;
    assert !FitsAt(p, hs, q);
  }

  lemma TimesIs(a: nat, d: nat)
    ensures Times(a, d) == a * d
  {
  }

  lemma LateJustPast(p: Shape, m: nat, q: nat, g: nat)
    requires p.S >= 1 && p.d >= 1 && m >= 1 && 1 <= g <= p.S && Times(m, p.S) == Times(q, p.d) + g
    ensures q < OutputCount(p, m + 1) && OutputPacket(p, q, m + 1) == m - 1 && Late(p, m + 1, q, p.half + g)
  {
    hide Times;
    NextMultiple(m - 1, p.S);
    NextMultiple(m, p.S);
    BelowCount(q, Times(m + 1, p.S), p.d);
    hide Count;
    SamePacket(p.S, Times(q, p.d), OutputPacket(p, q, m + 1), m - 1);
  }

  /** The usual decimations divide the packet length. */
  lemma {:induction false} GcdOfMultiple(d: nat, k: nat)
    requires d >= 1 && k >= 1
    ensures k * d >= 1 && Gcd(k * d, d) == d
    decreases k
  {
    if k > 1 {
      assert k * d == (k - 1) * d + d;
      GcdOfMultiple(d, k - 1);
    }
  }

  // ---- requests that change the rotation

  /** m packets at v, then N - m at w, with these taps. */
  function Changed(h: seq<real>, v: Complex, g: seq<real>, w: Complex, m: nat, N: nat): (plans: seq<Plan>)
    ensures |plans| == N && forall n :: 0 <= n < N ==> plans[n] == if n < m then Plan(h, v) else Plan(g, w)
  {
    seq(N, n requires 0 <= n < N => if n < m then Plan(h, v) else Plan(g, w))
  }

  /** The same with a plan of its own for packet m. */
  function Odd(h: seq<real>, v: Complex, odd: Plan, g: seq<real>, w: Complex, m: nat, N: nat): (plans: seq<Plan>)
    ensures |plans| == N
    ensures forall n :: 0 <= n < N ==> plans[n] == if n < m then Plan(h, v) else if n == m then odd else Plan(g, w)
  {
    seq(N, n requires 0 <= n < N => if n < m then Plan(h, v) else if n == m then odd else Plan(g, w))
  }

  /** From the second packet on every tap of a short list meets a sample, at every grid position. */
  lemma AllMet(p: Shape, packets: nat, q: nat, m: nat, j: nat)
    requires p.S >= 1 && p.d >= 1 && p.half <= p.S && m >= 1
    requires OutputCount(p, m) <= q < OutputCount(p, packets) && j < p.half + Gcd(p.S, p.d)
    ensures Met(p, packets, q, j)
  {
    hide Times, OutputCount, OutputPacket, Gcd;
    GridGap(p, packets, q);
    LaterPacket(p, m, OutputPacket(p, q, packets), q);
  }

  /** Two short lists of the same length are in tune at such a position if and only if they are the same. */
  lemma InTuneMeans(p: Shape, from: seq<Plan>, to: seq<Plan>, q: nat, m: nat)
    requires p.S >= 1 && p.d >= 1 && p.half <= p.S && m >= 1 && |from| == |to|
    requires OutputCount(p, m) <= q < OutputCount(p, |to|)
    requires var n := OutputPacket(p, q, |to|);
             |from[n].h| == |to[n].h| <= p.half + Gcd(p.S, p.d)
    ensures var n := OutputPacket(p, q, |to|);
            InTuneAt(p, from, to, q) <==> RotateTaps(from[n].h, from[n].w) == RotateTaps(to[n].h, to[n].w)
  {
    hide Times, OutputCount, OutputPacket, Gcd, Met, RotateTaps;
    var n := OutputPacket(p, q, |to|);
    var taps, wanted := RotateTaps(from[n].h, from[n].w), RotateTaps(to[n].h, to[n].w);
    assert |taps| == |wanted| == |to[n].h|;
    if InTuneAt(p, from, to, q) {
      forall j | 0 <= j < |taps| ensures taps[j] == wanted[j] {
        AllMet(p, |to|, q, m, j);
        assert Tap(taps, j) == Tap(wanted, j);
      }
      assert taps == wanted;
    }
  }

  /** A MODIFY without taps, after m packets: the taps stay rotated by v. What follows is still the simple form at
      the new rotation w on every stream if and only if the two rotations make the same taps. */
  lemma RotateOnlyExact(p: Shape, h: seq<real>, v: Complex, w: Complex, m: nat, N: nat)
    requires p.S >= 1 && p.d >= 1 && p.half <= p.S && |h| <= p.half + Gcd(p.S, p.d)
    requires Unit(v) && Unit(w) && m >= 1 && OutputCount(p, m) < OutputCount(p, N)
    ensures var plans := Changed(h, v, h, w, m, N);
            var cfgs := Detuned(Changed(h, v, h, v, m, N), plans);
            (forall x: seq<Complex> :: |x| == Times(N, p.S) ==> Outputs(p, x, cfgs) == Piecewise(p, x, plans))
            <==> RotateTaps(h, v) == RotateTaps(h, w)
  {
    hide Times, Outputs, Piecewise, OutputCount, OutputPacket, Unit, RotateTaps, Gcd, InTuneAt, Fits;
    var from, to := Changed(h, v, h, v, m, N), Changed(h, v, h, w, m, N);
    DetunedExact(p, from, to);
    ShortTapsFit(p, Taps(to));
    if RotateTaps(h, v) == RotateTaps(h, w) {
      forall q: nat | q < OutputCount(p, N) ensures InTuneAt(p, from, to, q) {
        SameTapsInTune(p, from, to, q);
      }
    } else {
      OutputInPacket(p, m, N);
      InTuneMeans(p, from, to, OutputCount(p, m), m);
    }
  }

  lemma SameTapsInTune(p: Shape, from: seq<Plan>, to: seq<Plan>, q: nat)
    requires p.S >= 1 && p.d >= 1 && |from| == |to| && q < OutputCount(p, |to|)
    requires var n := OutputPacket(p, q, |to|); RotateTaps(from[n].h, from[n].w) == RotateTaps(to[n].h, to[n].w)
    ensures InTuneAt(p, from, to, q)
  {
  }

  /** The first output after m packets comes from a packet after them. */
  lemma OutputInPacket(p: Shape, m: nat, packets: nat)
    requires p.S >= 1 && p.d >= 1 && OutputCount(p, m) < OutputCount(p, packets)
    ensures OutputPacket(p, OutputCount(p, m), packets) >= m
  {
    var n := OutputPacket(p, OutputCount(p, m), packets);
    if n < m {
      OutputCountMonotone(p, n + 1, m);
    }
  }

  /** A MODIFY with taps h2 and rotation w that is handled between two turns, after m packets: packet m runs with
      the old taps, rotated by v, under the new rotator. It comes out as the simple form for any taps g at w, on
      every stream, if and only if the rotated taps are the same. */
  lemma RetuneExact(
    p: Shape, h: seq<real>, v: Complex, h2: seq<real>, g: seq<real>, w: Complex, m: nat, N: nat)
    requires p.S >= 1 && p.d >= 1 && p.half <= p.S && |g| == |h| <= p.half + Gcd(p.S, p.d)
    requires |h2| <= p.half + Gcd(p.S, p.d) && Unit(v) && Unit(w)
    requires 1 <= m < N && OutputCount(p, m) < OutputCount(p, m + 1)
    ensures var plans := Odd(h, v, Plan(g, w), h2, w, m, N);
            var cfgs := Detuned(Odd(h, v, Plan(h, v), h2, w, m, N), plans);
            (forall x: seq<Complex> :: |x| == Times(N, p.S) ==> Outputs(p, x, cfgs) == Piecewise(p, x, plans))
            <==> RotateTaps(h, v) == RotateTaps(g, w)
  {
    hide Times, Outputs, Piecewise, OutputCount, OutputPacket, Unit, RotateTaps, Gcd, InTuneAt, Fits;
    var from, to := Odd(h, v, Plan(h, v), h2, w, m, N), Odd(h, v, Plan(g, w), h2, w, m, N);
    DetunedExact(p, from, to);
    ShortTapsFit(p, Taps(to));
    OutputCountMonotone(p, m + 1, N);
    var q := OutputCount(p, m);
    OutputPacketUnique(p, q, N, m);
    if RotateTaps(h, v) == RotateTaps(g, w) {
      forall r: nat | r < OutputCount(p, N) ensures InTuneAt(p, from, to, r) {
        SameTapsInTune(p, from, to, r);
      }
    } else {
      InTuneMeans(p, from, to, q, m);
    }
  }

  /** And there are no such taps, unless the rotation stays or turns by half a circle. */
  lemma NoSuchTaps(h: seq<real>, v: Complex, g: seq<real>, w: Complex)
    requires |h| >= 2 && h[1] != 0.0 && Unit(v) && Unit(w) && RotateTaps(h, v) == RotateTaps(g, w)
    ensures w == v || w == Scale(-1.0, v)
  {
    PowOne(v);
    PowOne(w);
    assert RotateTaps(h, v)[1] == RotateTaps(g, w)[1];
    SameLine(h[1], v, g[1], w);
  }

  lemma SameLine(s: real, v: Complex, t: real, w: Complex)
    requires s != 0.0 && Unit(v) && Unit(w) && Scale(s, v) == Scale(t, w)
    ensures w == v || w == Scale(-1.0, v)
  {
    assert Norm2(Scale(s, v)) == s * s * Norm2(v);
    assert Norm2(Scale(t, w)) == t * t * Norm2(w);
    assert (s - t) * (s + t) == 0.0;
    if s == t {
      ScaleCancels(s, v, w);
    } else {
      assert t == -s;
      assert Scale(t, w) == Scale(s, Scale(-1.0, w));
      ScaleCancels(s, v, Scale(-1.0, w));
    }
  }

  lemma LaterPacket(p: Shape, m: nat, n: nat, q: nat)
    requires p.S >= 1 && p.d >= 1 && m >= 1 && OutputCount(p, m) <= q < OutputCount(p, n + 1)
    ensures n >= m && Times(q, p.d) >= p.S
  {
    if n < m {
      OutputCountMonotone(p, n + 1, m);
    }
    BelowCount(q, Times(m, p.S), p.d);
    MulMonotone(1, m, p.S);
  }

  /** With a second tap that is not zero, that means the rotation did not change at all. */
  lemma SameTapsSameRotation(h: seq<real>, v: Complex, w: Complex)
    requires |h| >= 2 && h[1] != 0.0
    ensures RotateTaps(h, v) == RotateTaps(h, w) <==> v == w
  {
    PowOne(v);
    PowOne(w);
    if RotateTaps(h, v) == RotateTaps(h, w) {
      assert RotateTaps(h, v)[1] == RotateTaps(h, w)[1];
      ScaleCancels(h[1], v, w);
    }
  }

  lemma PowOne(w: Complex)
    ensures Pow(w, 1) == w
  {
    assert Pow(w, 1) == Mul(Pow(w, 0), w);
  }

  lemma ScaleCancels(t: real, a: Complex, b: Complex)
    requires t != 0.0 && Scale(t, a) == Scale(t, b)
    ensures a == b
  {
    assert t * (a.re - b.re) == 0.0 && t * (a.im - b.im) == 0.0;
  }

  /** Within a packet the rotator is a fixed unit times the mixer that has run at that packet's rotation from the
      start. */
  lemma CarriedPhase(p: Shape, ws: seq<Complex>, q: nat) returns (u: Complex)
    requires p.S >= 1 && p.d >= 1 && q < OutputCount(p, |ws|)
    requires forall n :: 0 <= n < |ws| ==> Unit(ws[n])
    ensures var n := OutputPacket(p, q, |ws|);
            var first := OutputCount(p, n);
            && first <= OutputCount(p, |ws|)
            && Unit(u)
            && u == Mul(Rotator(p, ws, first), Conj(Pow(ws[n], Times(first, p.d))))
            && Rotator(p, ws, q) == Mul(u, Pow(ws[n], Times(q, p.d)))
  {
    hide Mul, Times, OutputCount, Unit, Rotator, Pow, Conj;
    var n := OutputPacket(p, q, |ws|);
    var first, w := OutputCount(p, n), ws[n];
    RotatorInside(p, ws, n, q - first);
    RotatorUnit(p, ws, first);
    var o, c := Rotator(p, ws, first), Pow(w, Times(first, p.d));
    UnitPow(w, Times(first, p.d));
    UnitConj(c);
    u := Mul(o, Conj(c));
    UnitMul(o, Conj(c));
    TimesAdd(first, q - first, p.d);
    PowMul(w, p.d, q - first, Times(q - first, p.d));
    PowAdd(w, Times(first, p.d), Times(q - first, p.d));
    MulAssociates(o, Conj(c), Mul(c, Pow(w, Times(q - first, p.d))));
    UndoUnit(c, Pow(w, Times(q - first, p.d)));
  }

  lemma TimesAdd(a: nat, b: nat, d: nat)
    ensures Times(a + b, d) == Times(a, d) + Times(b, d) && Times(b, d) == b * d
  {
  }

  lemma UnitConj(u: Complex)
    requires Unit(u)
    ensures Unit(Conj(u))
  {
  }

  /** In each packet the piecewise form is the textbook form at that packet's taps and rotation, times a fixed
      unit. */
  lemma PiecewiseIsCarried(p: Shape, x: seq<Complex>, plans: seq<Plan>, q: nat) returns (u: Complex)
    requires p.S >= 1 && p.d >= 1 && q < OutputCount(p, |plans|)
    requires forall n :: 0 <= n < |plans| ==> Unit(plans[n].w)
    ensures var n := OutputPacket(p, q, |plans|);
            var first, ws := OutputCount(p, n), Rotations(plans);
            && first <= OutputCount(p, |plans|)
            && Unit(u) && u == Mul(Rotator(p, ws, first), Conj(Pow(plans[n].w, Times(first, p.d))))
            && Piecewise(p, x, plans)[q]
               == Mul(u, LowPass(x, p.half, plans[n].w, Times(q, p.d), plans[n].h, |plans[n].h|))
  {
    hide Mul, Times, OutputCount, Unit, Rotator, Pow, Conj, LowPass, LowPassFrom, OutputPacket, Fir;
    var n, at := OutputPacket(p, q, |plans|), Times(q, p.d);
    var h, w := plans[n].h, plans[n].w;
    u := CarriedPhase(p, Rotations(plans), q);
    RotatingTapsIsMixing(x, p.half, Rotator(p, Rotations(plans), q), w, at, h, |h|);
    RotatingTapsIsMixing(x, p.half, Pow(w, at), w, at, h, |h|);
    SameLowPass(x, p.half, w, at, h, |h|);
    MulAssociates(u, Pow(w, at), Fir(x, p.half, at, RotateTaps(h, w), |h|));
  }
}
