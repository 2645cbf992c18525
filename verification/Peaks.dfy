/** The scanner's peak finder. */
module Peaks {
  import opened Wrappers

  datatype Span = Span(first: int, last: int)
  datatype Peak = Peak(freq: int, width: real)

  /** A number from the configuration: plain ones are ints, those with a postfix are floats. */
  datatype Num = Int(i: int) | Float(r: real)

  /** Division in Python 2, where two ints give an int, rounded down. */
  function Over(n: Num, d: int): real
    requires d >= 1
  {
    match n
    case Int(i) => (i / d) as real
    case Float(r) => r / d as real
  }

  predicate Fits(s: Span, minspan: real, maxspan: real) {
    minspan <= (s.last - s.first) as real <= maxspan
  }

  /** Which spans are wanted, in hertz: with floats those between the two widths, ends included; an int as the lower
      width also lets spans through that are too narrow by less than a bin. */
  lemma WantedWidths(s: Span, minw: Num, maxw: Num, d: int)
    requires d >= 1
    ensures var bins := s.last - s.first;
            Fits(s, Over(minw, d), Over(maxw, d)) <==>
              && (match minw case Int(i) => i < (bins + 1) * d case Float(r) => r <= (bins * d) as real)
              && (match maxw case Int(i) => bins * d <= i case Float(r) => (bins * d) as real <= r)
  {
    OverMeans(minw, d, s.last - s.first);
    OverMeans(maxw, d, s.last - s.first);
    hide Over;
  }

  /** A width in hertz as a bound on a number of bins of d hertz each: exact for floats and for an upper bound, but an
      int as a lower bound also lets spans through that are too narrow by less than a bin. */
  lemma OverMeans(n: Num, d: int, bins: int)
    requires d >= 1
    ensures n.Int? ==> (Over(n, d) <= bins as real <==> n.i < (bins + 1) * d)
    ensures n.Int? ==> (bins as real <= Over(n, d) <==> bins * d <= n.i)
    ensures n.Float? ==> (Over(n, d) <= bins as real <==> n.r <= (bins * d) as real)
    ensures n.Float? ==> (bins as real <= Over(n, d) <==> (bins * d) as real <= n.r)
  {
    match n
    case Int(i) => FloorMeans(i, d, bins);
    case Float(r) => DivideMeans(r, d, bins);
  }

  lemma FloorMeans(i: int, d: int, bins: int)
    requires d >= 1
    ensures i / d <= bins <==> i < (bins + 1) * d
    ensures bins <= i / d <==> bins * d <= i
  {
    var q := i / d;
    assert q * d <= i < q * d + d;
    if q <= bins {
      Monotone(q, bins, d);
    } else {
      Monotone(bins + 1, q, d);
    }
    if bins <= q {
      Monotone(bins, q, d);
    } else {
      Monotone(q + 1, bins, d);
    }
    assert (q + 1) * d == q * d + d && (bins + 1) * d == bins * d + d;
  }

  lemma Monotone(a: int, b: int, d: int)
    requires a <= b && d >= 1
    ensures a * d <= b * d
  {
    assert 0 <= (b - a) * d;
  }

  lemma DivideMeans(r: real, d: int, bins: int)
    requires d >= 1
    ensures r / d as real <= bins as real <==> r <= (bins * d) as real
    ensures bins as real <= r / d as real <==> (bins * d) as real <= r
  {
    var t, e, b := r / d as real, d as real, bins as real;
    assert t * e == r && b * e == (bins * d) as real;
    if t <= b {
      assert 0.0 <= (b - t) * e;
    } else {
      assert 0.0 < (t - b) * e;
    }
    if b <= t {
      assert 0.0 <= (t - b) * e;
    } else {
      assert 0.0 < (b - t) * e;
    }
  }

  predicate Rising(acc: seq<real>, floor: real, i: int) {
    1 <= i < |acc| && acc[i] > floor && acc[i - 1] < floor
  }

  predicate Falling(acc: seq<real>, floor: real, i: int) {
    1 <= i < |acc| && acc[i] < floor && acc[i - 1] > floor
  }

  /** The last rising edge up to position i, or -1. */
  function First(acc: seq<real>, floor: real, i: int): (f: int)
    ensures f == -1 || (f <= i && Rising(acc, floor, f))
    ensures forall j :: f < j <= i ==> !Rising(acc, floor, j)
    decreases i
  {
    if i < 1 then -1 else if Rising(acc, floor, i) then i else First(acc, floor, i - 1)
  }

  /** The spans kept among the first n positions. */
  function Kept(acc: seq<real>, floor: real, minspan: real, maxspan: real, n: nat): seq<Span>
    requires n <= |acc|
  {
    if n <= 1 then [] else
      var before := Kept(acc, floor, minspan, maxspan, n - 1);
      var s := Span(First(acc, floor, n - 1), n - 1);
      if Falling(acc, floor, n - 1) && Fits(s, minspan, maxspan) then before + [s] else before
  }

  /** None where the original divides by zero. Otherwise frequency (relative to the centre, which is bin fftw / 2) and
      width of each span; all but the margin are ints. */
  method FindPeaks(acc: seq<real>, floor: real, rate: nat, fftw: nat, minw: Num, maxw: Num, margin: real)
    returns (r: Option<seq<Peak>>)
    ensures r.Some? <==> 1 <= fftw <= rate
    ensures r.Some? ==>
              var binhz := rate / fftw;
              && binhz >= 1
              && var spans := Kept(acc, floor, Over(minw, binhz), Over(maxw, binhz), |acc|);
                 && |r.value| == |spans|
                 && forall k :: 0 <= k < |spans| ==>
                      var middle := (spans[k].first + spans[k].last) / 2;
                      && r.value[k].freq == binhz * (middle - fftw / 2)
                      && r.value[k].width == (binhz * (spans[k].last - spans[k].first)) as real * margin
  {
    if fftw == 0 {
      return None;
    }
    var binhz := rate / fftw;
    BinWidth(rate, fftw);
    if binhz == 0 {
      return None;
    }
    var minspan, maxspan := Over(minw, binhz), Over(maxw, binhz);
    var peaks := Scan(acc, floor, minspan, maxspan, binhz, fftw, margin);
    PeaksMean(peaks, Kept(acc, floor, minspan, maxspan, |acc|), binhz, fftw, margin);
    return Some(peaks);
  }

  /** The loop. */
  method Scan(acc: seq<real>, floor: real, minspan: real, maxspan: real, binhz: int, fftw: nat, margin: real)
    returns (peaks: seq<Peak>)
    ensures ArePeaks(peaks, Kept(acc, floor, minspan, maxspan, |acc|), binhz, fftw, margin)
  {
    hide ArePeaks, IsPeak;
    NoPeaks(binhz, fftw, margin);
    var first := -1;
    peaks := [];
    ghost var spans: seq<Span> := [];
    var i := 1;
    while i < |acc|
      invariant 1 <= i && (i <= |acc| || |acc| == 0)
      invariant first == First(acc, floor, i - 1)
      invariant spans == Kept(acc, floor, minspan, maxspan, if |acc| == 0 then 0 else i)
      invariant ArePeaks(peaks, spans, binhz, fftw, margin)
    {
      if acc[i] > floor && acc[i - 1] < floor {
        first := i;
      }
      if acc[i] < floor && acc[i - 1] > floor {
        if minspan <= (i - first) as real && (i - first) as real <= maxspan {
          var peak := PeakOf(first, i, binhz, fftw, margin);
          OneMorePeak(peaks, spans, peak, Span(first, i), binhz, fftw, margin);
          peaks := peaks + [peak];
          spans := spans + [Span(first, i)];
        }
      }
      i := i + 1;
    }
  }

  method PeakOf(first: int, i: int, binhz: int, fftw: nat, margin: real) returns (p: Peak)
    ensures IsPeak(p, Span(first, i), binhz, fftw, margin)
  {
    var f := binhz * ((i + first) / 2 - fftw / 2);
    var w := (binhz * (i - first)) as real * margin;
    return Peak(f, w);
  }

  /** Frequency and width of each span. */
  ghost predicate ArePeaks(peaks: seq<Peak>, spans: seq<Span>, binhz: int, fftw: nat, margin: real) {
    && |peaks| == |spans|
    && forall k :: 0 <= k < |spans| ==> IsPeak(peaks[k], spans[k], binhz, fftw, margin)
  }

  predicate IsPeak(p: Peak, s: Span, binhz: int, fftw: nat, margin: real) {
    && p.freq == binhz * ((s.first + s.last) / 2 - fftw / 2)
    && p.width == (binhz * (s.last - s.first)) as real * margin
  }

  lemma OneMorePeak(peaks: seq<Peak>, spans: seq<Span>, p: Peak, s: Span, binhz: int, fftw: nat, margin: real)
    requires ArePeaks(peaks, spans, binhz, fftw, margin)
    requires IsPeak(p, s, binhz, fftw, margin)
    ensures ArePeaks(peaks + [p], spans + [s], binhz, fftw, margin)
  {
    hide IsPeak;
  }

  lemma NoPeaks(binhz: int, fftw: nat, margin: real)
    ensures ArePeaks([], [], binhz, fftw, margin)
  {
  }

  lemma PeaksMean(peaks: seq<Peak>, spans: seq<Span>, binhz: int, fftw: nat, margin: real)
    requires ArePeaks(peaks, spans, binhz, fftw, margin)
    ensures |peaks| == |spans|
    ensures forall k :: 0 <= k < |spans| ==>
              && peaks[k].freq == binhz * ((spans[k].first + spans[k].last) / 2 - fftw / 2)
              && peaks[k].width == (binhz * (spans[k].last - spans[k].first)) as real * margin
  {
  }

  lemma BinWidth(rate: nat, fftw: nat)
    requires fftw >= 1
    ensures rate / fftw >= 0
    ensures rate / fftw == 0 <==> rate < fftw
  {
  }

  // ---- what a peak is meant to be

  /** A maximal run of bins above the floor. */
  ghost predicate MaximalRun(acc: seq<real>, floor: real, s: Span) {
    && 0 <= s.first < s.last <= |acc|
    && (forall i :: s.first <= i < s.last ==> acc[i] > floor)
    && (s.first == 0 || acc[s.first - 1] <= floor)
    && (s.last == |acc| || acc[s.last] <= floor)
  }

  /** The run is entered and left by edges that do not touch the floor, and does not start at bin 0. */
  predicate CleanRun(acc: seq<real>, floor: real, s: Span)
    requires 0 <= s.first < s.last < |acc|
  {
    s.first >= 1 && acc[s.first - 1] < floor && acc[s.last] < floor
  }

  /** All runs that end inside the spectrum are clean. */
  ghost predicate Clean(acc: seq<real>, floor: real) {
    forall s :: MaximalRun(acc, floor, s) && s.last < |acc| ==> CleanRun(acc, floor, s)
  }

  /** Where a run is not clean, neither its width nor (if a falling edge ends it) the distance to the last rising
      edge before it is wanted. */
  ghost predicate CleanEnough(acc: seq<real>, floor: real, minspan: real, maxspan: real) {
    forall s :: MaximalRun(acc, floor, s) && s.last < |acc| ==>
      || CleanRun(acc, floor, s)
      || (&& !Fits(s, minspan, maxspan)
          && (acc[s.last] < floor ==> !Fits(Span(First(acc, floor, s.last), s.last), minspan, maxspan)))
  }

  /** The spans are in order, and each is the one its falling edge ends. */
  lemma {:induction false} KeptInOrder(acc: seq<real>, floor: real, minspan: real, maxspan: real, n: nat)
    requires n <= |acc|
    ensures var k := Kept(acc, floor, minspan, maxspan, n);
            && (forall i :: 0 <= i < |k| ==> k[i].last < n)
            && (forall i, j :: 0 <= i < j < |k| ==> k[i].last < k[j].last)
            && (forall s :: s in k <==>
                  && s.last < n && Falling(acc, floor, s.last)
                  && s.first == First(acc, floor, s.last) && Fits(s, minspan, maxspan))
  {
    if n > 1 {
      KeptInOrder(acc, floor, minspan, maxspan, n - 1);
    }
  }

  /** Where the run that contains bin i starts. */
  function Back(acc: seq<real>, floor: real, i: int): (b: int)
    requires 0 <= i < |acc| && acc[i] > floor
    ensures 0 <= b <= i && (forall j :: b <= j <= i ==> acc[j] > floor)
    ensures b == 0 || acc[b - 1] <= floor
  {
    if i == 0 || acc[i - 1] <= floor then i else Back(acc, floor, i - 1)
  }

  /** A clean run is the span its falling edge ends. */
  lemma RunIsSpan(acc: seq<real>, floor: real, s: Span)
    requires MaximalRun(acc, floor, s) && s.last < |acc| && CleanRun(acc, floor, s)
    ensures Falling(acc, floor, s.last) && First(acc, floor, s.last) == s.first
  {
    assert Rising(acc, floor, s.first);
    assert forall j :: s.first < j <= s.last ==> !Rising(acc, floor, j);
  }

  /** The result lists, in order of position, exactly the maximal runs above the floor that end before the last
      bin and whose width is wanted. */
  ghost predicate ListsRuns(acc: seq<real>, floor: real, minspan: real, maxspan: real, k: seq<Span>) {
    && (forall i, j :: 0 <= i < j < |k| ==> k[i].last < k[j].last)
    && (forall s :: s in k <==> MaximalRun(acc, floor, s) && s.last < |acc| && Fits(s, minspan, maxspan))
  }

  /** For every spectrum and every pair of widths: it does if and only if the spectrum is clean enough. */
  lemma PeaksExact(acc: seq<real>, floor: real, minspan: real, maxspan: real)
    ensures ListsRuns(acc, floor, minspan, maxspan, Kept(acc, floor, minspan, maxspan, |acc|))
            <==> CleanEnough(acc, floor, minspan, maxspan)
  {
    var k := Kept(acc, floor, minspan, maxspan, |acc|);
    KeptInOrder(acc, floor, minspan, maxspan, |acc|);
    if CleanEnough(acc, floor, minspan, maxspan) {
      forall s ensures s in k <==> MaximalRun(acc, floor, s) && s.last < |acc| && Fits(s, minspan, maxspan) {
        KeptIsRun(acc, floor, minspan, maxspan, s);
      }
    }
    if ListsRuns(acc, floor, minspan, maxspan, k) {
      forall r | MaximalRun(acc, floor, r) && r.last < |acc| && !CleanRun(acc, floor, r)
        ensures !Fits(r, minspan, maxspan)
        ensures acc[r.last] < floor ==> !Fits(Span(First(acc, floor, r.last), r.last), minspan, maxspan)
      {
        Unwanted(acc, floor, minspan, maxspan, r);
      }
    }
  }

  lemma KeptIsRun(acc: seq<real>, floor: real, minspan: real, maxspan: real, s: Span)
    requires CleanEnough(acc, floor, minspan, maxspan)
    ensures s in Kept(acc, floor, minspan, maxspan, |acc|)
            <==> MaximalRun(acc, floor, s) && s.last < |acc| && Fits(s, minspan, maxspan)
  {
    KeptInOrder(acc, floor, minspan, maxspan, |acc|);
    if s in Kept(acc, floor, minspan, maxspan, |acc|) {
      var r := Span(Back(acc, floor, s.last - 1), s.last);
      assert MaximalRun(acc, floor, r);
      RunIsSpan(acc, floor, r);
    } else if MaximalRun(acc, floor, s) && s.last < |acc| && Fits(s, minspan, maxspan) {
      RunIsSpan(acc, floor, s);
    }
  }

  lemma Unwanted(acc: seq<real>, floor: real, minspan: real, maxspan: real, r: Span)
    requires ListsRuns(acc, floor, minspan, maxspan, Kept(acc, floor, minspan, maxspan, |acc|))
    requires MaximalRun(acc, floor, r) && r.last < |acc| && !CleanRun(acc, floor, r)
    ensures !Fits(r, minspan, maxspan)
    ensures acc[r.last] < floor ==> !Fits(Span(First(acc, floor, r.last), r.last), minspan, maxspan)
  {
    KeptInOrder(acc, floor, minspan, maxspan, |acc|);
    var k, s := Kept(acc, floor, minspan, maxspan, |acc|), Span(First(acc, floor, r.last), r.last);
    assert r !in k;
    if acc[r.last] < floor {
      assert Falling(acc, floor, r.last);
      assert s in k <==> Fits(s, minspan, maxspan);
      assert s !in k by {
        if MaximalRun(acc, floor, s) {
          SameRun(acc, floor, r, s);
        }
      }
    }
  }

  lemma SameRun(acc: seq<real>, floor: real, r: Span, s: Span)
    requires MaximalRun(acc, floor, r) && MaximalRun(acc, floor, s) && r.last == s.last
    ensures r == s
  {
    assert r.first >= 1 ==> acc[r.first - 1] <= floor;
    assert s.first >= 1 ==> acc[s.first - 1] <= floor;
  }

  /** On a clean spectrum it does whatever widths are wanted. */
  lemma PeaksAreRuns(acc: seq<real>, floor: real, minspan: real, maxspan: real)
    requires Clean(acc, floor)
    ensures ListsRuns(acc, floor, minspan, maxspan, Kept(acc, floor, minspan, maxspan, |acc|))
  {
    PeaksExact(acc, floor, minspan, maxspan);
  }

  /** In particular when no bin equals the floor and bin 0 lies below it. */
  lemma StrictIsClean(acc: seq<real>, floor: real)
    requires forall i :: 0 <= i < |acc| ==> acc[i] != floor
    requires acc != [] ==> acc[0] < floor
    ensures Clean(acc, floor)
  {
  }
}
