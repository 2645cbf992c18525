/** The scanner's tiling of a frequency range with overlapping frames. */
module Tiling {

  function Ceil(x: real): int {
    -((-x).Floor)
  }

  /** The distance between centres before rounding: the range cut into as many steps as it takes. */
  function Delta(start: real, stop: real, step: real): real
    requires step > 0.0
  {
    var n := Ceil((stop - start) / step);
    if n == 0 then stop else (stop - start) / n as real
  }

  /** Whether the loop from `start` ever ends. */
  predicate Ends(start: real, stop: real, step: real)
    requires step > 0.0
  {
    start > Ceil(stop) as real || Delta(start, stop, step).Floor >= 1
  }

  /** Centre number k. */
  function Centre(start: real, d: int, k: nat): real {
    start + (k * d) as real
  }

  /** `freqstart` and `freqstop` are the limits of the range; the centres lie half a step inside. */
  method Tile(freqstart: real, freqstop: real, step: real) returns (centres: seq<real>)
    requires step > 0.0
    requires Ends(freqstart + step / 2.0, freqstop - step / 2.0, step)
    ensures var start, stop := freqstart + step / 2.0, freqstop - step / 2.0;
            var d := Delta(start, stop, step).Floor;
            && (forall k :: 0 <= k < |centres| ==> centres[k] == Centre(start, d, k) <= Ceil(stop) as real)
            && Centre(start, d, |centres|) > Ceil(stop) as real
  {
    var start, stop := freqstart + step / 2.0, freqstop - step / 2.0;
    var numf := Ceil((stop - start) / step);
    var delta: real;
    if numf == 0 {
      delta := stop;
    } else {
      delta := (stop - start) / numf as real;
    }
    var d := delta.Floor;
    centres := [];
    var cf := start;
    while cf <= Ceil(stop) as real
      invariant cf == Centre(start, d, |centres|)
      invariant forall k :: 0 <= k < |centres| ==> centres[k] == Centre(start, d, k) <= Ceil(stop) as real
      decreases Ceil(stop) as real - cf
    {
      NextCentre(start, d, |centres|);
      centres := centres + [cf];
      cf := cf + d as real;
    }
  }

  lemma NextCentre(start: real, d: int, k: nat)
    ensures Centre(start, d, k + 1) == Centre(start, d, k) + d as real
  {
    assert (k + 1) * d == k * d + d;
  }

  /** The loop ends if and only if some centre lies past the limit it is tested against. */
  lemma EndsExact(start: real, stop: real, step: real)
    requires step > 0.0
    ensures Ends(start, stop, step)
            <==> exists k: nat :: Centre(start, Delta(start, stop, step).Floor, k) > Ceil(stop) as real
  {
    var d := Delta(start, stop, step).Floor;
    if Ends(start, stop, step) {
      if start > Ceil(stop) as real {
        assert Centre(start, d, 0) > Ceil(stop) as real;
      } else {
        var k := if Ceil(stop) - start.Floor >= 0 then Ceil(stop) - start.Floor + 1 else 0;
        assert k * d >= k by { AtLeast(k, d); }
        assert Centre(start, d, k) > Ceil(stop) as real;
      }
    } else {
      forall k: nat ensures Centre(start, d, k) <= Ceil(stop) as real {
        NotPositive(k, d);
      }
    }
  }

  lemma AtLeast(k: nat, d: int)
    requires d >= 1
    ensures k * d >= k
  {
  }

  lemma NotPositive(k: nat, d: int)
    requires d <= 0
    ensures k * d <= 0
  {
  }

  /** A range at most a step wide (whose limits for centres have changed places): the loop ends if and only if its
      start lies past the limit it is tested against or the upper limit is at least 1, and lists at most its start. */
  lemma NarrowRange(start: real, stop: real, step: real, centres: seq<real>)
    requires step > 0.0 && -step < stop - start <= 0.0
    ensures Ends(start, stop, step) <==> start > Ceil(stop) as real || stop >= 1.0
    ensures Ends(start, stop, step) &&
            (var d := Delta(start, stop, step).Floor;
             && (forall k :: 0 <= k < |centres| ==> centres[k] == Centre(start, d, k) <= Ceil(stop) as real)
             && Centre(start, d, |centres|) > Ceil(stop) as real)
            ==> centres == if start <= Ceil(stop) as real then [start] else []
  {
    var w := stop - start;
    QuotientOrder(w, step, 0.0);
    QuotientOrder(w, step, -1.0);
    assert Ceil(w / step) == 0;
    assert Delta(start, stop, step) == stop;
    var d := stop.Floor;
    if centres != [] {
      assert centres[0] == Centre(start, d, 0) ==> centres[0] == start;
    }
    if d >= 1 && |centres| >= 2 && centres[1] == Centre(start, d, 1) {
      NextCentre(start, d, 0);
      assert Centre(start, d, 0) == start;
      CeilBounds(stop);
      assert centres[1] > Ceil(stop) as real;
    }
  }

  // ---- a range at least a step and a bit wide

  lemma DivideTimes(x: real, y: real)
    requires y > 0.0
    ensures (x / y) * y == x
  {
  }

  /** x / y compared with a bound. */
  lemma QuotientOrder(x: real, y: real, b: real)
    requires y > 0.0
    ensures x / y <= b <==> x <= b * y
    ensures b < x / y <==> b * y < x
    ensures b <= x / y <==> b * y <= x
  {
    DivideTimes(x, y);
    Order(x / y, b, y);
    Order(b, x / y, y);
  }

  lemma Order(a: real, b: real, c: real)
    requires c > 0.0
    ensures a <= b <==> a * c <= b * c
    ensures a < b <==> a * c < b * c
  {
    assert (b - a) * c == b * c - a * c;
    SignOfProduct(b - a, c);
  }

  lemma SignOfProduct(a: real, c: real)
    requires c > 0.0
    ensures a > 0.0 <==> a * c > 0.0
    ensures a >= 0.0 <==> a * c >= 0.0
  {
  }

  /** The cut is into whole steps of at least one and at most `step`. */
  lemma DeltaBounds(start: real, stop: real, step: real)
    requires step >= 2.0 && stop - start >= 1.0
    ensures var n := Ceil((stop - start) / step);
            && n >= 1
            && Delta(start, stop, step) * n as real == stop - start
            && 1.0 <= Delta(start, stop, step) <= step
  {
    var w := stop - start;
    QuotientOrder(w, step, 0.0);
    var n := Ceil(w / step);
    CeilBounds(w / step);
    QuotientOrder(w, step, n as real);
    QuotientOrder(w, step, n as real - 1.0);
    AtLeastCount(w, step, n);
    DivideTimes(w, n as real);
    QuotientOrder(w, n as real, step);
    QuotientOrder(w, n as real, 1.0);
    Commute(step, n as real);
  }

  lemma Commute(a: real, b: real)
    ensures a * b == b * a
  {
  }

  lemma CeilBounds(q: real)
    ensures Ceil(q) as real - 1.0 < q <= Ceil(q) as real
  {
  }

  lemma AtLeastCount(w: real, step: real, n: int)
    requires w >= 1.0 && step >= 2.0 && n >= 1 && (n as real - 1.0) * step < w
    ensures n as real <= w
  {
    var m := n as real - 1.0;
    if n > 1 {
      assert m >= 1.0;
      Order(2.0, step, m);
      Commute(step, m);
      assert 2.0 * m <= step * m < w;
    }
  }

  /** Frequency f is within half a step of a centre. */
  ghost predicate Covered(f: real, centres: seq<real>, step: real) {
    exists k :: 0 <= k < |centres| && centres[k] - step / 2.0 <= f <= centres[k] + step / 2.0
  }

  /** For a range at least step + 1 wide: the loop ends, neighbouring centres are between 1 and `step` apart,
      what is covered reaches without a gap from the start of the range to half a step past the last centre,
      and the last centre falls short of the last place one is wanted by less than one hertz a step and by
      less than one distance between centres, although that distance is rounded down. */
  lemma TilingCovers(freqstart: real, freqstop: real, step: real, centres: seq<real>)
    requires step >= 2.0 && freqstop - freqstart >= step + 1.0
    requires var start, stop := freqstart + step / 2.0, freqstop - step / 2.0;
             var d := Delta(start, stop, step).Floor;
             && (forall k :: 0 <= k < |centres| ==> centres[k] == Centre(start, d, k) <= Ceil(stop) as real)
             && Centre(start, d, |centres|) > Ceil(stop) as real
    ensures Ends(freqstart + step / 2.0, freqstop - step / 2.0, step)
    ensures forall k :: 0 <= k < |centres| - 1 ==> 1.0 <= centres[k + 1] - centres[k] <= step
    ensures |centres| > 0
    ensures forall f: real :: Covered(f, centres, step) <==> freqstart <= f <= centres[|centres| - 1] + step / 2.0
    ensures var wanted := freqstop - step / 2.0;
            var missing := wanted - centres[|centres| - 1];
            && missing < Ceil((wanted - (freqstart + step / 2.0)) / step) as real
            && missing < Delta(freqstart + step / 2.0, wanted, step).Floor as real
  {
    var start, stop := freqstart + step / 2.0, freqstop - step / 2.0;
    DeltaBounds(start, stop, step);
    Whole(start, stop, Delta(start, stop, step), Ceil((stop - start) / step), step, centres);
  }

  /** The same with the number n of steps and the distance delta before rounding given. */
  lemma Whole(start: real, stop: real, delta: real, n: int, step: real, centres: seq<real>)
    requires n >= 1 && delta * n as real == stop - start && 1.0 <= delta <= step
    requires forall k :: 0 <= k < |centres| ==> centres[k] == Centre(start, delta.Floor, k)
    requires Centre(start, delta.Floor, |centres|) > Ceil(stop) as real && start <= stop
    ensures forall k :: 0 <= k < |centres| - 1 ==> 1.0 <= centres[k + 1] - centres[k] <= step
    ensures |centres| > 0
    ensures forall f: real ::
              Covered(f, centres, step) <==> start - step / 2.0 <= f <= centres[|centres| - 1] + step / 2.0
    ensures stop - centres[|centres| - 1] < n as real && stop - centres[|centres| - 1] < delta.Floor as real
  {
    var d, m := delta.Floor, |centres|;
    assert m != 0;
    forall k | 0 <= k < m - 1 ensures 1.0 <= centres[k + 1] - centres[k] <= step {
      NextCentre(start, d, k);
    }
    NextCentre(start, d, m - 1);
    EnoughCentres(start, stop, d, delta, n, m);
    forall f: real ensures Covered(f, centres, step) <==> start - step / 2.0 <= f <= centres[m - 1] + step / 2.0 {
      CoveredExact(start, d, step, centres, f);
    }
  }

  lemma CoveredExact(start: real, d: int, step: real, centres: seq<real>, f: real)
    requires |centres| > 0 && 1 <= d && d as real <= step
    requires forall k :: 0 <= k < |centres| ==> centres[k] == Centre(start, d, k)
    ensures Covered(f, centres, step) <==> start - step / 2.0 <= f <= centres[|centres| - 1] + step / 2.0
  {
    var m := |centres|;
    if start - step / 2.0 <= f <= centres[m - 1] + step / 2.0 {
      Reach(start, d, m, step, centres, f);
    }
    if Covered(f, centres, step) {
      var k :| 0 <= k < m && centres[k] - step / 2.0 <= f <= centres[k] + step / 2.0;
      AtMost(0, k, d);
      AtMost(k, m - 1, d);
    }
  }

  /** The last centre reaches to within n of the end. */
  lemma EnoughCentres(start: real, stop: real, d: int, delta: real, n: int, m: nat)
    requires n >= 1 && delta * n as real == stop - start && d as real <= delta < d as real + 1.0 && d >= 1
    requires Centre(start, d, m) > Ceil(stop) as real && m >= 1
    ensures Centre(start, d, m - 1) > stop - n as real
  {
    WholePart(d, delta, n);
    var last := n * d;
    assert start + last as real <= stop < start + last as real + n as real;
    if m <= n {
      AtMost(m, n, d);
    }
    AtMost(n, m - 1, d);
  }

  lemma WholePart(d: int, delta: real, n: int)
    requires n >= 1 && d as real <= delta < d as real + 1.0
    ensures (n * d) as real <= delta * n as real < (n * d) as real + n as real
  {
    Order(d as real, delta, n as real);
    Order(delta, d as real + 1.0, n as real);
    Casts(d, n);
    Spread(d as real, n as real);
  }

  lemma Casts(d: int, n: int)
    ensures (n * d) as real == (d as real) * (n as real)
  {
  }

  lemma Spread(a: real, b: real)
    ensures (a + 1.0) * b == a * b + b
  {
    assert (a + 1.0) * b == a * b + 1.0 * b;
  }

  lemma AtMost(a: int, b: int, d: int)
    requires a <= b && d >= 0
    ensures a * d <= b * d
  {
  }

  /** Going up the centres from the first one, one of them is within half a step of f. */
  lemma {:induction false} Reach(start: real, d: int, m: nat, step: real, centres: seq<real>, f: real)
    requires m >= 1 && 1 <= d && d as real <= step && m <= |centres|
    requires forall k :: 0 <= k < |centres| ==> centres[k] == Centre(start, d, k)
    requires start - step / 2.0 <= f <= Centre(start, d, m - 1) + step / 2.0
    ensures Covered(f, centres, step)
    decreases m
  {
    if f >= centres[m - 1] - step / 2.0 {
    } else {
      assert m > 1;
      NextCentre(start, d, m - 2);
      Reach(start, d, m - 1, step, centres, f);
    }
  }
}
