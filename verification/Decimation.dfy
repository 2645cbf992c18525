/** The decimation grid: which positions of a chopped-up stream a loop
    `for(i = offset; i < n; i += d)` visits when it carries `i - n` to the next chunk. */
module Decimation {

  /** Grid point a of a grid with spacing d (also: the start of packet a, with d samples a packet). */
  function Times(a: nat, d: nat): nat {
    a * d
  }

  /** How many of the positions 0, d, 2d, ... lie below n. */
  function Count(n: nat, d: nat): (c: nat)
    requires d >= 1
    ensures n <= Times(c, d)
    ensures c >= 1 ==> Times(c - 1, d) < n
  {
    CeilBounds(n, d);
    (n + d - 1) / d
  }

  lemma CeilBounds(n: nat, d: nat)
    requires d >= 1
    ensures var c := (n + d - 1) / d;
            0 <= c && n <= c * d && (c >= 1 ==> (c - 1) * d < n)
  {
    var c, r := (n + d - 1) / d, (n + d - 1) % d;
    assert n + d - 1 == c * d + r;
    assert (c - 1) * d == c * d - d;
  }

  lemma MulMonotone(a: int, b: int, d: nat)
    requires a <= b
    ensures a * d <= b * d
  {
  }

  lemma NextMultiple(q: nat, d: nat)
    ensures Times(q + 1, d) == Times(q, d) + d
  {
  }

  /** The two bounds of Count determine it. */
  lemma CountUnique(n: nat, d: nat, c: nat)
    requires d >= 1
    requires n <= Times(c, d)
    requires c >= 1 ==> Times(c - 1, d) < n
    ensures c == Count(n, d)
  {
    var e := Count(n, d);
    if c < e {
      MulMonotone(c, e - 1, d);
    } else if e < c {
      MulMonotone(e, c - 1, d);
    }
  }

  lemma CountMonotone(m: nat, n: nat, d: nat)
    requires d >= 1 && m <= n
    ensures Count(m, d) <= Count(n, d)
  {
    if Count(n, d) < Count(m, d) {
      MulMonotone(Count(n, d), Count(m, d) - 1, d);
    }
  }

  /** A grid index lies below Count exactly when its position lies below n. */
  lemma BelowCount(q: nat, n: nat, d: nat)
    requires d >= 1
    ensures q < Count(n, d) <==> Times(q, d) < n
  {
    if q < Count(n, d) {
      MulMonotone(q, Count(n, d) - 1, d);
    } else {
      MulMonotone(Count(n, d), q, d);
    }
  }

  /** The offset carried out of a chunk after `consumed` samples in all. */
  function Offset(consumed: nat, d: nat): (f: nat)
    requires d >= 1
    ensures f < d
    ensures (consumed + f) % d == 0
  {
    var c := Count(consumed, d);
    assert c >= 1 ==> c * d == (c - 1) * d + d;
    MultipleMod(c, d);
    c * d - consumed
  }

  lemma MultipleMod(c: nat, d: nat)
    requires d >= 1
    ensures (c * d) % d == 0
  {
    if c != 0 {
      MultipleMod(c - 1, d);
      assert c * d == (c - 1) * d + d;
      AddMod((c - 1) * d, d);
    }
  }

  lemma AddMod(x: nat, d: nat)
    requires d >= 1
    ensures (x + d) % d == x % d
  {
    var k, r := x / d, x % d;
    assert x + d == (k + 1) * d + r;
    DivModUnique(x + d, d, k + 1, r);
  }

  lemma DivModUnique(x: nat, d: nat, k: int, r: nat)
    requires d >= 1 && r < d
    requires x == k * d + r
    ensures x / d == k && x % d == r
  {
    var k', r' := x / d, x % d;
    assert (k - k') * d == r' - r;
    if k < k' {
      MulMonotone(k - k', -1, d);
    } else if k' < k {
      MulMonotone(1, k - k', d);
    }
  }

  /** The first n grid positions. */
  function Grid(n: nat, d: nat): (g: seq<nat>)
    ensures |g| == n && forall q :: 0 <= q < n ==> g[q] == q * d
  {
    seq(n, q requires 0 <= q < n => q * d)
  }

  /** Positions inside a chunk, as positions in the whole stream. */
  function Shift(base: nat, v: seq<nat>): (g: seq<nat>)
    ensures |g| == |v| && forall k :: 0 <= k < |v| ==> g[k] == base + v[k]
  {
    seq(|v|, k requires 0 <= k < |v| => base + v[k])
  }

  /** A piece of the grid appended to the grid before it. */
  lemma GridAppend(m: nat, v: seq<nat>, base: nat, d: nat)
    requires forall k :: 0 <= k < |v| ==> base + v[k] == (m + k) * d
    ensures Grid(m, d) + Shift(base, v) == Grid(m + |v|, d)
  {
    var l, r := Grid(m, d) + Shift(base, v), Grid(m + |v|, d);
    forall q | 0 <= q < m + |v| ensures l[q] == r[q] {
      if q >= m {
        assert base + v[q - m] == (m + (q - m)) * d;
      }
    }
  }

  function Sum(lens: seq<nat>): nat {
    if lens == [] then 0 else Sum(lens[..|lens| - 1]) + lens[|lens| - 1]
  }

  /** One chunk of `n` samples, written as the loop runs: the positions visited inside the chunk. */
  function ChunkVisits(firpos: nat, n: nat, d: nat): seq<nat>
    requires d >= 1
    decreases n - firpos
  {
    if firpos >= n then [] else [firpos] + ChunkVisits(firpos + d, n, d)
  }

  /** ... and the offset stored for the next chunk. */
  function NextFirpos(firpos: nat, n: nat, d: nat): nat
    requires d >= 1
    decreases n - firpos
  {
    if firpos >= n then firpos - n else NextFirpos(firpos + d, n, d)
  }

  /** A chunk entered on the grid visits exactly the grid positions it contains. */
  lemma {:induction false} ChunkOnGrid(base: nat, firpos: nat, n: nat, d: nat, c: nat)
    requires d >= 1
    requires base + firpos == c * d
    requires c <= Count(base + n, d)
    ensures var v := ChunkVisits(firpos, n, d);
            |v| == Count(base + n, d) - c && forall k :: 0 <= k < |v| ==> base + v[k] == (c + k) * d
    ensures NextFirpos(firpos, n, d) == Offset(base + n, d)
    decreases n - firpos
  {
    if firpos >= n {
      BelowCount(c, base + n, d);
    } else {
      BelowCount(c, base + n, d);
      NextMultiple(c, d);
      ChunkOnGrid(base, firpos + d, n, d, c + 1);
    }
  }

  /** The global positions visited over a whole sequence of chunks, and the offset left over. */
  function Visits(lens: seq<nat>, d: nat): (seq<nat>, nat)
    requires d >= 1
  {
    if lens == [] then ([], 0) else
      var (before, firpos) := Visits(lens[..|lens| - 1], d);
      var n := lens[|lens| - 1];
      var base := Sum(lens[..|lens| - 1]);
      var v := ChunkVisits(firpos, n, d);
      (before + Shift(base, v), NextFirpos(firpos, n, d))
  }

  /** However the stream is cut, the positions visited are 0, d, 2d, ... and nothing else. */
  lemma {:induction false} CutsInvisible(lens: seq<nat>, d: nat)
    requires d >= 1
    ensures Visits(lens, d).0 == Grid(Count(Sum(lens), d), d)
    ensures Visits(lens, d).1 == Offset(Sum(lens), d) < d
  {
    if lens == [] {
      CountUnique(0, d, 0);
    } else {
      var init, n := lens[..|lens| - 1], lens[|lens| - 1];
      var base := Sum(init);
      CutsInvisible(init, d);
      CountMonotone(base, base + n, d);
      ChunkOnGrid(base, Offset(base, d), n, d, Count(base, d));
      GridAppend(Count(base, d), ChunkVisits(Offset(base, d), n, d), base, d);
    }
  }

  /** n packets of S samples give ceil(n*S/d) outputs in all, and no packet more than S/d + 1. */
  lemma PacketOutputs(n: nat, S: nat, d: nat)
    requires d >= 1
    ensures Count(n * S, d) == (n * S + d - 1) / d
    ensures 0 <= Count((n + 1) * S, d) - Count(n * S, d) <= S / d + 1
  {
    NextMultiple(n, S);
    ChunkOutputs(n * S, S, d);
  }

  lemma ChunkOutputs(base: nat, n: nat, d: nat)
    requires d >= 1
    ensures 0 <= Count(base + n, d) - Count(base, d) <= n / d + 1
  {
    CountMonotone(base, base + n, d);
    var a, k := Count(base, d), n / d;
    assert n < k * d + d;
    assert (a + k + 1) * d == a * d + (k * d + d);
    BelowCount(a + k + 1, base + n, d);
  }

  /** The decimating writer of the scanner: it owns only the offset carried between buffers. */
  class Decimator {
    var firpos: int
    ghost var consumed: nat  // samples seen in all buffers so far
    ghost var emitted: seq<nat>  // global positions evaluated so far

    ghost predicate Valid(d: nat)
      requires d >= 1
      reads this
    {
      && firpos == Offset(consumed, d)
      && emitted == Grid(Count(consumed, d), d)
    }

    constructor (d: nat)
      requires d >= 1
      ensures Valid(d) && consumed == 0
    {
      firpos, consumed, emitted := 0, 0, [];
      CountUnique(0, d, 0);
    }

    /** Evaluates the filter at every d-th position of a buffer of `nsamples` samples. */
    method Dump(nsamples: nat, d: nat) returns (positions: seq<nat>)
      requires d >= 1 && Valid(d)
      modifies this
      ensures Valid(d) && 0 <= firpos < d
      ensures consumed == old(consumed) + nsamples
      ensures emitted == old(emitted) + Shift(old(consumed), positions)
      ensures forall k :: 0 <= k < |positions| ==> positions[k] < nsamples
    {
      var next: nat;
      positions, next := Walk(firpos, nsamples, d, consumed);
      emitted := emitted + Shift(consumed, positions);
      consumed := consumed + nsamples;
      firpos := next;
    }
  }

  /** The loop itself; `start` is how much of the stream came before this buffer. */
  method Walk(firpos: nat, nsamples: nat, d: nat, ghost start: nat) returns (positions: seq<nat>, next: nat)
    requires d >= 1 && firpos == Offset(start, d)
    ensures forall k :: 0 <= k < |positions| ==> positions[k] < nsamples
    ensures Grid(Count(start, d), d) + Shift(start, positions) == Grid(Count(start + nsamples, d), d)
    ensures next == Offset(start + nsamples, d)
  {
    var i := firpos;
    ghost var total := start + nsamples;
    ghost var first := Count(start, d);
    ghost var q := first;  // grid index of position i
    positions := [];
    CountMonotone(start, total, d);
    while i < nsamples
      invariant q == first + |positions| && start + i == q * d
      invariant q <= Count(total, d)
      invariant forall k :: 0 <= k < |positions| ==> positions[k] < nsamples && start + positions[k] == (first + k) * d
    {
      BelowCount(q, total, d);
      NextMultiple(q, d);
      positions := positions + [i];
      i, q := i + d, q + 1;
    }
    BelowCount(q, total, d);
    GridAppend(first, positions, start, d);
    next := i - nsamples;
  }
}
