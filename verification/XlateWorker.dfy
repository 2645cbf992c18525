/** One channel worker: the loop body of its thread, in place on the buffers it owns. */
module XlateWorkerThread {
  import opened ComplexNumbers
  import opened Decimation
  import opened Slots
  import opened Wrappers
  import opened XlateSpec
  import opened XlateLimits
  import Amplitude

  /** Room for one packet of output: one sample more than S/d, because of the carried offset. */
  function MaxOut(S: nat, d: nat): nat
    requires d >= 1
  {
    S / d + 1
  }

  /** `data` is a window over the zero-extended stream: cell k holds the sample S - k behind the end. */
  ghost predicate Window(data: array<Complex>, x: seq<Complex>, S: nat, half: nat)
    reads data
  {
    forall k :: 0 <= k < data.Length ==> data[k] == PadAt(x, half, |x| - S + k)
  }

  /** The VOLK dot product, by its definition. */
  method DotProduct(data: array<Complex>, i: nat, taps: seq<Complex>, ghost x: seq<Complex>, S: nat, half: nat)
    returns (sum: Complex)
    requires Window(data, x, S, half) && i + |taps| <= data.Length
    ensures sum == FirAt(x, half, |x| - S + i, taps)
  {
    hide Mul, Add, PadAt;
    sum := ZERO;
    for j := 0 to |taps|
      invariant sum == Fir(x, half, |x| - S + i, taps, j)
    {
      sum := Add(sum, Mul(data[i + j], taps[j]));
    }
  }

  /** The VOLK rotator, by its definition: multiply by a phase that turns by `inc` every sample. */
  method Rotate(src: array<Complex>, inc: Complex, phase: Complex, n: nat) returns (dst: seq<Complex>, turned: Complex)
    requires n <= src.Length
    ensures |dst| == n && forall k :: 0 <= k < n ==> dst[k] == Mul(src[k], Mul(phase, Pow(inc, k)))
    ensures turned == Mul(phase, Pow(inc, n))
  {
    MulOneRight(phase);
    hide Mul;
    dst, turned := [], phase;
    for k := 0 to n
      invariant turned == Mul(phase, Pow(inc, k))
      invariant |dst| == k && forall l :: 0 <= l < k ==> dst[l] == Mul(src[l], Mul(phase, Pow(inc, l)))
    {
      dst := dst + [Mul(src[k], turned)];
      MulAssociates(phase, Pow(inc, k), inc);
      turned := Mul(turned, inc);
    }
  }

  lemma MulOneRight(a: Complex)
    ensures Mul(a, Pow(a, 0)) == a == Mul(a, ONE)
  {
  }

  /** Turns low-pass taps into band-pass taps. */
  method GetComplexTaps(h: seq<real>, w: Complex) returns (taps: seq<Complex>)
    ensures taps == RotateTaps(h, w)
  {
    taps := [];
    for i := 0 to |h|
      invariant |taps| == i
      invariant forall j :: 0 <= j < i ==> taps[j] == Scale(h[j], Pow(w, j))
    {
      taps := taps + [Scale(h[i], Pow(w, i))];
    }
  }

  method CalcMaxAmplitude(h: seq<real>) returns (acc: real)
    ensures acc == Amplitude.MaxAmplitude(h)
  {
    acc := 0.0;
    for i := 0 to |h|
      invariant acc == Amplitude.SumAbs(h, i)
    {
      acc := acc + Abs(h[i]);
    }
  }

  // ---- what MODIFY requests do to a worker's settings

  /** A MODIFY request; an empty list of taps asks for the rotation only. */
  datatype Request = Request(h: seq<real>, w: Complex)

  /** The worker's taps and rotation, and the taps it has been asked to take over. */
  datatype Tuning = Tuning(taps: seq<Complex>, rotate: Complex, pending: Option<seq<real>>)

  function Asked(t: Tuning, r: Request): Tuning {
    t.(rotate := r.w, pending := if r.h == [] then t.pending else Some(r.h))
  }

  function AskedAll(t: Tuning, rs: seq<Request>): Tuning {
    if rs == [] then t else Asked(AskedAll(t, rs[..|rs| - 1]), rs[|rs| - 1])
  }

  /** Pending taps are taken over, rotated by the rotation now in force. */
  function Swapped(t: Tuning): Tuning {
    if t.pending.Some? then Tuning(RotateTaps(t.pending.value, t.rotate), t.rotate, None) else t
  }

  /** The requests handled around one turn: before it looks at the rotation, and between that and the lock under
      which it takes over taps. */
  datatype Meanwhile = Meanwhile(before: seq<Request>, during: seq<Request>)

  function AfterTurn(t: Tuning, m: Meanwhile): Tuning {
    Swapped(AskedAll(AskedAll(t, m.before), m.during))
  }

  function AfterTurns(t: Tuning, ms: seq<Meanwhile>): Tuning {
    if ms == [] then t else AfterTurn(AfterTurns(t, ms[..|ms| - 1]), ms[|ms| - 1])
  }

  /** What each turn computes with. */
  function TurnSettings(t: Tuning, ms: seq<Meanwhile>): (cfgs: seq<Setting>)
    ensures |cfgs| == |ms|
  {
    if ms == [] then [] else
      var u := AskedAll(AfterTurns(t, ms[..|ms| - 1]), ms[|ms| - 1].before);
      TurnSettings(t, ms[..|ms| - 1]) + [Setting(u.taps, u.rotate)]
  }

  /** N turns, with one request before turn m. */
  function AskedBetween(r: Request, m: nat, N: nat): (ms: seq<Meanwhile>)
    ensures |ms| == N && forall n :: 0 <= n < N ==> ms[n] == Meanwhile(if n == m then [r] else [], [])
  {
    seq(N, n requires 0 <= n < N => Meanwhile(if n == m then [r] else [], []))
  }

  /** N turns, with one request during turn m. */
  function AskedDuring(r: Request, m: nat, N: nat): (ms: seq<Meanwhile>)
    ensures |ms| == N && forall n :: 0 <= n < N ==> ms[n] == Meanwhile([], if n == m then [r] else [])
  {
    seq(N, n requires 0 <= n < N => Meanwhile([], if n == m then [r] else []))
  }

  lemma AskOne(t: Tuning, r: Request)
    ensures AskedAll(t, []) == t && AskedAll(t, [r]) == Asked(t, r)
  {
    assert [r][..0] == [];
  }

  /** The rotation in force after these requests: the last one asked for. */
  function RotationAfter(v: Complex, rs: seq<Request>): Complex {
    if rs == [] then v else rs[|rs| - 1].w
  }

  /** h is the last list of taps that any of these requests brings. */
  ghost predicate LastTaps(rs: seq<Request>, h: seq<real>) {
    exists i :: 0 <= i < |rs| && rs[i].h == h != [] && forall j :: i < j < |rs| ==> rs[j].h == []
  }

  predicate NoTaps(rs: seq<Request>) {
    forall i :: 0 <= i < |rs| ==> rs[i].h == []
  }

  /** Of several requests the last rotation wins, and the last list of taps that is not empty, even if the two come
      from different requests. The taps in force are left alone. */
  lemma {:induction false} LastRequestWins(t: Tuning, rs: seq<Request>)
    ensures var u := AskedAll(t, rs);
            && u.taps == t.taps && u.rotate == RotationAfter(t.rotate, rs)
            && (forall h :: LastTaps(rs, h) ==> u.pending == Some(h))
            && (NoTaps(rs) ==> u.pending == t.pending)
  {
    if rs != [] {
      var n := |rs| - 1;
      LastRequestWins(t, rs[..n]);
      if NoTaps(rs) {
        assert NoTaps(rs[..n]);
      }
      forall h | LastTaps(rs, h) ensures AskedAll(t, rs).pending == Some(h) {
        if rs[n].h == [] {
          assert LastTaps(rs[..n], h);
        }
      }
    }
  }

  lemma {:induction false} AskedAppend(t: Tuning, a: seq<Request>, b: seq<Request>)
    ensures AskedAll(AskedAll(t, a), b) == AskedAll(t, a + b)
  {
    if b == [] {
      assert a + b == a;
    } else {
      AskedAppend(t, a, b[..|b| - 1]);
      assert (a + b)[..|a + b| - 1] == a + b[..|b| - 1];
    }
  }

  /** The requests of a turn, and of several. */
  function RequestsAt(m: Meanwhile): seq<Request> {
    m.before + m.during
  }

  function Requests(ms: seq<Meanwhile>): seq<Request> {
    if ms == [] then [] else Requests(ms[..|ms| - 1]) + RequestsAt(ms[|ms| - 1])
  }

  /** h is the last list of taps asked for in these turns, and it was asked for in turn k. */
  ghost predicate TapsFrom(ms: seq<Meanwhile>, k: int, h: seq<real>) {
    && 0 <= k < |ms| && LastTaps(RequestsAt(ms[k]), h)
    && forall j :: k < j < |ms| ==> NoTaps(RequestsAt(ms[j]))
  }

  ghost predicate NoTapsAtAll(ms: seq<Meanwhile>) {
    forall j :: 0 <= j < |ms| ==> NoTaps(RequestsAt(ms[j]))
  }

  /** What any schedule of requests leads to: each turn's rotation is the last one asked for before it computes; its
      taps are the last ones asked for in an earlier turn k, rotated by the rotation that was in force when turn k
      ended. */
  lemma SettingsFollowRequests(t: Tuning, ms: seq<Meanwhile>, n: nat)
    requires t.pending == None && n < |ms|
    ensures var cfg := TurnSettings(t, ms)[n];
            && cfg.rotate == RotationAfter(t.rotate, Requests(ms[..n]) + ms[n].before)
            && (forall k, h :: TapsFrom(ms[..n], k, h) ==>
                  cfg.taps == RotateTaps(h, RotationAfter(t.rotate, Requests(ms[..k + 1]))))
            && (NoTapsAtAll(ms[..n]) ==> cfg.taps == t.taps)
  {
    hide *;
    TuningAfterTurns(t, ms[..n]);
    SettingAt(t, ms, n);
    LastRequestWins(AfterTurns(t, ms[..n]), ms[n].before);
    RotationAppend(t.rotate, Requests(ms[..n]), ms[n].before);
    forall k, h | TapsFrom(ms[..n], k, h)
      ensures 0 <= k < n
              && TurnSettings(t, ms)[n].taps == RotateTaps(h, RotationAfter(t.rotate, Requests(ms[..k + 1])))
    {
      TapsInRange(ms[..n], k, h);
      assert ms[..n][..k + 1] == ms[..k + 1];
    }
  }

  lemma RotationAppend(v: Complex, a: seq<Request>, b: seq<Request>)
    ensures RotationAfter(RotationAfter(v, a), b) == RotationAfter(v, a + b)
  {
  }

  lemma TapsInRange(ms: seq<Meanwhile>, k: int, h: seq<real>)
    requires TapsFrom(ms, k, h)
    ensures 0 <= k < |ms|
  {
  }

  lemma {:induction false} SettingAt(t: Tuning, ms: seq<Meanwhile>, n: nat)
    requires n < |ms|
    ensures var u := AskedAll(AfterTurns(t, ms[..n]), ms[n].before);
            TurnSettings(t, ms)[n] == Setting(u.taps, u.rotate)
    decreases |ms|
  {
    hide AskedAll, AfterTurns;
    if n < |ms| - 1 {
      SettingAt(t, ms[..|ms| - 1], n);
      assert ms[..|ms| - 1][..n] == ms[..n];
    }
  }

  /** What is in force after all these turns. */
  lemma {:induction false} TuningAfterTurns(t: Tuning, ms: seq<Meanwhile>)
    requires t.pending == None
    ensures var u := AfterTurns(t, ms);
            && u.pending == None && u.rotate == RotationAfter(t.rotate, Requests(ms))
            && (forall k, h :: TapsFrom(ms, k, h) ==>
                  u.taps == RotateTaps(h, RotationAfter(t.rotate, Requests(ms[..k + 1]))))
            && (NoTapsAtAll(ms) ==> u.taps == t.taps)
  {
    if ms != [] {
      var n := |ms| - 1;
      TuningAfterTurns(t, ms[..n]);
      TuningNext(t, ms);
      hide *;
      RotationAppend(t.rotate, Requests(ms[..n]), RequestsAt(ms[n]));
      forall k, h | TapsFrom(ms, k, h)
        ensures 0 <= k <= n && AfterTurns(t, ms).taps == RotateTaps(h, RotationAfter(t.rotate, Requests(ms[..k + 1])))
      {
        TapsBefore(ms, k, h);
        if k < n {
          assert ms[..n][..k + 1] == ms[..k + 1];
        } else {
          assert ms[..k + 1] == ms;
        }
      }
      NoTapsBefore(ms);
    }
  }

  /** One more turn: its requests, then the swap. */
  lemma TuningNext(t: Tuning, ms: seq<Meanwhile>)
    requires ms != [] && AfterTurns(t, ms[..|ms| - 1]).pending == None
    ensures var n := |ms| - 1;
            var before, u := AfterTurns(t, ms[..n]), AfterTurns(t, ms);
            && u.pending == None && u.rotate == RotationAfter(before.rotate, RequestsAt(ms[n]))
            && Requests(ms) == Requests(ms[..n]) + RequestsAt(ms[n])
            && (forall h :: LastTaps(RequestsAt(ms[n]), h) ==> u.taps == RotateTaps(h, u.rotate))
            && (NoTaps(RequestsAt(ms[n])) ==> u.taps == before.taps)
  {
    hide RotateTaps, AskedAll, LastTaps, NoTaps;
    var n := |ms| - 1;
    AskedAppend(AfterTurns(t, ms[..n]), ms[n].before, ms[n].during);
    LastRequestWins(AfterTurns(t, ms[..n]), RequestsAt(ms[n]));
  }

  lemma TapsBefore(ms: seq<Meanwhile>, k: int, h: seq<real>)
    requires TapsFrom(ms, k, h)
    ensures 0 <= k < |ms|
    ensures if k < |ms| - 1 then TapsFrom(ms[..|ms| - 1], k, h) && NoTaps(RequestsAt(ms[|ms| - 1]))
            else LastTaps(RequestsAt(ms[k]), h)
  {
    hide LastTaps, NoTaps, RequestsAt;
  }

  lemma NoTapsBefore(ms: seq<Meanwhile>)
    requires ms != []
    ensures NoTapsAtAll(ms) ==> NoTapsAtAll(ms[..|ms| - 1]) && NoTaps(RequestsAt(ms[|ms| - 1]))
  {
    hide NoTaps, RequestsAt;
  }

  /** A request handled between two turns, after m packets: packet m runs with the old taps under the new
      rotation; from packet m + 1 on the new taps are in force. */
  lemma {:induction false} BetweenTurns(h: seq<real>, v: Complex, h2: seq<real>, w: Complex, m: nat, N: nat)
    requires h2 != []
    ensures var ms, t := AskedBetween(Request(h2, w), m, N), Tuning(RotateTaps(h, v), v, None);
            && AfterTurns(t, ms) == (if N <= m then t else Tuning(RotateTaps(h2, w), w, None))
            && forall g: seq<real> ::
                 TurnSettings(t, ms) == Detuned(Odd(h, v, Plan(h, v), h2, w, m, N), Odd(h, v, Plan(g, w), h2, w, m, N))
  {
    hide RotateTaps;
    var r, t := Request(h2, w), Tuning(RotateTaps(h, v), v, None);
    if N != 0 {
      var ms, before := AskedBetween(r, m, N), AskedBetween(r, m, N - 1);
      BetweenTurns(h, v, h2, w, m, N - 1);
      assert ms[..N - 1] == before;
      AskOne(AfterTurns(t, before), r);
      AskOne(Asked(AfterTurns(t, before), r), r);
      forall g: seq<real>
        ensures TurnSettings(t, ms) == Detuned(Odd(h, v, Plan(h, v), h2, w, m, N), Odd(h, v, Plan(g, w), h2, w, m, N))
      {
        assert TurnSettings(t, before)
            == Detuned(Odd(h, v, Plan(h, v), h2, w, m, N - 1), Odd(h, v, Plan(g, w), h2, w, m, N - 1));
      }
    }
  }

  /** A request handled while a turn computes packet m switches cleanly: taps and rotation both change with packet
      m + 1. */
  lemma {:induction false} DuringTurn(h: seq<real>, v: Complex, h2: seq<real>, w: Complex, m: nat, N: nat)
    requires h2 != []
    ensures var ms, t := AskedDuring(Request(h2, w), m, N), Tuning(RotateTaps(h, v), v, None);
            && AfterTurns(t, ms) == (if N <= m then t else Tuning(RotateTaps(h2, w), w, None))
            && TurnSettings(t, ms) == Settings(Changed(h, v, h2, w, m + 1, N))
  {
    hide RotateTaps;
    var r, t := Request(h2, w), Tuning(RotateTaps(h, v), v, None);
    if N != 0 {
      var ms, before := AskedDuring(r, m, N), AskedDuring(r, m, N - 1);
      DuringTurn(h, v, h2, w, m, N - 1);
      assert ms[..N - 1] == before;
      AskOne(AfterTurns(t, before), r);
    }
  }

  /** So a MODIFY between two turns (of taps at most half + gcd(S, d) long) spoils one packet: packet m is, on every
      stream, the simple form at the new rotation for some taps g if and only if the old taps at the old rotation
      are g at the new one; NoSuchTaps says that is next to never. */
  lemma RequestBetweenTurns(
    p: Shape, h: seq<real>, v: Complex, h2: seq<real>, g: seq<real>, w: Complex, m: nat, N: nat)
    requires p.S >= 1 && p.d >= 1 && p.half <= p.S && |g| == |h| <= p.half + Gcd(p.S, p.d)
    requires h2 != [] && |h2| <= p.half + Gcd(p.S, p.d) && Unit(v) && Unit(w)
    requires 1 <= m < N && OutputCount(p, m) < OutputCount(p, m + 1)
    ensures var cfgs := TurnSettings(Tuning(RotateTaps(h, v), v, None), AskedBetween(Request(h2, w), m, N));
            (forall x: seq<Complex> :: |x| == Times(N, p.S) ==>
               Outputs(p, x, cfgs) == Piecewise(p, x, Odd(h, v, Plan(g, w), h2, w, m, N)))
            <==> RotateTaps(h, v) == RotateTaps(g, w)
  {
    hide Times, Outputs, Piecewise, OutputCount, Unit, RotateTaps, Gcd, TurnSettings;
    BetweenTurns(h, v, h2, w, m, N);
    RetuneExact(p, h, v, h2, g, w, m, N);
  }

  /** A MODIFY while packet m is computed spoils nothing: every packet is the simple form as asked for. */
  lemma RequestDuringTurn(
    p: Shape, x: seq<Complex>, h: seq<real>, v: Complex, h2: seq<real>, w: Complex, m: nat, N: nat)
    requires p.S >= 1 && p.d >= 1 && |x| == Times(N, p.S) && h2 != []
    requires Fits(p, Taps(Changed(h, v, h2, w, m + 1, N)))
    ensures Outputs(p, x, TurnSettings(Tuning(RotateTaps(h, v), v, None), AskedDuring(Request(h2, w), m, N)))
            == Piecewise(p, x, Changed(h, v, h2, w, m + 1, N))
  {
    hide Times, Outputs, Piecewise, RotateTaps, TurnSettings, Fits;
    DuringTurn(h, v, h2, w, m, N);
    FastIsPiecewise(p, x, Changed(h, v, h2, w, m + 1, N));
  }

  /** A MODIFY without taps, handled after m packets or while packet m - 1 is computed: the rotation changes with
      packet m, and the taps stay as they were rotated. */
  lemma RotationOnly(h: seq<real>, v: Complex, w: Complex, m: nat, N: nat)
    ensures var t, cfgs := Tuning(RotateTaps(h, v), v, None),
                           Detuned(Changed(h, v, h, v, m, N), Changed(h, v, h, w, m, N));
            && TurnSettings(t, AskedBetween(Request([], w), m, N)) == cfgs
            && (m >= 1 ==> TurnSettings(t, AskedDuring(Request([], w), m - 1, N)) == cfgs)
  {
    hide RotateTaps, TurnSettings;
    var t, r := Tuning(RotateTaps(h, v), v, None), Request([], w);
    OneRotation(t, AskedBetween(r, m, N), r, m);
    if m >= 1 {
      OneRotation(t, AskedDuring(r, m - 1, N), r, m - 1);
    }
  }

  lemma OneRotation(t: Tuning, ms: seq<Meanwhile>, r: Request, m: nat)
    requires t.pending == None && r.h == []
    requires forall i :: 0 <= i < |ms| ==> RequestsAt(ms[i]) == if i == m then [r] else []
    ensures forall n :: 0 <= n < |ms| ==>
              TurnSettings(t, ms)[n] == Setting(t.taps, if m < n || ms[n].before == [r] then r.w else t.rotate)
  {
    hide TurnSettings, TapsFrom;
    forall n | 0 <= n < |ms|
      ensures TurnSettings(t, ms)[n] == Setting(t.taps, if m < n || ms[n].before == [r] then r.w else t.rotate)
    {
      SettingsFollowRequests(t, ms, n);
      RequestsOnce(ms[..n], r, m);
      if ms[n].before != [r] {
        assert ms[n].before == [] by {
          assert ms[n].before + ms[n].during == RequestsAt(ms[n]);
        }
      }
    }
  }

  lemma {:induction false} RequestsOnce(ms: seq<Meanwhile>, r: Request, m: nat)
    requires forall i :: 0 <= i < |ms| ==> RequestsAt(ms[i]) == if i == m then [r] else []
    ensures Requests(ms) == if m < |ms| then [r] else []
  {
    if ms != [] {
      RequestsOnce(ms[..|ms| - 1], r, m);
    }
  }

  /** So it spoils everything that follows unless both rotations make the same taps. */
  lemma RequestRotation(p: Shape, h: seq<real>, v: Complex, w: Complex, m: nat, N: nat)
    requires p.S >= 1 && p.d >= 1 && p.half <= p.S && |h| <= p.half + Gcd(p.S, p.d)
    requires Unit(v) && Unit(w) && m >= 1 && OutputCount(p, m) < OutputCount(p, N)
    ensures var cfgs := TurnSettings(Tuning(RotateTaps(h, v), v, None), AskedBetween(Request([], w), m, N));
            (forall x: seq<Complex> :: |x| == Times(N, p.S) ==>
               Outputs(p, x, cfgs) == Piecewise(p, x, Changed(h, v, h, w, m, N)))
            <==> RotateTaps(h, v) == RotateTaps(h, w)
  {
    hide Times, Outputs, Piecewise, OutputCount, Unit, RotateTaps, Gcd, TurnSettings;
    RotationOnly(h, v, w, m, N);
    RotateOnlyExact(p, h, v, w, m, N);
  }

  // ---- the thread

  /** The packet that the last of these settings adds to the output; x is the stream with its input. */
  function NextPacket(p: Shape, before: seq<Setting>, cfgs: seq<Setting>, x: seq<Complex>): seq<Complex>
    requires p.d >= 1 && cfgs != []
  {
    PacketOut(p, x, cfgs[|cfgs| - 1], |before|, PhaseAfter(p, before))
  }

  class XlateWorker {
    const S: nat  // samples in a packet
    const half: nat  // usable lookback: MAXTAPS floats
    const decim: nat
    var rotate: Complex
    var taps: seq<Complex>
    var newtaps: Option<seq<real>>
    var maxval: real
    var enabled: bool
    var lastWritten: int
    // the thread's own buffers
    const alldata: array<Complex>
    const firout: array<Complex>
    const outbuf: array<seq<Complex>>  // ring of finished packets
    var firOffset: nat
    var phase: Complex
    // what has gone through so far
    ghost var stream: seq<Complex>
    ghost var settings: seq<Setting>
    ghost var outputs: seq<Complex>

    ghost function P(): Shape {
      Shape(S, half, decim)
    }

    ghost function Tuned(): Tuning
      reads this
    {
      Tuning(taps, rotate, newtaps)
    }

    ghost predicate Shaped()
      reads this
    {
      && decim >= 1 && S >= 1 && 2 * half <= S
      && alldata.Length == S + 2 * half
      && firout.Length == MaxOut(S, decim)
      && outbuf.Length >= 1
      && alldata != firout
      && |taps| <= 2 * half + 1
      && (newtaps.Some? ==> |newtaps.value| <= 2 * half + 1)
    }

    /** The invariant of the loop: buffer, grid offset, rotator and output all follow from the stream. */
    ghost predicate Valid()
      reads this, alldata
    {
      && Shaped()
      && |stream| == Times(|settings|, S)
      && Window(alldata, stream, S, half)
      && firOffset == Offset(|stream|, decim)
      && phase == PhaseAfter(P(), settings)
      && outputs == Outputs(P(), stream, settings)
      && lastWritten >= -1
    }

    constructor (S: nat, maxtaps: nat, bufsize: nat, rotate: Complex, decim: nat, start: int, h: seq<real>)
      requires decim >= 1 && S >= 1 && bufsize >= 1 && maxtaps % 2 == 0 && maxtaps <= S && start >= -1
      requires |h| <= maxtaps + 1
      ensures Valid() && fresh(alldata) && fresh(firout) && fresh(outbuf)
      ensures this.S == S && half == maxtaps / 2 && this.decim == decim && this.rotate == rotate
      ensures taps == RotateTaps(h, rotate) && maxval == Amplitude.MaxAmplitude(h)
      ensures stream == [] && settings == [] && newtaps == None && enabled && lastWritten == start
      ensures outbuf.Length == bufsize && alldata.Length == S + maxtaps && firout.Length == S / decim + 1
    {
      hide Times, Outputs, PhaseAfter, Count, Offset, Amplitude.MaxAmplitude, RotateTaps;
      this.S, this.half, this.decim := S, maxtaps / 2, decim;
      this.rotate, this.newtaps, this.enabled, this.lastWritten := rotate, None, true, start;
      var taps0 := GetComplexTaps(h, rotate);
      var maxval0 := CalcMaxAmplitude(h);
      this.taps, this.maxval := taps0, maxval0;
      alldata := new Complex[S + maxtaps](_ => ZERO);
      firout := new Complex[MaxOut(S, decim)](_ => ZERO);
      outbuf := new seq<Complex>[bufsize](_ => []);
      firOffset, phase := 0, ONE;
      stream, settings, outputs := [], [], [];
      new;
      StartState(P());
    }

    /** Moves the tail of the last packet to the front and appends the new one; both copies are memcpy. */
    method Load(packet: seq<Complex>)
      requires 2 * half <= S && alldata.Length == S + 2 * half && |packet| == S
      requires Window(alldata, stream, S, half)
      modifies alldata
      ensures Window(alldata, stream + packet, S, half)
    {
      forall k | 0 <= k < 2 * half {
        alldata[k] := alldata[S + k];
      }
      assert forall k :: 0 <= k < 2 * half ==> alldata[k] == PadAt(stream, half, |stream| + k);
      assert forall k :: S + half <= k < alldata.Length ==> alldata[k] == ZERO;
      forall k | 0 <= k < S {
        alldata[half + k] := packet[k];
      }
      assert forall k :: half <= k < half + S ==> alldata[k] == packet[k - half];
      ghost var x := stream + packet;
      forall k | 0 <= k < alldata.Length ensures alldata[k] == PadAt(x, half, |stream| + k) {
        if k < half {
          assert PadAt(x, half, |stream| + k) == PadAt(stream, half, |stream| + k);
        }
      }
    }

    /** Evaluates the filter at the grid positions of the packet just loaded. */
    method Filter(ghost x: seq<Complex>, ghost n: nat) returns (outsample: nat, i: nat)
      requires decim >= 1 && S >= 1 && |taps| <= 2 * half + 1 && alldata.Length == S + 2 * half
      requires firout.Length == MaxOut(S, decim) && alldata != firout
      requires |x| == NextStart(P(), n) && Window(alldata, x, S, half)
      requires firOffset == Offset(Times(n, S), decim)
      modifies firout
      ensures outsample == Emitted(P(), n) <= firout.Length
      ensures forall k :: 0 <= k < outsample ==>
                firout[k] == FirAt(x, half, Times(Count(Times(n, S), decim) + k, decim), taps)
      ensures i >= S && i - S == Offset(|x|, decim)
    {
      i, outsample := firOffset, 0;
      ghost var start := Times(n, S);
      ghost var first := Count(start, decim);
      CountMonotone(start, |x|, decim);
      ChunkOutputs(start, S, decim);
      hide Times, FirAt, Count;
      while i < S
        invariant start + i == Times(first + outsample, decim)
        invariant first + outsample <= Count(|x|, decim)
        invariant forall k :: 0 <= k < outsample ==> firout[k] == FirAt(x, half, Times(first + k, decim), taps)
        invariant Window(alldata, x, S, half)
      {
        BelowCount(first + outsample, |x|, decim);
        NextMultiple(first + outsample, decim);
        var dst := DotProduct(alldata, i, taps, x, S, half);
        firout[outsample] := dst;
        outsample := outsample + 1;
        i := i + decim;
      }
      BelowCount(first + outsample, |x|, decim);
    }

    /** One turn of the thread's loop once frame lastWritten + 1 is ready, when no request is handled meanwhile:
        everything from the copy of the input packet to the publication of the output packet. A disabled worker
        does the work but publishes nothing and stops. */
    method Process(packet: seq<Complex>) returns (running: bool)
      requires Valid() && |packet| == S
      modifies this, alldata, firout, outbuf
      ensures Valid() && Tuned() == Swapped(old(Tuned())) && enabled == old(enabled)
      ensures running == old(enabled)
      ensures lastWritten == if running then old(lastWritten) + 1 else old(lastWritten)
      ensures stream == old(stream) + packet
      ensures settings == old(settings) + [Setting(old(taps), old(rotate))]
      ensures outputs == old(outputs) + outbuf[SlotOf(outbuf.Length, old(lastWritten) + 1)]
      ensures outbuf[SlotOf(outbuf.Length, old(lastWritten) + 1)] == NextPacket(P(), old(settings), settings, stream)
      ensures forall i :: 0 <= i < outbuf.Length && i != SlotOf(outbuf.Length, old(lastWritten) + 1) ==>
                outbuf[i] == old(outbuf[i])
      ensures |outputs| - |old(outputs)| <= MaxOut(S, decim)
      ensures old(newtaps) == None ==> taps == old(taps) && maxval == old(maxval)
      ensures old(newtaps).Some? ==> maxval == Amplitude.MaxAmplitude(old(newtaps).value)
    {
      hide XlateWorker.Valid, MaxOut, NextPacket, Amplitude.MaxAmplitude, RotateTaps, SlotOf;
      Work(packet);
      running := Publish();
    }

    /** The unlocked part of a turn: the next packet is computed into its slot. */
    method Work(packet: seq<Complex>)
      requires Valid() && |packet| == S
      modifies alldata, firout, outbuf, `firOffset, `phase, `stream, `settings, `outputs
      ensures Valid()
      ensures stream == old(stream) + packet
      ensures settings == old(settings) + [Setting(taps, rotate)]
      ensures outputs == old(outputs) + outbuf[SlotOf(outbuf.Length, lastWritten + 1)]
      ensures outbuf[SlotOf(outbuf.Length, lastWritten + 1)] == NextPacket(P(), old(settings), settings, stream)
      ensures forall i :: 0 <= i < outbuf.Length && i != SlotOf(outbuf.Length, lastWritten + 1) ==>
                outbuf[i] == old(outbuf[i])
      ensures |outputs| - |old(outputs)| <= MaxOut(S, decim)
    {
      hide Times, Outputs, PhaseAfter, Window, Offset, RotateTaps, MaxOut, NextPacket, SlotOf;
      var mypos := lastWritten + 1;
      var dst := Compute(packet);
      outbuf[SlotOf(outbuf.Length, mypos)] := dst;
    }

    /** The locked end of a turn. */
    method Publish() returns (running: bool)
      requires Valid()
      modifies `taps, `newtaps, `maxval, `lastWritten
      ensures Valid() && Tuned() == Swapped(old(Tuned())) && running == enabled
      ensures lastWritten == if running then old(lastWritten) + 1 else old(lastWritten)
      ensures old(newtaps) == None ==> taps == old(taps) && maxval == old(maxval)
      ensures old(newtaps).Some? ==> maxval == Amplitude.MaxAmplitude(old(newtaps).value)
    {
      hide Times, Outputs, PhaseAfter, Window, Offset, RotateTaps, MaxOut, Amplitude.MaxAmplitude;
      SwapTaps();
      running := enabled;
      if enabled {
        lastWritten := lastWritten + 1;
      }
    }

    /** The part of the turn that runs without the lock. */
    method Compute(packet: seq<Complex>) returns (dst: seq<Complex>)
      requires Valid() && |packet| == S
      modifies alldata, firout, `firOffset, `phase, `stream, `settings, `outputs
      ensures Valid()
      ensures stream == old(stream) + packet
      ensures settings == old(settings) + [Setting(taps, rotate)]
      ensures outputs == old(outputs) + dst
      ensures dst == NextPacket(P(), old(settings), settings, stream)
      ensures |dst| <= MaxOut(S, decim)
    {
      hide Times, Outputs, PhaseAfter, Pow, Mul, Window, Emitted, Offset, Count, FirAt, MaxOut, NextPacket;
      ghost var n, x, cfg := |settings|, stream + packet, Setting(taps, rotate);
      assert NextStart(P(), n) == |x|;
      var phaseInc := Pow(rotate, decim);
      Load(packet);
      var outsample, i := Filter(x, n);
      var turned: Complex;
      dst, turned := Rotate(firout, phaseInc, phase, outsample);
      AppendPacket(P(), stream, packet, settings, cfg, dst);
      phase := turned;
      firOffset := i - S;
      stream, settings, outputs := x, settings + [cfg], outputs + dst;
    }

    /** Takes over the taps of a pending MODIFY request, rotated by the rotation now in force. */
    method SwapTaps()
      requires Valid()
      modifies `taps, `newtaps, `maxval
      ensures Valid() && Tuned() == Swapped(old(Tuned()))
      ensures old(newtaps) == None ==> taps == old(taps) && maxval == old(maxval)
      ensures old(newtaps).Some? ==> maxval == Amplitude.MaxAmplitude(old(newtaps).value)
    {
      hide Times, Outputs, PhaseAfter, Window, Offset, MaxOut, Amplitude.MaxAmplitude, RotateTaps;
      if newtaps.Some? {
        taps := GetComplexTaps(newtaps.value, rotate);
        maxval := CalcMaxAmplitude(newtaps.value);
        newtaps := None;
      }
    }

    /** The thread from its start, left alone with its taps: everything it puts out is the mixed, low-passed
        stream at positions 0, d, 2d, .... */
    method Thread(packets: seq<seq<Complex>>, ghost h: seq<real>)
      requires Valid() && enabled && newtaps == None && settings == []
      requires taps == RotateTaps(h, rotate) && Fits(P(), Same(h, |packets|))
      requires forall n :: 0 <= n < |packets| ==> |packets[n]| == S
      modifies this, alldata, firout, outbuf
      ensures Valid() && rotate == old(rotate) && lastWritten == old(lastWritten) + |packets|
      ensures stream == Flatten(packets)
      ensures IsSimpleForm(P(), stream, Same(h, |packets|), rotate, outputs)
    {
      hide Times, Outputs, PhaseAfter, Window, Offset, RotateTaps, MaxOut, Amplitude.MaxAmplitude, Simple, Fits;
      hide NextPacket;
      NoneBelowZero(S, decim);
      for n := 0 to |packets|
        invariant Valid() && enabled && newtaps == None
        invariant rotate == old(rotate) && taps == old(taps) && lastWritten == old(lastWritten) + n
        invariant stream == Flatten(packets[..n])
        invariant settings == Settings(Steady(Same(h, n), rotate))
      {
        var running := Process(packets[n]);
        assert packets[..n + 1][..n] == packets[..n];
        assert settings == Settings(Steady(Same(h, n + 1), rotate));
      }
      assert packets[..|packets|] == packets;
      FastIsSimple(P(), stream, Same(h, |packets|), rotate);
      assert settings == Settings(Steady(Same(h, |packets|), rotate));
    }

    /** A MODIFY request: the taps are only noted, the rotation takes effect at once. Nothing that has been computed
        changes. */
    method Modify(h: seq<real>, w: Complex)
      requires Valid() && |h| <= 2 * half + 1
      modifies this`newtaps, this`rotate
      ensures Valid() && Tuned() == Asked(old(Tuned()), Request(h, w))
      ensures rotate == w && taps == old(taps) && newtaps == if h == [] then old(newtaps) else Some(h)
    {
      if |h| != 0 {
        newtaps := Some(h);
      }
      rotate := w;
    }

    method ModifyAll(rs: seq<Request>)
      requires Valid() && forall r :: r in rs ==> |r.h| <= 2 * half + 1
      modifies this`newtaps, this`rotate
      ensures Valid() && Tuned() == AskedAll(old(Tuned()), rs)
      ensures taps == old(taps) && rotate == if rs == [] then old(rotate) else rs[|rs| - 1].w
      ensures forall h :: LastTaps(rs, h) ==> newtaps == Some(h)
      ensures NoTaps(rs) ==> newtaps == old(newtaps)
    {
      hide XlateWorker.Valid;
      for i := 0 to |rs|
        invariant Valid() && Tuned() == AskedAll(old(Tuned()), rs[..i])
      {
        assert rs[..i + 1][..i] == rs[..i];
        Modify(rs[i].h, rs[i].w);
      }
      assert rs[..|rs|] == rs;
      LastRequestWins(old(Tuned()), rs);
    }
  }

  /** A channel from its creation on. */
  method RunChannel(S: nat, maxtaps: nat, bufsize: nat, rotate: Complex, decim: nat, start: int, h: seq<real>,
                    packets: seq<seq<Complex>>)
    returns (w: XlateWorker)
    requires decim >= 1 && S >= 1 && bufsize >= 1 && maxtaps % 2 == 0 && maxtaps <= S && start >= -1
    requires |h| <= maxtaps + 1 && Fits(Shape(S, maxtaps / 2, decim), Same(h, |packets|))
    requires forall n :: 0 <= n < |packets| ==> |packets[n]| == S
    ensures fresh(w) && w.Valid() && w.lastWritten == start + |packets|
    ensures IsSimpleForm(Shape(S, maxtaps / 2, decim), Flatten(packets), Same(h, |packets|), rotate, w.outputs)
  {
    hide Times, Outputs, PhaseAfter, Window, Offset, RotateTaps, MaxOut, Amplitude.MaxAmplitude, Simple, Flatten;
    hide IsSimpleForm, XlateWorker.Valid, Fits;
    w := new XlateWorker(S, maxtaps, bufsize, rotate, decim, start, h);
    w.Thread(packets, h);
  }

  ghost predicate IsSimpleForm(p: Shape, x: seq<Complex>, hs: seq<seq<real>>, w: Complex, y: seq<Complex>) {
    p.S >= 1 && p.d >= 1 && |x| == Times(|hs|, p.S) && y == Simple(p, x, hs, w)
  }

  function Flatten(packets: seq<seq<Complex>>): seq<Complex> {
    if packets == [] then [] else Flatten(packets[..|packets| - 1]) + packets[|packets| - 1]
  }

  /** Sample i of packet k is where it belongs. */
  lemma {:induction false} FlattenAt(S: nat, packets: seq<seq<Complex>>, k: nat, i: nat)
    requires (forall n :: 0 <= n < |packets| ==> |packets[n]| == S) && k < |packets| && i < S
    ensures |Flatten(packets)| == Times(|packets|, S) && Times(k, S) + i < Times(|packets|, S)
    ensures Flatten(packets)[Times(k, S) + i] == packets[k][i]
  {
    var n := |packets| - 1;
    FlattenLength(S, packets[..n]);
    NextMultiple(n, S);
    hide Times;
    if k < n {
      FlattenAt(S, packets[..n], k, i);
    }
  }

  lemma {:induction false} FlattenLength(S: nat, packets: seq<seq<Complex>>)
    requires forall n :: 0 <= n < |packets| ==> |packets[n]| == S
    ensures |Flatten(packets)| == Times(|packets|, S)
  {
    if packets != [] {
      FlattenLength(S, packets[..|packets| - 1]);
      NextMultiple(|packets| - 1, S);
    }
  }

  /** The same taps for n packets. */
  function Same(h: seq<real>, n: nat): (hs: seq<seq<real>>)
    ensures |hs| == n && forall i :: 0 <= i < n ==> hs[i] == h
  {
    seq(n, _ => h)
  }

  lemma StartState(p: Shape)
    requires p.d >= 1
    ensures Times(0, p.S) == 0 == Offset(0, p.d)
    ensures PhaseAfter(p, []) == ONE && Outputs(p, [], []) == []
  {
    NoneBelowZero(p.S, p.d);
    NoneBelowZero(p.d, p.d);
  }

  /** The output grows by the samples of the new packet, the phase by one turn per sample. */
  lemma AppendPacket(
    p: Shape, x: seq<Complex>, packet: seq<Complex>, cfgs: seq<Setting>, cfg: Setting, dst: seq<Complex>)
    requires p.d >= 1 && p.S >= 1 && |x| == Times(|cfgs|, p.S) && |packet| == p.S
    requires |dst| == Emitted(p, |cfgs|)
    requires forall k :: 0 <= k < |dst| ==>
               dst[k] == PacketSample(p, x + packet, Count(Times(|cfgs|, p.S), p.d), k, cfg, PhaseAfter(p, cfgs))
    ensures |x + packet| == Times(|cfgs + [cfg]|, p.S)
    ensures dst == NextPacket(p, cfgs, cfgs + [cfg], x + packet)
    ensures Outputs(p, x + packet, cfgs + [cfg]) == Outputs(p, x, cfgs) + dst
    ensures PhaseAfter(p, cfgs + [cfg]) == Mul(PhaseAfter(p, cfgs), Pow(Pow(cfg.rotate, p.d), Emitted(p, |cfgs|)))
  {
    hide Times, Mul, Pow, PacketSample, Emitted;
    var n := |cfgs|;
    assert NextStart(p, n) == |x + packet|;
    assert (x + packet)[..Times(n, p.S)] == x;
    assert (cfgs + [cfg])[..n] == cfgs;
    assert PacketOut(p, x + packet, cfg, n, PhaseAfter(p, cfgs)) == dst;
  }
}
