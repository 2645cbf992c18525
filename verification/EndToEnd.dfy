/** From the radio to the subscriber: the ring protocol and the signal path put together. */
module EndToEnd {
  import opened ComplexNumbers
  import opened Decimation
  import opened Wrappers
  import opened XlateSpec
  import opened XlateLimits
  import opened Slots
  import opened Ring
  import RingSafety
  import opened XlateWorkerThread

  /** The captured frames, each a packet of S samples. */
  predicate Captured(frames: seq<seq<Complex>>, S: nat) {
    forall k :: 0 <= k < |frames| ==> |frames[k]| == S
  }

  /** What a worker reads from a slot; a slot caught in the middle of fread may hold anything. */
  function ReadSlot(frames: seq<seq<Complex>>, garbage: seq<Complex>, slot: Slot): seq<Complex> {
    if slot.Holds? && 0 <= slot.id < |frames| then frames[slot.id] else garbage
  }

  /** The stream a worker filters when it has read these slots. */
  function InputStream(S: nat, frames: seq<seq<Complex>>, garbage: seq<Complex>, input: seq<Slot>): (x: seq<Complex>)
    requires Captured(frames, S) && |garbage| == S
    ensures |x| == Times(|input|, S)
  {
    if input == [] then NoneBelowZero(S, 1); [] else
      NextMultiple(|input| - 1, S);
      InputStream(S, frames, garbage, input[..|input| - 1]) + ReadSlot(frames, garbage, input[|input| - 1])
  }

  /** The frames first, first + 1, ... of the recording, n of them, end to end. */
  function Frames(frames: seq<seq<Complex>>, first: int, n: nat): seq<Complex>
    requires n > 0 ==> 0 <= first && first + n <= |frames|
  {
    if n == 0 then [] else Frames(frames, first, n - 1) + frames[first + n - 1]
  }

  /** Sample i of the packet of frame first + k is where it belongs. */
  lemma {:induction false} FramesAt(S: nat, frames: seq<seq<Complex>>, first: int, n: nat, k: nat, i: nat)
    requires Captured(frames, S) && 0 <= first && first + n <= |frames| && k < n && i < S
    ensures |Frames(frames, first, n)| == n * S && k * S + i < n * S
    ensures Frames(frames, first, n)[k * S + i] == frames[first + k][i]
  {
    FramesLength(S, frames, first, n - 1);
    assert n * S == (n - 1) * S + S;
    if k < n - 1 {
      FramesAt(S, frames, first, n - 1, k, i);
    }
  }

  lemma {:induction false} FramesLength(S: nat, frames: seq<seq<Complex>>, first: int, n: nat)
    requires Captured(frames, S) && 0 <= first && first + n <= |frames|
    ensures |Frames(frames, first, n)| == n * S
  {
    if n != 0 {
      FramesLength(S, frames, first, n - 1);
      assert n * S == (n - 1) * S + S;
    }
  }

  /** The samples in the packet a worker publishes as its frame number k. */
  function Content(p: Shape, frames: seq<seq<Complex>>, garbage: seq<Complex>, w: Worker, cfgs: seq<Setting>, k: int)
    : seq<Complex>
    requires p.d >= 1 && Captured(frames, p.S) && |garbage| == p.S
  {
    var n := k - w.start - 1;
    if 0 <= n < |w.input| && n < |cfgs| then
      PacketOut(p, InputStream(p.S, frames, garbage, w.input[..n + 1]), cfgs[n], n, PhaseAfter(p, cfgs[..n]))
    else []
  }

  /** The samples a subscriber has been sent, end to end. */
  function Received(
    p: Shape, frames: seq<seq<Complex>>, garbage: seq<Complex>, w: Worker, cfgs: seq<Setting>, got: seq<Slot>)
    : seq<Complex>
    requires p.d >= 1 && Captured(frames, p.S) && |garbage| == p.S
  {
    if got == [] then [] else
      var last := got[|got| - 1];
      Received(p, frames, garbage, w, cfgs, got[..|got| - 1]) +
      (if last.Holds? then Content(p, frames, garbage, w, cfgs, last.id) else garbage)
  }

  /** Everything the worker has put out after its first n packets. */
  function Whole(p: Shape, frames: seq<seq<Complex>>, garbage: seq<Complex>, w: Worker, cfgs: seq<Setting>, n: nat)
    : (y: seq<Complex>)
    requires p.d >= 1 && Captured(frames, p.S) && |garbage| == p.S && n <= |w.input| && n <= |cfgs|
    ensures |y| == Count(Times(n, p.S), p.d)
  {
    Outputs(p, InputStream(p.S, frames, garbage, w.input[..n]), cfgs[..n])
  }

  /** Gap-free packets put end to end are a tail of the worker's whole output. */
  lemma {:induction false} PacketsEndToEnd(
    p: Shape, frames: seq<seq<Complex>>, garbage: seq<Complex>, w: Worker, cfgs: seq<Setting>, got: seq<Slot>, m: nat)
    requires p.d >= 1 && Captured(frames, p.S) && |garbage| == p.S
    requires m == w.from - w.start - 1 && m + |got| <= |w.input| && m + |got| <= |cfgs|
    requires forall j :: 0 <= j < |got| ==> got[j] == Holds(w.from + j)
    ensures Whole(p, frames, garbage, w, cfgs, m) + Received(p, frames, garbage, w, cfgs, got)
            == Whole(p, frames, garbage, w, cfgs, m + |got|)
  {
    hide Times, PacketOut, PhaseAfter, Count, Whole;
    if got != [] {
      var n, before := m + |got| - 1, got[..|got| - 1];
      PacketsEndToEnd(p, frames, garbage, w, cfgs, before, m);
      assert m + |before| == n;
      OneMorePacket(p, frames, garbage, w, cfgs, n);
      assert Received(p, frames, garbage, w, cfgs, got)
          == Received(p, frames, garbage, w, cfgs, before) + Content(p, frames, garbage, w, cfgs, w.start + 1 + n);
    }
  }

  lemma OneMorePacket(p: Shape, frames: seq<seq<Complex>>, garbage: seq<Complex>, w: Worker, cfgs: seq<Setting>, n: nat)
    requires p.d >= 1 && Captured(frames, p.S) && |garbage| == p.S && n < |w.input| && n < |cfgs|
    ensures Whole(p, frames, garbage, w, cfgs, n + 1)
            == Whole(p, frames, garbage, w, cfgs, n) + Content(p, frames, garbage, w, cfgs, w.start + 1 + n)
  {
    hide Times, PacketOut, PhaseAfter, Count, Emitted, Captured, Outputs;
    var x, y := InputStream(p.S, frames, garbage, w.input[..n + 1]), InputStream(p.S, frames, garbage, w.input[..n]);
    OutputsSplit(p, x, cfgs[..n + 1]);
    assert w.input[..n + 1][..n] == w.input[..n];
    assert x[..Times(n, p.S)] == y;
    assert cfgs[..n + 1][..n] == cfgs[..n];
  }

  /** A worker that filtered the consecutive frames filtered the recording. */
  lemma {:induction false} InputIsFrames(S: nat, frames: seq<seq<Complex>>, garbage: seq<Complex>, w: Worker, n: nat)
    requires Captured(frames, S) && |garbage| == S && RingSafety.Consecutive(w) && n <= |w.input|
    requires w.start >= -1 && (n > 0 ==> w.start + n < |frames|)
    ensures InputStream(S, frames, garbage, w.input[..n]) == Frames(frames, w.start + 1, n)
  {
    if n != 0 {
      InputIsFrames(S, frames, garbage, w, n - 1);
      assert w.input[..n][..n - 1] == w.input[..n - 1];
    }
  }

  /** What the invariant says about worker i's subscriber: it has been sent the frames from `from` up to the
      writer's position, all computed from input the worker has copied. */
  lemma SubscriberState(B: nat, steps: seq<Step>, i: int) returns (t: State, w: Worker)
    requires B >= 2 && Run(B, Init(B), steps).Some? && i in Run(B, Init(B), steps).value.workers
    requires Run(B, Init(B), steps).value.workers[i].subscribed && RingSafety.CopiesTimely(B, Init(B), steps, i)
    ensures t == Run(B, Init(B), steps).value && i in t.workers && w == t.workers[i]
    ensures -1 <= w.start < w.from && |w.got| == Cursor(t, i) + 1 - w.from && Cursor(t, i) - w.start <= |w.input|
    ensures RingSafety.Consecutive(w)
    ensures w.input != [] ==> w.start + |w.input| <= t.sdr
    ensures forall j :: 0 <= j < |w.got| ==> w.got[j] == Holds(w.from + j)
  {
    t := Run(B, Init(B), steps).value;
    w := t.workers[i];
    InitInv(B);
    RunKeepsInv(B, Init(B), steps);
    RingSafety.InputsExact(B, steps, i);
    assert WorkerInv(B, t, i) && WriterInv(t);
  }

  /** A subscriber has got the output of a worker with these settings, computed from the recording from frame
      `first` on, without the packets skipped before the subscription. */
  ghost predicate Hears(
    p: Shape, frames: seq<seq<Complex>>, first: int, skipped: nat, cfgs: seq<Setting>, heard: seq<Complex>)
    requires p.d >= 1
  {
    && skipped <= |cfgs|
    && 0 <= first && (cfgs != [] ==> first + |cfgs| <= |frames|)
    && var x, past := Frames(frames, first, |cfgs|), OutputCount(p, skipped);
       && |x| == Times(|cfgs|, p.S)
       && past <= |Outputs(p, x, cfgs)|
       && heard == Outputs(p, x, cfgs)[past..]
  }

  /** Over every interleaving of reader, workers, writer and requests: a client subscribed to a worker that
      always copied its input in time has received, sample for sample, that worker's output on the captured
      stream since its start, for the settings it went through, from the frame the client was subscribed at up to
      the writer's position. RunThread says which settings those are, XlateLimits what the output then is. */
  lemma SubscriberHearsTheWorker(
    B: nat, steps: seq<Step>, i: int, p: Shape, frames: seq<seq<Complex>>, garbage: seq<Complex>, cfgs: seq<Setting>)
    returns (w: Worker)
    requires B >= 2 && Run(B, Init(B), steps).Some? && i in Run(B, Init(B), steps).value.workers
    requires RingSafety.CopiesTimely(B, Init(B), steps, i)
    requires p.d >= 1 && Captured(frames, p.S) && |garbage| == p.S
    requires var t := Run(B, Init(B), steps).value;
             t.workers[i].subscribed && |frames| == t.sdr + 1 && |cfgs| == Cursor(t, i) - t.workers[i].start
    ensures w == Run(B, Init(B), steps).value.workers[i] && w.start < w.from
    ensures Hears(p, frames, w.start + 1, w.from - w.start - 1, cfgs, Received(p, frames, garbage, w, cfgs, w.got))
  {
    hide *;
    var t;
    t, w := SubscriberState(B, steps, i);
    HeardSoFar(p, frames, garbage, w, cfgs, w.from - w.start - 1);
  }

  /** In particular: if the settings act as planned, it has received, packet by packet, the simple form of the
      captured stream for the planned taps and rotations -- with one rotation, the stream mixed at full rate,
      low-passed, every d-th sample kept. */
  lemma SubscriberHearsThePlan(
    B: nat, steps: seq<Step>, i: int, p: Shape, frames: seq<seq<Complex>>, garbage: seq<Complex>, cfgs: seq<Setting>,
    plans: seq<Plan>)
    returns (w: Worker)
    requires B >= 2 && Run(B, Init(B), steps).Some? && i in Run(B, Init(B), steps).value.workers
    requires RingSafety.CopiesTimely(B, Init(B), steps, i)
    requires p.S >= 1 && p.d >= 1 && Captured(frames, p.S) && |garbage| == p.S
    requires var t := Run(B, Init(B), steps).value;
             t.workers[i].subscribed && |frames| == t.sdr + 1 && |cfgs| == Cursor(t, i) - t.workers[i].start
    requires |plans| == |cfgs| && RotationsIn(cfgs) == Rotations(plans) && AsPlanned(p, cfgs, plans)
    ensures w == Run(B, Init(B), steps).value.workers[i] && w.start < w.from
    ensures HearsPlan(p, frames, w.start + 1, w.from - w.start - 1, plans, Received(p, frames, garbage, w, cfgs, w.got))
  {
    hide *;
    w := SubscriberHearsTheWorker(B, steps, i, p, frames, garbage, cfgs);
    PlanHeard(p, frames, w.start + 1, w.from - w.start - 1, cfgs, plans, Received(p, frames, garbage, w, cfgs, w.got));
  }

  /** A subscriber has got what the plan asks for. */
  ghost predicate HearsPlan(
    p: Shape, frames: seq<seq<Complex>>, first: int, skipped: nat, plans: seq<Plan>, heard: seq<Complex>)
    requires p.S >= 1 && p.d >= 1
  {
    && skipped <= |plans|
    && 0 <= first && (plans != [] ==> first + |plans| <= |frames|)
    && var x, past := Frames(frames, first, |plans|), OutputCount(p, skipped);
       && |x| == Times(|plans|, p.S)
       && past <= OutputCount(p, |plans|)
       && heard == Piecewise(p, x, plans)[past..]
  }

  lemma PlanHeard(
    p: Shape, frames: seq<seq<Complex>>, first: int, skipped: nat, cfgs: seq<Setting>, plans: seq<Plan>,
    heard: seq<Complex>)
    requires p.S >= 1 && p.d >= 1 && Hears(p, frames, first, skipped, cfgs, heard)
    requires |plans| == |cfgs| && RotationsIn(cfgs) == Rotations(plans) && AsPlanned(p, cfgs, plans)
    ensures HearsPlan(p, frames, first, skipped, plans, heard)
  {
    hide Frames, AsPlanned, Times, Piecewise, Outputs, OutputCount;
    AsPlannedSuffices(p, Frames(frames, first, |plans|), cfgs, plans);
  }

  lemma HeardSoFar(p: Shape, frames: seq<seq<Complex>>, garbage: seq<Complex>, w: Worker, cfgs: seq<Setting>, m: nat)
    requires p.d >= 1 && Captured(frames, p.S) && |garbage| == p.S
    requires RingSafety.Consecutive(w) && w.start >= -1 && |cfgs| <= |w.input|
    requires cfgs != [] ==> w.start + |cfgs| < |frames|
    requires m == w.from - w.start - 1 && m + |w.got| == |cfgs|
    requires forall j :: 0 <= j < |w.got| ==> w.got[j] == Holds(w.from + j)
    ensures Hears(p, frames, w.start + 1, m, cfgs, Received(p, frames, garbage, w, cfgs, w.got))
  {
    WholeIsOutputs(p, frames, garbage, w, cfgs);
    hide Times, Count, Outputs, Received, Frames, InputStream, Whole, Captured, RingSafety.Consecutive;
    PacketsEndToEnd(p, frames, garbage, w, cfgs, w.got, m);
    Tail(Whole(p, frames, garbage, w, cfgs, m), Received(p, frames, garbage, w, cfgs, w.got),
      Outputs(p, Frames(frames, w.start + 1, |cfgs|), cfgs));
  }

  lemma Tail<T>(a: seq<T>, b: seq<T>, c: seq<T>)
    requires a + b == c
    ensures |a| <= |c| && b == c[|a|..]
  {
  }

  lemma WholeIsOutputs(p: Shape, frames: seq<seq<Complex>>, garbage: seq<Complex>, w: Worker, cfgs: seq<Setting>)
    requires p.d >= 1 && Captured(frames, p.S) && |garbage| == p.S
    requires RingSafety.Consecutive(w) && w.start >= -1 && |cfgs| <= |w.input|
    requires cfgs != [] ==> w.start + |cfgs| < |frames|
    ensures var x := Frames(frames, w.start + 1, |cfgs|);
            |x| == Times(|cfgs|, p.S) && Whole(p, frames, garbage, w, cfgs, |cfgs|) == Outputs(p, x, cfgs)
  {
    hide Times, Count, Outputs;
    assert cfgs[..|cfgs|] == cfgs;
    InputIsFrames(p.S, frames, garbage, w, |cfgs|);
  }

  // ---- the thread on the ring

  /** What it holds does not change while later packets are computed. */
  lemma ContentStays(
    p: Shape, frames: seq<seq<Complex>>, garbage: seq<Complex>, w: Worker, cfgs: seq<Setting>, cfg: Setting, k: int)
    requires p.d >= 1 && Captured(frames, p.S) && |garbage| == p.S && k - w.start - 1 < |cfgs|
    ensures Content(p, frames, garbage, w, cfgs + [cfg], k) == Content(p, frames, garbage, w, cfgs, k)
  {
    var n := k - w.start - 1;
    if n >= 0 {
      assert (cfgs + [cfg])[..n] == cfgs[..n];
    }
  }

  /** The last frames of a worker are in its ring, each in its slot. */
  ghost predicate Filled(
    p: Shape, ring: seq<seq<Complex>>, last: int, frames: seq<seq<Complex>>, garbage: seq<Complex>, w: Worker,
    cfgs: seq<Setting>)
    requires p.d >= 1 && |ring| >= 1 && Captured(frames, p.S) && |garbage| == p.S
  {
    forall k :: w.start < k <= last && last - |ring| < k ==>
      ring[SlotOf(|ring|, k)] == Content(p, frames, garbage, w, cfgs, k)
  }

  lemma FilledNext(
    p: Shape, ring: seq<seq<Complex>>, next: seq<seq<Complex>>, frames: seq<seq<Complex>>, garbage: seq<Complex>,
    w: Worker, cfgs: seq<Setting>, cfg: Setting)
    requires p.d >= 1 && |ring| >= 1 && Captured(frames, p.S) && |garbage| == p.S && w.start >= -1
    requires |cfgs| < |w.input| && |next| == |ring|
    requires Filled(p, ring, w.start + |cfgs|, frames, garbage, w, cfgs)
    requires forall i :: 0 <= i < |ring| && i != SlotOf(|ring|, w.start + |cfgs| + 1) ==> next[i] == ring[i]
    requires var x := InputStream(p.S, frames, garbage, w.input[..|cfgs| + 1]);
             next[SlotOf(|ring|, w.start + |cfgs| + 1)] == PacketOut(p, x, cfg, |cfgs|, PhaseAfter(p, cfgs))
    ensures Filled(p, next, w.start + |cfgs| + 1, frames, garbage, w, cfgs + [cfg])
  {
    hide PacketOut, PhaseAfter, Times, InputStream, SlotOf, Captured, Content;
    var n := |cfgs|;
    NewContent(p, frames, garbage, w, cfgs, cfg);
    forall k | w.start < k <= w.start + n + 1 && w.start + n + 1 - |ring| < k
      ensures next[SlotOf(|ring|, k)] == Content(p, frames, garbage, w, cfgs + [cfg], k)
    {
      if k <= w.start + n {
        Distinct(|ring|, k, w.start + n + 1);
        ContentStays(p, frames, garbage, w, cfgs, cfg, k);
      }
    }
  }

  lemma NothingFilled(
    p: Shape, ring: seq<seq<Complex>>, frames: seq<seq<Complex>>, garbage: seq<Complex>, w: Worker)
    requires p.d >= 1 && |ring| >= 1 && Captured(frames, p.S) && |garbage| == p.S
    ensures Filled(p, ring, w.start, frames, garbage, w, [])
  {
  }

  lemma NewContent(
    p: Shape, frames: seq<seq<Complex>>, garbage: seq<Complex>, w: Worker, cfgs: seq<Setting>, cfg: Setting)
    requires p.d >= 1 && Captured(frames, p.S) && |garbage| == p.S && |cfgs| < |w.input|
    ensures Content(p, frames, garbage, w, cfgs + [cfg], w.start + |cfgs| + 1)
            == PacketOut(p, InputStream(p.S, frames, garbage, w.input[..|cfgs| + 1]), cfg, |cfgs|, PhaseAfter(p, cfgs))
  {
    hide PacketOut, PhaseAfter, Times, InputStream, Captured;
    assert (cfgs + [cfg])[..|cfgs|] == cfgs;
  }

  ghost predicate Publishes(t: XlateWorker, frames: seq<seq<Complex>>, garbage: seq<Complex>, w: Worker)
    requires t.decim >= 1 && t.outbuf.Length >= 1 && Captured(frames, t.S) && |garbage| == t.S
    reads t, t.outbuf
  {
    Filled(t.P(), t.outbuf[..], t.lastWritten, frames, garbage, w, t.settings)
  }

  /** The first part of a turn of a thread that reads its next slot: the packet is computed into the ring. */
  method ComputeNext(t: XlateWorker, frames: seq<seq<Complex>>, garbage: seq<Complex>, ghost w: Worker, slot: Slot)
    requires t.Valid() && t.decim >= 1 && t.outbuf.Length >= 1 && Captured(frames, t.S) && |garbage| == t.S
    requires w.start >= -1 && t.lastWritten == w.start + |t.settings|
    requires |t.settings| < |w.input| && slot == w.input[|t.settings|]
    requires t.stream == InputStream(t.S, frames, garbage, w.input[..|t.settings|])
    requires Publishes(t, frames, garbage, w)
    modifies t.alldata, t.firout, t.outbuf, t`firOffset, t`phase, t`stream, t`settings, t`outputs
    ensures t.Valid() && t.settings == old(t.settings) + [Setting(t.taps, t.rotate)]
    ensures t.stream == InputStream(t.S, frames, garbage, w.input[..|t.settings|])
    ensures Filled(t.P(), t.outbuf[..], t.lastWritten + 1, frames, garbage, w, t.settings)
  {
    hide XlateWorker.Valid, PacketOut, PhaseAfter, Times, Filled, InputStream, SlotOf, Captured, Content, ReadSlot;
    ghost var cfgs, ring := t.settings, t.outbuf[..];
    OneMoreSlot(t.S, frames, garbage, w.input, |cfgs|);
    t.Work(ReadSlot(frames, garbage, slot));
    FilledNext(t.P(), ring, t.outbuf[..], frames, garbage, w, cfgs, Setting(t.taps, t.rotate));
  }

  /** No request asks for more taps than the buffer has room for. */
  ghost predicate Allowed(m: Meanwhile, most: nat) {
    forall r :: r in m.before || r in m.during ==> |r.h| <= most
  }

  /** The whole turn, with the requests handled around it. */
  method Turn(t: XlateWorker, frames: seq<seq<Complex>>, garbage: seq<Complex>, ghost w: Worker, slot: Slot,
              m: Meanwhile)
    requires t.Valid() && t.enabled && t.decim >= 1 && t.outbuf.Length >= 1
    requires Captured(frames, t.S) && |garbage| == t.S
    requires w.start >= -1 && t.lastWritten == w.start + |t.settings|
    requires |t.settings| < |w.input| && slot == w.input[|t.settings|]
    requires t.stream == InputStream(t.S, frames, garbage, w.input[..|t.settings|])
    requires Publishes(t, frames, garbage, w)
    requires Allowed(m, 2 * t.half + 1)
    modifies t, t.alldata, t.firout, t.outbuf
    ensures t.Valid() && t.enabled && t.lastWritten == w.start + |t.settings|
    ensures var u := AskedAll(old(t.Tuned()), m.before); t.settings == old(t.settings) + [Setting(u.taps, u.rotate)]
    ensures t.Tuned() == AfterTurn(old(t.Tuned()), m)
    ensures t.stream == InputStream(t.S, frames, garbage, w.input[..|t.settings|])
    ensures Publishes(t, frames, garbage, w)
  {
    hide XlateWorker.Valid, AskedAll, Swapped, Filled, InputStream, Captured;
    t.ModifyAll(m.before);
    ComputeNext(t, frames, garbage, w, slot);
    t.ModifyAll(m.during);
    var running := t.Publish();
  }

  lemma OneMoreSlot(S: nat, frames: seq<seq<Complex>>, garbage: seq<Complex>, input: seq<Slot>, n: nat)
    requires Captured(frames, S) && |garbage| == S && n < |input|
    ensures |ReadSlot(frames, garbage, input[n])| == S
    ensures InputStream(S, frames, garbage, input[..n + 1])
            == InputStream(S, frames, garbage, input[..n]) + ReadSlot(frames, garbage, input[n])
  {
    assert input[..n + 1][..n] == input[..n];
  }

  /** The thread has been through the turns ms since it was tuned like t0: its settings are those the requests lead
      to, its stream is what its slots held, and its ring holds what that makes. */
  ghost predicate HasRun(t: XlateWorker, frames: seq<seq<Complex>>, garbage: seq<Complex>, w: Worker, t0: Tuning,
                         ms: seq<Meanwhile>)
    requires Captured(frames, t.S) && |garbage| == t.S
    reads t, t.alldata, t.outbuf
  {
    && t.Valid() && t.enabled && t.decim >= 1 && t.outbuf.Length >= 1
    && w.start >= -1 && |ms| <= |w.input| && t.lastWritten == w.start + |ms|
    && t.settings == TurnSettings(t0, ms) && t.Tuned() == AfterTurns(t0, ms)
    && t.stream == InputStream(t.S, frames, garbage, w.input[..|ms|])
    && Publishes(t, frames, garbage, w)
  }

  method NextTurn(t: XlateWorker, frames: seq<seq<Complex>>, garbage: seq<Complex>, ghost w: Worker, slot: Slot,
                  ghost t0: Tuning, ghost ms: seq<Meanwhile>, m: Meanwhile)
    requires Captured(frames, t.S) && |garbage| == t.S && HasRun(t, frames, garbage, w, t0, ms)
    requires |ms| < |w.input| && slot == w.input[|ms|] && Allowed(m, 2 * t.half + 1)
    modifies t, t.alldata, t.firout, t.outbuf
    ensures HasRun(t, frames, garbage, w, t0, ms + [m])
  {
    hide XlateWorker.Valid, InputStream, AskedAll, AfterTurn, SlotOf, Filled, Captured, TurnSettings, AfterTurns;
    hide Allowed;
    Turn(t, frames, garbage, w, slot, m);
    NextSettings(t0, ms, m);
  }

  /** The thread from its creation, fed with the slots w.input, with MODIFY requests around its turns: its settings
      are the ones the requests lead to, and what a subscriber finds in the slot of frame k is Content(k) for
      them. */
  method RunThread(t: XlateWorker, frames: seq<seq<Complex>>, garbage: seq<Complex>, ghost w: Worker, input: seq<Slot>,
                   ms: seq<Meanwhile>)
    requires t.Valid() && t.enabled && t.settings == [] && t.lastWritten == w.start
    requires w.input == input && |ms| == |input|
    requires forall j :: 0 <= j < |ms| ==> Allowed(ms[j], 2 * t.half + 1)
    requires Captured(frames, t.S) && |garbage| == t.S
    modifies t, t.alldata, t.firout, t.outbuf
    ensures t.Valid() && t.lastWritten == w.start + |input|
    ensures t.settings == TurnSettings(old(t.Tuned()), ms) && t.Tuned() == AfterTurns(old(t.Tuned()), ms)
    ensures t.stream == InputStream(t.S, frames, garbage, input)
    ensures t.decim >= 1 && t.outbuf.Length >= 1 && Publishes(t, frames, garbage, w)
  {
    hide *;
    ghost var t0 := t.Tuned();
    StartsRun(t, frames, garbage, w);
    for j := 0 to |input|
      invariant HasRun(t, frames, garbage, w, t0, ms[..j])
    {
      assert ms[..j + 1] == ms[..j] + [ms[j]];
      NextTurn(t, frames, garbage, w, input[j], t0, ms[..j], ms[j]);
    }
    EndsRun(t, frames, garbage, w, t0, ms);
  }

  lemma StartsRun(t: XlateWorker, frames: seq<seq<Complex>>, garbage: seq<Complex>, w: Worker)
    requires t.Valid() && t.enabled && t.settings == [] && t.lastWritten == w.start
    requires Captured(frames, t.S) && |garbage| == t.S
    ensures forall ms: seq<Meanwhile> :: HasRun(t, frames, garbage, w, t.Tuned(), ms[..0])
  {
    StartsEmpty(t);
    NoSettings(t.Tuned());
    EmptyInput(t.S, frames, garbage);
    NothingFilled(t.P(), t.outbuf[..], frames, garbage, w);
    hide XlateWorker.Valid, Captured, Filled, InputStream;
    forall ms: seq<Meanwhile> ensures HasRun(t, frames, garbage, w, t.Tuned(), ms[..0]) {
      assert ms[..0] == [];
    }
  }

  lemma EndsRun(t: XlateWorker, frames: seq<seq<Complex>>, garbage: seq<Complex>, w: Worker, t0: Tuning,
                ms: seq<Meanwhile>)
    requires Captured(frames, t.S) && |garbage| == t.S && |ms| == |w.input|
    requires HasRun(t, frames, garbage, w, t0, ms[..|ms|])
    ensures t.Valid() && t.lastWritten == w.start + |ms|
    ensures t.settings == TurnSettings(t0, ms) && t.Tuned() == AfterTurns(t0, ms)
    ensures t.stream == InputStream(t.S, frames, garbage, w.input)
    ensures t.decim >= 1 && t.outbuf.Length >= 1 && Publishes(t, frames, garbage, w)
  {
    hide XlateWorker.Valid, InputStream, Filled, Captured, TurnSettings, AfterTurns;
    assert ms[..|ms|] == ms && w.input[..|ms|] == w.input;
  }

  lemma NextSettings(t: Tuning, ms: seq<Meanwhile>, m: Meanwhile)
    ensures var u := AskedAll(AfterTurns(t, ms), m.before);
            TurnSettings(t, ms + [m]) == TurnSettings(t, ms) + [Setting(u.taps, u.rotate)]
    ensures AfterTurns(t, ms + [m]) == AfterTurn(AfterTurns(t, ms), m)
  {
    assert (ms + [m])[..|ms|] == ms;
  }

  lemma NoSettings(t: Tuning)
    ensures TurnSettings(t, []) == [] && AfterTurns(t, []) == t
  {
  }

  lemma EmptyInput(S: nat, frames: seq<seq<Complex>>, garbage: seq<Complex>)
    requires Captured(frames, S) && |garbage| == S
    ensures InputStream(S, frames, garbage, []) == []
  {
  }

  lemma StartsEmpty(t: XlateWorker)
    requires t.Valid() && t.settings == []
    ensures t.stream == [] && t.lastWritten >= -1 && t.outbuf.Length >= 1 && t.decim >= 1
  {
    NoneBelowZero(t.S, t.decim);
  }
}
