/** The ring protocol between the reader thread, the worker threads and the writer thread.

    Every region under `datamutex` is one step; the long unlocked regions are cut into their beginning, their
    accesses to shared slots and their end. A slot holds a frame number, standing for the data of that frame,
    or is Torn: never written, or being overwritten. Frame k always lives in slot k % B. */
module Ring {
  import opened Slots
  import opened Wrappers

  datatype Slot = Torn | Holds(id: int)

  /** Where the reader thread is: before its gate, past it (frame sdr + 1 is its to fill), or inside fread. */
  datatype Reader = Gate | Reserved | Filling

  /** Where a worker thread is: at its wait loop, past it, with its input copied, inside the rotator, gone. */
  datatype Phase = Waiting | Ready | Copied | Writing | Exited

  /** `start`, `input`, `from` and `got` are history: the frame it started after, what it copied frame by
      frame, the first frame its subscriber may expect, and what the subscriber has been sent. */
  datatype Worker = Worker(
    enabled: bool,
    lastWritten: int,
    sendCptr: int,
    phase: Phase,
    out: seq<Slot>,
    start: int,
    input: seq<Slot>,
    subscribed: bool,
    from: int,
    got: seq<Slot>)
  {
    /** The frame the worker works on, or waits for. */
    function MyPos(): int {
      lastWritten + 1
    }
  }

  /** Where the writer thread is: outside llmutex; walking the worker list (todo: not visited yet); sending
      one worker's frames from its snapshot; or sending spectra from its snapshot. */
  datatype Writer =
    | Away
    | Walking(todo: set<int>)
    | Serving(wid: int, upto: int, cur: int, todo: set<int>)
    | Spectra(upto: int, cur: int)

  datatype State = State(
    sdr: int,
    send: int,
    inbuf: seq<Slot>,
    reader: Reader,
    writer: Writer,
    workers: map<int, Worker>,
    widx: int,
    spectra: seq<Slot>)

  function Init(B: nat): State {
    State(-1, -1, seq(B, _ => Torn), Gate, Away, map[], 0, [])
  }

  datatype Step =
    | Reserve | BeginFill | Publish
    | Begin(wid: int) | Copy(wid: int) | BeginWrite(wid: int) | Finish(wid: int)
    | EnterPass | Skip(wid: int) | Reap(wid: int) | Snapshot(wid: int) | SendFrame | Commit
    | SnapshotSpectra | SendSpectrum | LeavePass
    | Create(history: int) | Disable(wid: int) | Subscribe(wid: int) | Unsubscribe(wid: int)

  /** The reader's gate: the condition under which it reports an overflow and waits. */
  predicate ReaderBlocked(B: nat, s: State) {
    s.send < s.sdr + 1 - B
  }

  predicate NoData(s: State, w: Worker) {
    s.sdr <= w.MyPos()
  }

  predicate NoSpace(B: nat, w: Worker) {
    w.sendCptr <= w.MyPos() - B
  }

  /** Which steps can be taken. */
  predicate Can(B: nat, s: State, step: Step)
    requires B >= 2 && |s.inbuf| == B
  {
    match step
    case Reserve => s.reader == Gate && !ReaderBlocked(B, s)
    case BeginFill => s.reader == Reserved
    case Publish => s.reader == Filling
    case Begin(i) =>
      i in s.workers && s.workers[i].phase == Waiting && !NoData(s, s.workers[i]) && !NoSpace(B, s.workers[i])
    case Copy(i) => i in s.workers && s.workers[i].phase == Ready
    case BeginWrite(i) => i in s.workers && s.workers[i].phase == Copied
    case Finish(i) => i in s.workers && s.workers[i].phase == Writing
    case EnterPass => s.writer == Away
    case Skip(i) =>
      && s.writer.Walking? && i in s.writer.todo
      && i in s.workers && !s.workers[i].enabled && s.workers[i].phase != Exited
    case Reap(i) =>
      && s.writer.Walking? && i in s.writer.todo
      && i in s.workers && !s.workers[i].enabled && s.workers[i].phase == Exited
    case Snapshot(i) => s.writer.Walking? && i in s.writer.todo && i in s.workers && s.workers[i].enabled
    case SendFrame => s.writer.Serving? && s.writer.wid in s.workers && s.writer.cur < s.writer.upto
    case Commit => s.writer.Serving? && s.writer.wid in s.workers && s.writer.cur >= s.writer.upto
    case SnapshotSpectra => s.writer.Walking? && s.writer.todo == {}
    case SendSpectrum => s.writer.Spectra? && s.writer.cur < s.writer.upto
    case LeavePass => s.writer.Spectra? && s.writer.cur >= s.writer.upto
    case Create(history) => s.writer == Away && history >= -1
    case Disable(i) => s.writer == Away && i in s.workers
    case Subscribe(i) => s.writer == Away && i in s.workers
    case Unsubscribe(i) => s.writer == Away && i in s.workers
  }

  /** What a step does. */
  function Do(B: nat, s: State, step: Step): State
    requires B >= 2 && |s.inbuf| == B && Can(B, s, step)
    requires forall i :: i in s.workers ==> |s.workers[i].out| == B
  {
    match step
    case Reserve => s.(reader := Reserved)
    case BeginFill => s.(reader := Filling, inbuf := s.inbuf[SlotOf(B, s.sdr + 1) := Torn])
    case Publish => s.(reader := Gate, inbuf := s.inbuf[SlotOf(B, s.sdr + 1) := Holds(s.sdr + 1)], sdr := s.sdr + 1)
    case Begin(i) => Put(s, i, s.workers[i].(phase := Ready))
    case Copy(i) =>
      var w := s.workers[i];
      Put(s, i, w.(phase := Copied, input := w.input + [s.inbuf[SlotOf(B, w.MyPos())]]))
    case BeginWrite(i) =>
      var w := s.workers[i];
      Put(s, i, w.(phase := Writing, out := w.out[SlotOf(B, w.MyPos()) := Torn]))
    case Finish(i) =>
      var w := s.workers[i];
      if w.enabled then
        var out := w.out[SlotOf(B, w.MyPos()) := Holds(w.MyPos())];
        Put(s, i, w.(phase := Waiting, out := out, lastWritten := w.MyPos()))
      else
        Put(s, i, w.(phase := Exited, out := seq(B, _ => Torn)))
    case EnterPass => s.(writer := Walking(s.workers.Keys))
    case Skip(i) => s.(writer := Walking(s.writer.todo - {i}))
    case Reap(i) => s.(workers := s.workers - {i}, writer := Away)
    case Snapshot(i) =>
      s.(writer := Serving(i, s.workers[i].lastWritten, s.workers[i].sendCptr, s.writer.todo - {i}))
    case SendFrame =>
      var i, cur := s.writer.wid, s.writer.cur;
      var w := s.workers[i];
      var sent := if w.subscribed then w.(got := w.got + [w.out[SlotOf(B, cur + 1)]]) else w;
      Put(s, i, sent).(writer := Serving(i, s.writer.upto, cur + 1, s.writer.todo))
    case Commit =>
      var i := s.writer.wid;
      Put(s, i, s.workers[i].(sendCptr := s.writer.cur)).(writer := Walking(s.writer.todo))
    case SnapshotSpectra => s.(writer := Spectra(s.sdr, s.send))
    case SendSpectrum =>
      var cur := s.writer.cur;
      s.(spectra := s.spectra + [s.inbuf[SlotOf(B, cur + 1)]], writer := Spectra(s.writer.upto, cur + 1))
    case LeavePass => s.(send := s.writer.cur, writer := Away)
    case Create(history) =>
      var start := StartOf(B, s.sdr, history);
      Put(s, s.widx, Worker(true, start, start, Waiting, seq(B, _ => Torn), start, [], false, start + 1, []))
        .(widx := s.widx + 1)
    case Disable(i) => Put(s, i, s.workers[i].(enabled := false, subscribed := false))
    case Subscribe(i) =>
      var w := s.workers[i];
      Put(s, i, w.(subscribed := true, from := w.sendCptr + 1, got := []))
    case Unsubscribe(i) => Put(s, i, s.workers[i].(subscribed := false))
  }

  function Put(s: State, i: int, w: Worker): State {
    s.(workers := s.workers[i := w])
  }

  /** -1 asks for the current frame; more history than the ring holds is cut short. */
  function StartOf(B: nat, sdr: int, history: int): int {
    if history == -1 then sdr else if history < sdr - B then sdr - B else history
  }

  // ---- the invariant

  /** Frame k is in its slot. */
  predicate Has(B: nat, ring: seq<Slot>, k: int)
    requires B >= 1 && |ring| == B
  {
    ring[SlotOf(B, k)] == Holds(k)
  }

  /** The published frames still in the input ring: the last B, less the one being overwritten. */
  predicate Live(B: nat, s: State, k: int) {
    0 <= k <= s.sdr && s.sdr - k < B && (s.reader == Filling ==> s.sdr - k < B - 1)
  }

  ghost predicate ReaderInv(B: nat, s: State)
    requires B >= 2
  {
    && |s.inbuf| == B
    && -1 <= s.send <= s.sdr <= s.send + B
    && (s.reader != Gate ==> s.sdr + 1 <= s.send + B)
    && (forall k :: Live(B, s, k) ==> Has(B, s.inbuf, k))
    && (s.reader == Filling ==> s.inbuf[SlotOf(B, s.sdr + 1)] == Torn)
    && (forall i :: 0 <= i < B && s.inbuf[i].Holds? ==> s.inbuf[i].id <= s.sdr)
  }

  ghost predicate SpectraInv(s: State) {
    && (s.writer.Spectra? ==> s.send <= s.writer.cur <= s.writer.upto <= s.sdr)
    && |s.spectra| == (if s.writer.Spectra? then s.writer.cur else s.send) + 1
    && (forall j :: 0 <= j < |s.spectra| ==> s.spectra[j] == Holds(j))
  }

  predicate Busy(w: Worker) {
    w.phase == Ready || w.phase == Copied || w.phase == Writing
  }

  /** The last frame of worker i that has been sent, as far as the writer has come. */
  function Cursor(s: State, i: int): int
    requires i in s.workers
  {
    if s.writer.Serving? && s.writer.wid == i then s.writer.cur else s.workers[i].sendCptr
  }

  /** How many frames the worker has copied, if it still runs. */
  function Filtered(w: Worker): int {
    w.lastWritten - w.start + if w.phase == Copied || w.phase == Writing then 1 else 0
  }

  ghost predicate WorkerInv(B: nat, s: State, i: int)
    requires B >= 2 && i in s.workers
  {
    var w := s.workers[i];
    && -1 <= w.start <= w.sendCptr <= w.lastWritten
    && |w.out| == B
    && w.lastWritten - w.sendCptr <= B - 1
    && (Busy(w) ==> w.MyPos() - w.sendCptr <= B - 1 && w.MyPos() < s.sdr)
    && (w.enabled ==> w.phase != Exited)
    && (w.phase != Exited ==> forall k :: w.sendCptr < k <= w.lastWritten ==> Has(B, w.out, k))
    && |w.input| >= Filtered(w) && (w.phase != Exited ==> |w.input| == Filtered(w))
    && (w.input == [] || w.start + |w.input| <= s.sdr)
    && (w.subscribed ==>
          && w.start < w.from <= Cursor(s, i) + 1
          && |w.got| == Cursor(s, i) + 1 - w.from
          && forall j :: 0 <= j < |w.got| ==> w.got[j] == Holds(w.from + j))
  }

  ghost predicate WriterInv(s: State) {
    && (s.writer.Walking? ==> s.writer.todo <= s.workers.Keys)
    && (s.writer.Serving? ==>
          && s.writer.wid in s.workers
          && s.workers[s.writer.wid].enabled
          && s.writer.todo <= s.workers.Keys
          && s.workers[s.writer.wid].sendCptr <= s.writer.cur <= s.writer.upto <= s.workers[s.writer.wid].lastWritten)
  }

  ghost predicate Inv(B: nat, s: State)
    requires B >= 2
  {
    && ReaderInv(B, s)
    && SpectraInv(s)
    && WriterInv(s)
    && (forall i :: i in s.workers ==> i < s.widx)
    && (forall i :: i in s.workers ==> WorkerInv(B, s, i))
  }

  // ---- runs

  function Next(B: nat, s: State, step: Step): Option<State>
    requires B >= 2
  {
    if |s.inbuf| == B && (forall i :: i in s.workers ==> |s.workers[i].out| == B) && Can(B, s, step)
    then Some(Do(B, s, step)) else None
  }

  function Run(B: nat, s: State, steps: seq<Step>): Option<State>
    requires B >= 2
  {
    if steps == [] then Some(s) else
      var before := Run(B, s, steps[..|steps| - 1]);
      if before.None? then None else Next(B, before.value, steps[|steps| - 1])
  }

  // ---- slots

  /** Overwriting the slot of frame `at` leaves every other frame less than a ring away in place. */
  lemma Overwrite(B: nat, ring: seq<Slot>, at: int, v: Slot, k: int)
    requires B >= 1 && |ring| == B && Has(B, ring, k)
    requires at - B < k < at || at < k < at + B
    ensures Has(B, ring[SlotOf(B, at) := v], k)
  {
    if k < at {
      Distinct(B, k, at);
    } else {
      Distinct(B, at, k);
    }
  }

  // ---- every step keeps the invariant

  lemma InitInv(B: nat)
    requires B >= 2
    ensures Inv(B, Init(B))
  {
  }

  /** A step that leaves the workers as they are. */
  lemma SameWorkers(B: nat, s: State, t: State)
    requires B >= 2 && Inv(B, s) && t.sdr >= s.sdr
    requires forall j :: j in t.workers ==>
               j in s.workers && t.workers[j] == s.workers[j] && Cursor(t, j) == Cursor(s, j)
    ensures forall j :: j in t.workers ==> WorkerInv(B, t, j)
  {
    forall j | j in t.workers ensures WorkerInv(B, t, j) {
      assert WorkerInv(B, s, j);
    }
  }

  lemma ReaderStep(B: nat, s: State, step: Step)
    requires B >= 2 && Inv(B, s) && Can(B, s, step)
    requires step.Reserve? || step.BeginFill? || step.Publish?
    ensures Inv(B, Do(B, s, step))
  {
    var t := Do(B, s, step);
    SameWorkers(B, s, t);
    hide WorkerInv;
    forall k | Live(B, t, k) ensures Has(B, t.inbuf, k) {
      if step.BeginFill? {
        Overwrite(B, s.inbuf, s.sdr + 1, Torn, k);
      } else if step.Publish? && k <= s.sdr {
        Overwrite(B, s.inbuf, s.sdr + 1, Holds(s.sdr + 1), k);
      }
    }
  }

  /** A step that changes worker i alone, and nothing else anyone looks at. */
  lemma OtherWorkers(B: nat, s: State, t: State, i: int)
    requires B >= 2 && Inv(B, s)
    requires t.sdr == s.sdr
    requires forall j :: j in t.workers && j != i ==>
               j in s.workers && t.workers[j] == s.workers[j] && Cursor(t, j) == Cursor(s, j)
    ensures forall j :: j in t.workers && j != i ==> WorkerInv(B, t, j)
  {
    forall j | j in t.workers && j != i ensures WorkerInv(B, t, j) {
      assert WorkerInv(B, s, j);
    }
  }

  /** Changing one worker keeps the invariant if it keeps that worker's part of it and does not pull the
      writer's snapshot from under it. */
  lemma PutInv(B: nat, s: State, i: int, w: Worker)
    requires B >= 2 && Inv(B, s) && i in s.workers
    requires WorkerInv(B, Put(s, i, w), i)
    requires s.writer.Serving? && s.writer.wid == i ==>
               w.enabled && w.sendCptr == s.workers[i].sendCptr && s.workers[i].lastWritten <= w.lastWritten
    ensures Inv(B, Put(s, i, w))
  {
    OtherWorkers(B, s, Put(s, i, w), i);
  }

  lemma WorkerReads(B: nat, s: State, step: Step)
    requires B >= 2 && Inv(B, s) && Can(B, s, step)
    requires step.Begin? || step.Copy?
    ensures Inv(B, Do(B, s, step))
  {
    var t, i := Do(B, s, step), step.wid;
    assert WorkerInv(B, s, i);
    assert forall k :: Has(B, s.workers[i].out, k) ==> Has(B, t.workers[i].out, k);
    PutInv(B, s, i, t.workers[i]);
  }

  lemma WorkerWrites(B: nat, s: State, i: int)
    requires B >= 2 && Inv(B, s) && Can(B, s, BeginWrite(i))
    ensures Inv(B, Do(B, s, BeginWrite(i)))
  {
    var t := Do(B, s, BeginWrite(i));
    var w, v := s.workers[i], t.workers[i];
    assert WorkerInv(B, s, i);
    forall k | v.sendCptr < k <= v.lastWritten ensures Has(B, v.out, k) {
      Overwrite(B, w.out, w.MyPos(), Torn, k);
    }
    PutInv(B, s, i, v);
  }

  lemma WorkerFinishes(B: nat, s: State, i: int)
    requires B >= 2 && Inv(B, s) && Can(B, s, Finish(i))
    ensures Inv(B, Do(B, s, Finish(i)))
  {
    FinishedWorker(B, s, i);
    hide WorkerInv, ReaderInv, SpectraInv;
    PutInv(B, s, i, Do(B, s, Finish(i)).workers[i]);
  }

  lemma FinishedWorker(B: nat, s: State, i: int)
    requires B >= 2 && Inv(B, s) && Can(B, s, Finish(i))
    ensures WorkerInv(B, Do(B, s, Finish(i)), i)
  {
    var v := Do(B, s, Finish(i)).workers[i];
    var w := s.workers[i];
    assert WorkerInv(B, s, i);
    hide Inv, Has, Live;
    if w.enabled {
      Stored(B, w.out, w.MyPos());
      forall k | v.sendCptr < k <= v.lastWritten ensures Has(B, v.out, k) {
        if k <= w.lastWritten {
          Overwrite(B, w.out, w.MyPos(), Holds(w.MyPos()), k);
        }
      }
    }
  }

  lemma Stored(B: nat, ring: seq<Slot>, k: int)
    requires B >= 1 && |ring| == B
    ensures Has(B, ring[SlotOf(B, k) := Holds(k)], k)
  {
  }

  lemma WorkerStep(B: nat, s: State, step: Step)
    requires B >= 2 && Inv(B, s) && Can(B, s, step)
    requires step.Begin? || step.Copy? || step.BeginWrite? || step.Finish?
    ensures Inv(B, Do(B, s, step))
  {
    match step
    case Begin(_) => WorkerReads(B, s, step);
    case Copy(_) => WorkerReads(B, s, step);
    case BeginWrite(i) => WorkerWrites(B, s, i);
    case Finish(i) => WorkerFinishes(B, s, i);
  }

  lemma SendStep(B: nat, s: State)
    requires B >= 2 && Inv(B, s) && Can(B, s, SendFrame)
    ensures Inv(B, Do(B, s, SendFrame))
  {
    var t, i := Do(B, s, SendFrame), s.writer.wid;
    assert WorkerInv(B, s, i);
    assert Has(B, s.workers[i].out, s.writer.cur + 1);
    OtherWorkers(B, s, t, i);
    assert t.workers[i].out == s.workers[i].out;
    assert WorkerInv(B, t, i);
  }

  lemma SnapshotStep(B: nat, s: State, step: Step)
    requires B >= 2 && Inv(B, s) && Can(B, s, step)
    requires step.Snapshot? || step.Commit?
    ensures Inv(B, Do(B, s, step))
  {
    var t := Do(B, s, step);
    var i := if step.Snapshot? then step.wid else s.writer.wid;
    assert t.workers[i].out == s.workers[i].out;
    assert WorkerInv(B, s, i) && WorkerInv(B, t, i);
    OtherWorkers(B, s, t, i);
    hide WorkerInv;
  }

  lemma PassStep(B: nat, s: State, step: Step)
    requires B >= 2 && Inv(B, s) && Can(B, s, step)
    requires step.EnterPass? || step.Skip? || step.Reap? || step.SnapshotSpectra? || step.SendSpectrum?
             || step.LeavePass?
    ensures Inv(B, Do(B, s, step))
  {
    var t := Do(B, s, step);
    SameWorkers(B, s, t);
    hide WorkerInv;
    if step.SendSpectrum? {
      assert Live(B, s, s.writer.cur + 1);
    }
    forall k | Live(B, t, k) ensures Has(B, t.inbuf, k) {
      assert Live(B, s, k);
    }
  }

  lemma CreateStep(B: nat, s: State, history: int)
    requires B >= 2 && Inv(B, s) && Can(B, s, Create(history))
    ensures Inv(B, Do(B, s, Create(history)))
  {
    var t := Do(B, s, Create(history));
    OtherWorkers(B, s, t, s.widx);
    assert WorkerInv(B, t, s.widx);
  }

  lemma RequestStep(B: nat, s: State, step: Step)
    requires B >= 2 && Inv(B, s) && Can(B, s, step)
    requires step.Disable? || step.Subscribe? || step.Unsubscribe?
    ensures Inv(B, Do(B, s, step))
  {
    var t, i := Do(B, s, step), step.wid;
    assert WorkerInv(B, s, i);
    assert t.workers[i].out == s.workers[i].out;
    PutInv(B, s, i, t.workers[i]);
  }

  lemma StepKeepsInv(B: nat, s: State, step: Step)
    requires B >= 2 && Inv(B, s) && Can(B, s, step)
    ensures Inv(B, Do(B, s, step))
  {
    match step
    case Reserve => ReaderStep(B, s, step);
    case BeginFill => ReaderStep(B, s, step);
    case Publish => ReaderStep(B, s, step);
    case Begin(_) => WorkerStep(B, s, step);
    case Copy(_) => WorkerStep(B, s, step);
    case BeginWrite(_) => WorkerStep(B, s, step);
    case Finish(_) => WorkerStep(B, s, step);
    case Snapshot(_) => SnapshotStep(B, s, step);
    case SendFrame => SendStep(B, s);
    case Commit => SnapshotStep(B, s, step);
    case EnterPass => PassStep(B, s, step);
    case Skip(_) => PassStep(B, s, step);
    case Reap(_) => PassStep(B, s, step);
    case SnapshotSpectra => PassStep(B, s, step);
    case SendSpectrum => PassStep(B, s, step);
    case LeavePass => PassStep(B, s, step);
    case Create(history) => CreateStep(B, s, history);
    case Disable(_) => RequestStep(B, s, step);
    case Subscribe(_) => RequestStep(B, s, step);
    case Unsubscribe(_) => RequestStep(B, s, step);
  }

  /** Every state of every interleaving satisfies the invariant. */
  lemma {:induction false} RunKeepsInv(B: nat, s: State, steps: seq<Step>)
    requires B >= 2 && Inv(B, s) && Run(B, s, steps).Some?
    ensures Inv(B, Run(B, s, steps).value)
  {
    if steps != [] {
      RunKeepsInv(B, s, steps[..|steps| - 1]);
      StepKeepsInv(B, Run(B, s, steps[..|steps| - 1]).value, steps[|steps| - 1]);
    }
  }
}
