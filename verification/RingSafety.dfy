/** What the invariant of the ring protocol means for readers of the rings. */
module RingSafety {
  import opened Ring
  import opened Slots
  import opened Wrappers

  /** Over every interleaving: the reader is never more than a ring ahead of the writer, every published frame
      of the last B that is not being overwritten is in its slot, and the spectrum lines sent are the frames
      0, 1, 2, ... in order, each once and each intact. */
  lemma SpectrumLinesInOrder(B: nat, steps: seq<Step>)
    requires B >= 2 && Run(B, Init(B), steps).Some?
    ensures var t := Run(B, Init(B), steps).value;
            && |t.inbuf| == B
            && t.send <= t.sdr <= t.send + B
            && (forall k :: Live(B, t, k) ==> Has(B, t.inbuf, k))
            && |t.spectra| >= t.send + 1
            && forall j :: 0 <= j < |t.spectra| ==> t.spectra[j] == Holds(j)
  {
    InitInv(B);
    RunKeepsInv(B, Init(B), steps);
  }

  /** Over every interleaving: a worker never runs more than B - 1 frames ahead of the writer, and a client
      that has been subscribed to it since frame `from` has been sent exactly the frames from, from + 1, ...,
      up to the writer's position: no gap, no duplicate, nothing torn. */
  lemma SubscriberInOrder(B: nat, steps: seq<Step>, i: int)
    requires B >= 2 && Run(B, Init(B), steps).Some? && i in Run(B, Init(B), steps).value.workers
    ensures var t := Run(B, Init(B), steps).value;
            var w := t.workers[i];
            && 0 <= w.lastWritten - w.sendCptr <= B - 1
            && (w.subscribed ==>
                  && |w.got| == Cursor(t, i) + 1 - w.from
                  && forall j :: 0 <= j < |w.got| ==> w.got[j] == Holds(w.from + j))
  {
    InitInv(B);
    RunKeepsInv(B, Init(B), steps);
    assert WorkerInv(B, Run(B, Init(B), steps).value, i);
  }

  /** All the time the writer sends spectra from its snapshot, every frame it has still to send stays in its
      slot, and the reader's next slot is another one. */
  lemma ReaderNeverRacesWriter(B: nat, s: State, k: int)
    requires B >= 2 && Inv(B, s) && s.writer.Spectra? && s.writer.cur < k <= s.writer.upto
    ensures Has(B, s.inbuf, k)
    ensures s.reader != Gate ==> SlotOf(B, s.sdr + 1) != SlotOf(B, k)
  {
    assert Live(B, s, k);
    if s.reader != Gate {
      Distinct(B, k, s.sdr + 1);
    }
  }

  /** All the time the writer sends a worker's frames from its snapshot, every frame it has still to send
      stays in its slot, and the slot the worker may be writing is another one. */
  lemma WorkerNeverRacesWriter(B: nat, s: State, k: int)
    requires B >= 2 && Inv(B, s) && s.writer.Serving? && s.writer.cur < k <= s.writer.upto
    ensures var w := s.workers[s.writer.wid];
            && |w.out| == B && Has(B, w.out, k)
            && (Busy(w) ==> SlotOf(B, w.MyPos()) != SlotOf(B, k))
  {
    var w := s.workers[s.writer.wid];
    assert WorkerInv(B, s, s.writer.wid);
    if Busy(w) {
      Distinct(B, k, w.MyPos());
    }
  }

  // ---- what the recorder finds

  /** The recorder runs before the reader's gate. The frame it is about to write is in its slot if and only if
      it is one of the last B published ones; asked for a frame that is not there yet (as after a turn that
      caught up but was then held back by the gate), it writes an old frame instead. */
  lemma RecorderExact(B: nat, s: State, rec: int)
    requires B >= 2 && Inv(B, s) && s.reader == Gate && rec >= 0
    ensures Has(B, s.inbuf, rec) <==> s.sdr - B < rec <= s.sdr
  {
    if 0 <= rec <= s.sdr - B {
      var l := Twin(B, rec, s.sdr);
      assert Live(B, s, l);
    } else if rec <= s.sdr {
      assert Live(B, s, rec);
    }
  }

  // ---- the input of a worker

  /** The reader waits for the writer only, so it may lap a worker. The slot a worker copies holds the
      worker's own frame if and only if the worker lags less than B frames behind the reader -- less than
      B - 1 while the reader is filling a slot. */
  lemma InputExact(B: nat, s: State, i: int)
    requires B >= 2 && Inv(B, s) && i in s.workers && s.workers[i].phase == Ready
    ensures var k := s.workers[i].MyPos();
            Has(B, s.inbuf, k) <==> s.sdr - k < (if s.reader == Filling then B - 1 else B)
  {
    var k := s.workers[i].MyPos();
    assert WorkerInv(B, s, i);
    if !Live(B, s, k) {
      var l := Twin(B, k, s.sdr);
      if !Live(B, s, l) {
        SameSlot(B, l, 1);
      }
    }
  }

  /** The one frame of the last B that shares a slot with frame k. */
  lemma Twin(B: nat, k: int, sdr: int) returns (l: int)
    requires B >= 1 && 0 <= k <= sdr
    ensures SlotOf(B, l) == SlotOf(B, k)
    ensures k <= l <= sdr < l + B
    ensures sdr - k >= B ==> l != k
  {
    var n := (sdr - k) / B;
    SameSlot(B, k, n);
    l := k + n * B;
    assert n >= 0;
    NonNegativeProduct(n, B);
  }

  lemma NonNegativeProduct(n: nat, B: nat)
    ensures n * B >= 0
    ensures n >= 1 && B >= 1 ==> n * B >= 1
  {
  }

  /** Every copy worker i made in the run found its frame in place. */
  ghost predicate CopiesTimely(B: nat, s: State, steps: seq<Step>, i: int)
    requires B >= 2 && Run(B, s, steps).Some?
  {
    steps == [] ||
    var before, step := steps[..|steps| - 1], steps[|steps| - 1];
    && CopiesTimely(B, s, before, i)
    && (step == Copy(i) ==> Live(B, Run(B, s, before).value, Run(B, s, before).value.workers[i].MyPos()))
  }

  /** What the worker filtered: the consecutive frames after its start. */
  ghost predicate Consecutive(w: Worker) {
    forall j :: 0 <= j < |w.input| ==> w.input[j] == Holds(w.start + 1 + j)
  }

  lemma {:induction false} NoCopiesBeforeCreation(B: nat, steps: seq<Step>, i: int)
    requires B >= 2 && Run(B, Init(B), steps).Some? && Run(B, Init(B), steps).value.widx <= i
    ensures CopiesTimely(B, Init(B), steps, i)
  {
    if steps != [] {
      var before := steps[..|steps| - 1];
      InitInv(B);
      RunKeepsInv(B, Init(B), before);
      hide WorkerInv;
      CountersGrow(B, Run(B, Init(B), before).value, steps[|steps| - 1]);
      NoCopiesBeforeCreation(B, before, i);
    }
  }

  lemma CountersGrow(B: nat, s: State, step: Step)
    requires B >= 2 && Inv(B, s) && Can(B, s, step)
    ensures s.widx <= Do(B, s, step).widx
    ensures step.Copy? ==> step.wid < s.widx
  {
  }

  /** Over every run, and in both directions: a worker's input is the gap-free sequence of frames from its
      start exactly when every one of its copies happened in time. */
  lemma {:induction false} InputsExact(B: nat, steps: seq<Step>, i: int)
    requires B >= 2 && Run(B, Init(B), steps).Some? && i in Run(B, Init(B), steps).value.workers
    ensures Consecutive(Run(B, Init(B), steps).value.workers[i]) <==> CopiesTimely(B, Init(B), steps, i)
  {
    if steps != [] {
      var before, step := steps[..|steps| - 1], steps[|steps| - 1];
      var s, t := Run(B, Init(B), before).value, Run(B, Init(B), steps).value;
      InitInv(B);
      RunKeepsInv(B, Init(B), before);
      hide Inv, WorkerInv, Do, Can;
      if i in s.workers {
        InputsExact(B, before, i);
        InputStep(B, s, step, i);
      } else {
        NoCopiesBeforeCreation(B, before, i);
        FreshInput(B, s, step, i);
      }
    }
  }

  /** One step: only a late copy can spoil the input. */
  lemma InputStep(B: nat, s: State, step: Step, i: int)
    requires B >= 2 && Inv(B, s) && Can(B, s, step) && i in s.workers && i in Do(B, s, step).workers
    ensures Consecutive(Do(B, s, step).workers[i])
            <==> Consecutive(s.workers[i]) && (step == Copy(i) ==> Live(B, s, s.workers[i].MyPos()))
  {
    var w, v := s.workers[i], Do(B, s, step).workers[i];
    assert WorkerInv(B, s, i);
    if step == Copy(i) {
      InputExact(B, s, i);
      assert v.input[..|w.input|] == w.input && v.input[|w.input|] == s.inbuf[SlotOf(B, w.MyPos())];
      assert forall j :: 0 <= j < |w.input| ==> v.input[j] == w.input[j];
    } else {
      SameInput(B, s, step, i);
    }
  }

  lemma SameInput(B: nat, s: State, step: Step, i: int)
    requires B >= 2 && Inv(B, s) && Can(B, s, step) && i in s.workers && i in Do(B, s, step).workers
    requires step != Copy(i)
    ensures Do(B, s, step).workers[i].input == s.workers[i].input
    ensures Do(B, s, step).workers[i].start == s.workers[i].start
  {
  }

  lemma FreshInput(B: nat, s: State, step: Step, i: int)
    requires B >= 2 && Inv(B, s) && Can(B, s, step) && i !in s.workers && i in Do(B, s, step).workers
    ensures step.Create? && s.widx == i && Consecutive(Do(B, s, step).workers[i])
  {
  }
}
