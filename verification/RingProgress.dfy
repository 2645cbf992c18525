/** What can always still happen in the ring protocol, and what cannot. */
module RingProgress {
  import opened Ring
  import opened Slots
  import opened Wrappers
  import RingSafety

  // ---- what being blocked means

  /** A reader held back by its gate is a full ring ahead of the writer: there is something to send. */
  lemma BlockedReader(B: nat, s: State)
    requires B >= 2 && Inv(B, s) && s.reader == Gate
    ensures ReaderBlocked(B, s) <==> s.sdr - s.send == B
  {
  }

  /** A waiting worker without space has B - 1 frames ready to be sent; one that waits for data has done
      every frame but the newest. */
  lemma BlockedWorker(B: nat, s: State, i: int)
    requires B >= 2 && Inv(B, s) && i in s.workers
    ensures var w := s.workers[i];
            && (NoSpace(B, w) <==> w.lastWritten - w.sendCptr == B - 1)
            && (NoData(s, w) <==> s.sdr - w.lastWritten <= 1)
  {
    assert WorkerInv(B, s, i);
  }

  // ---- runs put together

  lemma {:induction false} RunAppend(B: nat, s: State, a: seq<Step>, b: seq<Step>)
    requires B >= 2 && Run(B, s, a).Some?
    ensures Run(B, s, a + b) == Run(B, Run(B, s, a).value, b)
  {
    if b == [] {
      assert a + b == a;
    } else {
      RunAppend(B, s, a, b[..|b| - 1]);
      assert (a + b)[..|a + b| - 1] == a + b[..|b| - 1];
    }
  }

  /** t can be reached from s. */
  ghost predicate Reaches(B: nat, s: State, t: State)
    requires B >= 2
  {
    exists steps :: Run(B, s, steps) == Some(t)
  }

  lemma ReachesSelf(B: nat, s: State)
    requires B >= 2
    ensures Reaches(B, s, s)
  {
    assert Run(B, s, []) == Some(s);
  }

  lemma ReachesTrans(B: nat, s: State, t: State, u: State)
    requires B >= 2 && Reaches(B, s, t) && Reaches(B, t, u)
    ensures Reaches(B, s, u)
  {
    var a :| Run(B, s, a) == Some(t);
    var b :| Run(B, t, b) == Some(u);
    RunAppend(B, s, a, b);
  }

  lemma ReachesStep(B: nat, s: State, step: Step)
    requires B >= 2 && Inv(B, s) && Can(B, s, step)
    ensures Reaches(B, s, Do(B, s, step)) && Inv(B, Do(B, s, step))
  {
    assert forall i :: i in s.workers ==> WorkerInv(B, s, i);
    assert [step][..0] == [];
    assert Run(B, s, []) == Some(s);
    assert Run(B, s, [step]) == Some(Do(B, s, step));
    StepKeepsInv(B, s, step);
  }

  // ---- one pass of the writer

  /** What the writer alone leaves as it was. */
  ghost predicate WriterOnly(s: State, t: State) {
    && t.sdr == s.sdr && t.inbuf == s.inbuf && t.reader == s.reader && t.widx == s.widx
    && t.workers.Keys <= s.workers.Keys
    && (forall i :: i in t.workers ==> SameButSent(s.workers[i], t.workers[i]))
    && (forall i :: i in s.workers && s.workers[i].enabled ==> i in t.workers)
  }

  predicate SameButSent(w: Worker, v: Worker) {
    && v.enabled == w.enabled && v.phase == w.phase && v.lastWritten == w.lastWritten
    && (!w.enabled ==> v.sendCptr == w.sendCptr)
  }

  /** Worker i has nothing left for the writer to do. */
  predicate Served(w: Worker) {
    if w.enabled then w.sendCptr == w.lastWritten else w.phase != Exited
  }

  /** The writer's snapshots are still up to date, and everything behind it is done. */
  ghost predicate PassInv(s: State) {
    match s.writer
    case Away => false
    case Walking(todo) => forall i :: i in s.workers && i !in todo ==> Served(s.workers[i])
    case Serving(wid, upto, cur, todo) =>
      && wid in s.workers && upto == s.workers[wid].lastWritten
      && wid !in todo
      && forall i :: i in s.workers && i !in todo && i != wid ==> Served(s.workers[i])
    case Spectra(upto, cur) => upto == s.sdr && forall i :: i in s.workers ==> Served(s.workers[i])
  }

  ghost predicate Drained(s: State) {
    && s.writer == Away
    && s.send == s.sdr
    && forall i :: i in s.workers ==> Served(s.workers[i])
  }

  /** The writer's next step in a pass. */
  ghost predicate WriterStep(B: nat, s: State, step: Step)
    requires B >= 2 && |s.inbuf| == B
  {
    && Can(B, s, step)
    && (step.Skip? || step.Reap? || step.Snapshot? || step.SendFrame? || step.Commit?
        || step.SnapshotSpectra? || step.SendSpectrum? || step.LeavePass?)
  }

  lemma EmptyOrNot(todo: set<int>)
    ensures todo == {} || exists i :: i in todo
  {
    if forall i :: i !in todo {
      assert todo == {};
    }
  }

  /** Inside a pass the writer is never stuck. */
  lemma WriterCanMove(B: nat, s: State) returns (step: Step)
    requires B >= 2 && Inv(B, s) && s.writer != Away
    ensures WriterStep(B, s, step)
  {
    match s.writer
    case Walking(todo) =>
      if todo != {} {
        EmptyOrNot(todo);
        var i :| i in todo;
        step := if s.workers[i].enabled then Snapshot(i) else if s.workers[i].phase == Exited then Reap(i) else Skip(i);
      } else {
        step := SnapshotSpectra;
      }
    case Serving(_, upto, cur, _) => step := if cur < upto then SendFrame else Commit;
    case Spectra(upto, cur) => step := if cur < upto then SendSpectrum else LeavePass;
  }

  /** How far the pass has to go. */
  function Todo(w: Writer): set<int> {
    match w
    case Walking(todo) => todo
    case Serving(_, _, _, todo) => todo
    case _ => {}
  }

  function Stage(w: Writer): nat {
    match w
    case Away => 0
    case Spectra(_, _) => 1
    case Walking(_) => 2
    case Serving(_, _, _, _) => 3
  }

  function Backlog(w: Writer): nat {
    match w
    case Serving(_, upto, cur, _) => if cur < upto then upto - cur else 0
    case Spectra(upto, cur) => if cur < upto then upto - cur else 0
    case _ => 0
  }

  lemma WriterStepWorks(B: nat, s: State, step: Step)
    requires B >= 2 && Inv(B, s) && s.writer != Away && WriterStep(B, s, step)
    ensures var t := Do(B, s, step);
            && WriterOnly(s, t)
            && (t.writer != Away ==>
                  || Todo(t.writer) < Todo(s.writer)
                  || (Todo(t.writer) == Todo(s.writer) && Stage(t.writer) < Stage(s.writer))
                  || (&& Todo(t.writer) == Todo(s.writer) && Stage(t.writer) == Stage(s.writer)
                      && Backlog(t.writer) < Backlog(s.writer)))
  {
  }

  lemma WriterStepCount(B: nat, s: State, step: Step)
    requires B >= 2 && Inv(B, s) && WriterStep(B, s, step)
    ensures |Do(B, s, step).workers| <= |s.workers|
    ensures step.Reap? ==> |Do(B, s, step).workers| < |s.workers|
  {
    var t := Do(B, s, step);
    if step.Reap? {
      FewerWorkers(s.workers, step.wid);
    } else {
      assert t.workers.Keys == s.workers.Keys;
      assert |t.workers| == |t.workers.Keys| == |s.workers.Keys|;
    }
  }

  lemma WriterStepKeepsPass(B: nat, s: State, step: Step)
    requires B >= 2 && Inv(B, s) && PassInv(s) && WriterStep(B, s, step)
    ensures Do(B, s, step).writer != Away ==> PassInv(Do(B, s, step))
    ensures Do(B, s, step).writer == Away ==> Drained(Do(B, s, step)) || step.Reap?
  {
  }

  lemma FewerWorkers(m: map<int, Worker>, i: int)
    requires i in m
    ensures |m - {i}| < |m|
  {
    assert (m - {i}).Keys == m.Keys - {i};
    assert |(m - {i}).Keys| == |m.Keys| - 1;
  }

  /** The writer, left alone, finishes its pass. */
  lemma FinishPass(B: nat, s: State) returns (t: State)
    requires B >= 2 && Inv(B, s)
    ensures Inv(B, t) && Reaches(B, s, t) && t.writer == Away && WriterOnly(s, t) && |t.workers| <= |s.workers|
    ensures PassInv(s) ==> Drained(t) || |t.workers| < |s.workers|
    ensures s.writer == Away ==> t == s
    decreases Todo(s.writer), Stage(s.writer), Backlog(s.writer)
  {
    if s.writer == Away {
      ReachesSelf(B, s);
      t := s;
    } else {
      var step := WriterCanMove(B, s);
      ReachesStep(B, s, step);
      WriterStepWorks(B, s, step);
      WriterStepCount(B, s, step);
      if PassInv(s) {
        WriterStepKeepsPass(B, s, step);
      }
      hide Inv, Can, Do, Drained, PassInv, Served, Reaches, SameButSent;
      var u := Do(B, s, step);
      t := FinishPass(B, u);
      ReachesTrans(B, s, u, t);
      OnlyTrans(s, u, t);
    }
  }

  lemma OnlyTrans(s: State, t: State, u: State)
    requires WriterOnly(s, t) && WriterOnly(t, u)
    ensures WriterOnly(s, u)
  {
  }

  /** From every state the writer alone reaches a state in which everything ready has been sent, every
      finished worker has been reaped, and nothing else has moved. */
  lemma Drain(B: nat, s: State) returns (t: State)
    requires B >= 2 && Inv(B, s)
    ensures Inv(B, t) && Reaches(B, s, t) && Drained(t) && WriterOnly(s, t)
    decreases |s.workers|
  {
    var u := FinishPass(B, s);
    ReachesStep(B, u, EnterPass);
    var v := Do(B, u, EnterPass);
    ReachesTrans(B, s, u, v);
    assert PassInv(v);
    OnlyTrans(s, u, v);
    t := FinishPass(B, v);
    ReachesTrans(B, s, v, t);
    OnlyTrans(s, v, t);
    if !Drained(t) {
      var r := Drain(B, t);
      ReachesTrans(B, s, t, r);
      OnlyTrans(s, t, r);
      t := r;
    }
  }

  /** No deadlock: from every state the writer alone, in finitely many of its own steps, opens the reader's
      gate and gives every enabled worker space. */
  lemma WriterUnblocksAll(B: nat, s: State) returns (t: State)
    requires B >= 2 && Inv(B, s)
    ensures Inv(B, t) && Reaches(B, s, t) && WriterOnly(s, t)
    ensures !ReaderBlocked(B, t)
    ensures forall i :: i in t.workers && t.workers[i].enabled ==> !NoSpace(B, t.workers[i])
  {
    t := Drain(B, s);
  }

  // ---- a new frame can always arrive

  /** Nothing but the reader and the writer moved. */
  ghost predicate NotWorkers(s: State, t: State) {
    && t.widx == s.widx
    && t.workers.Keys <= s.workers.Keys
    && (forall i :: i in t.workers ==> SameButSent(s.workers[i], t.workers[i]))
    && (forall i :: i in s.workers && s.workers[i].enabled ==> i in t.workers)
  }

  lemma ReaderMoves(B: nat, s: State, step: Step) returns (t: State)
    requires B >= 2 && Inv(B, s) && Can(B, s, step) && (step.Reserve? || step.BeginFill? || step.Publish?)
    ensures t == Do(B, s, step) && Inv(B, t) && Reaches(B, s, t)
    ensures t.workers == s.workers && t.widx == s.widx
  {
    ReachesStep(B, s, step);
    t := Do(B, s, step);
  }

  /** From every state one more frame can be published. */
  lemma OneMoreFrame(B: nat, s: State) returns (t: State)
    requires B >= 2 && Inv(B, s)
    ensures Inv(B, t) && Reaches(B, s, t) && t.sdr == s.sdr + 1 && NotWorkers(s, t)
  {
    t := Drain(B, s);
    ghost var d := t;
    if t.reader == Gate {
      var u := ReaderMoves(B, t, Reserve);
      ReachesTrans(B, s, t, u);
      t := u;
    }
    if t.reader == Reserved {
      var u := ReaderMoves(B, t, BeginFill);
      ReachesTrans(B, s, t, u);
      t := u;
    }
    var u := ReaderMoves(B, t, Publish);
    ReachesTrans(B, s, t, u);
    t := u;
  }

  lemma MoreFrames(B: nat, s: State, n: nat) returns (t: State)
    requires B >= 2 && Inv(B, s)
    ensures Inv(B, t) && Reaches(B, s, t) && t.sdr == s.sdr + n && NotWorkers(s, t)
    decreases n
  {
    if n == 0 {
      ReachesSelf(B, s);
      t := s;
    } else {
      var u := OneMoreFrame(B, s);
      t := MoreFrames(B, u, n - 1);
      ReachesTrans(B, s, u, t);
    }
  }

  /** The gate knows nothing of the workers: some run lets the reader lap an enabled worker, which then
      filters a frame that is not its own. */
  lemma ReaderCanLapWorker(B: nat) returns (t: State)
    requires B >= 2
    ensures Reaches(B, Init(B), t) && 0 in t.workers && t.workers[0].enabled && !RingSafety.Consecutive(t.workers[0])
  {
    InitInv(B);
    ReachesStep(B, Init(B), Create(-1));
    var s := MoreFrames(B, Do(B, Init(B), Create(-1)), 2);
    ReachesTrans(B, Init(B), Do(B, Init(B), Create(-1)), s);
    var u := WorkerMoves(B, s, Begin(0));
    ReachesTrans(B, Init(B), s, u);
    var v := MoreFrames(B, u, B);
    ReachesTrans(B, Init(B), u, v);
    assert WorkerInv(B, v, 0);
    RingSafety.InputExact(B, v, 0);
    t := WorkerMoves(B, v, Copy(0));
    ReachesTrans(B, Init(B), v, t);
    RingSafety.InputStep(B, v, Copy(0), 0);
  }

  // ---- which destroyed workers ever go away

  /** A worker that was disabled while it waited for space. */
  predicate Stuck(B: nat, s: State, i: int) {
    i in s.workers && !s.workers[i].enabled && s.workers[i].phase == Waiting && NoSpace(B, s.workers[i])
  }

  lemma StuckStays(B: nat, s: State, step: Step, i: int)
    requires B >= 2 && Inv(B, s) && Can(B, s, step) && Stuck(B, s, i)
    ensures Stuck(B, Do(B, s, step), i)
  {
  }

  /** It stays as it is for ever: the writer only moves send_cptr of enabled workers. */
  lemma {:induction false} StuckForEver(B: nat, s: State, steps: seq<Step>, i: int)
    requires B >= 2 && Inv(B, s) && Stuck(B, s, i) && Run(B, s, steps).Some?
    ensures Stuck(B, Run(B, s, steps).value, i)
  {
    if steps != [] {
      var before := steps[..|steps| - 1];
      StuckForEver(B, s, before, i);
      RunKeepsInv(B, s, before);
      StuckStays(B, Run(B, s, before).value, steps[|steps| - 1], i);
    }
  }

  /** Worker i can still be reaped. */
  ghost predicate CanGo(B: nat, s: State, i: int)
    requires B >= 2
  {
    exists t :: Reaches(B, s, t) && i !in t.workers
  }

  lemma WorkerMoves(B: nat, s: State, step: Step) returns (t: State)
    requires B >= 2 && Inv(B, s) && Can(B, s, step) && (step.Begin? || step.Copy? || step.BeginWrite? || step.Finish?)
    ensures t == Do(B, s, step) && Inv(B, t) && Reaches(B, s, t)
  {
    ReachesStep(B, s, step);
    t := Do(B, s, step);
  }

  /** A disabled worker past its wait loop runs to its end. */
  lemma RunsOut(B: nat, s: State, i: int) returns (t: State)
    requires B >= 2 && Inv(B, s) && i in s.workers && !s.workers[i].enabled && Busy(s.workers[i])
    ensures Inv(B, t) && Reaches(B, s, t) && i in t.workers && !t.workers[i].enabled && t.workers[i].phase == Exited
  {
    ReachesSelf(B, s);
    t := s;
    if t.workers[i].phase == Ready {
      var u := WorkerMoves(B, t, Copy(i));
      ReachesTrans(B, s, t, u);
      t := u;
    }
    if t.workers[i].phase == Copied {
      var u := WorkerMoves(B, t, BeginWrite(i));
      ReachesTrans(B, s, t, u);
      t := u;
    }
    var u := WorkerMoves(B, t, Finish(i));
    ReachesTrans(B, s, t, u);
    t := u;
  }

  /** A destroyed worker can still be reaped if and only if it was not disabled while waiting for space. */
  lemma ReapableExactly(B: nat, s: State, i: int)
    requires B >= 2 && Inv(B, s) && i in s.workers && !s.workers[i].enabled
    ensures CanGo(B, s, i) <==> !Stuck(B, s, i)
  {
    if Stuck(B, s, i) {
      forall t | Reaches(B, s, t) ensures i in t.workers {
        var steps :| Run(B, s, steps) == Some(t);
        StuckForEver(B, s, steps, i);
      }
    } else {
      var t := Gone(B, s, i);
    }
  }

  lemma Gone(B: nat, s: State, i: int) returns (t: State)
    requires B >= 2 && Inv(B, s) && i in s.workers && !s.workers[i].enabled && !Stuck(B, s, i)
    ensures Reaches(B, s, t) && i !in t.workers
  {
    var u := s;
    ReachesSelf(B, s);
    if u.workers[i].phase == Waiting {
      var v := MoreFrames(B, u, if NoData(s, s.workers[i]) then s.workers[i].MyPos() + 1 - s.sdr else 0);
      ReachesTrans(B, s, u, v);
      if i !in v.workers {
        return v;
      }
      u := WorkerMoves(B, v, Begin(i));
      ReachesTrans(B, s, v, u);
    }
    if Busy(u.workers[i]) {
      var v := RunsOut(B, u, i);
      ReachesTrans(B, s, u, v);
      u := v;
    }
    t := Drain(B, u);
    ReachesTrans(B, s, u, t);
  }

  /** The reader alone publishes a frame while the writer stays away. */
  lemma PublishOne(B: nat, s: State) returns (t: State)
    requires B >= 2 && Inv(B, s) && s.reader == Gate && !ReaderBlocked(B, s)
    ensures Inv(B, t) && Reaches(B, s, t)
    ensures t.sdr == s.sdr + 1 && t.send == s.send && t.reader == Gate && t.writer == s.writer && t.workers == s.workers
  {
    var u := ReaderMoves(B, s, Reserve);
    var v := ReaderMoves(B, u, BeginFill);
    ReachesTrans(B, s, u, v);
    t := ReaderMoves(B, v, Publish);
    ReachesTrans(B, s, v, t);
  }

  lemma PublishAlone(B: nat, s: State, n: nat) returns (t: State)
    requires B >= 2 && Inv(B, s) && s.reader == Gate && s.sdr + n <= s.send + B
    ensures Inv(B, t) && Reaches(B, s, t)
    ensures t.sdr == s.sdr + n && t.writer == s.writer && t.workers == s.workers
    decreases n
  {
    if n == 0 {
      ReachesSelf(B, s);
      t := s;
    } else {
      var u := PublishOne(B, s);
      t := PublishAlone(B, u, n - 1);
      ReachesTrans(B, s, u, t);
    }
  }

  /** Worker i alone filters a frame while the writer stays away. */
  lemma FilterOne(B: nat, s: State, i: int) returns (t: State)
    requires B >= 2 && Inv(B, s) && i in s.workers && s.workers[i].enabled && s.workers[i].phase == Waiting
    requires !NoData(s, s.workers[i]) && !NoSpace(B, s.workers[i])
    ensures Inv(B, t) && Reaches(B, s, t) && t.sdr == s.sdr && t.writer == s.writer && i in t.workers
    ensures var w, v := s.workers[i], t.workers[i];
            && v.enabled && v.phase == Waiting && v.sendCptr == w.sendCptr && v.lastWritten == w.lastWritten + 1
  {
    var u := WorkerMoves(B, s, Begin(i));
    var v := WorkerMoves(B, u, Copy(i));
    ReachesTrans(B, s, u, v);
    u := WorkerMoves(B, v, BeginWrite(i));
    ReachesTrans(B, s, v, u);
    t := WorkerMoves(B, u, Finish(i));
    ReachesTrans(B, s, u, t);
  }

  lemma FilterAlone(B: nat, s: State, i: int, n: nat) returns (t: State)
    requires B >= 2 && Inv(B, s) && i in s.workers && s.workers[i].enabled && s.workers[i].phase == Waiting
    requires s.workers[i].lastWritten + n < s.sdr && s.workers[i].lastWritten + n <= s.workers[i].sendCptr + B - 1
    ensures Inv(B, t) && Reaches(B, s, t) && t.writer == s.writer && i in t.workers
    ensures var w, v := s.workers[i], t.workers[i];
            && v.enabled && v.phase == Waiting && v.sendCptr == w.sendCptr && v.lastWritten == w.lastWritten + n
    decreases n
  {
    if n == 0 {
      ReachesSelf(B, s);
      t := s;
    } else {
      var u := FilterOne(B, s, i);
      t := FilterAlone(B, u, i, n - 1);
      ReachesTrans(B, s, u, t);
    }
  }

  /** Workers do get stuck: for every ring size some run creates a worker, fills its ring while the writer is
      away, and disables it. */
  lemma WorkerCanGetStuck(B: nat) returns (t: State)
    requires B >= 2
    ensures Reaches(B, Init(B), t) && Stuck(B, t, 0) && !CanGo(B, t, 0)
  {
    InitInv(B);
    ReachesStep(B, Init(B), Create(-1));
    var s := Do(B, Init(B), Create(-1));
    var u := PublishAlone(B, s, B);
    ReachesTrans(B, Init(B), s, u);
    var v := FilterAlone(B, u, 0, B - 1);
    ReachesTrans(B, Init(B), u, v);
    ReachesStep(B, v, Disable(0));
    t := Do(B, v, Disable(0));
    ReachesTrans(B, Init(B), v, t);
    ReapableExactly(B, t, 0);
  }
}
