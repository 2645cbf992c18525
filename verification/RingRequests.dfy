/** What requests lead to, over whole runs of the ring protocol. */
module RingRequests {
  import opened Ring
  import opened RingSafety
  import opened Wrappers

  /** The state before step n of a run. */
  ghost function StateAt(B: nat, steps: seq<Step>, n: nat): State
    requires B >= 2 && n <= |steps| && Run(B, Init(B), steps).Some?
  {
    PrefixRuns(B, steps, n);
    Run(B, Init(B), steps[..n]).value
  }

  lemma {:induction false} PrefixRuns(B: nat, steps: seq<Step>, n: nat)
    requires B >= 2 && n <= |steps| && Run(B, Init(B), steps).Some?
    ensures Run(B, Init(B), steps[..n]).Some?
    decreases |steps|
  {
    if n == |steps| {
      assert steps[..n] == steps;
    } else {
      PrefixRuns(B, steps[..|steps| - 1], n);
      assert steps[..|steps| - 1][..n] == steps[..n];
    }
  }

  /** The last step of a run: it could be taken, in a state that satisfies the invariant. */
  lemma LastStep(B: nat, steps: seq<Step>) returns (s: State)
    requires B >= 2 && steps != [] && Run(B, Init(B), steps).Some?
    ensures Run(B, Init(B), steps[..|steps| - 1]) == Some(s) && Inv(B, s) && Can(B, s, steps[|steps| - 1])
    ensures Run(B, Init(B), steps) == Some(Do(B, s, steps[|steps| - 1]))
    ensures forall n :: 0 <= n < |steps| ==> StateAt(B, steps, n) == StateAt(B, steps[..|steps| - 1], n)
  {
    s := Run(B, Init(B), steps[..|steps| - 1]).value;
    InitInv(B);
    RunKeepsInv(B, Init(B), steps[..|steps| - 1]);
    forall n | 0 <= n < |steps| ensures steps[..n] == steps[..|steps| - 1][..n] {
    }
  }

  // ---- CREATE

  /** In every run that ends in a CREATE the new worker has done and sent everything up to the frame asked for: the
      reader's for -1, the oldest one allowed if it is too far back. */
  lemma CreatedAsAsked(B: nat, steps: seq<Step>, history: int)
    requires B >= 2 && Run(B, Init(B), steps + [Create(history)]).Some?
    ensures Run(B, Init(B), steps).Some?
    ensures var s, t := Run(B, Init(B), steps).value, Run(B, Init(B), steps + [Create(history)]).value;
            && history >= -1 && s.widx !in s.workers && t.workers.Keys == s.workers.Keys + {s.widx}
            && var w := t.workers[s.widx];
               && w.start == w.lastWritten == w.sendCptr
               && (history == -1 ==> w.start == s.sdr)
               && (0 <= history && s.sdr - B <= history ==> w.start == history)
               && (0 <= history < s.sdr - B ==> w.start == s.sdr - B)
               && w.enabled && w.phase == Waiting && w.input == [] && !w.subscribed
  {
    var s := LastStep(B, steps + [Create(history)]);
    assert (steps + [Create(history)])[..|steps|] == steps;
  }

  /** The worker created by step n: over every run, as long as it is in the list, it starts where step n said, and
      if it copies in time the frames it filters are the ones after that, without a gap. */
  lemma FiltersFromWhereAsked(B: nat, steps: seq<Step>, n: nat, i: int)
    requires B >= 2 && Run(B, Init(B), steps).Some? && n < |steps| && steps[n].Create?
    requires i == StateAt(B, steps, n).widx && i in Run(B, Init(B), steps).value.workers
    ensures var s, w, history := StateAt(B, steps, n), Run(B, Init(B), steps).value.workers[i], steps[n].history;
            && (history == -1 ==> w.start == s.sdr)
            && (0 <= history && s.sdr - B <= history ==> w.start == history)
            && (0 <= history < s.sdr - B ==> w.start == s.sdr - B)
            && (CopiesTimely(B, Init(B), steps, i) ==>
                  forall j :: 0 <= j < |w.input| ==> w.input[j] == Holds(w.start + 1 + j))
  {
    PrefixRuns(B, steps, n + 1);
    assert steps[..n + 1] == steps[..n] + [steps[n]];
    hide Inv, Run, Do, Can, Init, CopiesTimely;
    CreatedAsAsked(B, steps[..n], steps[n].history);
    StartStays(B, steps, n + 1, i);
    InputsExact(B, steps, i);
  }

  lemma {:induction false} StartStays(B: nat, steps: seq<Step>, n: nat, i: int)
    requires B >= 2 && Run(B, Init(B), steps).Some? && n <= |steps|
    requires i in StateAt(B, steps, n).workers
    ensures var t := Run(B, Init(B), steps).value;
            i < t.widx && (i in t.workers ==> t.workers[i].start == StateAt(B, steps, n).workers[i].start)
  {
    if n == |steps| {
      assert steps[..n] == steps;
      InitInv(B);
      RunKeepsInv(B, Init(B), steps);
    } else {
      var s := LastStep(B, steps);
      StartStays(B, steps[..|steps| - 1], n, i);
      OneStart(B, s, steps[|steps| - 1], i);
    }
  }

  lemma OneStart(B: nat, s: State, step: Step, i: int)
    requires B >= 2 && Inv(B, s) && Can(B, s, step) && i < s.widx
    ensures i < Do(B, s, step).widx
    ensures i in Do(B, s, step).workers ==> i in s.workers && Do(B, s, step).workers[i].start == s.workers[i].start
  {
    hide ReaderInv, SpectraInv, WorkerInv;
  }

  // ---- ENABLE, DISABLE, DESTROY

  predicate Tells(step: Step, i: int) {
    step == Subscribe(i) || step == Unsubscribe(i) || step == Disable(i)
  }

  /** Step n is the last request about worker i, and it subscribes. */
  predicate LastSubscribes(steps: seq<Step>, n: int, i: int) {
    0 <= n < |steps| && steps[n] == Subscribe(i) && forall m :: n < m < |steps| ==> !Tells(steps[m], i)
  }

  /** Over every run: a worker has a subscriber if and only if the last request about it was a subscription, and then
      from the frame after those sent by that time. */
  lemma {:induction false} SubscribedExact(B: nat, steps: seq<Step>, i: int)
    requires B >= 2 && Run(B, Init(B), steps).Some? && i in Run(B, Init(B), steps).value.workers
    ensures var w := Run(B, Init(B), steps).value.workers[i];
            && (w.subscribed <==> exists n :: LastSubscribes(steps, n, i))
            && forall n :: LastSubscribes(steps, n, i) ==>
                 i in StateAt(B, steps, n).workers && w.from == StateAt(B, steps, n).workers[i].sendCptr + 1
  {
    if steps != [] {
      var s := LastStep(B, steps);
      var before, step := steps[..|steps| - 1], steps[|steps| - 1];
      LastAfter(steps, i);
      hide *;
      if i in s.workers {
        SubscribedExact(B, before, i);
        OneRequest(B, s, step, i);
        StateBeforeLast(B, steps);
        LastInRange(before, i);
        assert Tells(step, i) && step.Subscribe? ==> LastSubscribes(steps, |before|, i);
      } else {
        NotYet(B, before, i);
        NeverSubscribed(B, s, steps, i);
      }
    }
  }

  /** Over every run: a worker is enabled if and only if nobody has disabled it. */
  lemma {:induction false} EnabledExact(B: nat, steps: seq<Step>, i: int)
    requires B >= 2 && Run(B, Init(B), steps).Some? && i in Run(B, Init(B), steps).value.workers
    ensures Run(B, Init(B), steps).value.workers[i].enabled <==>
              forall n :: 0 <= n < |steps| ==> steps[n] != Disable(i)
  {
    if steps != [] {
      var s := LastStep(B, steps);
      var before, step := steps[..|steps| - 1], steps[|steps| - 1];
      hide *;
      if i in s.workers {
        EnabledExact(B, before, i);
        OneRequest(B, s, step, i);
        NoneSoFar(steps, Disable(i));
      } else {
        NotYet(B, before, i);
        NeverSubscribed(B, s, steps, i);
      }
    }
  }

  lemma NoneSoFar(steps: seq<Step>, step: Step)
    requires steps != []
    ensures var before := steps[..|steps| - 1];
            (forall n :: 0 <= n < |steps| ==> steps[n] != step)
            <==> (forall n :: 0 <= n < |before| ==> before[n] != step) && steps[|steps| - 1] != step
  {
    assert forall n :: 0 <= n < |steps| - 1 ==> steps[..|steps| - 1][n] == steps[n];
  }

  lemma StateBeforeLast(B: nat, steps: seq<Step>)
    requires B >= 2 && steps != [] && Run(B, Init(B), steps).Some?
    ensures Run(B, Init(B), steps[..|steps| - 1]) == Some(StateAt(B, steps, |steps| - 1))
  {
  }

  lemma LastInRange(steps: seq<Step>, i: int)
    ensures forall n :: LastSubscribes(steps, n, i) ==> 0 <= n < |steps|
  {
  }

  /** A worker that the last step creates. */
  lemma NeverSubscribed(B: nat, s: State, steps: seq<Step>, i: int)
    requires B >= 2 && steps != [] && Inv(B, s) && Can(B, s, steps[|steps| - 1])
    requires i !in s.workers && i in Do(B, s, steps[|steps| - 1]).workers
    requires forall n :: 0 <= n < |steps| - 1 ==> !Tells(steps[n], i)
    ensures var w := Do(B, s, steps[|steps| - 1]).workers[i]; w.enabled && !w.subscribed
    ensures forall n :: !LastSubscribes(steps, n, i)
    ensures forall n :: 0 <= n < |steps| ==> steps[n] != Disable(i)
  {
    var step := steps[|steps| - 1];
    FreshInput(B, s, step, i);
    assert forall n :: 0 <= n < |steps| ==> !Tells(steps[n], i);
  }

  lemma LastAfter(steps: seq<Step>, i: int)
    requires steps != []
    ensures forall n :: LastSubscribes(steps, n, i) <==>
              if Tells(steps[|steps| - 1], i) then n == |steps| - 1 && steps[n] == Subscribe(i)
              else LastSubscribes(steps[..|steps| - 1], n, i)
  {
  }

  lemma OneRequest(B: nat, s: State, step: Step, i: int)
    requires B >= 2 && Inv(B, s) && Can(B, s, step) && i in s.workers && i in Do(B, s, step).workers
    ensures var w, v := s.workers[i], Do(B, s, step).workers[i];
            && v.subscribed == (if Tells(step, i) then step.Subscribe? else w.subscribed)
            && v.from == (if step == Subscribe(i) then w.sendCptr + 1 else w.from)
            && v.enabled == (w.enabled && step != Disable(i))
  {
    hide ReaderInv, SpectraInv, WorkerInv;
  }

  /** Nobody can speak of a worker before it is created. */
  lemma {:induction false} NotYet(B: nat, steps: seq<Step>, i: int)
    requires B >= 2 && Run(B, Init(B), steps).Some? && Run(B, Init(B), steps).value.widx <= i
    ensures forall n :: 0 <= n < |steps| ==> !Tells(steps[n], i)
  {
    if steps != [] {
      var s := LastStep(B, steps);
      hide *;
      TellsOfOld(B, s, steps[|steps| - 1], i);
      NotYet(B, steps[..|steps| - 1], i);
      assert forall n :: 0 <= n < |steps| - 1 ==> steps[..|steps| - 1][n] == steps[n];
    }
  }

  lemma TellsOfOld(B: nat, s: State, step: Step, i: int)
    requires B >= 2 && Inv(B, s) && Can(B, s, step)
    ensures s.widx <= Do(B, s, step).widx && (Tells(step, i) ==> i < s.widx)
  {
    hide ReaderInv, SpectraInv, WorkerInv;
  }

  /** So whoever subscribes at step n, and is not unsubscribed since, has been sent the frames from the first one not
      sent by then up to the writer's position, intact and in order. */
  lemma SubscriptionPays(B: nat, steps: seq<Step>, i: int, n: int)
    requires B >= 2 && Run(B, Init(B), steps).Some? && i in Run(B, Init(B), steps).value.workers
    requires LastSubscribes(steps, n, i)
    ensures i in StateAt(B, steps, n).workers
    ensures var t, from := Run(B, Init(B), steps).value, StateAt(B, steps, n).workers[i].sendCptr + 1;
            && |t.workers[i].got| == Cursor(t, i) + 1 - from
            && forall j :: 0 <= j < |t.workers[i].got| ==> t.workers[i].got[j] == Holds(from + j)
  {
    SubscribedExact(B, steps, i);
    SubscriberInOrder(B, steps, i);
  }

  /** Over every run: the workers are those that have been created and not reaped since. */
  lemma {:induction false} ListedExact(B: nat, steps: seq<Step>, i: int)
    requires B >= 2 && Run(B, Init(B), steps).Some?
    ensures var t := Run(B, Init(B), steps).value;
            i in t.workers <==> 0 <= i < t.widx && forall n :: 0 <= n < |steps| ==> steps[n] != Reap(i)
  {
    if steps != [] {
      var s := LastStep(B, steps);
      var before, step := steps[..|steps| - 1], steps[|steps| - 1];
      ListedExact(B, before, i);
      hide *;
      OneListed(B, s, step, i);
      NoneSoFar(steps, Reap(i));
      if i == s.widx {
        NotReaped(B, before, i);
      }
    }
  }

  lemma OneListed(B: nat, s: State, step: Step, i: int)
    requires B >= 2 && Inv(B, s) && Can(B, s, step)
    ensures var t := Do(B, s, step);
            && t.widx == s.widx + (if step.Create? then 1 else 0)
            && (i in t.workers <==> (i in s.workers && step != Reap(i)) || (step.Create? && i == s.widx))
            && (step == Reap(i) ==> i in s.workers && i < s.widx)
  {
    hide ReaderInv, SpectraInv, WorkerInv;
  }

  lemma {:induction false} NotReaped(B: nat, steps: seq<Step>, i: int)
    requires B >= 2 && Run(B, Init(B), steps).Some? && Run(B, Init(B), steps).value.widx <= i
    ensures 0 <= i && forall n :: 0 <= n < |steps| ==> steps[n] != Reap(i)
  {
    if steps != [] {
      var s := LastStep(B, steps);
      hide *;
      OneListed(B, s, steps[|steps| - 1], i);
      NotReaped(B, steps[..|steps| - 1], i);
      NoneSoFar(steps, Reap(i));
    }
  }
}
