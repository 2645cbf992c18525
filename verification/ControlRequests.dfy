/** What requests lead to, over whole runs of the control plane: who is sent a channel's packets, which workers are
    in the list, and in which order they are created. */
module ControlRequests {
  import opened ControlPlane
  import opened ControlLife
  import opened Wrappers

  /** Step i leaves client c without subscriptions to worker wid: its connection, or a DISABLE or DESTROY of a worker
      in the list, whoever sent it. */
  ghost predicate Cuts(steps: seq<Step>, i: nat, c: int, wid: int)
    requires i < |steps| && Run(Init(), steps).Some?
  {
    || steps[i] == Connect(c)
    || ((steps[i] == Disable(wid) || steps[i] == Mark(wid)) && wid in StateAt(steps, i).workers)
  }

  /** How often c has enabled the worker from step n on. */
  function Enables(steps: seq<Step>, n: nat, c: int, wid: int): nat {
    if |steps| <= n then 0 else
      Enables(steps[..|steps| - 1], n, c, wid) + if steps[|steps| - 1] == Enable(c, wid) then 1 else 0
  }

  /** Where the last cut is: right before step n. */
  ghost predicate LastCut(steps: seq<Step>, n: nat, c: int, wid: int)
    requires Run(Init(), steps).Some?
  {
    && 1 <= n <= |steps| && Cuts(steps, n - 1, c, wid)
    && forall i :: n <= i < |steps| ==> !Cuts(steps, i, c, wid)
  }

  lemma LastStep(steps: seq<Step>) returns (s: State)
    requires steps != [] && Run(Init(), steps).Some?
    ensures Run(Init(), steps[..|steps| - 1]) == Some(s) && Can(s, steps[|steps| - 1])
    ensures Run(Init(), steps) == Some(Do(s, steps[|steps| - 1])) && s == StateAt(steps, |steps| - 1)
    ensures forall i :: 0 <= i < |steps| ==> StateAt(steps, i) == StateAt(steps[..|steps| - 1], i)
  {
    s := Run(Init(), steps[..|steps| - 1]).value;
    forall i | 0 <= i < |steps| ensures steps[..i] == steps[..|steps| - 1][..i] {
    }
  }

  lemma CutsBefore(steps: seq<Step>, c: int, wid: int)
    requires steps != [] && Run(Init(), steps).Some? && Run(Init(), steps[..|steps| - 1]).Some?
    ensures forall i :: 0 <= i < |steps| - 1 ==>
              (Cuts(steps[..|steps| - 1], i, c, wid) <==> Cuts(steps, i, c, wid))
  {
    var s := LastStep(steps);
    var before := steps[..|steps| - 1];
    forall i | 0 <= i < |steps| - 1 ensures Cuts(before, i, c, wid) <==> Cuts(steps, i, c, wid) {
      assert before[i] == steps[i];
    }
  }

  lemma OneStep(s: State, step: Step, c: int, wid: int)
    requires Can(s, step) && c in Do(s, step).clients
    ensures c !in s.clients ==> step == Connect(c)
    ensures var cut := step == Connect(c) || ((step == Disable(wid) || step == Mark(wid)) && wid in s.workers);
            Do(s, step).clients[c].subs[wid]
            == if cut then 0 else s.clients[c].subs[wid] + if step == Enable(c, wid) then 1 else 0
  {
  }

  /** Over every run: a client's subscriptions to a worker are the ENABLE requests it has sent since it connected and
      since the worker was last disabled or destroyed by anybody. */
  lemma {:induction false} SubscriptionsExact(steps: seq<Step>, c: int, wid: int) returns (n: nat)
    requires Run(Init(), steps).Some? && c in Run(Init(), steps).value.clients
    ensures LastCut(steps, n, c, wid)
    ensures Run(Init(), steps).value.clients[c].subs[wid] == Enables(steps, n, c, wid)
  {
    var s := LastStep(steps);
    var before, step := steps[..|steps| - 1], steps[|steps| - 1];
    OneStep(s, step, c, wid);
    CutNow(steps, s, c, wid);
    hide Do, Can, Run, StateAt, Cuts, Init;
    if Cuts(steps, |before|, c, wid) {
      n := |steps|;
    } else {
      n := SubscriptionsExact(before, c, wid);
      CutsBefore(steps, c, wid);
    }
  }

  lemma CutNow(steps: seq<Step>, s: State, c: int, wid: int)
    requires steps != [] && Run(Init(), steps).Some? && s == StateAt(steps, |steps| - 1)
    ensures var step := steps[|steps| - 1];
            Cuts(steps, |steps| - 1, c, wid) <==>
              step == Connect(c) || ((step == Disable(wid) || step == Mark(wid)) && wid in s.workers)
  {
  }

  /** One packet: every client's stream grows by exactly one payload for each of these requests, and by nothing
      else. */
  lemma PacketsPaid(steps: seq<Step>, wid: int, c: int) returns (n: nat)
    requires Run(Init(), steps + [Send(wid)]).Some? && c in Run(Init(), steps + [Send(wid)]).value.clients
    ensures Run(Init(), steps).Some? && c in Run(Init(), steps).value.clients && LastCut(steps, n, c, wid)
    ensures var before, after := Run(Init(), steps).value.clients[c].log,
                                 Run(Init(), steps + [Send(wid)]).value.clients[c].log;
            && before <= after && |after| - |before| == Enables(steps, n, c, wid)
            && forall i :: |before| <= i < |after| ==> after[i] == Payload(wid)
  {
    var s := LastStep(steps + [Send(wid)]);
    assert (steps + [Send(wid)])[..|steps|] == steps;
    n := SubscriptionsExact(steps, c, wid);
  }

  /** Nothing but a packet of the worker adds to what a client has been paid for it. */
  lemma OnlyPacketsPay(s: State, step: Step, c: int)
    requires Can(s, step) && c in Do(s, step).clients
    ensures c !in s.clients ==> Do(s, step).clients[c].log == []
    ensures c in s.clients ==>
              && s.clients[c].log <= Do(s, step).clients[c].log
              && forall i :: |s.clients[c].log| <= i < |Do(s, step).clients[c].log| ==>
                   Do(s, step).clients[c].log[i].Payload? ==> step == Send(Do(s, step).clients[c].log[i].wid)
  {
  }

  // ---- who is there

  /** Over every run: a client is connected if and only if it has connected and not left since. */
  lemma {:induction false} PresentExact(steps: seq<Step>, c: int)
    requires Run(Init(), steps).Some?
    ensures c in Run(Init(), steps).value.clients <==>
              exists n :: 0 <= n < |steps| && steps[n] == Connect(c)
                          && forall m :: n < m < |steps| ==> steps[m] != Leave(c)
  {
    if steps != [] {
      var s := LastStep(steps);
      var before, step := steps[..|steps| - 1], steps[|steps| - 1];
      PresentExact(before, c);
      OneClient(s, step, c);
      hide Do, Can, Run, StateAt;
      if c in s.clients {
        var n :| 0 <= n < |before| && before[n] == Connect(c) && forall m :: n < m < |before| ==> before[m] != Leave(c);
        assert steps[n] == Connect(c) && forall m :: n < m < |before| ==> steps[m] == before[m];
      }
      forall n | 0 <= n < |before| && steps[n] == Connect(c) && forall m :: n < m < |steps| ==> steps[m] != Leave(c)
        ensures c in s.clients && step != Leave(c)
      {
        assert before[n] == Connect(c) && forall m :: n < m < |before| ==> before[m] == steps[m];
      }
    }
  }

  lemma OneClient(s: State, step: Step, c: int)
    requires Can(s, step)
    ensures c in Do(s, step).clients <==> step == Connect(c) || (c in s.clients && step != Leave(c))
  {
  }

  /** Over every run: the workers in the list are those that have been created and not taken out since; one of them is
      enabled if and only if no DESTROY has found it in the list. */
  lemma {:induction false} ListedExact(steps: seq<Step>, wid: int)
    requires Run(Init(), steps).Some?
    ensures var t := Run(Init(), steps).value;
            && (wid in t.workers <==> 0 <= wid < t.widx && forall n :: 0 <= n < |steps| ==> steps[n] != Reap(wid))
            && (Live(t, wid) <==>
                  && wid in t.workers
                  && forall n :: 0 <= n < |steps| && steps[n] == Mark(wid) ==> wid !in StateAt(steps, n).workers)
  {
    if steps != [] {
      var s := LastStep(steps);
      var before, step := steps[..|steps| - 1], steps[|steps| - 1];
      ListedExact(before, wid);
      OneWorker(s, step, wid);
      hide Do, Can, Run, StateAt, Live;
      assert forall n :: 0 <= n < |before| ==> before[n] == steps[n];
      assert steps[|before|] == step;
      if wid == s.widx {
        NeverListed(before, wid);
      }
    }
  }

  lemma OneWorker(s: State, step: Step, wid: int)
    requires Can(s, step)
    ensures var t := Do(s, step);
            && t.widx == s.widx + (if step.Create? then 1 else 0)
            && (wid in t.workers <==> (wid in s.workers && step != Reap(wid)) || (step.Create? && wid == s.widx))
            && (wid in t.workers && wid !in s.workers ==> Live(t, wid))
            && (wid in t.workers && wid in s.workers && (step.Create? ==> wid != s.widx) ==>
                  (Live(t, wid) <==> Live(s, wid) && step != Mark(wid)))
            && (step == Reap(wid) ==> wid in s.workers)
  {
  }

  /** An ID that has not been given out is in no list. */
  lemma {:induction false} NeverListed(steps: seq<Step>, wid: int)
    requires Run(Init(), steps).Some? && Run(Init(), steps).value.widx <= wid
    ensures forall n :: 0 <= n <= |steps| ==> wid !in StateAt(steps, n).workers
    ensures forall n :: 0 <= n < |steps| ==> steps[n] != Reap(wid)
  {
    if steps == [] {
      assert steps[..0] == [];
    } else {
      var s := LastStep(steps);
      var before := steps[..|steps| - 1];
      OneWorker(s, steps[|steps| - 1], wid);
      NeverListed(before, wid);
      assert steps[..|steps|] == steps;
      assert StateAt(before, |before|) == s;
      forall n | 0 <= n <= |steps| ensures wid !in StateAt(steps, n).workers {
        if n < |steps| {
          assert StateAt(steps, n) == StateAt(before, n);
        }
      }
    }
  }

  // ---- the order of requests

  /** The IDs a client still waits for are the last ones it has given out, in order; those of its workers are the
      ones before, one each, in the order of the workers. */
  ghost predicate InOrder(s: State, c: int)
    requires c in s.clients
  {
    var k := s.clients[c];
    && |k.requests| <= k.xln
    && (forall i :: 0 <= i < |k.requests| ==> k.requests[i] == k.xln - |k.requests| + i)
    && (forall w :: w in s.origin && s.origin[w].0 == c ==> 0 <= s.origin[w].1 < k.xln - |k.requests| && w < s.widx)
    && (forall v, w :: v in s.origin && w in s.origin && v < w && s.origin[v].0 == c == s.origin[w].0 ==>
          s.origin[v].1 < s.origin[w].1)
  }

  /** Over every run: a client's CREATE requests are handled in the order in which it made them. */
  lemma {:induction false} CreatedInOrder(steps: seq<Step>, c: int)
    requires Run(Init(), steps).Some? && c in Run(Init(), steps).value.clients
    ensures InOrder(Run(Init(), steps).value, c)
  {
    var s := LastStep(steps);
    var step := steps[|steps| - 1];
    OneStep(s, step, c, 0);
    hide Run;
    if step != Connect(c) {
      CreatedInOrder(steps[..|steps| - 1], c);
    }
    OneInOrder(s, step, c);
  }

  lemma OneInOrder(s: State, step: Step, c: int)
    requires Can(s, step) && c in Do(s, step).clients
    requires step != Connect(c) ==> c in s.clients && InOrder(s, c)
    ensures InOrder(Do(s, step), c)
  {
    var t := Do(s, step);
    if step == Connect(c) {
    } else if step == Create(c) {
      var k, l := s.clients[c], t.clients[c];
      assert l.requests == k.requests[1..] && l.xln == k.xln;
      assert t.origin == s.origin[s.widx := (c, k.requests[0])];
    } else {
      assert t.clients[c].xln - |t.clients[c].requests| == s.clients[c].xln - |s.clients[c].requests|;
      assert forall w :: w in t.origin && t.origin[w].0 == c ==> w in s.origin && t.origin[w] == s.origin[w];
    }
  }
}
