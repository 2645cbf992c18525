/** The client's mirror of the server's workers. */
module ControlMirror {
  import opened ControlPlane
  import opened Wrappers

  // ---- which workers a client believes in

  function ApplyKeys(keys: set<int>, m: Msg): set<int> {
    match m
    case Running(wid, _) => keys + {wid}
    case Destroyed(wid, _) => keys - {wid}
    case Payload(_) => keys
  }

  /** The keys of `xlaters` once these messages have been handled. */
  function KeyFold(keys: set<int>, ms: seq<Msg>): set<int> {
    if ms == [] then keys else ApplyKeys(KeyFold(keys, ms[..|ms| - 1]), ms[|ms| - 1])
  }

  function Fold(v: View, ms: seq<Msg>): View {
    if ms == [] then v else Apply(Fold(v, ms[..|ms| - 1]), ms[|ms| - 1])
  }

  lemma {:induction false} FoldKeys(v: View, ms: seq<Msg>)
    ensures Fold(v, ms).xlaters.Keys == KeyFold(v.xlaters.Keys, ms)
  {
    if ms != [] {
      FoldKeys(v, ms[..|ms| - 1]);
    }
  }

  lemma FoldPost(v: View, ms: seq<Msg>, m: Msg)
    ensures Fold(v, ms + [m]) == Apply(Fold(v, ms), m)
  {
    assert (ms + [m])[..|ms|] == ms;
  }

  lemma KeyPost(keys: set<int>, ms: seq<Msg>, m: Msg)
    ensures KeyFold(keys, ms + [m]) == ApplyKeys(KeyFold(keys, ms), m)
  {
    assert (ms + [m])[..|ms|] == ms;
  }

  lemma {:induction false} KeyPaid(keys: set<int>, ms: seq<Msg>, wid: int, n: nat)
    ensures KeyFold(keys, ms + Repeat(Payload(wid), n)) == KeyFold(keys, ms)
  {
    if n == 0 {
      assert ms + Repeat(Payload(wid), 0) == ms;
    } else {
      KeyPaid(keys, ms, wid, n - 1);
      KeyPost(keys, ms + Repeat(Payload(wid), n - 1), Payload(wid));
      assert ms + Repeat(Payload(wid), n) == (ms + Repeat(Payload(wid), n - 1)) + [Payload(wid)];
    }
  }

  /** Handling the first message first. */
  lemma {:induction false} FoldFirst(v: View, ms: seq<Msg>)
    requires ms != []
    ensures Fold(v, ms) == Fold(Apply(v, ms[0]), ms[1..])
  {
    if |ms| == 1 {
      assert ms[..0] == [] && ms[1..] == [];
    } else {
      FoldFirst(v, ms[..|ms| - 1]);
      assert ms[1..][..|ms| - 2] == ms[..|ms| - 1][1..];
    }
  }

  // ---- the mirror, exactly

  function Enabled(s: State): set<int> {
    set wid | wid in s.workers && s.workers[wid].enabled
  }

  /** The step tells every client that worker `wid` runs, or that it is gone. */
  predicate Ups(s: State, step: Step, wid: int) {
    match step
    case Create(_) => s.widx == wid
    case Announce(_, w) => w == wid
    case _ => false
  }

  predicate Downs(s: State, step: Step, wid: int) {
    step.Broadcast? && s.pending != [] && s.pending[0].0 == wid
  }

  /** What is known of the worker is overridden: by a DESTROYED broadcast, or because client c starts anew. */
  predicate Clears(s: State, step: Step, c: int, wid: int) {
    Downs(s, step, wid) || step == Connect(c)
  }

  /** The last thing told about worker `wid`, since client c connected, is that it runs. */
  ghost predicate LastUp(steps: seq<Step>, c: int, wid: int)
    requires Run(Init(), steps).Some?
  {
    steps != [] &&
    var before, step := steps[..|steps| - 1], steps[|steps| - 1];
    var s := Run(Init(), before).value;
    Ups(s, step, wid) || (!Clears(s, step, c, wid) && LastUp(before, c, wid))
  }

  /** The client's mirror follows what it has been told. */
  ghost predicate Follows(k: Client, steps: seq<Step>, c: int)
    requires Run(Init(), steps).Some?
  {
    forall wid :: wid in KeyFold({}, k.log) <==> LastUp(steps, c, wid)
  }

  /** What a step tells one client. */
  lemma StepTells(s: State, step: Step, c: int)
    requires Can(s, step) && c in s.clients && c in Do(s, step).clients
    ensures Do(s, step).clients[c].since == s.clients[c].since
    ensures forall wid ::
              wid in KeyFold({}, Do(s, step).clients[c].log)
              <==> Ups(s, step, wid) || (!Downs(s, step, wid) && wid in KeyFold({}, s.clients[c].log))
  {
    var log := s.clients[c].log;
    match step {
      case Create(d) => KeyPost({}, log, Running(s.widx, if c == d then s.clients[d].requests[0] else -1));
      case Announce(d, w) => KeyPost({}, log, Running(w, if c == d then s.workers[w].rid else -1));
      case Broadcast => KeyPost({}, log, Destroyed(s.pending[0].0, s.pending[0].1));
      case Send(w) => KeyPaid({}, log, w, s.clients[c].subs[w]);
      case _ =>
    }
  }

  lemma NewMirror(s: State, step: Step, c: int)
    requires Can(s, step) && c !in s.clients && c in Do(s, step).clients
    ensures step == Connect(c) && Do(s, step).clients[c].log == [] && Do(s, step).clients[c].since == s.widx
    ensures Do(s, step).widx == s.widx && forall wid :: !Ups(s, step, wid)
  {
  }

  lemma {:induction false} MirrorFollows(steps: seq<Step>, c: int)
    requires Run(Init(), steps).Some? && c in Run(Init(), steps).value.clients
    ensures Follows(Run(Init(), steps).value.clients[c], steps, c)
  {
    if steps != [] {
      var before, step := steps[..|steps| - 1], steps[|steps| - 1];
      var s, t := Run(Init(), before).value, Run(Init(), steps).value;
      assert Can(s, step) && t == Do(s, step);
      LastUpNext(steps, c);
      if c in s.clients {
        MirrorFollows(before, c);
        NotAgain(s, step, c);
        StepTells(s, step, c);
        hide Run, Do, Can, KeyFold, Ups, Downs, LastUp;
        SameFollows(s.clients[c], t.clients[c], before, steps, c, s, step);
      } else {
        NewMirror(s, step, c);
        NothingTold();
        hide Run, Do, Can, KeyFold, Ups, LastUp;
        NewFollows(t.clients[c], steps, c);
      }
    }
  }

  lemma NotAgain(s: State, step: Step, c: int)
    requires Can(s, step) && c in s.clients
    ensures forall wid :: Clears(s, step, c, wid) <==> Downs(s, step, wid)
  {
  }

  lemma LastUpNext(steps: seq<Step>, c: int)
    requires Run(Init(), steps).Some? && steps != []
    ensures var before, step := steps[..|steps| - 1], steps[|steps| - 1];
            && Run(Init(), before).Some?
            && var s := Run(Init(), before).value;
               forall wid ::
                 LastUp(steps, c, wid)
                 <==> Ups(s, step, wid) || (!Clears(s, step, c, wid) && LastUp(before, c, wid))
  {
  }

  lemma SameFollows(k: Client, l: Client, before: seq<Step>, steps: seq<Step>, c: int, s: State, step: Step)
    requires Run(Init(), before).Some? && Run(Init(), steps).Some? && Follows(k, before, c)
    requires forall wid :: Clears(s, step, c, wid) <==> Downs(s, step, wid)
    requires forall wid ::
               LastUp(steps, c, wid) <==> Ups(s, step, wid) || (!Clears(s, step, c, wid) && LastUp(before, c, wid))
    requires forall wid :: wid in KeyFold({}, l.log) <==>
                           Ups(s, step, wid) || (!Downs(s, step, wid) && wid in KeyFold({}, k.log))
    ensures Follows(l, steps, c)
  {
    hide Ups, Downs, Clears, LastUp, KeyFold, Run;
  }

  lemma NewFollows(k: Client, steps: seq<Step>, c: int)
    requires Run(Init(), steps).Some? && KeyFold({}, k.log) == {} && forall wid :: !LastUp(steps, c, wid)
    ensures Follows(k, steps, c)
  {
    hide LastUp, KeyFold, Run;
  }

  lemma NothingTold()
    ensures KeyFold({}, []) == {}
  {
  }

  // ---- the same, said of the steps of the run

  ghost predicate UpAt(steps: seq<Step>, i: int, wid: int)
    requires Run(Init(), steps).Some?
  {
    0 <= i < |steps| && Ups(StateAt(steps, i), steps[i], wid)
  }

  ghost predicate ClearsAt(steps: seq<Step>, i: int, c: int, wid: int)
    requires Run(Init(), steps).Some?
  {
    0 <= i < |steps| && Clears(StateAt(steps, i), steps[i], c, wid)
  }

  /** A DESTROYED broadcast for the worker, or client c's connection, comes after step i. */
  ghost predicate Cleared(steps: seq<Step>, i: int, c: int, wid: int)
    requires Run(Init(), steps).Some?
  {
    exists j :: i < j && ClearsAt(steps, j, c, wid)
  }

  /** An enabled worker has been announced (by CREATE, LIST or MODIFY) since client c connected, and no DESTROYED
      broadcast has followed; and every announcement of any other worker since then has been followed by one. */
  ghost predicate Timely(steps: seq<Step>, c: int, wid: int)
    requires Run(Init(), steps).Some?
  {
    if Live(Run(Init(), steps).value, wid)
    then exists i :: UpAt(steps, i, wid) && !Cleared(steps, i, c, wid)
    else forall i :: UpAt(steps, i, wid) ==> Cleared(steps, i, c, wid)
  }

  lemma SameUntilLast(steps: seq<Step>, i: int, c: int, wid: int)
    requires Run(Init(), steps).Some? && steps != [] && i != |steps| - 1
    ensures UpAt(steps, i, wid) <==> UpAt(steps[..|steps| - 1], i, wid)
    ensures ClearsAt(steps, i, c, wid) <==> ClearsAt(steps[..|steps| - 1], i, c, wid)
  {
    if 0 <= i < |steps| - 1 {
      assert steps[..|steps| - 1][..i] == steps[..i];
    }
  }

  lemma {:induction false} LastUpMeans(steps: seq<Step>, c: int, wid: int)
    requires Run(Init(), steps).Some?
    ensures LastUp(steps, c, wid) <==> exists i :: UpAt(steps, i, wid) && !Cleared(steps, i, c, wid)
  {
    if steps != [] {
      var last := |steps| - 1;
      var before := steps[..last];
      LastUpMeans(before, c, wid);
      forall i | i != last
        ensures UpAt(steps, i, wid) <==> UpAt(before, i, wid)
        ensures ClearsAt(steps, i, c, wid) <==> ClearsAt(before, i, c, wid)
      {
        SameUntilLast(steps, i, c, wid);
      }
      assert UpAt(steps, last, wid) <==> Ups(Run(Init(), before).value, steps[last], wid);
      assert ClearsAt(steps, last, c, wid) <==> Clears(Run(Init(), before).value, steps[last], c, wid);
      hide Ups, Clears, UpAt, ClearsAt;
      if UpAt(steps, last, wid) {
        NothingAfterLast(steps, c, wid);
      } else if ClearsAt(steps, last, c, wid) {
        assert forall i :: i < last ==> Cleared(steps, i, c, wid);
        OnlyWithin(steps, c, wid);
      } else {
        OnlyWithin(steps, c, wid);
        forall i ensures Cleared(steps, i, c, wid) <==> Cleared(before, i, c, wid) {
          if Cleared(steps, i, c, wid) {
            var j :| i < j && ClearsAt(steps, j, c, wid);
            assert ClearsAt(before, j, c, wid);
          }
          if Cleared(before, i, c, wid) {
            var j :| i < j && ClearsAt(before, j, c, wid);
            assert j != last by { OnlyWithin(before, c, wid); }
            assert ClearsAt(steps, j, c, wid);
          }
        }
        if exists i :: UpAt(before, i, wid) && !Cleared(before, i, c, wid) {
          var i :| UpAt(before, i, wid) && !Cleared(before, i, c, wid);
          OnlyWithin(before, c, wid);
          assert UpAt(steps, i, wid);
        }
        if exists i :: UpAt(steps, i, wid) && !Cleared(steps, i, c, wid) {
          var i :| UpAt(steps, i, wid) && !Cleared(steps, i, c, wid);
          assert UpAt(before, i, wid);
        }
      }
    }
  }

  lemma OnlyWithin(steps: seq<Step>, c: int, wid: int)
    requires Run(Init(), steps).Some?
    ensures forall i :: UpAt(steps, i, wid) || ClearsAt(steps, i, c, wid) ==> 0 <= i < |steps|
  {
  }

  lemma NothingAfterLast(steps: seq<Step>, c: int, wid: int)
    requires Run(Init(), steps).Some?
    ensures !Cleared(steps, |steps| - 1, c, wid)
  {
  }

  /** Over every run, for every client, early or late: once it has handled everything sent to it, its mirror is
      exactly the set of enabled workers if and only if every worker's announcements and DESTROYED broadcasts
      were timely for it. */
  lemma MirrorExact(steps: seq<Step>, c: int)
    requires Run(Init(), steps).Some? && c in Run(Init(), steps).value.clients
    ensures var s := Run(Init(), steps).value;
            KeyFold({}, s.clients[c].log) == Enabled(s) <==> forall wid :: Timely(steps, c, wid)
  {
    MirrorFollows(steps, c);
    var s := Run(Init(), steps).value;
    var keys := KeyFold({}, s.clients[c].log);
    forall wid ensures Timely(steps, c, wid) <==> (wid in keys <==> wid in Enabled(s)) {
      LastUpMeans(steps, c, wid);
    }
    hide Timely, Enabled;
    if forall wid :: Timely(steps, c, wid) {
      forall wid ensures wid in keys <==> wid in Enabled(s) {
        assert Timely(steps, c, wid);
      }
      assert keys == Enabled(s);
    }
  }

  // ---- how a mirror goes wrong

  /** Client 0 has connected and asked for a channel. */
  lemma OneRequest() returns (steps: seq<Step>, s: State)
    ensures Run(Init(), steps) == Some(s)
    ensures s == State(map[], 0, map[0 := Client(View(map[], {0}), 1, [0], [], 0, multiset{}, 0)], [], map[])
  {
    var r := Do(Init(), Connect(0));
    RunStep(Init(), [], Init(), Connect(0));
    s := Do(r, Ask(0));
    RunStep(Init(), [Connect(0)], r, Ask(0));
    steps := [Connect(0)] + [Ask(0)];
    assert s.clients[0].requests == [0] && s.clients[0].view.queue == {0};
    assert s.clients == map[0 := Client(View(map[], {0}), 1, [0], [], 0, multiset{}, 0)];
  }

  /** And got its worker. */
  lemma OneWorker() returns (steps: seq<Step>, s: State)
    ensures Run(Init(), steps) == Some(s)
    ensures s.workers == map[0 := Worker(true, 0, 0)] && s.widx == 1 && s.pending == []
    ensures s.clients == map[0 := Client(View(map[], {0}), 1, [], [Running(0, 0)], 0, multiset{}, 0)]
    ensures s.origin == map[0 := (0, 0)]
  {
    var before, r := OneRequest();
    hide Run;
    s := Do(r, Create(0));
    RunStep(Init(), before, r, Create(0));
    steps := before + [Create(0)];
    assert s.clients[0].log == [Running(0, 0)];
  }

  /** LIST brings a destroyed worker back: it is announced again while it waits to be reaped, and no DESTROYED
      broadcast is to come. */
  lemma GhostRun() returns (steps: seq<Step>, s: State)
    ensures Run(Init(), steps) == Some(s) && s.pending == [] && 0 in s.clients && s.clients[0].since == 0
    ensures KeyFold({}, s.clients[0].log) == {0} && Enabled(s) == {}
  {
    var before, r := OneWorker();
    hide Run, KeyFold;
    var t := Do(r, Mark(0));
    RunStep(Init(), before, r, Mark(0));
    var u := Do(t, Broadcast);
    RunStep(Init(), before + [Mark(0)], t, Broadcast);
    s := Do(u, Announce(0, 0));
    RunStep(Init(), before + [Mark(0)] + [Broadcast], u, Announce(0, 0));
    steps := before + [Mark(0)] + [Broadcast] + [Announce(0, 0)];
    GhostKeys();
    assert s.clients[0].log == [Running(0, 0), Destroyed(0, true), Running(0, 0)];
  }

  lemma GhostKeys()
    ensures KeyFold({}, [Running(0, 0), Destroyed(0, true), Running(0, 0)]) == {0}
  {
    KeyPost({}, [Running(0, 0), Destroyed(0, true)], Running(0, 0));
    assert [Running(0, 0), Destroyed(0, true)] + [Running(0, 0)] == [Running(0, 0), Destroyed(0, true), Running(0, 0)];
    KeyPost({}, [Running(0, 0)], Destroyed(0, true));
    assert [Running(0, 0)] + [Destroyed(0, true)] == [Running(0, 0), Destroyed(0, true)];
    KeyPost({}, [], Running(0, 0));
  }

  /** A DESTROY for a worker ID not given out yet, overtaken by CREATE between its two halves, makes every
      client forget the new worker. */
  lemma LostRun() returns (steps: seq<Step>, s: State)
    ensures Run(Init(), steps) == Some(s) && s.pending == [] && 0 in s.clients && s.clients[0].since == 0
    ensures KeyFold({}, s.clients[0].log) == {} && Enabled(s) == {0}
  {
    var before, r := OneRequest();
    hide Run, KeyFold;
    var t := Do(r, Mark(0));
    RunStep(Init(), before, r, Mark(0));
    var u := Do(t, Create(0));
    RunStep(Init(), before + [Mark(0)], t, Create(0));
    s := Do(u, Broadcast);
    RunStep(Init(), before + [Mark(0)] + [Create(0)], u, Broadcast);
    steps := before + [Mark(0)] + [Create(0)] + [Broadcast];
    LostKeys();
    assert s.clients[0].log == [Running(0, 0), Destroyed(0, false)];
  }

  lemma LostKeys()
    ensures KeyFold({}, [Running(0, 0), Destroyed(0, false)]) == {}
  {
    KeyPost({}, [Running(0, 0)], Destroyed(0, false));
    assert [Running(0, 0)] + [Destroyed(0, false)] == [Running(0, 0), Destroyed(0, false)];
    KeyPost({}, [], Running(0, 0));
  }

  // ---- LIST

  /** What LIST adds to the mirror of every client, early or late, whoever asked: the workers in the list. */
  lemma {:induction false} ListTells(s: State, me: int, wids: seq<int>, c: int)
    requires me in s.clients && c in s.clients && forall i :: 0 <= i < |wids| ==> wids[i] in s.workers
    ensures forall wid ::
              wid in KeyFold({}, AnnounceAll(s, me, wids).clients[c].log)
              <==> wid in wids || wid in KeyFold({}, s.clients[c].log)
  {
    if wids != [] {
      var n := |wids| - 1;
      var t := AnnounceAll(s, me, wids[..n]);
      ListTells(s, me, wids[..n], c);
      StepTells(t, Announce(me, wids[n]), c);
      assert forall wid :: wid in wids <==> wid in wids[..n] || wid == wids[n];
      hide KeyFold, Do;
    }
  }

  /** So after LIST the mirror of a client is right if and only if every worker in the list is enabled and the client
      knew of no other. */
  lemma ListExact(s: State, me: int, wids: seq<int>, c: int)
    requires me in s.clients && c in s.clients && forall i :: 0 <= i < |wids| ==> wids[i] in s.workers
    requires forall wid :: wid in s.workers ==> wid in wids
    ensures KeyFold({}, AnnounceAll(s, me, wids).clients[c].log) == Enabled(s)
            <==> s.workers.Keys == Enabled(s) && KeyFold({}, s.clients[c].log) <= s.workers.Keys
  {
    ListTells(s, me, wids, c);
    hide KeyFold, AnnounceAll;
    var mirror, known := KeyFold({}, AnnounceAll(s, me, wids).clients[c].log), KeyFold({}, s.clients[c].log);
    forall wid ensures wid in mirror <==> wid in s.workers.Keys || wid in known {
      assert wid in wids <==> wid in s.workers;
    }
    assert mirror == s.workers.Keys + known && Enabled(s) <= s.workers.Keys;
  }

  // ---- whole handlers at once

  /** A request handled in one go. */
  datatype Handler = Whole(step: Step) | Destroy(wid: int)

  /** Handlers as single steps: DESTROY keeps the lock to its end, and no disabled worker is announced. */
  function Handle(s: State, h: Handler): Option<State> {
    match h
    case Whole(step) =>
      if step.Mark? || step.Broadcast? || (step.Announce? && !Live(s, step.wid)) || !Can(s, step)
      then None else Some(Do(s, step))
    case Destroy(wid) =>
      var t := Do(s, Mark(wid));
      if Can(t, Broadcast) then Some(Do(t, Broadcast)) else None
  }

  function HandleAll(s: State, hs: seq<Handler>): Option<State> {
    if hs == [] then Some(s) else
      var before := HandleAll(s, hs[..|hs| - 1]);
      if before.None? then None else Handle(before.value, hs[|hs| - 1])
  }

  ghost predicate Quiet(s: State) {
    && s.pending == []
    && (forall wid :: wid in s.workers ==> 0 <= wid < s.widx)
    && (s.widx == 0 ==> s.workers == map[])
    && (forall c :: c in s.clients && s.clients[c].since == 0 ==> KeyFold({}, s.clients[c].log) == Enabled(s))
  }

  lemma StepKeepsQuiet(s: State, step: Step)
    requires Quiet(s) && Can(s, step) && !step.Mark? && !step.Broadcast? && (step.Announce? ==> Live(s, step.wid))
    ensures Quiet(Do(s, step))
  {
    var t := Do(s, step);
    EnabledStep(s, step);
    forall c | c in t.clients && t.clients[c].since == 0 ensures KeyFold({}, t.clients[c].log) == Enabled(t) {
      if c in s.clients {
        OldClientQuiet(s, step, c);
      } else {
        NewMirror(s, step, c);
        NothingTold();
        assert forall wid :: !Ups(s, step, wid) && wid !in Enabled(s);
        assert Enabled(t) == {};
      }
    }
  }

  lemma OldClientQuiet(s: State, step: Step, c: int)
    requires Can(s, step) && !step.Broadcast? && c in s.clients && c in Do(s, step).clients
    requires KeyFold({}, s.clients[c].log) == Enabled(s)
    requires forall wid :: wid in Enabled(Do(s, step)) <==> Ups(s, step, wid) || wid in Enabled(s)
    ensures KeyFold({}, Do(s, step).clients[c].log) == Enabled(Do(s, step))
  {
    assert forall wid :: !Downs(s, step, wid);
    hide Do, Ups, Downs, Can, KeyFold, Enabled;
    StepTells(s, step, c);
    var keys, enabled := KeyFold({}, Do(s, step).clients[c].log), Enabled(Do(s, step));
    assert forall wid :: wid in keys <==> wid in enabled;
  }

  /** What such a step does to the enabled workers is what it tells. */
  lemma EnabledStep(s: State, step: Step)
    requires Quiet(s) && Can(s, step) && !step.Mark? && !step.Broadcast? && (step.Announce? ==> Live(s, step.wid))
    ensures forall wid :: wid in Enabled(Do(s, step)) <==> Ups(s, step, wid) || wid in Enabled(s)
  {
  }

  lemma DestroyKeepsQuiet(s: State, wid: int)
    requires Quiet(s)
    ensures var t := Do(s, Mark(wid)); Can(t, Broadcast) && Quiet(Do(t, Broadcast))
  {
    var t := Do(s, Mark(wid));
    var u := Do(t, Broadcast);
    assert forall w :: w in Enabled(u) <==> w in Enabled(s) && w != wid;
    forall c | c in u.clients && u.clients[c].since == 0 ensures KeyFold({}, u.clients[c].log) == Enabled(u) {
      DestroyTells(s, wid, c);
    }
  }

  lemma DestroyTells(s: State, wid: int, c: int)
    requires s.pending == [] && c in s.clients
    ensures var u := Do(Do(s, Mark(wid)), Broadcast);
            && c in u.clients
            && forall w :: w in KeyFold({}, u.clients[c].log) <==> w in KeyFold({}, s.clients[c].log) && w != wid
  {
    var t := Do(s, Mark(wid));
    StepTells(s, Mark(wid), c);
    assert t.pending[0].0 == wid;
    StepTells(t, Broadcast, c);
  }

  /** With handlers that run in one go and announce only enabled workers, the mirror of every client present
      from the start is, once everything sent has been handled, exactly the set of enabled workers. */
  lemma {:induction false} MirrorAgrees(hs: seq<Handler>, c: int)
    requires HandleAll(Init(), hs).Some?
    ensures Quiet(HandleAll(Init(), hs).value)
    ensures var s := HandleAll(Init(), hs).value;
            c in s.clients && s.clients[c].since == 0 ==> KeyFold({}, s.clients[c].log) == Enabled(s)
  {
    if hs != [] {
      MirrorAgrees(hs[..|hs| - 1], c);
      var s := HandleAll(Init(), hs[..|hs| - 1]).value;
      match hs[|hs| - 1] {
        case Whole(step) => StepKeepsQuiet(s, step);
        case Destroy(wid) => DestroyKeepsQuiet(s, wid);
      }
    }
  }
}
