/** Matching replies to requests: the client's queue of pending reference IDs. */
module ControlMatch {
  import opened ControlPlane
  import opened Wrappers
  import opened ControlMirror

  function InFlight(k: Client): seq<Msg>
    requires k.seen <= |k.log|
  {
    k.log[k.seen..]
  }

  /** The client's view once it has handled everything sent to it. */
  function Later(k: Client): View
    requires k.seen <= |k.log|
  {
    Fold(k.view, InFlight(k))
  }

  // ---- the view is what the messages make of it

  ghost predicate SeenInv(k: Client) {
    k.seen <= |k.log| && k.view.xlaters.Keys == KeyFold({}, k.log[..k.seen])
  }

  lemma {:induction false} KeyFoldSplit(keys: set<int>, a: seq<Msg>, b: seq<Msg>)
    ensures KeyFold(KeyFold(keys, a), b) == KeyFold(keys, a + b)
  {
    if b == [] {
      assert a + b == a;
    } else {
      KeyFoldSplit(keys, a, b[..|b| - 1]);
      assert (a + b)[..|a + b| - 1] == a + b[..|b| - 1];
    }
  }

  lemma LaterKeys(k: Client)
    requires SeenInv(k)
    ensures Later(k).xlaters.Keys == KeyFold({}, k.log)
  {
    FoldKeys(k.view, InFlight(k));
    KeyFoldSplit({}, k.log[..k.seen], InFlight(k));
    assert k.log[..k.seen] + InFlight(k) == k.log;
  }

  lemma StepKeepsSeen(s: State, step: Step)
    requires Can(s, step) && forall c :: c in s.clients ==> SeenInv(s.clients[c])
    ensures forall c :: c in Do(s, step).clients ==> SeenInv(Do(s, step).clients[c])
  {
    var t := Do(s, step);
    forall c | c in t.clients ensures SeenInv(t.clients[c]) {
      if c in s.clients {
        var k, l := s.clients[c], t.clients[c];
        assert SeenInv(k);
        if step == Receive(c) {
          assert k.log[..k.seen + 1][..k.seen] == k.log[..k.seen];
          FoldKeys(k.view, [k.log[k.seen]]);
        } else {
          assert l.log[..k.seen] == k.log[..k.seen];
        }
      }
    }
  }

  lemma {:induction false} RunKeepsSeen(steps: seq<Step>)
    requires Run(Init(), steps).Some?
    ensures forall c :: c in Run(Init(), steps).value.clients ==> SeenInv(Run(Init(), steps).value.clients[c])
  {
    if steps != [] {
      RunKeepsSeen(steps[..|steps| - 1]);
      StepKeepsSeen(Run(Init(), steps[..|steps| - 1]).value, steps[|steps| - 1]);
    }
  }

  /** The exact mirror, said of the client's own `xlaters` and the messages still in flight. */
  lemma InFlightMirrorExact(steps: seq<Step>, c: int)
    requires Run(Init(), steps).Some? && c in Run(Init(), steps).value.clients
    ensures var s := Run(Init(), steps).value;
            && s.clients[c].seen <= |s.clients[c].log|
            && (Later(s.clients[c]).xlaters.Keys == Enabled(s) <==> forall wid :: Timely(steps, c, wid))
  {
    RunKeepsSeen(steps);
    LaterKeys(Run(Init(), steps).value.clients[c]);
    MirrorExact(steps, c);
  }

  // ---- queueing a request while replies are in flight

  function Queue(v: View, rid: int): View {
    View(v.xlaters, v.queue + {rid})
  }

  /** Message i is about a worker the client does not know when its turn comes, and carries this reference ID. */
  predicate Takes(v: View, ms: seq<Msg>, i: int, rid: int) {
    0 <= i < |ms| && ms[i].Running? && ms[i].rid == rid && ms[i].wid !in KeyFold(v.xlaters.Keys, ms[..i])
  }

  /** A message in flight will take the reference ID out of the queue if it is put in now. */
  ghost predicate Waits(v: View, ms: seq<Msg>, rid: int) {
    exists i :: Takes(v, ms, i, rid)
  }

  lemma WaitsLast(v: View, ms: seq<Msg>, rid: int)
    requires ms != []
    ensures Waits(v, ms, rid) <==> Waits(v, ms[..|ms| - 1], rid) || Takes(v, ms, |ms| - 1, rid)
  {
    var before := ms[..|ms| - 1];
    forall i | i < |ms| - 1 ensures Takes(v, ms, i, rid) <==> Takes(v, before, i, rid) {
      if 0 <= i {
        assert before[..i] == ms[..i];
      }
    }
    hide KeyFold;
    if Waits(v, before, rid) {
      var i :| Takes(v, before, i, rid);
      assert Takes(v, ms, i, rid);
    }
  }

  lemma ApplyQueue(v: View, m: Msg, rid: int)
    requires rid !in v.queue
    ensures m.Running? && m.rid == rid && m.wid !in v.xlaters ==> rid !in Apply(Queue(v, rid), m).queue
    ensures !(m.Running? && m.rid == rid && m.wid !in v.xlaters) ==>
              Apply(Queue(v, rid), m) == Queue(Apply(v, m), rid) && rid !in Apply(v, m).queue
  {
    if m.Running? && m.wid !in v.xlaters && m.rid != rid && m.rid in v.queue {
      assert (v.queue + {rid}) - {m.rid} == (v.queue - {m.rid}) + {rid};
    }
  }

  /** Putting a new ID into the queue commutes with the messages in flight, unless one of them waits for it. */
  lemma {:induction false} FoldQueue(v: View, ms: seq<Msg>, rid: int)
    requires rid !in v.queue
    ensures !Waits(v, ms, rid) ==> Fold(Queue(v, rid), ms) == Queue(Fold(v, ms), rid) && rid !in Fold(v, ms).queue
    ensures Waits(v, ms, rid) ==> rid !in Fold(Queue(v, rid), ms).queue
  {
    if ms != [] {
      var before, m := ms[..|ms| - 1], ms[|ms| - 1];
      FoldQueue(v, before, rid);
      WaitsLast(v, ms, rid);
      FoldKeys(v, before);
      hide Waits, KeyFold;
      if !Waits(v, before, rid) {
        ApplyQueue(Fold(v, before), m, rid);
      }
    }
  }

  // ---- what it means that requests and workers match

  function Elements(q: seq<int>): set<int> {
    set r | r in q
  }

  ghost predicate Distinct(q: seq<int>) {
    forall i, j :: 0 <= i < j < |q| ==> q[i] != q[j]
  }

  /** What the mirror should say about worker `wid`: the reference ID if it is the client's own. */
  function Mine(origin: map<int, (int, int)>, wid: int, c: int): int
    requires wid in origin
  {
    if origin[wid].0 == c then origin[wid].1 else -1
  }

  ghost predicate Answered(s: State, c: int, r: int) {
    exists w :: w in s.origin && s.origin[w] == (c, r)
  }

  /** Requests and workers of client c account for every reference ID once. */
  ghost predicate Accounted(s: State, c: int)
    requires c in s.clients
  {
    var k := s.clients[c];
    && k.seen <= |k.log|
    && Distinct(k.requests)
    && (forall r :: r in k.requests ==> 0 <= r < k.xln)
    && (forall r :: r in k.view.queue ==> 0 <= r < k.xln)
    && (forall w :: w in s.origin && s.origin[w].0 == c ==> 0 <= s.origin[w].1 < k.xln && s.origin[w].1 !in k.requests)
    && (forall w, v :: w in s.origin && v in s.origin && s.origin[w] == s.origin[v] && s.origin[w].0 == c ==> w == v)
    && (forall r :: 0 <= r < k.xln ==> r in k.requests || Answered(s, c, r))
  }

  /** Once everything sent has been handled, the client waits for exactly the requests not handled yet, and
      each worker it knows carries the ID of its own request, or none if it is another client's. */
  ghost predicate Matched(s: State, c: int)
    requires c in s.clients
  {
    var k := s.clients[c];
    && k.seen <= |k.log|
    && Later(k).queue == Elements(k.requests)
    && forall w :: w in Later(k).xlaters ==> w in s.origin && Later(k).xlaters[w] == Mine(s.origin, w, c)
  }

  ghost predicate Origins(s: State) {
    && (forall w :: w in s.origin <==> 0 <= w < s.widx)
    && (forall w :: w in s.workers ==> w in s.origin && s.origin[w].1 == s.workers[w].rid)
  }

  /** What holds in every state of every run, whatever is announced. */
  ghost predicate Books(s: State) {
    Origins(s) && forall c :: c in s.clients ==> Accounted(s, c)
  }

  lemma Rest(q: seq<int>)
    requires q != [] && Distinct(q)
    ensures Distinct(q[1..]) && Elements(q[1..]) == Elements(q) - {q[0]}
    ensures q[0] !in q[1..] && forall r :: r in q <==> r == q[0] || r in q[1..]
  {
    assert q == [q[0]] + q[1..];
  }

  lemma More(q: seq<int>, r: int)
    requires Distinct(q) && r !in q
    ensures Distinct(q + [r]) && Elements(q + [r]) == Elements(q) + {r}
  {
  }

  // ---- the books are always kept

  lemma AnswerFirst(s: State, t: State, c: int)
    requires c in s.clients && c in t.clients && Accounted(s, c) && s.widx !in s.origin
    requires var k, l := s.clients[c], t.clients[c];
             && k.requests != [] && t.origin == s.origin[s.widx := (c, k.requests[0])]
             && l.xln == k.xln && l.requests == k.requests[1..] && l.view == k.view && l.seen <= |l.log|
    ensures Accounted(t, c)
  {
    var k := s.clients[c];
    Rest(k.requests);
    assert t.origin[s.widx] == (c, k.requests[0]);
    assert forall w :: w in t.origin ==> w == s.widx || (w in s.origin && t.origin[w] == s.origin[w]);
    assert forall w :: w in s.origin && s.origin[w].0 == c ==> s.origin[w].1 != k.requests[0];
    forall r | 0 <= r < k.xln && r !in k.requests[1..] ensures Answered(t, c, r) {
      if r != k.requests[0] {
        var w :| w in s.origin && s.origin[w] == (c, r);
        assert t.origin[w] == (c, r);
      }
    }
  }

  lemma AnswerOther(s: State, t: State, c: int, d: int, r: int)
    requires c in s.clients && c in t.clients && Accounted(s, c) && s.widx !in s.origin && c != d
    requires t.origin == s.origin[s.widx := (d, r)]
    requires var k, l := s.clients[c], t.clients[c];
             l.xln == k.xln && l.requests == k.requests && l.view == k.view && l.seen <= |l.log|
    ensures Accounted(t, c)
  {
    assert forall w :: w in t.origin && t.origin[w].0 == c ==> w in s.origin && t.origin[w] == s.origin[w];
    forall r | 0 <= r < s.clients[c].xln && r !in s.clients[c].requests ensures Answered(t, c, r) {
      var w :| w in s.origin && s.origin[w] == (c, r);
      assert t.origin[w] == (c, r);
    }
  }

  lemma CreateAccounted(s: State, d: int, c: int)
    requires Books(s) && Can(s, Create(d)) && c in s.clients
    ensures Accounted(Do(s, Create(d)), c)
  {
    var t := Do(s, Create(d));
    assert Accounted(s, c) && s.widx !in s.origin;
    if c == d {
      AnswerFirst(s, t, c);
    } else {
      AnswerOther(s, t, c, d, s.clients[d].requests[0]);
    }
  }

  lemma AskAccounted(s: State, c: int)
    requires Books(s) && Can(s, Ask(c))
    ensures Accounted(Do(s, Ask(c)), c)
  {
    var k, t := s.clients[c], Do(s, Ask(c));
    assert Accounted(s, c);
    assert k.xln !in k.requests;
    More(k.requests, k.xln);
    assert t.clients[c].requests == k.requests + [k.xln];
    forall r | 0 <= r < k.xln && r !in k.requests ensures Answered(t, c, r) {
      var w :| w in s.origin && s.origin[w] == (c, r);
      assert t.origin[w] == (c, r);
    }
  }

  /** Nothing this client's books depend on has grown. */
  lemma SameAccounted(s: State, t: State, c: int)
    requires c in s.clients && c in t.clients && Accounted(s, c) && t.origin == s.origin
    requires var k, l := s.clients[c], t.clients[c];
             l.requests == k.requests && l.xln == k.xln && l.view.queue <= k.view.queue && l.seen <= |l.log|
    ensures Accounted(t, c)
  {
    forall r | 0 <= r < s.clients[c].xln && r !in s.clients[c].requests ensures Answered(t, c, r) {
      var w :| w in s.origin && s.origin[w] == (c, r);
      assert t.origin[w] == (c, r);
    }
  }

  lemma OtherStep(s: State, step: Step, c: int)
    requires Can(s, step) && c in s.clients && c in Do(s, step).clients && !step.Create? && step != Ask(c)
    requires s.clients[c].seen <= |s.clients[c].log|
    ensures Do(s, step).origin == s.origin
    ensures var k, l := s.clients[c], Do(s, step).clients[c];
            l.requests == k.requests && l.xln == k.xln && l.view.queue <= k.view.queue && l.seen <= |l.log|
  {
  }

  lemma NewAccounted(s: State, c: int)
    requires Can(s, Connect(c))
    ensures Accounted(Do(s, Connect(c)), c) && Matched(Do(s, Connect(c)), c)
  {
    var k := Do(s, Connect(c)).clients[c];
    assert InFlight(k) == [];
  }

  lemma ClientAccounted(s: State, step: Step, c: int)
    requires Books(s) && Can(s, step) && c in Do(s, step).clients
    ensures Accounted(Do(s, step), c)
  {
    if step == Connect(c) {
      NewAccounted(s, c);
    } else if step.Create? {
      CreateAccounted(s, step.c, c);
    } else if step == Ask(c) {
      AskAccounted(s, c);
    } else {
      OtherStep(s, step, c);
      hide Do, Can;
      SameAccounted(s, Do(s, step), c);
    }
  }

  lemma OriginsKept(s: State, step: Step)
    requires Origins(s) && Can(s, step)
    ensures Origins(Do(s, step))
  {
  }

  lemma StepKeepsBooks(s: State, step: Step)
    requires Books(s) && Can(s, step)
    ensures Books(Do(s, step))
  {
    OriginsKept(s, step);
    hide Do, Accounted, Origins, Can;
    forall c | c in Do(s, step).clients ensures Accounted(Do(s, step), c) {
      ClientAccounted(s, step, c);
    }
  }

  lemma {:induction false} RunKeepsBooks(steps: seq<Step>)
    requires Run(Init(), steps).Some?
    ensures Books(Run(Init(), steps).value)
  {
    if steps != [] {
      RunKeepsBooks(steps[..|steps| - 1]);
      StepKeepsBooks(Run(Init(), steps[..|steps| - 1]).value, steps[|steps| - 1]);
    }
  }

  // ---- the steps that spoil the matching

  /** The step makes client c take a worker for what it is not: it announces to c a worker of another client
      that c will not know, under an ID c is waiting for; or it announces a worker of c's own that c will have
      forgotten; or c gives out an ID that an announcement still in flight carries. */
  ghost predicate Harms(s: State, step: Step, c: int)
    requires Can(s, step) && c in s.clients && s.clients[c].seen <= |s.clients[c].log|
  {
    var k := s.clients[c];
    match step
    case Announce(d, wid) =>
      && wid !in Later(k).xlaters
      && ((wid in s.origin && s.origin[wid].0 == c) || (d == c && s.workers[wid].rid in Later(k).queue))
    case Ask(d) => d == c && Waits(k.view, InFlight(k), k.xln)
    case _ => false
  }

  /** A message appended to the stream is handled last. */
  lemma Posted(k: Client, m: Msg)
    requires k.seen <= |k.log|
    ensures Later(Post(k, m)) == Apply(Later(k), m)
  {
    assert InFlight(Post(k, m)) == InFlight(k) + [m];
    FoldPost(k.view, InFlight(k), m);
  }

  lemma {:induction false} PaidLater(v: View, ms: seq<Msg>, wid: int, n: nat)
    ensures Fold(v, ms + Repeat(Payload(wid), n)) == Fold(v, ms)
  {
    if n == 0 {
      assert ms + Repeat(Payload(wid), 0) == ms;
    } else {
      var before := ms + Repeat(Payload(wid), n - 1);
      PaidLater(v, ms, wid, n - 1);
      FoldPost(v, before, Payload(wid));
      assert ms + Repeat(Payload(wid), n) == before + [Payload(wid)];
    }
  }

  lemma CreateMatched(s: State, d: int, c: int)
    requires Books(s) && Can(s, Create(d)) && c in s.clients && Matched(s, c)
    ensures Matched(Do(s, Create(d)), c)
  {
    var t := Do(s, Create(d));
    var k := s.clients[c];
    assert Accounted(s, c) && s.widx !in Later(k).xlaters;
    var m := Running(s.widx, if c == d then k.requests[0] else -1);
    Posted(k, m);
    assert Later(t.clients[c]) == Later(Post(k, m));
    if c == d {
      Rest(k.requests);
      assert k.requests[0] in Elements(k.requests);
    } else {
      assert -1 !in Later(k).queue;
    }
  }

  lemma AnnounceMatched(s: State, d: int, wid: int, c: int)
    requires Books(s) && Can(s, Announce(d, wid)) && c in s.clients && Matched(s, c)
    ensures Matched(Do(s, Announce(d, wid)), c) <==> !Harms(s, Announce(d, wid), c)
  {
    var t := Do(s, Announce(d, wid));
    var k := s.clients[c];
    assert Accounted(s, c) && wid in s.origin;
    var m := Running(wid, if c == d then s.workers[wid].rid else -1);
    Posted(k, m);
    assert t.clients[c] == Post(k, m);
    assert -1 !in Later(k).queue;
    if wid !in Later(k).xlaters && s.origin[wid].0 == c {
      assert s.origin[wid].1 !in Elements(k.requests);
      assert Later(t.clients[c]).xlaters[wid] == -1;
    }
  }

  lemma AskMatched(s: State, c: int)
    requires Books(s) && Can(s, Ask(c)) && Matched(s, c)
    ensures Matched(Do(s, Ask(c)), c) <==> !Harms(s, Ask(c), c)
  {
    var t := Do(s, Ask(c));
    var k, l := s.clients[c], t.clients[c];
    assert Accounted(s, c);
    assert k.xln !in k.requests && k.xln !in k.view.queue;
    More(k.requests, k.xln);
    FoldQueue(k.view, InFlight(k), k.xln);
    assert l.view == Queue(k.view, k.xln) && InFlight(l) == InFlight(k);
    assert l.requests == k.requests + [k.xln];
    assert k.xln in Elements(l.requests);
  }

  lemma ReceiveMatched(s: State, c: int)
    requires Can(s, Receive(c)) && Matched(s, c)
    ensures Matched(Do(s, Receive(c)), c)
  {
    var k, l := s.clients[c], Do(s, Receive(c)).clients[c];
    FoldFirst(k.view, InFlight(k));
    assert InFlight(k)[0] == k.log[k.seen] && InFlight(k)[1..] == InFlight(l);
  }

  lemma TellingMatched(s: State, step: Step, c: int)
    requires Can(s, step) && c in s.clients && Matched(s, c)
    requires step.Broadcast? || step.Send?
    ensures Matched(Do(s, step), c)
  {
    var k, l := s.clients[c], Do(s, step).clients[c];
    match step {
      case Broadcast => Posted(k, Destroyed(s.pending[0].0, s.pending[0].1));
      case Send(wid) =>
        PaidLater(k.view, InFlight(k), wid, k.subs[wid]);
        assert InFlight(l) == InFlight(k) + Repeat(Payload(wid), k.subs[wid]);
    }
  }

  lemma SilentMatched(s: State, step: Step, c: int)
    requires Can(s, step) && c in s.clients && c in Do(s, step).clients && Matched(s, c)
    requires step.Connect? || step.Leave? || step.Enable? || step.Disable? || step.Mark? || step.Reap?
             || (step.Ask? && step.c != c) || (step.Receive? && step.c != c)
    ensures Matched(Do(s, step), c)
  {
    var k, l := s.clients[c], Do(s, step).clients[c];
    assert l.view == k.view && l.log == k.log && l.seen == k.seen && l.requests == k.requests;
  }

  /** One step spoils the matching if and only if it is one of those. */
  lemma StepMatched(s: State, step: Step, c: int)
    requires Books(s) && Can(s, step) && c in s.clients && c in Do(s, step).clients && Matched(s, c)
    ensures Matched(Do(s, step), c) <==> !Harms(s, step, c)
  {
    hide Matched, Accounted, Origins;
    match step {
      case Create(d) => CreateMatched(s, d, c);
      case Announce(d, wid) => AnnounceMatched(s, d, wid, c);
      case Broadcast => TellingMatched(s, step, c);
      case Send(_) => TellingMatched(s, step, c);
      case Ask(d) =>
        if d == c {
          AskMatched(s, c);
        } else {
          SilentMatched(s, step, c);
        }
      case Receive(d) =>
        if d == c {
          ReceiveMatched(s, c);
        } else {
          SilentMatched(s, step, c);
        }
      case _ => SilentMatched(s, step, c);
    }
  }

  // ---- whole runs

  /** The client's requests and workers matched in every state of the run in which it was connected. */
  ghost predicate MatchedAlways(steps: seq<Step>, c: int)
    requires Run(Init(), steps).Some?
  {
    && (c in Run(Init(), steps).value.clients ==> Matched(Run(Init(), steps).value, c))
    && (steps != [] ==> MatchedAlways(steps[..|steps| - 1], c))
  }

  /** No step of the run spoiled the matching. */
  ghost predicate NeverHarmed(steps: seq<Step>, c: int)
    requires Run(Init(), steps).Some?
  {
    steps == [] ||
    var before := steps[..|steps| - 1];
    var s := Run(Init(), before).value;
    && NeverHarmed(before, c)
    && (c in s.clients && s.clients[c].seen <= |s.clients[c].log| ==> !Harms(s, steps[|steps| - 1], c))
  }

  /** Over every run and for every client, early or late: its requests and workers match in every state if and
      only if no step of the run announces to it a worker of another client that it will not know under an ID
      it is waiting for, or a worker of its own that it will have forgotten, and it never gives out an ID that
      an announcement still in flight carries. */
  lemma {:induction false} MatchingExact(steps: seq<Step>, c: int)
    requires Run(Init(), steps).Some?
    ensures MatchedAlways(steps, c) <==> NeverHarmed(steps, c)
  {
    if steps != [] {
      var before, step := steps[..|steps| - 1], steps[|steps| - 1];
      var s := Run(Init(), before).value;
      MatchingExact(before, c);
      RunKeepsBooks(before);
      if MatchedAlways(before, c) {
        MatchingStep(s, step, c);
      }
    }
  }

  lemma MatchingStep(s: State, step: Step, c: int)
    requires Books(s) && Can(s, step) && (c in s.clients ==> Matched(s, c))
    ensures c in s.clients ==> s.clients[c].seen <= |s.clients[c].log|
    ensures (c in Do(s, step).clients ==> Matched(Do(s, step), c)) <==> (c in s.clients ==> !Harms(s, step, c))
  {
    if c in s.clients && c in Do(s, step).clients {
      StepMatched(s, step, c);
    } else if c in Do(s, step).clients {
      NewAccounted(s, c);
    }
  }

  /** In a run that never harms a client: each of its reference IDs is either still queued (its request not yet
      handled) or belongs to exactly one worker, created by its own request; and whatever worker its mirror
      holds, once all messages are handled, carries exactly the ID of the request that created it, or none if
      another client's did. */
  lemma EveryRequestAnsweredOnce(steps: seq<Step>, c: int)
    requires Run(Init(), steps).Some? && NeverHarmed(steps, c) && c in Run(Init(), steps).value.clients
    ensures var s := Run(Init(), steps).value;
            var k := s.clients[c];
            && k.seen <= |k.log|
            && (forall r :: 0 <= r < k.xln ==> (r in Later(k).queue <==> !Answered(s, c, r)))
            && (forall w, v :: w in s.origin && v in s.origin && s.origin[w] == s.origin[v] && s.origin[w].0 == c ==>
                  w == v)
            && (forall w :: w in Later(k).xlaters ==> w in s.origin && Later(k).xlaters[w] == Mine(s.origin, w, c))
  {
    MatchingExact(steps, c);
    RunKeepsBooks(steps);
    var s := Run(Init(), steps).value;
    assert Accounted(s, c) && Matched(s, c);
  }

  // ---- runs that harm nobody

  /** Every announcement made while the client is connected is of a worker it will know by then. */
  ghost predicate OnlyKnown(steps: seq<Step>, c: int)
    requires Run(Init(), steps).Some?
  {
    steps == [] ||
    var before, step := steps[..|steps| - 1], steps[|steps| - 1];
    var s := Run(Init(), before).value;
    && OnlyKnown(before, c)
    && (step.Announce? && c in s.clients && s.clients[c].seen <= |s.clients[c].log| ==>
          step.wid in Later(s.clients[c]).xlaters)
  }

  /** No message in flight takes an ID that has not been given out. */
  ghost predicate NoneAhead(k: Client)
    requires k.seen <= |k.log|
  {
    forall r :: r >= k.xln ==> !Waits(k.view, InFlight(k), r)
  }

  lemma AheadPost(k: Client, m: Msg)
    requires k.seen <= |k.log| && NoneAhead(k)
    requires m.Running? ==> m.rid < k.xln || m.wid in Later(k).xlaters
    ensures NoneAhead(Post(k, m))
  {
    var l := Post(k, m);
    assert InFlight(l) == InFlight(k) + [m] && InFlight(l)[..|InFlight(k)|] == InFlight(k);
    FoldKeys(k.view, InFlight(k));
    forall r | r >= k.xln ensures !Waits(l.view, InFlight(l), r) {
      WaitsLast(l.view, InFlight(l), r);
    }
  }

  lemma {:induction false} AheadPaid(k: Client, wid: int, n: nat)
    requires k.seen <= |k.log| && NoneAhead(k)
    ensures NoneAhead(k.(log := k.log + Repeat(Payload(wid), n)))
  {
    if n == 0 {
      assert k.log + Repeat(Payload(wid), 0) == k.log;
    } else {
      AheadPaid(k, wid, n - 1);
      var l := k.(log := k.log + Repeat(Payload(wid), n - 1));
      AheadPost(l, Payload(wid));
      assert Post(l, Payload(wid)).log == k.log + Repeat(Payload(wid), n);
    }
  }

  /** Handling the first message does not change which of the others wait. */
  lemma {:induction false} KeyFoldFirst(keys: set<int>, ms: seq<Msg>, i: nat)
    requires 1 <= i <= |ms|
    ensures KeyFold(ApplyKeys(keys, ms[0]), ms[1..][..i - 1]) == KeyFold(keys, ms[..i])
  {
    var rest := ms[1..][..i - 1];
    KeyFoldSplit(keys, [ms[0]], rest);
    assert [ms[0]] + rest == ms[..i];
    assert [ms[0]][..0] == [];
    assert KeyFold(keys, [ms[0]]) == ApplyKeys(KeyFold(keys, []), ms[0]);
  }

  lemma AheadReceive(k: Client)
    requires k.seen < |k.log| && NoneAhead(k)
    ensures NoneAhead(k.(view := Apply(k.view, k.log[k.seen]), seen := k.seen + 1))
  {
    var l := k.(view := Apply(k.view, k.log[k.seen]), seen := k.seen + 1);
    var ms := InFlight(k);
    assert ms[0] == k.log[k.seen] && InFlight(l) == ms[1..];
    assert l.view.xlaters.Keys == ApplyKeys(k.view.xlaters.Keys, ms[0]);
    forall r | r >= k.xln ensures !Waits(l.view, InFlight(l), r) {
      assert !Waits(k.view, ms, r);
      forall i ensures !Takes(l.view, InFlight(l), i, r) {
        if 0 <= i < |ms| - 1 {
          KeyFoldFirst(k.view.xlaters.Keys, ms, i + 1);
          assert !Takes(k.view, ms, i + 1, r);
        }
      }
    }
  }

  lemma AheadAsk(k: Client, l: Client)
    requires k.seen <= |k.log| && NoneAhead(k)
    requires l.view.xlaters == k.view.xlaters && l.log == k.log && l.seen == k.seen && l.xln >= k.xln
    ensures NoneAhead(l)
  {
    forall r | r >= l.xln ensures !Waits(l.view, InFlight(l), r) {
      assert !Waits(k.view, InFlight(k), r);
      forall i ensures !Takes(l.view, InFlight(l), i, r) {
        assert !Takes(k.view, InFlight(k), i, r);
      }
    }
  }

  lemma StepKeepsAhead(s: State, step: Step, c: int)
    requires Books(s) && Can(s, step) && c in s.clients && c in Do(s, step).clients
    requires Accounted(s, c) && NoneAhead(s.clients[c])
    requires step.Announce? ==> step.wid in Later(s.clients[c]).xlaters
    ensures Do(s, step).clients[c].seen <= |Do(s, step).clients[c].log| && NoneAhead(Do(s, step).clients[c])
  {
    hide NoneAhead, Waits, Books;
    var k, l := s.clients[c], Do(s, step).clients[c];
    match step {
      case Create(d) =>
        var m := Running(s.widx, if c == d then k.requests[0] else -1);
        assert c == d ==> k.requests[0] in k.requests;
        AheadPost(k, m);
        AheadAsk(Post(k, m), l);
      case Announce(d, wid) => AheadPost(k, Running(wid, if c == d then s.workers[wid].rid else -1));
      case Broadcast => AheadPost(k, Destroyed(s.pending[0].0, s.pending[0].1));
      case Send(wid) => AheadPaid(k, wid, k.subs[wid]);
      case Receive(d) =>
        if d == c {
          AheadReceive(k);
        }
      case _ => AheadAsk(k, l);
    }
  }

  /** Such runs harm no client, early or late; in particular runs without LIST and MODIFY do not. */
  lemma {:induction false} KnownIsHarmless(steps: seq<Step>, c: int)
    requires Run(Init(), steps).Some? && OnlyKnown(steps, c)
    ensures NeverHarmed(steps, c)
    ensures var s := Run(Init(), steps).value;
            c in s.clients ==> s.clients[c].seen <= |s.clients[c].log| && NoneAhead(s.clients[c])
  {
    if steps != [] {
      var before, step := steps[..|steps| - 1], steps[|steps| - 1];
      var s := Run(Init(), before).value;
      KnownIsHarmless(before, c);
      RunKeepsBooks(before);
      assert c in s.clients ==> Accounted(s, c);
      hide NoneAhead, Waits, Books, Accounted;
      if c in Do(s, step).clients {
        if c in s.clients {
          StepKeepsAhead(s, step, c);
        } else {
          NewClientAhead(s, step, c);
        }
      }
      NotHarmed(s, step, c);
    }
  }

  lemma NewClientAhead(s: State, step: Step, c: int)
    requires Can(s, step) && c !in s.clients && c in Do(s, step).clients
    ensures var k := Do(s, step).clients[c]; k.seen <= |k.log| && NoneAhead(k)
  {
    var k := Do(s, step).clients[c];
    assert InFlight(k) == [];
  }

  lemma NotHarmed(s: State, step: Step, c: int)
    requires Can(s, step)
    requires c in s.clients ==>
               && s.clients[c].seen <= |s.clients[c].log| && NoneAhead(s.clients[c])
               && (step.Announce? ==> step.wid in Later(s.clients[c]).xlaters)
    ensures c in s.clients ==> !Harms(s, step, c)
  {
    hide Waits;
  }

  lemma {:induction false} WithoutAnnouncements(steps: seq<Step>, c: int)
    requires Run(Init(), steps).Some? && forall i :: 0 <= i < |steps| ==> !steps[i].Announce?
    ensures OnlyKnown(steps, c)
  {
    if steps != [] {
      WithoutAnnouncements(steps[..|steps| - 1], c);
    }
  }

  /** LIST and MODIFY announce only workers that client c was last told to be running. */
  ghost predicate Tame(steps: seq<Step>, c: int)
    requires Run(Init(), steps).Some?
  {
    steps == [] ||
    var before, step := steps[..|steps| - 1], steps[|steps| - 1];
    && Tame(before, c)
    && (step.Announce? && c in Run(Init(), before).value.clients ==> LastUp(before, c, step.wid))
  }

  /** Such announcements tell it nothing new. */
  lemma {:induction false} TameIsKnown(steps: seq<Step>, c: int)
    requires Run(Init(), steps).Some? && Tame(steps, c)
    ensures OnlyKnown(steps, c)
  {
    if steps != [] {
      var before, step := steps[..|steps| - 1], steps[|steps| - 1];
      var s := Run(Init(), before).value;
      TameIsKnown(before, c);
      if step.Announce? && c in s.clients {
        MirrorFollows(before, c);
        RunKeepsSeen(before);
        LaterKeys(s.clients[c]);
        assert Follows(s.clients[c], before, c);
      }
    }
  }

  // ---- harm does happen

  /** Client 0 has a worker; client 1 has connected. */
  lemma TwoClients() returns (steps: seq<Step>, s: State)
    ensures Run(Init(), steps) == Some(s)
    ensures s.workers == map[0 := Worker(true, 0, 0)] && s.origin == map[0 := (0, 0)]
    ensures 1 in s.clients && s.clients[1] == Client(View(map[], {}), 0, [], [], 0, multiset{}, 1)
  {
    var before, r := OneWorker();
    hide Run;
    s := Do(r, Connect(1));
    RunStep(Init(), before, r, Connect(1));
    steps := before + [Connect(1)];
  }

  /** A second client that asks for a channel and then has LIST answered first takes the first client's worker
      for its own: both count their requests from 0. */
  lemma LateListStealsRequest() returns (steps: seq<Step>)
    ensures Run(Init(), steps).Some?
    ensures var s := Run(Init(), steps).value;
            && 1 in s.clients && s.clients[1].requests == [0] && s.clients[1].view == View(map[0 := 0], {})
            && 0 in s.origin && s.origin[0] == (0, 0)
  {
    var before, s := TwoClients();
    hide Run;
    var t := Do(s, Ask(1));
    RunStep(Init(), before, s, Ask(1));
    var u := Do(t, Announce(1, 0));
    RunStep(Init(), before + [Ask(1)], t, Announce(1, 0));
    assert u.clients[1].log == [Running(0, 0)];
    var v := Do(u, Receive(1));
    RunStep(Init(), before + [Ask(1)] + [Announce(1, 0)], u, Receive(1));
    assert v.clients[1].view == View(map[0 := 0], {0} - {0});
    steps := before + [Ask(1)] + [Announce(1, 0)] + [Receive(1)];
  }

  /** So does one that asks while the answer to its LIST is on its way. */
  lemma LateAskStealsRequest() returns (steps: seq<Step>)
    ensures Run(Init(), steps).Some?
    ensures var s := Run(Init(), steps).value;
            && 1 in s.clients && s.clients[1].requests == [0] && s.clients[1].view == View(map[0 := 0], {})
            && 0 in s.origin && s.origin[0] == (0, 0)
  {
    var before, s := TwoClients();
    hide Run;
    var t := Do(s, Announce(1, 0));
    RunStep(Init(), before, s, Announce(1, 0));
    assert t.clients[1].log == [Running(0, 0)];
    var u := Do(t, Ask(1));
    RunStep(Init(), before + [Announce(1, 0)], t, Ask(1));
    var v := Do(u, Receive(1));
    RunStep(Init(), before + [Announce(1, 0)] + [Ask(1)], u, Receive(1));
    assert v.clients[1].view == View(map[0 := 0], {0} - {0});
    steps := before + [Announce(1, 0)] + [Ask(1)] + [Receive(1)];
  }
}
