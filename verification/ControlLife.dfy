/** The life of a channel, as each client is told about it. */
module ControlLife {
  import opened ControlPlane
  import opened Wrappers

  // ---- the life of a channel, as each client sees it

  ghost predicate Announced(log: seq<Msg>, wid: int, n: int) {
    exists j :: 0 <= j < n && j < |log| && log[j].Running? && log[j].wid == wid
  }

  /** RUNNING(wid) precedes every PAYLOAD(wid) of a worker created after the client connected. */
  ghost predicate RunningFirst(k: Client) {
    forall i :: 0 <= i < |k.log| && k.log[i].Payload? && k.log[i].wid >= k.since ==> Announced(k.log, k.log[i].wid, i)
  }

  /** No PAYLOAD(wid) follows a DESTROYED(wid) that was sent for an existing worker. */
  ghost predicate NothingAfterDestroyed(k: Client) {
    forall i, j :: 0 <= i < j < |k.log| && k.log[i].Destroyed? && k.log[i].existed ==> k.log[j] != Payload(k.log[i].wid)
  }

  ghost predicate LogInv(s: State, k: Client) {
    && RunningFirst(k)
    && NothingAfterDestroyed(k)
    && (forall wid :: wid in s.workers && wid >= k.since ==> Announced(k.log, wid, |k.log|))
    && (forall i :: 0 <= i < |k.log| && k.log[i].Destroyed? && k.log[i].existed ==>
          k.log[i].wid < s.widx && !Live(s, k.log[i].wid))
    && (forall i :: 0 <= i < |k.log| && !k.log[i].Destroyed? ==> k.log[i].wid < s.widx)
    && k.since <= s.widx
  }

  ghost predicate LifeInv(s: State) {
    && (forall wid :: wid in s.workers ==> 0 <= wid < s.widx)
    && (forall i :: 0 <= i < |s.pending| && s.pending[i].1 ==> s.pending[i].0 < s.widx && !Live(s, s.pending[i].0))
    && (forall c :: c in s.clients ==> LogInv(s, s.clients[c]))
  }

  lemma PostKeeps(k: Client, m: Msg)
    ensures forall wid :: Announced(k.log, wid, |k.log|) ==> Announced(Post(k, m).log, wid, |k.log| + 1)
    ensures forall wid, n :: Announced(k.log, wid, n) ==> Announced(Post(k, m).log, wid, n)
  {
    assert forall j :: 0 <= j < |k.log| ==> Post(k, m).log[j] == k.log[j];
  }

  /** A stream that grows by one message. */
  lemma LogGrows(s: State, t: State, k: Client, m: Msg)
    requires LogInv(s, k) && s.widx <= t.widx
    requires forall wid :: wid < s.widx && !Live(s, wid) ==> !Live(t, wid)
    requires forall wid :: wid in t.workers ==> wid in s.workers || (m.Running? && m.wid == wid)
    requires m.Payload? ==> Live(s, m.wid) && m.wid in s.workers
    requires m.Destroyed? && m.existed ==> m.wid < t.widx && !Live(t, m.wid)
    requires !m.Destroyed? ==> m.wid < t.widx
    ensures LogInv(t, Post(k, m))
  {
    var l := Post(k, m);
    PostKeeps(k, m);
    assert forall j :: 0 <= j < |k.log| ==> l.log[j] == k.log[j];
    assert l.log[|k.log|] == m;
    forall i | 0 <= i < |l.log| && l.log[i].Payload? && l.log[i].wid >= l.since
      ensures Announced(l.log, l.log[i].wid, i)
    {
      if i == |k.log| {
        assert Announced(k.log, m.wid, |k.log|);
      } else {
        assert Announced(k.log, k.log[i].wid, i);
      }
    }
    forall wid | wid in t.workers && wid >= l.since ensures Announced(l.log, wid, |l.log|) {
      if wid !in s.workers {
        assert l.log[|k.log|].Running? && l.log[|k.log|].wid == wid;
      }
    }
  }

  /** The same stream, seen in a later state of the server. */
  lemma LogStays(s: State, t: State, k: Client, l: Client)
    requires LogInv(s, k) && s.widx <= t.widx && l.log == k.log && l.since == k.since
    requires forall wid :: wid < s.widx && !Live(s, wid) ==> !Live(t, wid)
    requires forall wid :: wid in t.workers ==> wid in s.workers
    ensures LogInv(t, l)
  {
  }

  /** A frame is sent once for each subscription the client holds. */
  lemma {:induction false} PaidKeeps(s: State, k: Client, wid: int, n: nat)
    requires LifeInv(s) && LogInv(s, k) && Live(s, wid)
    ensures LogInv(s, k.(log := k.log + Repeat(Payload(wid), n)))
  {
    if n == 0 {
      assert k.log + Repeat(Payload(wid), 0) == k.log;
    } else {
      PaidKeeps(s, k, wid, n - 1);
      var l := k.(log := k.log + Repeat(Payload(wid), n - 1));
      LogGrows(s, s, l, Payload(wid));
      assert Post(l, Payload(wid)).log == k.log + Repeat(Payload(wid), n);
    }
  }

  lemma CreateKeepsLife(s: State, c: int)
    requires LifeInv(s) && Can(s, Create(c))
    ensures LifeInv(Do(s, Create(c)))
  {
    var t := Do(s, Create(c));
    var rid := s.clients[c].requests[0];
    forall d | d in t.clients ensures LogInv(t, t.clients[d]) {
      var m := Running(s.widx, if d == c then rid else -1);
      LogGrows(s, t, s.clients[d], m);
      LogStays(t, t, Post(s.clients[d], m), t.clients[d]);
    }
  }

  lemma AnnounceKeepsLife(s: State, c: int, wid: int)
    requires LifeInv(s) && Can(s, Announce(c, wid))
    ensures LifeInv(Do(s, Announce(c, wid)))
  {
    var t := Do(s, Announce(c, wid));
    forall d | d in t.clients ensures LogInv(t, t.clients[d]) {
      LogGrows(s, t, s.clients[d], Running(wid, if d == c then s.workers[wid].rid else -1));
    }
  }

  lemma BroadcastKeepsLife(s: State)
    requires LifeInv(s) && Can(s, Broadcast)
    ensures LifeInv(Do(s, Broadcast))
  {
    var t := Do(s, Broadcast);
    forall d | d in t.clients ensures LogInv(t, t.clients[d]) {
      LogGrows(s, t, s.clients[d], Destroyed(s.pending[0].0, s.pending[0].1));
    }
  }

  lemma SendKeepsLife(s: State, wid: int)
    requires LifeInv(s) && Can(s, Send(wid))
    ensures LifeInv(Do(s, Send(wid)))
  {
    var t := Do(s, Send(wid));
    forall d | d in t.clients ensures LogInv(t, t.clients[d]) {
      PaidKeeps(s, s.clients[d], wid, s.clients[d].subs[wid]);
      LogStays(s, t, t.clients[d], t.clients[d]);
    }
  }

  /** The steps that send nothing. */
  lemma SilentKeepsLife(s: State, step: Step)
    requires LifeInv(s) && Can(s, step)
    requires step.Connect? || step.Leave? || step.Ask? || step.Enable? || step.Disable? || step.Mark? || step.Reap?
             || step.Receive?
    ensures LifeInv(Do(s, step))
  {
    var t := Do(s, step);
    forall d | d in t.clients ensures LogInv(t, t.clients[d]) {
      if d in s.clients {
        LogStays(s, t, s.clients[d], t.clients[d]);
      }
    }
  }

  /** Over every run and for every client: RUNNING(wid) precedes every PAYLOAD(wid) of a worker created after
      the client connected, and no PAYLOAD(wid) follows a DESTROYED(wid) sent for an existing worker -- even
      though DESTROY gives up the lock between disabling the worker and broadcasting. */
  lemma {:induction false} ChannelLife(steps: seq<Step>)
    requires Run(Init(), steps).Some?
    ensures LifeInv(Run(Init(), steps).value)
    ensures var s := Run(Init(), steps).value;
            forall c :: c in s.clients ==> RunningFirst(s.clients[c]) && NothingAfterDestroyed(s.clients[c])
  {
    if steps != [] {
      var before, step := steps[..|steps| - 1], steps[|steps| - 1];
      ChannelLife(before);
      var s := Run(Init(), before).value;
      hide Do, LogInv, RunningFirst, NothingAfterDestroyed;
      match step {
        case Create(c) => CreateKeepsLife(s, c);
        case Announce(c, wid) => AnnounceKeepsLife(s, c, wid);
        case Broadcast => BroadcastKeepsLife(s);
        case Send(wid) => SendKeepsLife(s, wid);
        case _ => SilentKeepsLife(s, step);
      }
      LifeMeans(Do(s, step));
    }
  }

  lemma LifeMeans(s: State)
    requires LifeInv(s)
    ensures forall c :: c in s.clients ==> RunningFirst(s.clients[c]) && NothingAfterDestroyed(s.clients[c])
  {
  }

  /** A worker ID is given out once: a new worker's ID has never been in any stream. */
  lemma FreshIds(steps: seq<Step>, c: int)
    requires Run(Init(), steps).Some? && c in Run(Init(), steps).value.clients
    ensures var s := Run(Init(), steps).value;
            && s.widx !in s.workers
            && forall m :: m in s.clients[c].log && !m.Destroyed? ==> m.wid < s.widx
  {
    ChannelLife(steps);
    var s := Run(Init(), steps).value;
    assert LogInv(s, s.clients[c]);
  }
}
