/** The request handlers, as loops over the lists of workers and clients. Each handler is shown to take the
    server from one state of the control plane to the next. */
module ClientParser {
  import opened ControlPlane
  import opened Wrappers

  /** A link of the worker list, and of the client list with its list of subscriptions. */
  datatype Link = Link(wid: int, worker: Worker)
  datatype Tcp = Tcp(id: int, log: seq<Msg>, subs: seq<int>)

  /** The subscriptions left when worker `wid` is taken out. */
  function Without(subs: seq<int>, wid: int): seq<int> {
    if subs == [] then [] else
      (if subs[0] == wid then [] else [subs[0]]) + Without(subs[1..], wid)
  }

  lemma {:induction false} WithoutIsRemoval(subs: seq<int>, wid: int)
    ensures multiset(Without(subs, wid)) == multiset(subs)[wid := 0]
  {
    if subs != [] {
      WithoutIsRemoval(subs[1..], wid);
      assert subs == [subs[0]] + subs[1..];
    }
  }

  /** Those that stay keep their order. */
  lemma {:induction false} WithoutKeepsOrder(a: seq<int>, b: seq<int>, wid: int)
    ensures Without(a + b, wid) == Without(a, wid) + Without(b, wid)
  {
    if a == [] {
      assert a + b == b;
    } else {
      assert (a + b)[1..] == a[1..] + b;
      WithoutKeepsOrder(a[1..], b, wid);
    }
  }

  lemma OneMore(subs: seq<int>, wid: int)
    ensures multiset([wid] + subs) == multiset(subs) + multiset{wid}
  {
  }

  /** The frames sent for a list of subscriptions. */
  function Frames(subs: seq<int>, wid: int): seq<Msg> {
    if subs == [] then [] else
      Frames(subs[..|subs| - 1], wid) + (if subs[|subs| - 1] == wid then [Payload(wid)] else [])
  }

  lemma {:induction false} FramesCount(subs: seq<int>, wid: int)
    ensures Frames(subs, wid) == Repeat(Payload(wid), multiset(subs)[wid])
  {
    if subs != [] {
      var n := |subs| - 1;
      FramesCount(subs[..n], wid);
      assert subs == subs[..n] + [subs[n]];
    }
  }

  /** One more message at the end of the stream. */
  function Sent(t: Tcp, m: Msg): Tcp {
    t.(log := t.log + [m])
  }

  /** All subscriptions to the worker gone. */
  function Unlinked(t: Tcp, wid: int): Tcp {
    t.(subs := Without(t.subs, wid))
  }

  function Wids(ws: seq<Link>): (wids: seq<int>)
    ensures |wids| == |ws| && forall i :: 0 <= i < |ws| ==> wids[i] == ws[i].wid
  {
    seq(|ws|, i requires 0 <= i < |ws| => ws[i].wid)
  }

  function Stopped(l: Link): Link {
    l.(worker := l.worker.(enabled := false))
  }

  class Server {
    var workers: seq<Link>  // newest first
    var clients: seq<Tcp>  // newest first
    var widx: nat

    /** The lists hold what state s of the control plane says. */
    ghost predicate Holds(s: State)
      reads this
    {
      && widx == s.widx
      && HoldsWorkers(workers, s.workers)
      && HoldsClients(clients, s.clients)
    }

    constructor ()
      ensures Holds(Init())
    {
      workers, clients, widx := [], [], 0;
    }

    /** A new connection. */
    method Accept(c: int, ghost s: State)
      requires Holds(s) && Can(s, Connect(c))
      modifies this
      ensures Holds(Do(s, Connect(c))) && clients == [Tcp(c, [], [])] + old(clients)
      ensures workers == old(workers)
    {
      ghost var before := clients;
      clients := [Tcp(c, [], [])] + clients;
      NewClient(before, s.clients, Tcp(c, [], []), Do(s, Connect(c)).clients[c]);
    }

    /** msg_running_xlater: the remote ID goes to `me`, -1 to everybody else. */
    method MsgRunning(me: int, wid: int, rid: int)
      modifies `clients
      ensures |clients| == |old(clients)|
      ensures forall i :: 0 <= i < |clients| ==>
                clients[i] == Sent(old(clients)[i], Running(wid, if old(clients)[i].id == me then rid else -1))
    {
      for i := 0 to |clients|
        invariant |clients| == |old(clients)|
        invariant forall k :: 0 <= k < i ==>
                    clients[k] == Sent(old(clients)[k], Running(wid, if old(clients)[k].id == me then rid else -1))
        invariant forall k :: i <= k < |clients| ==> clients[k] == old(clients)[k]
      {
        var m := Running(wid, if clients[i].id == me then rid else -1);
        clients := clients[i := Sent(clients[i], m)];
      }
    }

    method MsgDestroyed(wid: int, existed: bool)
      modifies `clients
      ensures |clients| == |old(clients)|
      ensures forall i :: 0 <= i < |clients| ==>
                clients[i] == Sent(old(clients)[i], Destroyed(wid, existed))
    {
      for i := 0 to |clients|
        invariant |clients| == |old(clients)|
        invariant forall k :: 0 <= k < i ==> clients[k] == Sent(old(clients)[k], Destroyed(wid, existed))
        invariant forall k :: i <= k < |clients| ==> clients[k] == old(clients)[k]
      {
        clients := clients[i := Sent(clients[i], Destroyed(wid, existed))];
      }
    }

    /** CREATE: a new worker at the head of the list, announced to all. */
    method Create(me: int, rid: int, ghost s: State)
      requires Holds(s) && Can(s, ControlPlane.Create(me)) && rid == s.clients[me].requests[0]
      requires forall w :: w in s.workers ==> w < s.widx
      modifies this
      ensures Holds(Do(s, ControlPlane.Create(me)))
      ensures workers == [Link(old(widx), Worker(true, me, rid))] + old(workers)
    {
      hide HoldsWorkers, HoldsClients, Do;
      ghost var before := workers;
      workers := [Link(widx, Worker(true, me, rid))] + workers;
      NewWorker(before, s.workers, widx, Worker(true, me, rid));
      MsgRunning(me, widx, rid);
      CreateHolds(old(clients), clients, s, me);
      widx := widx + 1;
    }

    /** Takes worker `wid` out of every client's subscriptions. */
    method Unsubscribe(wid: int)
      modifies `clients
      ensures |clients| == |old(clients)|
      ensures forall i :: 0 <= i < |clients| ==> clients[i] == Unlinked(old(clients)[i], wid)
    {
      for i := 0 to |clients|
        invariant |clients| == |old(clients)|
        invariant forall k :: 0 <= k < i ==> clients[k] == Unlinked(old(clients)[k], wid)
        invariant forall k :: i <= k < |clients| ==> clients[k] == old(clients)[k]
      {
        clients := clients[i := Unlinked(clients[i], wid)];
      }
    }

    /** The first half of DESTROY: the worker is unsubscribed everywhere and disabled. */
    method Mark(wid: int, ghost s: State) returns (existed: bool)
      requires Holds(s)
      modifies `clients, `workers
      ensures existed == (wid in s.workers) && |workers| == |old(workers)|
      ensures forall i :: 0 <= i < |workers| ==> workers[i].wid == old(workers)[i].wid
      ensures Holds(Do(s, ControlPlane.Mark(wid)))
    {
      existed := false;
      ghost var start := workers;
      for i := 0 to |workers|
        invariant |workers| == |start|
        invariant existed <==> exists k :: 0 <= k < i && start[k].wid == wid
        invariant forall k :: 0 <= k < i ==>
                    workers[k] == if start[k].wid == wid then Stopped(start[k]) else start[k]
        invariant forall k :: i <= k < |workers| ==> workers[k] == start[k]
        invariant !existed ==> clients == old(clients)
        invariant existed ==>
                    && |clients| == |old(clients)|
                    && forall k :: 0 <= k < |clients| ==> clients[k] == Unlinked(old(clients)[k], wid)
      {
        if workers[i].wid == wid {
          assert !existed;
          Unsubscribe(wid);
          workers := workers[i := Stopped(workers[i])];
          existed := true;
        }
      }
      MarkHolds(start, old(clients), workers, clients, s, wid);
    }

    /** The second half of DESTROY. */
    method Broadcast(ghost s: State, wid: int, existed: bool)
      requires Holds(s) && s.pending != [] && s.pending[0] == (wid, existed)
      modifies `clients
      ensures Holds(Do(s, ControlPlane.Broadcast))
    {
      MsgDestroyed(wid, existed);
      SameClients(old(clients), s.clients, clients, Do(s, ControlPlane.Broadcast).clients);
    }

    /** ENABLE: one more subscription for the client at link `me`. */
    method Enable(me: nat, wid: int, ghost s: State)
      requires Holds(s) && me < |clients|
      modifies `clients
      ensures clients == old(clients)[me := old(clients)[me].(subs := [wid] + old(clients)[me].subs)]
      ensures clients[me].id in s.clients && Holds(Do(s, ControlPlane.Enable(clients[me].id, wid)))
    {
      clients := clients[me := clients[me].(subs := [wid] + clients[me].subs)];
      OneMore(old(clients)[me].subs, wid);
      assert clients[me].id in s.clients;
      hide Holds, HoldsClients;
      SameClients(old(clients), s.clients, clients, Do(s, ControlPlane.Enable(clients[me].id, wid)).clients);
    }

    /** DISABLE takes every client's subscriptions to the worker, not only the caller's. */
    method Disable(wid: int, ghost s: State)
      requires Holds(s)
      modifies `clients
      ensures Holds(Do(s, ControlPlane.Disable(wid))) && |clients| == |old(clients)|
      ensures forall i :: 0 <= i < |clients| ==>
                clients[i] == if wid in s.workers then Unlinked(old(clients)[i], wid) else old(clients)[i]
    {
      ghost var found, start := false, workers;
      for i := 0 to |workers|
        invariant workers == start
        invariant found <==> exists k :: 0 <= k < i && start[k].wid == wid
        invariant !found ==> clients == old(clients)
        invariant found ==>
                    && |clients| == |old(clients)|
                    && forall k :: 0 <= k < |clients| ==> clients[k] == Unlinked(old(clients)[k], wid)
      {
        if workers[i].wid == wid {
          assert !found;
          Unsubscribe(wid);
          found := true;
        }
      }
      if wid in s.workers {
        assert found;
        UnsubscribedHolds(old(clients), clients, s.clients, wid);
      }
    }

    /** The reply to MODIFY, and one turn of LIST: worker `wid` is announced again. */
    method Announce(me: int, wid: int, rid: int, ghost s: State)
      requires Holds(s) && Can(s, ControlPlane.Announce(me, wid)) && rid == s.workers[wid].rid
      modifies `clients
      ensures Holds(Do(s, ControlPlane.Announce(me, wid)))
    {
      hide HoldsWorkers, HoldsClients, Do;
      MsgRunning(me, wid, rid);
      AnnounceHolds(old(clients), clients, s, me, wid);
    }

    /** LIST: every worker is announced, in list order. */
    method List(me: int, ghost s: State)
      requires Holds(s) && me in s.clients
      modifies `clients
      ensures forall i :: 0 <= i < |workers| ==> workers[i].wid in s.workers
      ensures Holds(AnnounceAll(s, me, Wids(workers)))
    {
      ghost var t := s;
      assert Wids(workers[..0]) == [];
      for i := 0 to |workers|
        invariant forall k :: 0 <= k < |workers| ==> workers[k].wid in s.workers
        invariant t == AnnounceAll(s, me, Wids(workers[..i])) && Holds(t)
      {
        assert workers[i].worker == t.workers[workers[i].wid];
        Announce(me, workers[i].wid, workers[i].worker.rid, t);
        assert Wids(workers[..i + 1])[..i] == Wids(workers[..i]);
        t := Do(t, ControlPlane.Announce(me, workers[i].wid));
      }
      assert workers[..|workers|] == workers;
    }

    /** The reply to MODIFY: the worker is announced if it is in the list, and nobody hears anything otherwise. */
    method ReplyToModify(me: int, wid: int, ghost s: State) returns (found: bool)
      requires Holds(s) && me in s.clients
      modifies `clients
      ensures found <==> wid in s.workers
      ensures if found then Holds(Do(s, ControlPlane.Announce(me, wid))) else clients == old(clients)
    {
      found := false;
      for i := 0 to |workers|
        invariant forall k :: 0 <= k < i ==> workers[k].wid != wid
      {
        if workers[i].wid == wid {
          Announce(me, wid, workers[i].worker.rid, s);
          return true;
        }
      }
    }

    /** What the writer does for one finished packet of worker `wid`. */
    method SendPacket(wid: int, ghost s: State)
      requires Holds(s) && Can(s, Send(wid))
      modifies `clients
      ensures Holds(Do(s, Send(wid)))
    {
      for i := 0 to |clients|
        invariant |clients| == |old(clients)|
        invariant forall k :: 0 <= k < i ==>
                    clients[k] == old(clients)[k].(log := old(clients)[k].log + Frames(old(clients)[k].subs, wid))
        invariant forall k :: i <= k < |clients| ==> clients[k] == old(clients)[k]
      {
        var k, log := clients[i], clients[i].log;
        for j := 0 to |k.subs|
          invariant log == k.log + Frames(k.subs[..j], wid)
        {
          assert k.subs[..j + 1][..j] == k.subs[..j];
          if k.subs[j] == wid {
            log := log + [Payload(wid)];
          }
        }
        assert k.subs[..|k.subs|] == k.subs;
        clients := clients[i := k.(log := log)];
      }
      forall i | 0 <= i < |clients|
        ensures var k := s.clients[clients[i].id]; clients[i].log == k.log + Repeat(Payload(wid), k.subs[wid])
      {
        FramesCount(old(clients)[i].subs, wid);
      }
      SameClients(old(clients), s.clients, clients, Do(s, Send(wid)).clients);
    }

    /** The writer takes a finished, disabled worker out of the list. */
    method Reap(wid: int, ghost s: State)
      requires Holds(s) && Can(s, ControlPlane.Reap(wid))
      modifies `workers
      ensures Holds(Do(s, ControlPlane.Reap(wid)))
      ensures exists i :: 0 <= i < |old(workers)| && old(workers)[i].wid == wid
                          && workers == old(workers)[..i] + old(workers)[i + 1..]
    {
      var i := 0;
      while workers[i].wid != wid
        invariant 0 <= i < |workers| && workers == old(workers)
        invariant forall k :: 0 <= k < i ==> workers[k].wid != wid
        decreases |workers| - i
      {
        assert exists k :: 0 <= k < |workers| && workers[k].wid == wid;
        i := i + 1;
      }
      workers := workers[..i] + workers[i + 1..];
      WorkerOut(old(workers), s.workers, i);
    }
  }

  ghost predicate HoldsWorkers(ws: seq<Link>, m: map<int, Worker>) {
    && (forall i, j :: 0 <= i < j < |ws| ==> ws[i].wid != ws[j].wid)
    && (forall i :: 0 <= i < |ws| ==> ws[i].wid in m && m[ws[i].wid] == ws[i].worker)
    && (forall w :: w in m ==> exists i :: 0 <= i < |ws| && ws[i].wid == w)
  }

  ghost predicate HoldsClients(cs: seq<Tcp>, m: map<int, Client>) {
    && (forall i, j :: 0 <= i < j < |cs| ==> cs[i].id != cs[j].id)
    && (forall i :: 0 <= i < |cs| ==>
          cs[i].id in m && m[cs[i].id].log == cs[i].log && m[cs[i].id].subs == multiset(cs[i].subs))
    && (forall c :: c in m ==> exists i :: 0 <= i < |cs| && cs[i].id == c)
  }

  lemma NewClient(cs: seq<Tcp>, m: map<int, Client>, t: Tcp, k: Client)
    requires HoldsClients(cs, m) && t.id !in m && k.log == t.log && k.subs == multiset(t.subs)
    ensures HoldsClients([t] + cs, m[t.id := k])
  {
    var ds, n := [t] + cs, m[t.id := k];
    assert forall i :: 1 <= i < |ds| ==> ds[i] == cs[i - 1];
    forall c | c in n ensures exists i :: 0 <= i < |ds| && ds[i].id == c {
      if c == t.id {
        assert ds[0].id == c;
      } else {
        var i :| 0 <= i < |cs| && cs[i].id == c;
        assert ds[i + 1].id == c;
      }
    }
  }

  lemma NewWorker(ws: seq<Link>, m: map<int, Worker>, wid: int, w: Worker)
    requires HoldsWorkers(ws, m) && wid !in m
    ensures HoldsWorkers([Link(wid, w)] + ws, m[wid := w])
  {
    var vs, n := [Link(wid, w)] + ws, m[wid := w];
    forall c | c in n ensures exists i :: 0 <= i < |vs| && vs[i].wid == c {
      if c == wid {
        assert vs[0].wid == c;
      } else {
        var i :| 0 <= i < |ws| && ws[i].wid == c;
        assert vs[i + 1].wid == c;
      }
    }
  }

  lemma WorkerOut(ws: seq<Link>, m: map<int, Worker>, i: nat)
    requires HoldsWorkers(ws, m) && i < |ws|
    ensures HoldsWorkers(ws[..i] + ws[i + 1..], m - {ws[i].wid})
  {
    var vs := ws[..i] + ws[i + 1..];
    forall c | c in m - {ws[i].wid} ensures exists j :: 0 <= j < |vs| && vs[j].wid == c {
      var j :| 0 <= j < |ws| && ws[j].wid == c;
      assert vs[if j < i then j else j - 1].wid == c;
    }
  }

  /** The list of clients stays in step when each link changes as its client does. */
  lemma SameClients(cs: seq<Tcp>, m: map<int, Client>, ds: seq<Tcp>, n: map<int, Client>)
    requires HoldsClients(cs, m) && |ds| == |cs| && n.Keys == m.Keys
    requires forall i :: 0 <= i < |cs| ==>
               ds[i].id == cs[i].id && n[cs[i].id].log == ds[i].log && n[cs[i].id].subs == multiset(ds[i].subs)
    ensures HoldsClients(ds, n)
  {
    forall c | c in n ensures exists i :: 0 <= i < |ds| && ds[i].id == c {
      var i :| 0 <= i < |cs| && cs[i].id == c;
      assert ds[i].id == c;
    }
  }

  lemma SameWorkers(ws: seq<Link>, m: map<int, Worker>, vs: seq<Link>, n: map<int, Worker>)
    requires HoldsWorkers(ws, m) && |vs| == |ws| && n.Keys == m.Keys
    requires forall i :: 0 <= i < |ws| ==> vs[i].wid == ws[i].wid && n[ws[i].wid] == vs[i].worker
    ensures HoldsWorkers(vs, n)
  {
    forall c | c in n ensures exists i :: 0 <= i < |vs| && vs[i].wid == c {
      var i :| 0 <= i < |ws| && ws[i].wid == c;
      assert vs[i].wid == c;
    }
  }

  lemma CreateHolds(cs: seq<Tcp>, ds: seq<Tcp>, s: State, me: int)
    requires HoldsClients(cs, s.clients) && Can(s, Create(me)) && |ds| == |cs|
    requires forall i :: 0 <= i < |ds| ==>
               ds[i] == Sent(cs[i], Running(s.widx, if cs[i].id == me then s.clients[me].requests[0] else -1))
    ensures HoldsClients(ds, Do(s, Create(me)).clients)
    ensures Do(s, Create(me)).workers == s.workers[s.widx := Worker(true, me, s.clients[me].requests[0])]
    ensures Do(s, Create(me)).widx == s.widx + 1
  {
    SameClients(cs, s.clients, ds, Do(s, Create(me)).clients);
  }

  lemma AnnounceHolds(cs: seq<Tcp>, ds: seq<Tcp>, s: State, me: int, wid: int)
    requires HoldsClients(cs, s.clients) && Can(s, Announce(me, wid)) && |ds| == |cs|
    requires forall i :: 0 <= i < |ds| ==>
               ds[i] == Sent(cs[i], Running(wid, if cs[i].id == me then s.workers[wid].rid else -1))
    ensures HoldsClients(ds, Do(s, Announce(me, wid)).clients)
    ensures Do(s, Announce(me, wid)).workers == s.workers && Do(s, Announce(me, wid)).widx == s.widx
  {
    SameClients(cs, s.clients, ds, Do(s, Announce(me, wid)).clients);
  }

  lemma UnsubscribedHolds(cs: seq<Tcp>, ds: seq<Tcp>, m: map<int, Client>, wid: int)
    requires HoldsClients(cs, m) && |ds| == |cs|
    requires forall k :: 0 <= k < |cs| ==> ds[k] == Unlinked(cs[k], wid)
    ensures HoldsClients(ds, Unsubscribed(m, wid))
  {
    forall k | 0 <= k < |cs| ensures multiset(ds[k].subs) == m[cs[k].id].subs[wid := 0] {
      WithoutIsRemoval(cs[k].subs, wid);
    }
    SameClients(cs, m, ds, Unsubscribed(m, wid));
  }

  lemma MarkHolds(ws: seq<Link>, cs: seq<Tcp>, ws': seq<Link>, cs': seq<Tcp>, s: State, wid: int)
    requires HoldsWorkers(ws, s.workers) && HoldsClients(cs, s.clients)
    requires |ws'| == |ws|
    requires forall k :: 0 <= k < |ws| ==> ws'[k] == if ws[k].wid == wid then Stopped(ws[k]) else ws[k]
    requires if wid in s.workers
             then |cs'| == |cs| && forall k :: 0 <= k < |cs| ==> cs'[k] == Unlinked(cs[k], wid)
             else cs' == cs
    ensures HoldsWorkers(ws', Do(s, Mark(wid)).workers) && HoldsClients(cs', Do(s, Mark(wid)).clients)
  {
    var t := Do(s, Mark(wid));
    SameWorkers(ws, s.workers, ws', t.workers);
    if wid in s.workers {
      UnsubscribedHolds(cs, cs', s.clients, wid);
    }
  }
}
