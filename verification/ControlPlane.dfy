/** The control plane: requests of clients, the list of workers, and the ordered stream of messages each
    client is sent. Every region under `llmutex` is one step. DESTROY takes the lock twice, so it is two
    steps; LIST, and the reply of MODIFY, announce one worker a step. */
module ControlPlane {
  import opened Wrappers

  /** What a client can be sent. `existed` is not on the wire: it records whether the destroyed worker was in
      the list when the request was handled. A remote ID of -1 means "not yours". */
  datatype Msg =
    | Running(wid: int, rid: int)
    | Destroyed(wid: int, existed: bool)
    | Payload(wid: int)

  datatype Worker = Worker(enabled: bool, owner: int, rid: int)

  /** The client's mirror: `xlaters` (with the local reference ID of its own workers, else -1) and `xlater_q`. */
  datatype View = View(xlaters: map<int, int>, queue: set<int>)

  /** `requests` holds the CREATE requests on their way to the server, `log` every message sent to the client,
      of which it has handled `seen`; `since` is the worker counter at the time it connected. */
  datatype Client = Client(
    view: View,
    xln: nat,
    requests: seq<int>,
    log: seq<Msg>,
    seen: nat,
    subs: multiset<int>,
    since: nat)

  /** `pending` holds the DESTROYED broadcasts between the two locked halves of DESTROY. `origin` is history: who
      asked for a worker, and under which reference ID. */
  datatype State = State(
    workers: map<int, Worker>,
    widx: nat,
    clients: map<int, Client>,
    pending: seq<(int, bool)>,
    origin: map<int, (int, int)>)

  function Init(): State {
    State(map[], 0, map[], [], map[])
  }

  datatype Step =
    | Connect(c: int) | Leave(c: int)
    | Ask(c: int) | Create(c: int)
    | Enable(c: int, wid: int) | Disable(wid: int)
    | Announce(c: int, wid: int)
    | Mark(wid: int) | Broadcast
    | Send(wid: int) | Reap(wid: int)
    | Receive(c: int)

  predicate Live(s: State, wid: int) {
    wid in s.workers && s.workers[wid].enabled
  }

  /** Clients are named by their connection: a new one is not taken for the owner of an earlier one's workers. */
  predicate NewName(s: State, c: int) {
    forall w :: w in s.origin ==> s.origin[w].0 != c
  }

  predicate Can(s: State, step: Step) {
    match step
    case Connect(c) => c !in s.clients && NewName(s, c)
    case Leave(c) => c in s.clients
    case Ask(c) => c in s.clients
    case Create(c) => c in s.clients && s.clients[c].requests != []
    case Enable(c, _) => c in s.clients
    case Disable(_) => true
    case Announce(c, wid) => c in s.clients && wid in s.workers
    case Mark(_) => true
    case Broadcast => s.pending != []
    case Send(wid) => Live(s, wid)
    case Reap(wid) => wid in s.workers && !s.workers[wid].enabled
    case Receive(c) => c in s.clients && s.clients[c].seen < |s.clients[c].log|
  }

  /** Appends a message to a client's stream. */
  function Post(k: Client, m: Msg): Client {
    k.(log := k.log + [m])
  }

  /** msg_running_xlater: the remote ID goes to one client only. */
  function Told(clients: map<int, Client>, me: int, wid: int, rid: int): map<int, Client> {
    map c | c in clients :: Post(clients[c], Running(wid, if c == me then rid else -1))
  }

  function TellAll(clients: map<int, Client>, m: Msg): map<int, Client> {
    map c | c in clients :: Post(clients[c], m)
  }

  function Unsubscribed(clients: map<int, Client>, wid: int): map<int, Client> {
    map c | c in clients :: clients[c].(subs := clients[c].subs[wid := 0])
  }

  function Repeat(m: Msg, n: nat): (ms: seq<Msg>)
    ensures |ms| == n && forall i :: 0 <= i < n ==> ms[i] == m
  {
    seq(n, _ => m)
  }

  function Paid(clients: map<int, Client>, wid: int): map<int, Client> {
    map c | c in clients :: clients[c].(log := clients[c].log + Repeat(Payload(wid), clients[c].subs[wid]))
  }

  /** What the client makes of a message. */
  function Apply(v: View, m: Msg): View {
    match m
    case Running(wid, rid) =>
      if wid in v.xlaters then v
      else if rid in v.queue then View(v.xlaters[wid := rid], v.queue - {rid})
      else View(v.xlaters[wid := -1], v.queue)
    case Destroyed(wid, _) => View(v.xlaters - {wid}, v.queue)
    case Payload(_) => v
  }

  function Do(s: State, step: Step): State
    requires Can(s, step)
  {
    match step
    case Connect(c) => s.(clients := s.clients[c := Client(View(map[], {}), 0, [], [], 0, multiset{}, s.widx)])
    case Leave(c) => s.(clients := s.clients - {c})
    case Ask(c) =>
      var k := s.clients[c];
      s.(clients := s.clients[c := k.(view := k.view.(queue := k.view.queue + {k.xln}),
                                      requests := k.requests + [k.xln], xln := k.xln + 1)])
    case Create(c) =>
      var k := s.clients[c];
      var rid := k.requests[0];
      var rest := s.clients[c := k.(requests := k.requests[1..])];
      s.(workers := s.workers[s.widx := Worker(true, c, rid)], widx := s.widx + 1,
         origin := s.origin[s.widx := (c, rid)], clients := Told(rest, c, s.widx, rid))
    case Enable(c, wid) =>
      var k := s.clients[c];
      s.(clients := s.clients[c := k.(subs := k.subs + multiset{wid})])
    case Disable(wid) =>
      if wid in s.workers then s.(clients := Unsubscribed(s.clients, wid)) else s
    case Announce(c, wid) =>
      s.(clients := Told(s.clients, c, wid, s.workers[wid].rid))
    case Mark(wid) =>
      var t := s.(pending := s.pending + [(wid, wid in s.workers)]);
      if wid in s.workers then
        t.(clients := Unsubscribed(s.clients, wid),
           workers := s.workers[wid := s.workers[wid].(enabled := false)])
      else t
    case Broadcast =>
      var (wid, existed) := s.pending[0];
      s.(pending := s.pending[1..], clients := TellAll(s.clients, Destroyed(wid, existed)))
    case Send(wid) => s.(clients := Paid(s.clients, wid))
    case Reap(wid) => s.(workers := s.workers - {wid})
    case Receive(c) =>
      var k := s.clients[c];
      s.(clients := s.clients[c := k.(view := Apply(k.view, k.log[k.seen]), seen := k.seen + 1)])
  }

  function Run(s: State, steps: seq<Step>): Option<State> {
    if steps == [] then Some(s) else
      var before := Run(s, steps[..|steps| - 1]);
      var step := steps[|steps| - 1];
      if before.Some? && Can(before.value, step) then Some(Do(before.value, step)) else None
  }

  /** LIST: these workers are announced, one a step. */
  function AnnounceAll(s: State, me: int, wids: seq<int>): (t: State)
    requires me in s.clients && forall i :: 0 <= i < |wids| ==> wids[i] in s.workers
    ensures t.workers == s.workers && t.clients.Keys == s.clients.Keys && t.widx == s.widx
  {
    if wids == [] then s else
      Do(AnnounceAll(s, me, wids[..|wids| - 1]), Announce(me, wids[|wids| - 1]))
  }

  /** The state before step i of a run. */
  ghost function StateAt(steps: seq<Step>, i: nat): State
    requires i <= |steps| && Run(Init(), steps).Some?
  {
    PrefixRuns(steps, i);
    Run(Init(), steps[..i]).value
  }

  lemma {:induction false} PrefixRuns(steps: seq<Step>, i: nat)
    requires i <= |steps| && Run(Init(), steps).Some?
    ensures Run(Init(), steps[..i]).Some?
    decreases |steps|
  {
    if i == |steps| {
      assert steps[..i] == steps;
    } else {
      PrefixRuns(steps[..|steps| - 1], i);
      assert steps[..|steps| - 1][..i] == steps[..i];
    }
  }

  lemma RunStep(s: State, before: seq<Step>, t: State, step: Step)
    requires Run(s, before) == Some(t) && Can(t, step)
    ensures Run(s, before + [step]) == Some(Do(t, step))
  {
    assert (before + [step])[..|before|] == before;
  }
}
