/** The client object: its mirror of the server's workers, the requests it queues and the frames it passes on. */
module ClientObject {
  import opened PayloadFormat
  import opened Wrappers
  import CP = ControlPlane
  import Sq = Squelch

  /** What the client sends. */
  datatype Request =
    | CreateXlater(rid: int, rotate: real, decimation: int, history: int, taps: seq<real>)
    | EnableXlater(wid: int, format: Format)
    | DisableXlater(wid: int)

  /** The process fed by a channel: its queue, and whether its feeder thread is alive. */
  datatype Feeder = Feeder(alive: bool, queue: seq<Data>)

  datatype Xlater = Xlater(
    rotate: real,
    decimation: int,
    sql: bool,
    rid: int,  // -1 for None
    feeder: Option<Feeder>,
    save: Option<Data>)

  /** How process_payload ends. */
  datatype Outcome = NotRunning | FeederDead | Delivered | Raised

  class Client {
    var xlaters: map<int, Xlater>
    var xlaterQ: map<int, Xlater>
    var xln: nat
    var msgq: seq<Request>
    var autoEnable: bool
    var preferred: Format

    constructor ()
      ensures xlaters == map[] && xlaterQ == map[] && xln == 0 && msgq == [] && !autoEnable && preferred == F32
    {
      xlaters, xlaterQ, xln, msgq := map[], map[], 0, [];
      autoEnable, preferred := false, F32;
    }

    /** The part of the client the control plane speaks of. */
    ghost function View(): CP.View
      reads this
    {
      CP.View(map w | w in xlaters :: xlaters[w].rid, xlaterQ.Keys)
    }

    /** Queued xlaters know their own reference ID, and IDs are handed out in order. */
    ghost predicate Valid()
      reads this
    {
      forall r :: r in xlaterQ ==> 0 <= r < xln && xlaterQ[r].rid == r
    }

    /** Queues a request for a new channel and returns its reference ID. */
    method CreateXlater(rotate: real, decimation: int, taps: seq<real>, history: int) returns (rid: int)
      requires Valid()
      modifies `xlaterQ, `xln, `msgq
      ensures Valid() && rid == old(xln) && xln == old(xln) + 1
      ensures View() == CP.View(old(View()).xlaters, old(View()).queue + {rid})
      ensures msgq == old(msgq) + [Request.CreateXlater(rid, rotate, decimation, history, taps)]
      // the queued xlater already has its feeder, alive and empty; its squelch is off
      ensures xlaterQ == old(xlaterQ)[rid := Xlater(rotate, decimation, false, rid, Some(Feeder(true, [])), None)]
    {
      rid := xln;
      var pending := Xlater(rotate, decimation, false, xln, Some(Feeder(true, [])), None);
      xlaterQ := xlaterQ[xln := pending];
      msgq := msgq + [Request.CreateXlater(rid, rotate, decimation, history, taps)];
      xln := xln + 1;
    }

    /** A worker is running: known already, our own, or somebody else's. */
    method RunningXlater(wid: int, rid: int, rotate: real, decimation: int)
      requires Valid()
      modifies this
      ensures Valid() && xln == old(xln)
      ensures View() == CP.Apply(old(View()), CP.Running(wid, rid))
      ensures autoEnable == old(autoEnable) && preferred == old(preferred)
      // a known channel keeps its feeder, squelch and saved frame; the caller's own comes from the queue with its
      // feeder and is subscribed to if asked for; somebody else's has nothing. Only this channel changes.
      ensures wid in old(xlaters) ==>
                && xlaters == old(xlaters)[wid := old(xlaters)[wid].(rotate := rotate, decimation := decimation)]
                && xlaterQ == old(xlaterQ) && msgq == old(msgq)
      ensures wid !in old(xlaters) && rid in old(xlaterQ) ==>
                && xlaters == old(xlaters)[wid := old(xlaterQ)[rid].(rotate := rotate, decimation := decimation)]
                && xlaterQ == old(xlaterQ) - {rid}
                && msgq == if autoEnable then old(msgq) + [EnableXlater(wid, preferred)] else old(msgq)
      ensures wid !in old(xlaters) && rid !in old(xlaterQ) ==>
                && xlaters == old(xlaters)[wid := Xlater(rotate, decimation, false, -1, None, None)]
                && xlaterQ == old(xlaterQ) && msgq == old(msgq)
    {
      var xl := Xlater(0.0, 0, false, -1, None, None);
      if wid in xlaters {
        xl := xlaters[wid];
      } else if rid in xlaterQ {
        xl := xlaterQ[rid];
        if autoEnable {
          msgq := msgq + [EnableXlater(wid, preferred)];
        }
        xlaterQ := xlaterQ - {rid};
      }
      xl := xl.(rotate := rotate, decimation := decimation);
      xlaters := xlaters[wid := xl];
    }

    /** A worker is gone; its feeder is told to end. */
    method DestroyedXlater(wid: int) returns (ended: Option<seq<Data>>)
      requires Valid()
      modifies `xlaters
      ensures Valid()
      ensures View() == CP.Apply(old(View()), CP.Destroyed(wid, true))
      ensures xlaters == old(xlaters) - {wid}
      ensures ended == if wid in old(xlaters) && old(xlaters)[wid].feeder.Some?
                       then Some(old(xlaters)[wid].feeder.value.queue) else None
    {
      ended := None;
      if wid in xlaters {
        if xlaters[wid].feeder.Some? {
          ended := Some(xlaters[wid].feeder.value.queue);
        }
        xlaters := xlaters - {wid};
      }
    }

    /** Channel data: `open` is what the squelch callback says. */
    method ProcessPayload(wid: int, data: Data, open: bool) returns (outcome: Outcome)
      requires Valid()
      modifies `xlaters, `msgq
      ensures Valid() && View() == old(View())
      ensures outcome == NotRunning <==> wid !in old(xlaters)
      // a channel of another client has no feeder thread to ask
      ensures wid in old(xlaters) && old(xlaters)[wid].feeder.None? ==> outcome == Raised
      ensures outcome == FeederDead <==>
                && wid in old(xlaters) && old(xlaters)[wid].feeder.Some?
                && !old(xlaters)[wid].feeder.value.alive
      ensures outcome == FeederDead ==> msgq == old(msgq) + [DisableXlater(wid)]
      ensures outcome != FeederDead ==> msgq == old(msgq)
      ensures outcome != Delivered ==> xlaters == old(xlaters)
      ensures wid in old(xlaters) && old(xlaters)[wid].feeder.Some? && old(xlaters)[wid].feeder.value.alive ==>
                var x := old(xlaters)[wid];
                var e := Sq.Event(data, open);
                var g := Sq.Gate(x.feeder.value.queue, x.save);
                if x.sql then
                  && outcome == (if Sq.Step(g, e).Some? then Delivered else Raised)
                  && (outcome == Delivered ==> Passed(x, Sq.Step(g, e).value, old(xlaters), wid, xlaters))
                else
                  && outcome == Delivered
                  && xlaters == old(xlaters)[wid := x.(feeder := Some(Feeder(true, g.queue + [data])))]
    {
      if wid !in xlaters {
        return NotRunning;
      }
      var x := xlaters[wid];
      if x.feeder.None? {
        return Raised;
      }
      if !x.feeder.value.alive {
        msgq := msgq + [DisableXlater(wid)];
        return FeederDead;
      }
      var queue, save := x.feeder.value.queue, x.save;
      if x.sql {
        if open {
          if save.Some? {
            var truth := Sq.Truthiness(save.value);
            if truth == Sq.Raises {
              return Raised;
            }
            if truth == Sq.Yes {
              queue := queue + [save.value];
              save := None;
            }
          }
          queue := queue + [data];
        } else {
          save := Some(data);
        }
      } else {
        queue := queue + [data];
      }
      xlaters := xlaters[wid := x.(feeder := Some(Feeder(true, queue)), save := save)];
      return Delivered;
    }
  }

  /** Only channel `wid` has changed, and of it only the feeder queue and the frame held back. */
  ghost predicate Passed(x: Xlater, g: Sq.Gate, before: map<int, Xlater>, wid: int, after: map<int, Xlater>)
    requires x.feeder.Some?
  {
    after == before[wid := x.(feeder := Some(Feeder(true, g.queue)), save := g.save)]
  }

  /** Frames of one channel in a row, squelch on: the queue grows by exactly what the squelch should let
      through, and the call raises exactly where the squelch rule says so. */
  method ProcessAll(c: Client, wid: int, es: seq<Sq.Event>) returns (raised: bool)
    requires c.Valid() && wid in c.xlaters
    requires c.xlaters[wid].sql && c.xlaters[wid].save == None
    requires c.xlaters[wid].feeder.Some? && c.xlaters[wid].feeder.value.alive
    modifies c
    ensures c.Valid() && wid in c.xlaters && c.xlaters[wid].feeder.Some?
    ensures raised <==> !Sq.Playable(es)
    ensures !raised ==> c.xlaters[wid].feeder.value.queue == old(c.xlaters[wid].feeder.value.queue) + Sq.Replay(es)
  {
    ghost var start := Sq.Gate(c.xlaters[wid].feeder.value.queue, None);
    Sq.ReplayExact(start.queue, es);
    for i := 0 to |es|
      invariant c.Valid() && wid in c.xlaters && c.xlaters[wid].sql
      invariant c.xlaters[wid].feeder.Some? && c.xlaters[wid].feeder.value.alive
      invariant Sq.Steps(start, es[..i]) == Some(Sq.Gate(c.xlaters[wid].feeder.value.queue, c.xlaters[wid].save))
    {
      assert es[..i + 1][..i] == es[..i];
      var outcome := c.ProcessPayload(wid, es[i].data, es[i].open);
      if outcome == Raised {
        RaisedForGood(start, es, i);
        return true;
      }
    }
    assert es[..|es|] == es;
    return false;
  }

  lemma {:induction false} RaisedForGood(g: Sq.Gate, es: seq<Sq.Event>, i: nat)
    requires i < |es| && Sq.Steps(g, es[..i + 1]).None?
    ensures Sq.Steps(g, es).None?
    decreases |es|
  {
    if i + 1 == |es| {
      assert es[..i + 1] == es;
    } else {
      assert es[..|es| - 1][..i + 1] == es[..i + 1];
      RaisedForGood(g, es[..|es| - 1], i);
    }
  }
}
