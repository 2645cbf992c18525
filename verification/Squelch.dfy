/** The client's squelch: closed frames are held back one deep and replayed when it opens. */
module Squelch {
  import opened PayloadFormat
  import opened Wrappers

  /** A frame and whether the squelch was open when it came. */
  datatype Event = Event(data: Data, open: bool)

  /** What Python makes of `if data:` -- bytes are true unless empty; an array of several numbers raises. */
  datatype Truth = Yes | No | Raises

  function Truthiness(d: Data): Truth {
    match d
    case Raw(b) => if b == [] then No else Yes
    case Numbers(v) => if |v| > 1 then Raises else if |v| == 1 && v[0] != 0.0 then Yes else No
  }

  /** The feeder queue of a channel and the frame held back. */
  datatype Gate = Gate(queue: seq<Data>, save: Option<Data>)

  /** One frame; None when the original raises. */
  function Step(g: Gate, e: Event): Option<Gate> {
    if !e.open then Some(Gate(g.queue, Some(e.data)))
    else if g.save.None? then Some(Gate(g.queue + [e.data], None))
    else match Truthiness(g.save.value)
      case Yes => Some(Gate(g.queue + [g.save.value] + [e.data], None))
      case No => Some(Gate(g.queue + [e.data], g.save))
      case Raises => None
  }

  function Steps(g: Gate, es: seq<Event>): Option<Gate> {
    if es == [] then Some(g) else
      var before := Steps(g, es[..|es| - 1]);
      if before.None? then None else Step(before.value, es[|es| - 1])
  }

  /** Whether event i is an opening: open, right after a closed frame. */
  predicate Opening(es: seq<Event>, i: int) {
    1 <= i < |es| && es[i].open && !es[i - 1].open
  }

  /** A frame with nothing to replay: no bytes, no number, or a single zero. */
  predicate Blank(d: Data) {
    d == Raw([]) || d == Numbers([]) || d == Numbers([0.0])
  }

  predicate Several(d: Data) {
    d.Numbers? && |d.values| >= 2
  }

  /** The intended result: the open frames, each opening preceded by the closed frame just before it, unless that is
      blank. */
  function Replay(es: seq<Event>): seq<Data> {
    if es == [] then [] else
      var i := |es| - 1;
      var before := Replay(es[..i]);
      if !es[i].open then before
      else
        var held := if Opening(es, i) && !Blank(es[i - 1].data) then [es[i - 1].data] else [];
        before + held + [es[i].data]
  }

  /** No opening comes right after a frame of several numbers. */
  ghost predicate Playable(es: seq<Event>) {
    forall i :: Opening(es, i) ==> !Several(es[i - 1].data)
  }

  lemma PlayableLast(es: seq<Event>)
    requires es != []
    ensures Playable(es) <==> Playable(es[..|es| - 1])
                              && (Opening(es, |es| - 1) ==> !Several(es[|es| - 2].data))
  {
    var before := es[..|es| - 1];
    assert forall j :: Opening(before, j) ==> Opening(es, j) && before[j - 1] == es[j - 1];
    assert forall j :: Opening(es, j) && j < |es| - 1 ==> Opening(before, j) && before[j - 1] == es[j - 1];
  }

  /** What is held back after these events. */
  ghost predicate HeldBack(es: seq<Event>, save: Option<Data>) {
    if es != [] && !es[|es| - 1].open then save == Some(es[|es| - 1].data)
    else save.Some? ==> Blank(save.value)
  }

  /** Over every run with the squelch on throughout: the client never raises if and only if no opening comes
      right after a closed frame of more than one number (I16 and I8 frames are such arrays; F32 frames are
      bytes); and then what it queues is exactly the open frames, each opening preceded by the one closed
      frame before it. */
  lemma {:induction false} ReplayExact(q: seq<Data>, es: seq<Event>)
    ensures Steps(Gate(q, None), es).Some? <==> Playable(es)
    ensures Steps(Gate(q, None), es).Some? ==>
              && Steps(Gate(q, None), es).value.queue == q + Replay(es)
              && HeldBack(es, Steps(Gate(q, None), es).value.save)
  {
    if es != [] {
      var i := |es| - 1;
      var before := es[..i];
      ReplayExact(q, before);
      PlayableLast(es);
      if i > 0 {
        assert before[|before| - 1] == es[i - 1];
      }
    }
  }

  /** F32 frames never raise. If none is empty, every opening replays the frame before it: the queue holds the open
      frames and the frames before openings, all in the order in which they came. */
  lemma BytesReplayed(q: seq<Data>, es: seq<Event>)
    requires forall i :: 0 <= i < |es| ==> es[i].data.Raw? && es[i].data.bytes != []
    ensures Steps(Gate(q, None), es).Some?
    ensures Steps(Gate(q, None), es).value.queue == q + Datas(es, Passed(es))
    ensures forall i :: 0 <= i < |es| ==> (i in Passed(es) <==> es[i].open || (i + 1 < |es| && es[i + 1].open))
    ensures forall k, l :: 0 <= k < l < |Passed(es)| ==> Passed(es)[k] < Passed(es)[l]
  {
    ReplayExact(q, es);
    ReplayIsPassed(es);
    PassedMeans(es);
  }

  /** Frames of two or more numbers, as all I16 and I8 frames are that hold a sample: an opening after one raises. */
  lemma NumbersRaise(q: seq<Data>, es: seq<Event>, i: int)
    requires 1 <= i < |es| && es[i].open && !es[i - 1].open
    requires es[i - 1].data.Numbers? && |es[i - 1].data.values| >= 2
    ensures Steps(Gate(q, None), es).None?
  {
    ReplayExact(q, es);
    assert Opening(es, i);
  }

  /** So with integer formats (two floats to a sample) the client raises exactly if the squelch ever opens after it was
      closed. */
  lemma SamplesRaise(q: seq<Data>, es: seq<Event>, h: Head, fs: seq<seq<real>>, maxval: real, float32: FloatBytes)
    requires h.Valid() && h.wid >= 0 && !h.format.F32? && 0.0 < maxval && |fs| == |es|
    requires forall i :: 0 <= i < |es| ==>
               |fs[i]| >= 2 && Parse(Message(h, fs[i], maxval, float32)) == Some((h.wid, es[i].data))
    ensures Steps(Gate(q, None), es).None? <==> exists i :: 1 <= i < |es| && es[i].open && !es[i - 1].open
  {
    ReplayExact(q, es);
    hide Parse, Message, Steps;
    forall i | 0 <= i < |es| ensures Several(es[i].data) {
      FrameRoundTrip(h, fs[i], maxval, float32);
    }
    if exists i :: 1 <= i < |es| && es[i].open && !es[i - 1].open {
      var i :| 1 <= i < |es| && es[i].open && !es[i - 1].open;
      assert Opening(es, i);
    } else {
      assert forall i :: !Opening(es, i);
    }
  }

  // ---- which frames are let through

  /** The places of the open frames and of the frames right before openings. */
  function Passed(es: seq<Event>): (places: seq<nat>)
    ensures forall k :: 0 <= k < |places| ==> places[k] < |es|
  {
    if es == [] then [] else
      var i := |es| - 1;
      Passed(es[..i]) + (if Opening(es, i) then [i - 1] else []) + (if es[i].open then [i] else [])
  }

  function Datas(es: seq<Event>, places: seq<nat>): (ds: seq<Data>)
    requires forall k :: 0 <= k < |places| ==> places[k] < |es|
    ensures |ds| == |places| && forall k :: 0 <= k < |places| ==> ds[k] == es[places[k]].data
  {
    seq(|places|, k requires 0 <= k < |places| => es[places[k]].data)
  }

  lemma {:induction false} ReplayIsPassed(es: seq<Event>)
    requires forall i :: 0 <= i < |es| ==> !Blank(es[i].data)
    ensures Replay(es) == Datas(es, Passed(es))
  {
    if es != [] {
      var i := |es| - 1;
      var before := es[..i];
      ReplayIsPassed(before);
      hide Replay, Blank;
      var held := if Opening(es, i) then [es[i - 1].data] else [];
      var last := if es[i].open then [es[i].data] else [];
      assert Datas(es, Passed(es)) == Datas(before, Passed(before)) + held + last;
      ReplayLast(es);
    }
  }

  lemma ReplayLast(es: seq<Event>)
    requires es != [] && forall i :: 0 <= i < |es| ==> !Blank(es[i].data)
    ensures var i := |es| - 1;
            Replay(es) == Replay(es[..i]) + (if Opening(es, i) then [es[i - 1].data] else [])
                          + (if es[i].open then [es[i].data] else [])
  {
  }

  lemma {:induction false} PassedMeans(es: seq<Event>)
    ensures forall i :: 0 <= i < |es| ==> (i in Passed(es) <==> es[i].open || (i + 1 < |es| && es[i + 1].open))
    ensures forall k, l :: 0 <= k < l < |Passed(es)| ==> Passed(es)[k] < Passed(es)[l]
  {
    if es != [] {
      var n := |es| - 1;
      PassedMeans(es[..n]);
      var before, held := Passed(es[..n]), if Opening(es, n) then [n - 1] else [];
      var last := if es[n].open then [n] else [];
      assert Passed(es) == before + held + last;
      forall i | 0 <= i < |es| ensures i in Passed(es) <==> es[i].open || (i + 1 < |es| && es[i + 1].open) {
        assert i in Passed(es) <==> i in before || i in held || i in last;
        if i == n {
          assert i !in before && i !in held;
        } else {
          assert es[..n][i] == es[i] && (i + 1 < n ==> es[..n][i + 1] == es[i + 1]);
          assert i in before <==> es[i].open || (i + 1 < n && es[i + 1].open);
          assert i in held <==> i == n - 1 && Opening(es, n);
        }
      }
    }
  }
}
