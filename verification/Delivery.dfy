/** From a worker's ring to the bytes its subscribers are sent. */
module Delivery {
  import opened ComplexNumbers
  import opened EndToEnd
  import opened PayloadFormat
  import opened Slots
  import opened XlateWorkerThread
  import Framing
  import Ring

  /** Samples as the floats they are stored as: real and imaginary parts in turn. */
  function Floats(y: seq<Complex>): (r: seq<real>)
    ensures |r| == 2 * |y|
    ensures forall i :: 0 <= i < |y| ==> r[2 * i] == y[i].re && r[2 * i + 1] == y[i].im
  {
    seq(2 * |y|, i requires 0 <= i < 2 * |y| => if i % 2 == 0 then y[i / 2].re else y[i / 2].im)
  }

  /** The writer serves a worker that has been through RunThread, up to the last frame it has published: every client
      is sent, frame by frame and in order, what the worker computed for each frame after sendCptr, in the format of
      each subscription. `ring` is the worker's ring, as floats; at most B - 1 frames wait in it. */
  method ServeThread(fd: Framing.Outgoing, subs: Subscriptions, wid: int, t: XlateWorker, ring: array<seq<real>>,
                     sendCptr: int, maxvals: seq<seq<real>>, float32: FloatBytes, ghost frames: seq<seq<Complex>>,
                     ghost garbage: seq<Complex>, ghost w: Ring.Worker)
    returns (cptr: int, ghost ms: seq<seq<Framing.byte>>)
    requires t.decim >= 1 && t.outbuf.Length >= 1 && Captured(frames, t.S) && |garbage| == t.S
    requires Publishes(t, frames, garbage, w) && w.start <= sendCptr <= t.lastWritten < sendCptr + t.outbuf.Length
    requires ring.Length == t.outbuf.Length && forall i :: 0 <= i < ring.Length ==> ring[i] == Floats(t.outbuf[i])
    requires fd.open && Int32(wid) && |maxvals| == t.lastWritten - sendCptr
    requires forall k :: 0 <= k < |maxvals| ==> Scalable(subs, wid, maxvals[k])
    requires forall i :: 0 <= i < ring.Length ==> 4 * |ring[i]| + HEADER_LEN <= Framing.INT_MAX
    modifies fd
    ensures cptr == t.lastWritten
    ensures Framing.Sendable(ms) && fd.open && fd.bytes == old(fd.bytes) + Framing.EncodeAll(ms)
    ensures |ms| == Place(t.lastWritten - sendCptr, |Wanted(subs, wid)|)
    ensures forall q :: 0 <= q < t.lastWritten - sendCptr ==>
              PacketAt(ms, Place(q, |Wanted(subs, wid)|), subs, wid,
                Floats(Content(t.P(), frames, garbage, w, t.settings, sendCptr + 1 + q)), maxvals[q], float32)
  {
    ghost var data := Unsent(t, frames, garbage, w, sendCptr);
    hide Content, PacketAt, Scalable, Wanted, Place, Framing.EncodeAll, Captured, SlotOf, Publishes;
    cptr, ms := DrainWorker(fd, subs, wid, ring, t.lastWritten, sendCptr, maxvals, float32, data);
  }

  /** The frames waiting to be sent are in their slots. */
  lemma Unsent(t: XlateWorker, frames: seq<seq<Complex>>, garbage: seq<Complex>, w: Ring.Worker, sendCptr: int)
    returns (data: seq<seq<real>>)
    requires t.decim >= 1 && t.outbuf.Length >= 1 && Captured(frames, t.S) && |garbage| == t.S
    requires Publishes(t, frames, garbage, w) && w.start <= sendCptr <= t.lastWritten < sendCptr + t.outbuf.Length
    ensures |data| == t.lastWritten - sendCptr
    ensures forall q :: 0 <= q < |data| ==>
              && data[q] == Floats(Content(t.P(), frames, garbage, w, t.settings, sendCptr + 1 + q))
              && data[q] == Floats(t.outbuf[SlotOf(t.outbuf.Length, sendCptr + 1 + q)])
  {
    hide Content, Captured, SlotOf;
    var n, out := t.lastWritten - sendCptr, t.outbuf[..];
    data := seq(n, q requires 0 <= q < n => Floats(out[SlotOf(|out|, sendCptr + 1 + q)]));
    forall q | 0 <= q < n
      ensures data[q] == Floats(Content(t.P(), frames, garbage, w, t.settings, sendCptr + 1 + q))
    {
      var k := sendCptr + 1 + q;
      assert out[SlotOf(|out|, k)] == Content(t.P(), frames, garbage, w, t.settings, k);
    }
  }
}
