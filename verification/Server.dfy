/** The reader thread: one turn of its loop, with the baseband recorder inside it. */
module ReaderThread {
  import opened Slots

  const WRITE_FRAMES_SYNC := 2
  const NOT_RECORDING := -0x8000_0000

  /** How many frames one turn of the recorder writes when it starts at `rec`. */
  function Burst(sdr: int, rec: int): nat {
    if rec < sdr then WRITE_FRAMES_SYNC else 1
  }

  /** What the slots of n frames hold. */
  function Held<T>(ring: seq<T>, from: int, n: nat): seq<T>
    requires |ring| >= 1
  {
    seq(n, i requires 0 <= i < n => ring[SlotOf(|ring|, from + i)])
  }

  // ---- many turns

  /** How many of these turns find the gate open, when turn n finds the writer at acks[n]. */
  function Published(B: nat, sdr: int, acks: seq<int>): (n: nat)
    ensures n <= |acks|
  {
    if acks == [] then 0 else
      var before := Published(B, sdr, acks[..|acks| - 1]);
      if sdr + before + 1 - B <= acks[|acks| - 1] then before + 1 else before
  }

  /** How far the writer is after these turns. */
  function Ack(send: int, acks: seq<int>): int {
    if acks == [] then send else acks[|acks| - 1]
  }

  /** The writer never goes back, and never past the reader. */
  predicate Plausible(B: nat, sdr: int, send: int, acks: seq<int>) {
    acks == [] ||
    var before := acks[..|acks| - 1];
    Plausible(B, sdr, send, before) && Ack(send, before) <= acks[|acks| - 1] <= sdr + Published(B, sdr, before)
  }

  lemma {:induction false} PlausibleAt(B: nat, sdr: int, send: int, acks: seq<int>, n: nat)
    requires Plausible(B, sdr, send, acks) && n < |acks|
    ensures Ack(send, acks[..n]) <= acks[n] <= sdr + Published(B, sdr, acks[..n])
    decreases |acks|
  {
    if n < |acks| - 1 {
      PlausibleAt(B, sdr, send, acks[..|acks| - 1], n);
      assert acks[..|acks| - 1][..n] == acks[..n];
    }
  }

  /** The frames read at those turns, when frames[n] is what the radio has to offer at turn n. */
  function Taken<T>(B: nat, sdr: int, frames: seq<T>, acks: seq<int>): (t: seq<T>)
    requires |frames| == |acks|
    ensures |t| == Published(B, sdr, acks)
  {
    if acks == [] then [] else
      var n := |acks| - 1;
      var before := Taken(B, sdr, frames[..n], acks[..n]);
      if Published(B, sdr, acks) > |before| then before + [frames[n]] else before
  }

  /** Where the recorder is after these turns. */
  function RecAfter(B: nat, sdr: int, rec: int, stop: int, acks: seq<int>): (r: int)
    ensures r >= rec
  {
    if acks == [] then rec else
      var before := acks[..|acks| - 1];
      var r := RecAfter(B, sdr, rec, stop, before);
      if r <= stop then r + Burst(sdr + Published(B, sdr, before), r) else r
  }

  /** Whenever the recorder went to work, the frame it was at had been captured and was still in the ring. */
  predicate InTime(B: nat, sdr: int, rec: int, stop: int, acks: seq<int>) {
    acks == [] ||
    var before := acks[..|acks| - 1];
    var s, r := sdr + Published(B, sdr, before), RecAfter(B, sdr, rec, stop, before);
    InTime(B, sdr, rec, stop, before) && (r <= stop ==> s - B < r <= s)
  }

  /** The recorder has caught up with the reader, and the gate was closed on it. */
  predicate HeldBack(B: nat, sdr: int, rec: int, stop: int, acks: seq<int>) {
    && acks != []
    && RecAfter(B, sdr, rec, stop, acks) == sdr + Published(B, sdr, acks) + 1 <= stop
    && Published(B, sdr, acks) == Published(B, sdr, acks[..|acks| - 1])
  }

  /** A recorder started in range works in time, for any behaviour of the writer, if and only if no turn but the
      last leaves it caught up before a closed gate with more to record. It never falls behind. */
  lemma {:induction false} InTimeExact(B: nat, sdr: int, rec: int, stop: int, acks: seq<int>)
    requires B >= 2 && sdr - B < rec <= sdr
    ensures InTime(B, sdr, rec, stop, acks)
            <==> forall n :: 0 <= n < |acks| ==> !HeldBack(B, sdr, rec, stop, acks[..n])
    ensures InTime(B, sdr, rec, stop, acks) ==>
              var s, r := sdr + Published(B, sdr, acks), RecAfter(B, sdr, rec, stop, acks);
              && (r <= stop ==> s - B < r) && r <= s + 1 && r <= (if stop < rec then rec else stop + 2)
              && (r == s + 1 ==> HeldBack(B, sdr, rec, stop, acks) || r > stop)
  {
    if acks != [] {
      var before := acks[..|acks| - 1];
      InTimeExact(B, sdr, rec, stop, before);
      forall n | 0 <= n < |before| ensures before[..n] == acks[..n] {
      }
      assert before == acks[..|before|];
    }
  }

  /** While the gate stays open nothing holds it back: the lag falls by one a turn to zero. */
  lemma {:induction false} OpenGate(B: nat, sdr: int, rec: int, stop: int, acks: seq<int>)
    requires B >= 2 && sdr - B < rec <= sdr && Published(B, sdr, acks) == |acks|
    ensures InTime(B, sdr, rec, stop, acks)
    ensures RecAfter(B, sdr, rec, stop, acks) <= sdr + |acks|
    ensures RecAfter(B, sdr, rec, stop, acks) <= stop ==>
              sdr + |acks| - RecAfter(B, sdr, rec, stop, acks) == Lag(sdr - rec, |acks|)
    ensures sdr + |acks| - RecAfter(B, sdr, rec, stop, acks) < B || RecAfter(B, sdr, rec, stop, acks) > stop
  {
    if acks != [] {
      OpenGate(B, sdr, rec, stop, acks[..|acks| - 1]);
    }
  }

  /** One more turn. */
  lemma NextTurn<T>(B: nat, sdr: int, rec: int, stop: int, frames: seq<T>, acks: seq<int>, frame: T, ack: int)
    requires |frames| == |acks|
    ensures var p, q := Published(B, sdr, acks), Published(B, sdr, acks + [ack]);
            var r, t := RecAfter(B, sdr, rec, stop, acks), Taken(B, sdr, frames, acks);
            && q == (if sdr + p + 1 - B <= ack then p + 1 else p)
            && Taken(B, sdr, frames + [frame], acks + [ack]) == (if q > p then t + [frame] else t)
            && RecAfter(B, sdr, rec, stop, acks + [ack]) == (if r <= stop then r + Burst(sdr + p, r) else r)
            && (InTime(B, sdr, rec, stop, acks + [ack])
                <==> InTime(B, sdr, rec, stop, acks) && (r <= stop ==> sdr + p - B < r <= sdr + p))
  {
    hide Burst;
    assert (acks + [ack])[..|acks|] == acks && (frames + [frame])[..|acks|] == frames;
  }

  /** The reader has been through these turns since it had captured `start` and the recorder was at `rec`. */
  ghost predicate Ran<T>(
    B: nat, start: seq<T>, rec: int, stop: int, frames: seq<T>, acks: seq<int>, captured: seq<T>, r: int)
    requires |frames| == |acks|
  {
    captured == start + Taken(B, |start| - 1, frames, acks) && r == RecAfter(B, |start| - 1, rec, stop, acks)
  }

  /** And the file is right if the recorder worked in time. */
  ghost predicate Recorded<T>(
    B: nat, sdr: int, rec: int, stop: int, acks: seq<int>, captured: seq<T>, r: int, file: seq<T>)
  {
    && 0 <= rec
    && (acks == [] ==> file == [] && r == rec <= stop)
    && (InTime(B, sdr, rec, stop, acks) && acks != [] ==> rec <= r <= |captured| && file == captured[rec..r])
  }

  lemma RanNext<T>(
    B: nat, start: seq<T>, rec: int, stop: int, frames: seq<T>, acks: seq<int>, before: seq<T>, r: int, frame: T,
    ack: int, after: seq<T>, next: int)
    requires |frames| == |acks| && Ran(B, start, rec, stop, frames, acks, before, r)
    requires after == if |before| - B <= ack then before + [frame] else before
    requires next == if r <= stop then r + Burst(|before| - 1, r) else r
    ensures Ran(B, start, rec, stop, frames + [frame], acks + [ack], after, next)
  {
    NextTurn(B, |start| - 1, rec, stop, frames, acks, frame, ack);
    hide Taken, RecAfter, Burst, InTime;
  }

  lemma RecordedNext<T>(
    B: nat, start: seq<T>, rec: int, stop: int, frames: seq<T>, acks: seq<int>, before: seq<T>, r: int, written: seq<T>,
    ack: int, after: seq<T>, next: int, file: seq<T>)
    requires |frames| == |acks| && Ran(B, start, rec, stop, frames, acks, before, r) && before <= after
    requires Recorded(B, |start| - 1, rec, stop, acks, before, r, written)
    requires if r <= stop
             then |before| - 1 - B < r < |before| ==> r <= next <= |before| && file == written + before[r..next]
             else next == r && file == written
    ensures Recorded(B, |start| - 1, rec, stop, acks + [ack], after, next, file)
  {
    NextInTime(B, |start| - 1, rec, stop, frames, acks, ack);
    hide Taken, RecAfter, Burst, InTime;
    if InTime(B, |start| - 1, rec, stop, acks + [ack]) {
      assert rec <= r <= |before| && written == before[rec..r];
      SliceGrows(before, after, rec, r, next);
    }
  }

  lemma NextInTime<T>(B: nat, sdr: int, rec: int, stop: int, frames: seq<T>, acks: seq<int>, ack: int)
    requires |frames| == |acks|
    ensures InTime(B, sdr, rec, stop, acks + [ack]) <==>
              && InTime(B, sdr, rec, stop, acks)
              && var p, r := |Taken(B, sdr, frames, acks)|, RecAfter(B, sdr, rec, stop, acks);
                 (r <= stop ==> sdr + p - B < r <= sdr + p)
  {
    assert (acks + [ack])[..|acks|] == acks;
  }

  lemma SliceGrows<T>(before: seq<T>, after: seq<T>, i: int, j: int, k: int)
    requires 0 <= i <= j <= k <= |before| && before <= after
    ensures after[i..k] == before[i..j] + before[j..k]
  {
  }

  lemma NoTurn<T>(B: nat, sdr: int, rec: int, stop: int, frames: seq<T>)
    ensures frames[..0] == [] && Taken<T>(B, sdr, frames[..0], []) == []
    ensures Published(B, sdr, []) == 0 && RecAfter(B, sdr, rec, stop, []) == rec
  {
  }

  class SdrReader<T(0)> {
    const inbuf: array<T>
    var sdrCptr: int
    var sendCptr: int  // moved by the writer thread
    var recCptr: int
    var recStop: int
    ghost var captured: seq<T>  // every frame published so far
    ghost var file: seq<T>  // what has been appended to the recording

    ghost predicate Valid()
      reads this, inbuf
    {
      && inbuf.Length >= 2
      && -1 <= sendCptr <= sdrCptr <= sendCptr + inbuf.Length
      && |captured| == sdrCptr + 1
      && (recCptr == NOT_RECORDING || 0 <= recCptr)
      && forall k :: 0 <= k <= sdrCptr && sdrCptr - k < inbuf.Length ==> inbuf[SlotOf(inbuf.Length, k)] == captured[k]
    }

    constructor (bufsize: nat, blank: T)
      requires bufsize >= 2
      ensures Valid() && fresh(inbuf) && inbuf.Length == bufsize
      ensures sdrCptr == sendCptr == -1 && recCptr == NOT_RECORDING && captured == [] && file == []
    {
      inbuf := new T[bufsize](_ => blank);
      sdrCptr, sendCptr := -1, -1;
      recCptr, recStop := NOT_RECORDING, 0;
      captured, file := [], [];
    }

    predicate Recording()
      reads this
    {
      recCptr != NOT_RECORDING && recCptr <= recStop
    }

    /** A RECORD_START request for frames start .. stop; -1 asks for the current frame. Recording starts at the first
        frame, from the one asked for on, that exists and that the ring may still hold: the one asked for, if it
        is in range. It goes on until that frame has passed `stop`. */
    method RecordStart(start: int, stop: int)
      requires Valid()
      modifies `recCptr, `recStop, `file
      ensures Valid() && recStop == stop && file == []
      ensures var asked := if start == -1 then sdrCptr else start;
              && asked <= recCptr && 0 <= recCptr && sdrCptr - inbuf.Length <= recCptr
              && (recCptr == asked || recCptr == 0 || recCptr == sdrCptr - inbuf.Length)
      ensures Recording() <==> recCptr <= stop
    {
      recCptr := if start == -1 then sdrCptr else start;
      if recCptr < sdrCptr - inbuf.Length {
        recCptr := sdrCptr - inbuf.Length;
      }
      if recCptr < 0 {
        recCptr := 0;
      }
      recStop := stop;
      file := [];
    }

    method RecordStop()
      requires Valid()
      modifies `recCptr
      ensures Valid() && !Recording()
    {
      recCptr := NOT_RECORDING;
    }

    /** The writer thread has sent frames up to `upto`. */
    method Sent(upto: int)
      requires Valid() && sendCptr <= upto <= sdrCptr
      modifies `sendCptr
      ensures Valid() && sendCptr == upto
    {
      sendCptr := upto;
    }

    /** The recorder: up to two frames, fewer if it catches up with the reader. It writes whatever is in their
        slots; that is the captured frames if it works in time. */
    method WriteFrames()
      requires Valid() && Recording()
      modifies `recCptr, `file
      ensures Valid()
      ensures recCptr == old(recCptr) + Burst(sdrCptr, old(recCptr))
      ensures file == old(file) + Held(inbuf[..], old(recCptr), recCptr - old(recCptr))
      ensures sdrCptr - inbuf.Length < old(recCptr) <= sdrCptr ==>
                recCptr <= sdrCptr + 1 && file == old(file) + captured[old(recCptr)..recCptr]
    {
      for i := 0 to WRITE_FRAMES_SYNC
        invariant Valid() && recCptr == old(recCptr) + i && (i > 0 ==> recCptr <= sdrCptr)
        invariant file == old(file) + Held(inbuf[..], old(recCptr), i)
        invariant sdrCptr - inbuf.Length < old(recCptr) <= sdrCptr ==>
                    file == old(file) + captured[old(recCptr)..recCptr]
      {
        var p := inbuf[SlotOf(inbuf.Length, recCptr)];
        file := file + [p];
        assert Held(inbuf[..], old(recCptr), i + 1) == Held(inbuf[..], old(recCptr), i) + [p];
        if sdrCptr - inbuf.Length < old(recCptr) <= sdrCptr {
          assert captured[old(recCptr)..recCptr + 1] == captured[old(recCptr)..recCptr] + [captured[recCptr]];
        }
        recCptr := recCptr + 1;
        if recCptr > sdrCptr {
          break;
        }
      }
    }

    /** One turn of the loop. It returns false if the gate was closed: the writer is a whole ring behind. */
    method Turn(frame: T) returns (published: bool)
      requires Valid()
      modifies inbuf, `sdrCptr, `captured, `recCptr, `file
      ensures Valid()
      ensures published <==> old(sdrCptr) + 1 - inbuf.Length <= sendCptr
      ensures captured == if published then old(captured) + [frame] else old(captured)
      ensures sdrCptr == |captured| - 1 && |old(captured)| == old(sdrCptr) + 1
      ensures recCptr == if old(Recording()) then old(recCptr) + Burst(old(sdrCptr), old(recCptr)) else old(recCptr)
      ensures file == if old(Recording()) then old(file) + Held(old(inbuf[..]), old(recCptr), recCptr - old(recCptr))
                      else old(file)
      ensures old(Recording()) && old(sdrCptr) - inbuf.Length < old(recCptr) <= old(sdrCptr) ==>
                recCptr <= old(sdrCptr) + 1 && file == old(file) + old(captured)[old(recCptr)..recCptr]
    {
      if recCptr != NOT_RECORDING && recCptr <= recStop {
        WriteFrames();
      }
      if sendCptr < sdrCptr + 1 - inbuf.Length {
        return false;
      }
      var slot := SlotOf(inbuf.Length, sdrCptr + 1);
      OtherSlots(inbuf.Length, sdrCptr + 1);
      inbuf[slot] := frame;
      sdrCptr := sdrCptr + 1;
      captured := captured + [frame];
      return true;
    }

    lemma Facts()
      requires Valid()
      ensures inbuf.Length >= 2 && |captured| == sdrCptr + 1 && (recCptr == NOT_RECORDING || 0 <= recCptr)
    {
    }

    /** One more turn, with the writer at `ack`. */
    method NextLoop(frame: T, ack: int, ghost start: seq<T>, ghost rec: int, ghost frames: seq<T>, ghost acks: seq<int>)
      requires Valid() && sendCptr <= ack <= sdrCptr && recCptr != NOT_RECORDING && |frames| == |acks|
      requires Ran(inbuf.Length, start, rec, recStop, frames, acks, captured, recCptr)
      requires Recorded(inbuf.Length, |start| - 1, rec, recStop, acks, captured, recCptr, file)
      modifies inbuf, `sdrCptr, `sendCptr, `captured, `recCptr, `file
      ensures Valid() && sendCptr == ack && recCptr != NOT_RECORDING
      ensures Ran(inbuf.Length, start, rec, recStop, frames + [frame], acks + [ack], captured, recCptr)
      ensures Recorded(inbuf.Length, |start| - 1, rec, recStop, acks + [ack], captured, recCptr, file)
    {
      Facts();
      ghost var before, r, written := captured, recCptr, file;
      Sent(ack);
      var published := Turn(frame);
      Facts();
      hide *;
      RanNext(inbuf.Length, start, rec, recStop, frames, acks, before, r, frame, ack, captured, recCptr);
      RecordedNext(inbuf.Length, start, rec, recStop, frames, acks, before, r, written, ack, captured, recCptr, file);
    }

    /** The loop, whatever the writer does: acks says how far it is before each turn; frames is what the radio
        offers at each turn. If the recorder works in time, the file is the gap-free sequence of captured
        frames. */
    method Loop(frames: seq<T>, acks: seq<int>)
      requires Valid() && Recording() && file == [] && |frames| == |acks|
      requires Plausible(inbuf.Length, sdrCptr, sendCptr, acks)
      modifies inbuf, `sdrCptr, `sendCptr, `captured, `recCptr, `file
      ensures Valid() && recStop == old(recStop)
      ensures captured == old(captured) + Taken(inbuf.Length, old(sdrCptr), frames, acks)
      ensures recCptr == RecAfter(inbuf.Length, old(sdrCptr), old(recCptr), recStop, acks)
      ensures InTime(inbuf.Length, old(sdrCptr), old(recCptr), recStop, acks) && acks != [] ==>
                0 <= old(recCptr) <= recCptr <= |captured| && file == captured[old(recCptr)..recCptr]
    {
      Facts();
      hide SdrReader.Valid, Burst, Held, RecAfter, InTime, Taken, Published, Plausible;
      ghost var start, rec, stop, sdr, send := captured, recCptr, recStop, sdrCptr, sendCptr;
      NoTurn(inbuf.Length, sdr, rec, stop, frames);
      for n := 0 to |acks|
        invariant Valid() && recStop == stop && recCptr != NOT_RECORDING && sendCptr == Ack(send, acks[..n])
        invariant Ran(inbuf.Length, start, rec, stop, frames[..n], acks[..n], captured, recCptr)
        invariant Recorded(inbuf.Length, sdr, rec, stop, acks[..n], captured, recCptr, file)
      {
        assert acks[..n + 1] == acks[..n] + [acks[n]] && frames[..n + 1] == frames[..n] + [frames[n]];
        PlausibleAt(inbuf.Length, sdr, send, acks, n);
        Facts();
        NextLoop(frames[n], acks[n], start, rec, frames[..n], acks[..n]);
      }
      assert acks[..|acks|] == acks && frames[..|frames|] == frames;
    }
  }

  function Lag(start: int, turns: nat): int {
    if start <= turns then 0 else start - turns
  }

  lemma OtherSlots(B: nat, at: int)
    requires B >= 2 && at >= 0
    ensures forall k :: at - B < k < at && 0 <= k ==> SlotOf(B, k) != SlotOf(B, at)
  {
    forall k | at - B < k < at && 0 <= k ensures SlotOf(B, k) != SlotOf(B, at) {
      Distinct(B, k, at);
    }
  }
}
