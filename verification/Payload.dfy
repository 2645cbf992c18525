/** Payload messages: one finished packet of one worker, in the sample format a client asked for. */
module PayloadFormat {
  import opened Framing
  import opened Scaling
  import opened Slots
  import opened Wrappers

  const PAYLOAD := 256
  const HEADER_LEN := 20

  datatype Format = F32 | I16 | I8
  {
    function Code(): int {
      match this case F32 => 1 case I16 => 2 case I8 => 3
    }

    /** Bytes per float. */
    function Width(): nat {
      match this case F32 => 4 case I16 => 2 case I8 => 1
    }

    /** The largest integer of the format; F32 is not scaled. */
    function Limit(): (l: int)
      ensures l >= 1
    {
      match this case F32 => 1 case I16 => 32767 case I8 => 127
    }
  }

  /** The four bytes of a float. */
  type FloatBytes = f: real -> seq<byte> | forall t :: |f(t)| == 4 witness _ => [0, 0, 0, 0]

  predicate Int32(n: int) {
    -INT_MAX - 1 <= n <= INT_MAX
  }

  /** The fields of a payload header. */
  datatype Head = Head(wid: int, time: int, frameno: int, format: Format)
  {
    predicate Valid() {
      Int32(wid) && Int32(time) && Int32(frameno)
    }
  }

  function HeaderBytes(h: Head): (b: seq<byte>)
    requires h.Valid()
    ensures |b| == HEADER_LEN
  {
    Le32(PAYLOAD) + Le32(h.wid) + Le32(h.time) + Le32(h.frameno) + Le32(h.format.Code())
  }

  function Le16(q: int): (b: seq<byte>)
    ensures |b| == 2
  {
    var u: int := q % 0x1_0000;
    [u % 0x100, u / 0x100]
  }

  function Signed16(lo: byte, hi: byte): int {
    var u: int := lo as int + 0x100 * hi as int;
    if u >= 0x8000 then u - 0x1_0000 else u
  }

  function Signed8(b: byte): int {
    if b >= 0x80 then b as int - 0x100 else b as int
  }

  /** One float as it is written. */
  function SampleBytes(t: real, f: Format, maxval: real, float32: FloatBytes): (b: seq<byte>)
    requires f.F32? || 0.0 < maxval
    ensures |b| == f.Width()
  {
    match f
    case F32 => float32(t)
    case I16 => Le16(Quantise(t, maxval, 32767))
    case I8 => [Quantise(t, maxval, 127) % 0x100]
  }

  function Samples(floats: seq<real>, f: Format, maxval: real, float32: FloatBytes): (b: seq<byte>)
    requires f.F32? || 0.0 < maxval
    ensures |b| == |floats| * f.Width()
  {
    if floats == [] then [] else
      Samples(floats[..|floats| - 1], f, maxval, float32) + SampleBytes(floats[|floats| - 1], f, maxval, float32)
  }

  /** The whole message. */
  function Message(h: Head, floats: seq<real>, maxval: real, float32: FloatBytes): (m: seq<byte>)
    requires h.Valid() && (h.format.F32? || 0.0 < maxval)
    ensures |m| == HEADER_LEN + |floats| * h.format.Width()
  {
    HeaderBytes(h) + Samples(floats, h.format, maxval, float32)
  }

  /** The length the server announces, as it computes it from the byte length of the packet. */
  function DeclaredSize(len: nat, f: Format): nat {
    match f
    case F32 => HEADER_LEN + len
    case I16 => HEADER_LEN + len / 2
    case I8 => HEADER_LEN + len / 4
  }

  /** For all three formats the announced length is the number of bytes that follow. */
  lemma DeclaredIsWritten(h: Head, floats: seq<real>, maxval: real, float32: FloatBytes)
    requires h.Valid() && (h.format.F32? || 0.0 < maxval)
    ensures DeclaredSize(4 * |floats|, h.format) == |Message(h, floats, maxval, float32)|
  {
  }

  // ---- the server's side

  method SendMessage(fd: Outgoing, h: Head, floats: seq<real>, maxval: real, float32: FloatBytes)
    requires fd.open && h.Valid() && (h.format.F32? || 0.0 < maxval) && 4 * |floats| + HEADER_LEN <= INT_MAX
    modifies fd
    ensures fd.open && fd.bytes == old(fd.bytes) + Encode(Message(h, floats, maxval, float32))
  {
    hide Le32, HeaderBytes, SampleBytes;
    DeclaredIsWritten(h, floats, maxval, float32);
    var size := DeclaredSize(4 * |floats|, h.format);
    var ret := WriteN(fd, Le32(size));
    ret := WriteN(fd, HeaderBytes(h));
    ghost var start := fd.bytes;
    for i := 0 to |floats|
      invariant fd.open && fd.bytes == start + Samples(floats[..i], h.format, maxval, float32)
    {
      ret := WriteN(fd, SampleBytes(floats[i], h.format, maxval, float32));
      assert floats[..i + 1][..i] == floats[..i];
    }
    assert floats[..|floats|] == floats;
  }

  /** The subscriptions of one client: which worker, in which format. */
  type Subscriptions = seq<(int, Format)>

  /** What the server reads as the worker's maxval, subscription by subscription: it may change at any time. Only
      F32 is sent without dividing by it. */
  predicate Scalable(subs: Subscriptions, wid: int, maxvals: seq<real>) {
    |maxvals| == |subs| && forall i :: 0 <= i < |subs| && subs[i].0 == wid && subs[i].1 != F32 ==> 0.0 < maxvals[i]
  }

  /** The places of the subscriptions to a worker, in list order. */
  function Wanted(subs: Subscriptions, wid: int): (js: seq<nat>)
    ensures forall k :: 0 <= k < |js| ==> js[k] < |subs| && subs[js[k]].0 == wid
    ensures forall k, l :: 0 <= k < l < |js| ==> js[k] < js[l]
    ensures forall j :: 0 <= j < |subs| && subs[j].0 == wid ==> j in js
  {
    if subs == [] then [] else
      var n := |subs| - 1;
      Wanted(subs[..n], wid) + if subs[n].0 == wid then [n] else []
  }

  /** From place `at` on, these are the messages of one packet: one for each subscription to its worker, in list
      order, each in the format of its own subscription. */
  ghost predicate PacketAt(
    ms: seq<seq<byte>>, at: nat, subs: Subscriptions, wid: int, floats: seq<real>, maxvals: seq<real>,
    float32: FloatBytes)
    requires Int32(wid) && Scalable(subs, wid, maxvals)
  {
    var js := Wanted(subs, wid);
    && at + |js| <= |ms|
    && forall r :: 0 <= r < |js| ==>
         ms[at + r] == Message(Head(wid, 0, 0, subs[js[r]].1), floats, maxvals[js[r]], float32)
  }

  /** They are that and no more. */
  ghost predicate ThePacket(
    ms: seq<seq<byte>>, subs: Subscriptions, wid: int, floats: seq<real>, maxvals: seq<real>, float32: FloatBytes)
    requires Int32(wid)
  {
    && Scalable(subs, wid, maxvals)
    && |ms| == |Wanted(subs, wid)| && PacketAt(ms, 0, subs, wid, floats, maxvals, float32)
  }

  /** One more subscription. */
  lemma PacketNext(
    ms: seq<seq<byte>>, subs: Subscriptions, wid: int, floats: seq<real>, maxvals: seq<real>, float32: FloatBytes,
    i: nat)
    requires Int32(wid) && Scalable(subs, wid, maxvals) && i < |subs|
    requires ThePacket(ms, subs[..i], wid, floats, maxvals[..i], float32)
    ensures var (w, f) := subs[i];
            if w == wid then
              && (f != F32 ==> 0.0 < maxvals[i])
              && var m := Message(Head(wid, 0, 0, f), floats, maxvals[i], float32);
                 ThePacket(ms + [m], subs[..i + 1], wid, floats, maxvals[..i + 1], float32)
            else
              ThePacket(ms, subs[..i + 1], wid, floats, maxvals[..i + 1], float32)
  {
    hide Message;
    assert subs[..i + 1][..i] == subs[..i] && maxvals[..i + 1][..i] == maxvals[..i];
    assert forall j :: 0 <= j < i ==> subs[..i + 1][j] == subs[..i][j] && maxvals[..i + 1][j] == maxvals[..i][j];
  }

  lemma PacketStays(
    ms: seq<seq<byte>>, more: seq<seq<byte>>, at: nat, subs: Subscriptions, wid: int, floats: seq<real>,
    maxvals: seq<real>, float32: FloatBytes)
    requires Int32(wid) && Scalable(subs, wid, maxvals)
    ensures PacketAt(ms, at, subs, wid, floats, maxvals, float32) ==>
              PacketAt(ms + more, at, subs, wid, floats, maxvals, float32)
    ensures PacketAt(more, at, subs, wid, floats, maxvals, float32) ==>
              PacketAt(ms + more, |ms| + at, subs, wid, floats, maxvals, float32)
  {
    hide Message, Wanted, Scalable;
  }

  lemma {:induction false} EncodeAppend(a: seq<seq<byte>>, b: seq<seq<byte>>)
    requires Sendable(a) && Sendable(b)
    ensures Sendable(a + b) && EncodeAll(a + b) == EncodeAll(a) + EncodeAll(b)
  {
    hide Encode;
    if a == [] {
      assert a + b == b;
    } else {
      EncodeAppend(a[1..], b);
      assert (a + b)[1..] == a[1..] + b;
    }
  }

  lemma EncodeOne(m: seq<byte>)
    requires |m| <= INT_MAX
    ensures EncodeAll([m]) == Encode(m)
  {
    assert [m][1..] == [];
  }

  /** One more message of a packet. */
  method SendNext(fd: Outgoing, h: Head, floats: seq<real>, maxval: real, float32: FloatBytes,
                  ghost start: seq<byte>, ghost ms: seq<seq<byte>>)
    requires fd.open && h.Valid() && (h.format.F32? || 0.0 < maxval) && 4 * |floats| + HEADER_LEN <= INT_MAX
    requires Sendable(ms) && fd.bytes == start + EncodeAll(ms)
    modifies fd
    ensures var more := ms + [Message(h, floats, maxval, float32)];
            fd.open && Sendable(more) && fd.bytes == start + EncodeAll(more)
  {
    MessageShort(h, floats, maxval, float32);
    hide Message, Encode, EncodeAll;
    SendMessage(fd, h, floats, maxval, float32);
    EncodeNext(start, ms, Message(h, floats, maxval, float32));
  }

  lemma MessageShort(h: Head, floats: seq<real>, maxval: real, float32: FloatBytes)
    requires h.Valid() && (h.format.F32? || 0.0 < maxval) && 4 * |floats| + HEADER_LEN <= INT_MAX
    ensures |Message(h, floats, maxval, float32)| <= INT_MAX
  {
    DeclaredIsWritten(h, floats, maxval, float32);
    hide Message;
  }

  lemma EncodeNext(start: seq<byte>, ms: seq<seq<byte>>, m: seq<byte>)
    requires Sendable(ms) && |m| <= INT_MAX
    ensures Sendable(ms + [m]) && start + EncodeAll(ms) + Encode(m) == start + EncodeAll(ms + [m])
  {
    EncodeOne(m);
    EncodeAppend(ms, [m]);
    hide Encode, EncodeAll;
  }

  /** One packet to one client. */
  method SendPacket(fd: Outgoing, subs: Subscriptions, wid: int, floats: seq<real>, maxvals: seq<real>,
                    float32: FloatBytes)
    returns (willwait: bool, ghost ms: seq<seq<byte>>)
    requires fd.open && Int32(wid) && Scalable(subs, wid, maxvals) && 4 * |floats| + HEADER_LEN <= INT_MAX
    modifies fd
    ensures Sendable(ms) && fd.open && fd.bytes == old(fd.bytes) + EncodeAll(ms)
    ensures |ms| == |Wanted(subs, wid)| && PacketAt(ms, 0, subs, wid, floats, maxvals, float32)
    ensures willwait <==> forall j :: 0 <= j < |subs| ==> subs[j].0 != wid
  {
    assert |maxvals| == |subs|;
    hide Message, Encode, EncodeAll, ThePacket, Scalable;
    EncodeNone();
    willwait, ms := true, [];
    ghost var start := fd.bytes;
    NoPacketYet(subs, wid, floats, maxvals, float32);
    for i := 0 to |subs|
      invariant fd.open && Sendable(ms) && fd.bytes == start + EncodeAll(ms) && (willwait <==> ms == [])
      invariant ThePacket(ms, subs[..i], wid, floats, maxvals[..i], float32)
    {
      PacketNext(ms, subs, wid, floats, maxvals, float32, i);
      if subs[i].0 == wid {
        var h := Head(wid, 0, 0, subs[i].1);
        SendNext(fd, h, floats, maxvals[i], float32, start, ms);
        ms := ms + [Message(h, floats, maxvals[i], float32)];
        willwait := false;
      }
    }
    assert subs[..|subs|] == subs && maxvals[..|subs|] == maxvals;
    PacketMeans(ms, subs, wid, floats, maxvals, float32);
  }

  lemma NoPacketYet(subs: Subscriptions, wid: int, floats: seq<real>, maxvals: seq<real>, float32: FloatBytes)
    requires Int32(wid) && Scalable(subs, wid, maxvals)
    ensures ThePacket([], subs[..0], wid, floats, maxvals[..0], float32)
  {
  }

  lemma PacketMeans(
    ms: seq<seq<byte>>, subs: Subscriptions, wid: int, floats: seq<real>, maxvals: seq<real>, float32: FloatBytes)
    requires Int32(wid) && ThePacket(ms, subs, wid, floats, maxvals, float32)
    ensures |ms| == |Wanted(subs, wid)| && Scalable(subs, wid, maxvals)
    ensures PacketAt(ms, 0, subs, wid, floats, maxvals, float32)
    ensures ms == [] <==> forall j :: 0 <= j < |subs| ==> subs[j].0 != wid
  {
    hide PacketAt, Scalable;
    if ms != [] {
      assert subs[Wanted(subs, wid)[0]].0 == wid;
    }
  }

  lemma EncodeNone()
    ensures EncodeAll([]) == []
  {
  }

  /** Where the messages of packet q are, with m to a packet. */
  function Place(q: nat, m: nat): nat {
    q * m
  }

  /** The writer's loop over one worker, from its snapshot of the two counters; data[q] is frame sendCptr + 1 + q,
      which is in its slot as long as it has not been sent. All of them are sent, in order, each to every
      subscription, and nothing else. */
  method DrainWorker(fd: Outgoing, subs: Subscriptions, wid: int, ring: array<seq<real>>, lastWritten: int,
                     sendCptr: int, maxvals: seq<seq<real>>, float32: FloatBytes, ghost data: seq<seq<real>>)
    returns (cptr: int, ghost ms: seq<seq<byte>>)
    requires fd.open && Int32(wid) && ring.Length >= 1 && sendCptr <= lastWritten
    requires |maxvals| == lastWritten - sendCptr
    requires forall k :: 0 <= k < |maxvals| ==> Scalable(subs, wid, maxvals[k])
    requires forall i :: 0 <= i < ring.Length ==> 4 * |ring[i]| + HEADER_LEN <= INT_MAX
    requires |data| == lastWritten - sendCptr
    requires forall q :: 0 <= q < |data| ==> ring[SlotOf(ring.Length, sendCptr + 1 + q)] == data[q]
    modifies fd
    ensures cptr == lastWritten
    ensures Sendable(ms) && fd.open && fd.bytes == old(fd.bytes) + EncodeAll(ms)
    ensures |ms| == Place(lastWritten - sendCptr, |Wanted(subs, wid)|)
    ensures forall q :: 0 <= q < lastWritten - sendCptr ==>
              PacketAt(ms, Place(q, |Wanted(subs, wid)|), subs, wid, data[q], maxvals[q], float32)
  {
    hide EncodeAll, PacketAt, Scalable, Wanted;
    EncodeNone();
    cptr, ms := sendCptr, [];
    ghost var m := |Wanted(subs, wid)|;
    while lastWritten > cptr
      invariant sendCptr <= cptr <= lastWritten && fd.open
      invariant Sendable(ms) && fd.bytes == old(fd.bytes) + EncodeAll(ms)
      invariant |ms| == Place(cptr - sendCptr, m)
      invariant forall q :: 0 <= q < cptr - sendCptr ==>
                  PacketAt(ms, Place(q, m), subs, wid, data[q], maxvals[q], float32)
    {
      var bufptr := (cptr + 1) % ring.Length;
      assert bufptr == SlotOf(ring.Length, cptr + 1);
      var w, more := SendPacket(fd, subs, wid, ring[bufptr], maxvals[cptr - sendCptr], float32);
      EncodeAppend(ms, more);
      NextPlace(cptr - sendCptr, m);
      forall q | 0 <= q <= cptr - sendCptr
        ensures PacketAt(ms + more, Place(q, m), subs, wid, data[q], maxvals[q], float32)
      {
        PacketStays(ms, more, if q < cptr - sendCptr then Place(q, m) else 0, subs, wid, data[q],
          maxvals[q], float32);
      }
      ms := ms + more;
      cptr := cptr + 1;
    }
  }

  lemma NextPlace(q: nat, m: nat)
    ensures Place(0, m) == 0 && Place(q + 1, m) == Place(q, m) + m
  {
  }

  // ---- the client's side

  /** What a client makes of the samples: the bytes as they are, or rescaled numbers. */
  datatype Data = Raw(bytes: seq<byte>) | Numbers(values: seq<real>)

  function Shorts(d: seq<byte>): (v: seq<real>)
    requires |d| % 2 == 0
    ensures |v| == |d| / 2 && forall i :: 0 <= i < |v| ==> v[i] == Rescale(Signed16(d[2 * i], d[2 * i + 1]), 32767)
  {
    seq(|d| / 2, i requires 0 <= i < |d| / 2 => Rescale(Signed16(d[2 * i], d[2 * i + 1]), 32767))
  }

  function Bytes(d: seq<byte>): (v: seq<real>)
    ensures |v| == |d| && forall i :: 0 <= i < |v| ==> v[i] == Rescale(Signed8(d[i]), 127)
  {
    seq(|d|, i requires 0 <= i < |d| => Rescale(Signed8(d[i]), 127))
  }

  /** The channel data in a payload as the client takes it apart; None where it raises an exception, does not
      know the type or is given something else than channel data (a negative ID). */
  function Parse(m: seq<byte>): Option<(int, Data)> {
    if |m| < HEADER_LEN || FromLe32(m[..4]) != PAYLOAD then None else
      var wid, code, d := FromLe32(m[4..8]), FromLe32(m[16..20]), m[20..];
      if wid < 0 then None
      else if code == 1 then Some((wid, Raw(d)))
      else if code == 2 then
        if |d| % 2 != 0 then None else Some((wid, Numbers(Shorts(d))))
      else if code == 3 then
        Some((wid, Numbers(Bytes(d))))
      else None
  }

  lemma Signed16RoundTrip(q: int)
    requires -0x8000 <= q < 0x8000
    ensures Signed16(Le16(q)[0], Le16(q)[1]) == q
    ensures Le16(q)[0] as int + 0x100 * Le16(q)[1] as int == if q < 0 then q + 0x1_0000 else q
  {
    assert q % 0x1_0000 == if q < 0 then q + 0x1_0000 else q;
  }

  lemma Signed8RoundTrip(q: int)
    requires -0x80 <= q < 0x80
    ensures Signed8(q % 0x100) == q
  {
    assert q % 0x100 == if q < 0 then q + 0x100 else q;
  }

  /** Where the samples are. */
  lemma {:induction false} SampleAt(floats: seq<real>, f: Format, maxval: real, float32: FloatBytes, i: nat)
    requires (f.F32? || 0.0 < maxval) && i < |floats|
    ensures (i + 1) * f.Width() <= |Samples(floats, f, maxval, float32)|
    ensures Samples(floats, f, maxval, float32)[i * f.Width()..(i + 1) * f.Width()]
            == SampleBytes(floats[i], f, maxval, float32)
  {
    hide SampleBytes;
    var n, w := |floats| - 1, f.Width();
    var before := Samples(floats[..n], f, maxval, float32);
    assert |before| == n * w && (i + 1) * w == i * w + w;
    if i < n {
      SampleAt(floats[..n], f, maxval, float32, i);
      assert before[i * w..(i + 1) * w] == Samples(floats, f, maxval, float32)[i * w..(i + 1) * w];
    }
  }

  /** The fields of a header, where they are. */
  lemma HeaderParts(h: Head, rest: seq<byte>)
    requires h.Valid()
    ensures var m := HeaderBytes(h) + rest;
            && FromLe32(m[..4]) == 256 && FromLe32(m[4..8]) == h.wid
            && FromLe32(m[8..12]) == h.time && FromLe32(m[12..16]) == h.frameno
            && FromLe32(m[16..20]) == (match h.format case F32 => 1 case I16 => 2 case I8 => 3)
            && m[20..] == rest
  {
    var m := HeaderBytes(h) + rest;
    Le32RoundTrip(PAYLOAD);
    Le32RoundTrip(h.wid);
    Le32RoundTrip(h.time);
    Le32RoundTrip(h.frameno);
    Le32RoundTrip(h.format.Code());
    hide Le32, FromLe32;
    assert m[..4] == Le32(PAYLOAD);
    assert m[4..8] == Le32(h.wid);
    assert m[8..12] == Le32(h.time);
    assert m[12..16] == Le32(h.frameno);
    assert m[16..20] == Le32(h.format.Code());
  }

  /** The value a client gets for sample t. */
  predicate Recovers(v: real, t: real, maxval: real, L: int)
    requires 0.0 < maxval && L >= 1
  {
    -1.0 / L as real < v - t / maxval < 1.0 / L as real
  }

  /** What a client has of these samples: the bytes of each float in its place, or for every sample that fits the
      integer format the number sample/maxval to within one quantum, in its place. */
  ghost predicate Carries(d: Data, f: Format, floats: seq<real>, maxval: real, float32: FloatBytes)
    requires f.F32? || 0.0 < maxval
  {
    match f
    case F32 =>
      && d.Raw? && |d.bytes| == 4 * |floats|
      && forall i :: 0 <= i < |floats| ==> d.bytes[4 * i..4 * i + 4] == float32(floats[i])
    case I16 => CarriesNumbers(d, floats, maxval, 32767)
    case I8 => CarriesNumbers(d, floats, maxval, 127)
  }

  ghost predicate CarriesNumbers(d: Data, floats: seq<real>, maxval: real, L: int)
    requires 0.0 < maxval && L >= 1
  {
    && d.Numbers? && |d.values| == |floats|
    && forall i :: 0 <= i < |floats| && -L <= Quantise(floats[i], maxval, L) <= L ==>
         Recovers(d.values[i], floats[i], maxval, L)
  }

  /** For all three formats: the client gets the worker's ID and the samples. */
  lemma FrameRoundTrip(h: Head, floats: seq<real>, maxval: real, float32: FloatBytes)
    requires h.Valid() && h.wid >= 0 && (h.format.F32? || 0.0 < maxval)
    ensures var p := Parse(Message(h, floats, maxval, float32));
            p.Some? && p.value.0 == h.wid && Carries(p.value.1, h.format, floats, maxval, float32)
  {
    var d := Samples(floats, h.format, maxval, float32);
    assert h.format.I16? ==> |d| % 2 == 0;
    ParseParts(h, d);
    hide HeaderBytes, Parse, Samples, Carries, Shorts, Bytes;
    match h.format
    case F32 => BytesBack(floats, maxval, float32);
    case I16 => AllNumbersBack(floats, I16, maxval, float32);
    case I8 => AllNumbersBack(floats, I8, maxval, float32);
  }

  lemma ParseParts(h: Head, d: seq<byte>)
    requires h.Valid() && h.wid >= 0 && (h.format.I16? ==> |d| % 2 == 0)
    ensures Parse(HeaderBytes(h) + d)
            == Some((h.wid, if h.format.F32? then Raw(d) else Numbers(if h.format.I16? then Shorts(d) else Bytes(d))))
  {
    HeaderParts(h, d);
    hide HeaderBytes, FromLe32, Shorts, Bytes;
  }

  /** A client that reads what DrainWorker has written gets exactly those messages. */
  lemma DrainHeard(
    ms: seq<seq<byte>>, n: nat, subs: Subscriptions, wid: int, data: seq<seq<real>>,
    maxvals: seq<seq<real>>, float32: FloatBytes)
    requires 0 <= wid && Int32(wid) && |maxvals| == |data| == n && Sendable(ms)
    requires forall q :: 0 <= q < n ==> Scalable(subs, wid, maxvals[q])
    requires |ms| == Place(n, |Wanted(subs, wid)|)
    requires forall q :: 0 <= q < n ==>
               PacketAt(ms, Place(q, |Wanted(subs, wid)|), subs, wid, data[q], maxvals[q], float32)
    ensures Messages(EncodeAll(ms), MIN_REPLY, INT_MAX) == ms
  {
    hide Scalable, Wanted, Place, PacketAt, Messages, EncodeAll;
    forall k | 0 <= k < |ms| ensures Accepted(ms[k], MIN_REPLY, INT_MAX) {
      var q, r := WhichPacket(k, n, |Wanted(subs, wid)|);
      PacketHeard(ms, Place(q, |Wanted(subs, wid)|), subs, wid, data[q], maxvals[q], float32, r);
    }
    RoundTripExact(ms, MIN_REPLY, INT_MAX);
  }

  lemma WhichPacket(k: nat, n: nat, m: nat) returns (q: nat, r: nat)
    requires k < Place(n, m)
    ensures q < n && r < m && k == Place(q, m) + r
  {
    q, r := 0, k;
    while r >= m
      invariant q < n && k == Place(q, m) + r
      decreases r
    {
      if q + 1 == n || m == 0 {
        assert false;
      }
      NextPlace(q, m);
      q, r := q + 1, r - m;
    }
  }

  lemma BytesBack(floats: seq<real>, maxval: real, float32: FloatBytes)
    ensures Carries(Raw(Samples(floats, F32, maxval, float32)), F32, floats, maxval, float32)
  {
    var d := Samples(floats, F32, maxval, float32);
    forall i | 0 <= i < |floats| ensures d[4 * i..4 * i + 4] == float32(floats[i]) {
      SampleAt(floats, F32, maxval, float32, i);
    }
  }

  /** A client that reads the stream gets exactly the messages the writer sent, and the one for a subscription carries
      the packet in that subscription's format. */
  lemma PacketHeard(
    ms: seq<seq<byte>>, at: nat, subs: Subscriptions, wid: int, floats: seq<real>, maxvals: seq<real>,
    float32: FloatBytes, r: nat)
    requires 0 <= wid && Int32(wid) && Scalable(subs, wid, maxvals)
    requires PacketAt(ms, at, subs, wid, floats, maxvals, float32) && r < |Wanted(subs, wid)|
    ensures var p, j := Parse(ms[at + r]), Wanted(subs, wid)[r];
            p.Some? && p.value.0 == wid && Carries(p.value.1, subs[j].1, floats, maxvals[j], float32)
    ensures |ms[at + r]| >= MIN_REPLY
  {
    hide Message, Carries, Parse;
    var j := Wanted(subs, wid)[r];
    FrameRoundTrip(Head(wid, 0, 0, subs[j].1), floats, maxvals[j], float32);
  }

  lemma AllNumbersBack(floats: seq<real>, f: Format, maxval: real, float32: FloatBytes)
    requires 0.0 < maxval && !f.F32?
    ensures var d := Samples(floats, f, maxval, float32);
            Carries(Numbers(if f.I16? then Shorts(d) else Bytes(d)), f, floats, maxval, float32)
  {
    hide Samples, Rescale, Quantise, Recovers;
    forall i | 0 <= i < |floats| && -f.Limit() <= Quantise(floats[i], maxval, f.Limit()) <= f.Limit()
      ensures var d := Samples(floats, f, maxval, float32);
              Recovers((if f.I16? then Shorts(d) else Bytes(d))[i], floats[i], maxval, f.Limit())
    {
      NumberBack(floats, f, maxval, float32, i);
    }
  }

  lemma RecoversSample(t: real, maxval: real, L: int)
    requires 0.0 < maxval && L >= 1
    ensures Recovers(Rescale(Quantise(t, maxval, L), L), t, maxval, L)
  {
    RoundTrip(t, maxval, L);
  }

  lemma NumberBack(floats: seq<real>, f: Format, maxval: real, float32: FloatBytes, i: nat)
    requires 0.0 < maxval && !f.F32? && i < |floats|
    requires -f.Limit() <= Quantise(floats[i], maxval, f.Limit()) <= f.Limit()
    ensures var d := Samples(floats, f, maxval, float32);
            Recovers((if f.I16? then Shorts(d) else Bytes(d))[i], floats[i], maxval, f.Limit())
  {
    hide Recovers, Quantise, Rescale, Samples, Signed16, Signed8, Le16;
    RecoversSample(floats[i], maxval, f.Limit());
    if f.I16? {
      ShortAt(floats, maxval, float32, i);
      Signed16RoundTrip(Quantise(floats[i], maxval, 32767));
    } else {
      ByteAt(floats, maxval, float32, i);
      Signed8RoundTrip(Quantise(floats[i], maxval, 127));
    }
  }

  lemma ShortAt(floats: seq<real>, maxval: real, float32: FloatBytes, i: nat)
    requires 0.0 < maxval && i < |floats|
    ensures Samples(floats, I16, maxval, float32)[2 * i] == Le16(Quantise(floats[i], maxval, 32767))[0]
    ensures Samples(floats, I16, maxval, float32)[2 * i + 1] == Le16(Quantise(floats[i], maxval, 32767))[1]
  {
    SampleAt(floats, I16, maxval, float32, i);
    hide Samples, Quantise, Le16;
    var d := Samples(floats, I16, maxval, float32);
    assert d[2 * i..2 * i + 2] == Le16(Quantise(floats[i], maxval, 32767));
    assert d[2 * i] == d[2 * i..2 * i + 2][0] && d[2 * i + 1] == d[2 * i..2 * i + 2][1];
  }

  lemma ByteAt(floats: seq<real>, maxval: real, float32: FloatBytes, i: nat)
    requires 0.0 < maxval && i < |floats|
    ensures Samples(floats, I8, maxval, float32)[i] == Quantise(floats[i], maxval, 127) % 0x100
  {
    SampleAt(floats, I8, maxval, float32, i);
    hide Samples, Quantise;
    var d := Samples(floats, I8, maxval, float32);
    assert d[i..i + 1] == [Quantise(floats[i], maxval, 127) % 0x100];
    assert d[i] == d[i..i + 1][0];
  }
}
