/** Length-prefixed messages over a byte stream that arrives in pieces of any size. */
module Framing {

  type byte = x: int | 0 <= x < 256

  const INT_MAX := 0x7FFF_FFFF
  const MAX_REQUEST := 1024 * 1024  // the server takes messages of 1 .. MAX_REQUEST bytes
  const MIN_REPLY := 4  // the client takes messages that hold at least their type

  /** A 32-bit two's complement number, least significant byte first. */
  function Le32(n: int): (b: seq<byte>)
    requires -INT_MAX - 1 <= n <= INT_MAX
    ensures |b| == 4
  {
    var u: int := if n < 0 then n + 0x1_0000_0000 else n;
    var a: int := u / 0x100;
    var b: int := a / 0x100;
    [u % 0x100, a % 0x100, b % 0x100, b / 0x100]
  }

  function FromLe32(b: seq<byte>): (n: int)
    requires |b| == 4
    ensures -INT_MAX - 1 <= n <= INT_MAX
  {
    var u: int := b[0] as int + 0x100 * b[1] as int + 0x1_0000 * b[2] as int + 0x100_0000 * b[3] as int;
    if u > INT_MAX then u - 0x1_0000_0000 else u
  }

  lemma Le32RoundTrip(n: int)
    requires -INT_MAX - 1 <= n <= INT_MAX
    ensures FromLe32(Le32(n)) == n
  {
  }

  lemma Le32Value(n: int)
    requires -INT_MAX - 1 <= n <= INT_MAX
    ensures var b := Le32(n);
            b[0] as int + 0x100 * b[1] as int + 0x1_0000 * b[2] as int + 0x100_0000 * b[3] as int
            == if n < 0 then n + 0x1_0000_0000 else n
  {
  }

  /** A message as it is sent: its length, then its bytes. */
  function Encode(m: seq<byte>): seq<byte>
    requires |m| <= INT_MAX
  {
    Le32(|m|) + m
  }

  predicate Sendable(ms: seq<seq<byte>>) {
    forall m :: m in ms ==> |m| <= INT_MAX
  }

  function EncodeAll(ms: seq<seq<byte>>): seq<byte>
    requires Sendable(ms)
  {
    if ms == [] then [] else Encode(ms[0]) + EncodeAll(ms[1..])
  }

  /** The messages in a byte stream, up to the first length outside lo .. hi or the first incomplete message. */
  function Messages(b: seq<byte>, lo: int, hi: int): seq<seq<byte>>
    requires 1 <= lo
  {
    if |b| < 4 then [] else
      var n := FromLe32(b[..4]);
      if n < lo || n > hi || |b| < 4 + n then [] else [b[4..4 + n]] + Messages(b[4 + n..], lo, hi)
  }

  predicate Accepted(m: seq<byte>, lo: int, hi: int) {
    lo <= |m| <= hi
  }

  /** How many of the messages are complete within the first k bytes of their encoding. */
  function Complete(ms: seq<seq<byte>>, k: nat): (n: nat)
    ensures n <= |ms|
  {
    if ms == [] || k < 4 + |ms[0]| then 0 else 1 + Complete(ms[1..], k - 4 - |ms[0]|)
  }

  lemma FirstMessage(m: seq<byte>, rest: seq<byte>, lo: int, hi: int)
    requires 1 <= lo && |m| <= INT_MAX
    ensures Messages(Encode(m) + rest, lo, hi) == if Accepted(m, lo, hi) then [m] + Messages(rest, lo, hi) else []
  {
    var b := Encode(m) + rest;
    Le32RoundTrip(|m|);
    assert b[..4] == Le32(|m|);
    assert b[4..4 + |m|] == m;
    assert b[4 + |m|..] == rest;
  }

  lemma TruncatedMessage(m: seq<byte>, k: nat, lo: int, hi: int)
    requires 1 <= lo && |m| <= INT_MAX && k < 4 + |m|
    ensures Messages(Encode(m)[..k], lo, hi) == []
  {
    var b := Encode(m)[..k];
    if k >= 4 {
      Le32RoundTrip(|m|);
      assert b[..4] == Le32(|m|);
    }
  }

  /** A stream cut off after k bytes yields exactly the messages that are complete by then. */
  lemma {:induction false} TruncatedStream(ms: seq<seq<byte>>, k: nat, lo: int, hi: int)
    requires 1 <= lo && Sendable(ms) && k <= |EncodeAll(ms)|
    requires forall m :: m in ms ==> Accepted(m, lo, hi)
    ensures Messages(EncodeAll(ms)[..k], lo, hi) == ms[..Complete(ms, k)]
    decreases |ms|
  {
    hide Le32, FromLe32;
    if ms != [] {
      var first := Encode(ms[0]);
      if k < |first| {
        assert EncodeAll(ms)[..k] == first[..k];
        TruncatedMessage(ms[0], k, lo, hi);
      } else {
        TruncatedStream(ms[1..], k - |first|, lo, hi);
        OneMoreRead(ms, k, lo, hi);
      }
    }
  }

  lemma OneMoreRead(ms: seq<seq<byte>>, k: nat, lo: int, hi: int)
    requires 1 <= lo && ms != [] && Sendable(ms) && 4 + |ms[0]| <= k <= |EncodeAll(ms)| && Accepted(ms[0], lo, hi)
    ensures var rest := k - 4 - |ms[0]|;
            && rest <= |EncodeAll(ms[1..])|
            && Messages(EncodeAll(ms)[..k], lo, hi) == [ms[0]] + Messages(EncodeAll(ms[1..])[..rest], lo, hi)
            && ms[..Complete(ms, k)] == [ms[0]] + ms[1..][..Complete(ms[1..], rest)]
  {
    hide Le32, FromLe32, Messages;
    var rest := k - 4 - |ms[0]|;
    assert EncodeAll(ms)[..k] == Encode(ms[0]) + EncodeAll(ms[1..])[..rest];
    FirstMessage(ms[0], EncodeAll(ms[1..])[..rest], lo, hi);
  }

  /** What follows well-formed messages is read after them. */
  lemma {:induction false} ReadOn(ms: seq<seq<byte>>, rest: seq<byte>, lo: int, hi: int)
    requires 1 <= lo && Sendable(ms) && forall m :: m in ms ==> Accepted(m, lo, hi)
    ensures Messages(EncodeAll(ms) + rest, lo, hi) == ms + Messages(rest, lo, hi)
  {
    hide Encode, Messages;
    if ms == [] {
      assert EncodeAll(ms) + rest == rest;
    } else {
      ReadOn(ms[1..], rest, lo, hi);
      FirstMessage(ms[0], EncodeAll(ms[1..]) + rest, lo, hi);
      assert EncodeAll(ms) + rest == Encode(ms[0]) + (EncodeAll(ms[1..]) + rest);
    }
  }

  /** Reading stops for good at a length out of range and at a message that is cut off, and nowhere else. */
  lemma ReadingStops(rest: seq<byte>, lo: int, hi: int)
    requires 1 <= lo
    ensures Messages(rest, lo, hi) == [] <==>
              || |rest| < 4
              || !(lo <= FromLe32(rest[..4]) <= hi)
              || |rest| < 4 + FromLe32(rest[..4])
  {
    hide FromLe32;
  }

  lemma {:induction false} AllComplete(ms: seq<seq<byte>>)
    requires Sendable(ms)
    ensures Complete(ms, |EncodeAll(ms)|) == |ms|
  {
    if ms != [] {
      AllComplete(ms[1..]);
    }
  }

  lemma {:induction false} StopsAtRefused(ms: seq<seq<byte>>, lo: int, hi: int)
    requires 1 <= lo && Sendable(ms)
    requires exists m :: m in ms && !Accepted(m, lo, hi)
    ensures |Messages(EncodeAll(ms), lo, hi)| < |ms|
  {
    FirstMessage(ms[0], EncodeAll(ms[1..]), lo, hi);
    if Accepted(ms[0], lo, hi) {
      var m :| m in ms && !Accepted(m, lo, hi);
      assert m in ms[1..];
      StopsAtRefused(ms[1..], lo, hi);
    }
  }

  /** The whole stream yields exactly the messages sent if and only if every length lies in lo .. hi. */
  lemma RoundTripExact(ms: seq<seq<byte>>, lo: int, hi: int)
    requires 1 <= lo && Sendable(ms)
    ensures Messages(EncodeAll(ms), lo, hi) == ms <==> forall m :: m in ms ==> Accepted(m, lo, hi)
  {
    if forall m :: m in ms ==> Accepted(m, lo, hi) {
      TruncatedStream(ms, |EncodeAll(ms)|, lo, hi);
      AllComplete(ms);
      assert EncodeAll(ms)[..|EncodeAll(ms)|] == EncodeAll(ms);
    } else {
      StopsAtRefused(ms, lo, hi);
    }
  }

  /** The receiving end of a socket: what has been sent and not yet read. */
  class Incoming {
    var bytes: seq<byte>

    constructor (b: seq<byte>)
      ensures bytes == b
    {
      bytes := b;
    }

    /** read and recv: some of what is there, at least one byte unless nothing will ever come. */
    method Read(n: nat) returns (chunk: seq<byte>)
      modifies this
      ensures |chunk| <= n && old(bytes) == chunk + bytes
      ensures n > 0 && old(bytes) != [] ==> chunk != []
    {
      var most := if n < |bytes| then n else |bytes|;
      var j: nat;
      if most == 0 {
        j := 0;
      } else {
        j :| 1 <= j <= most;
      }
      chunk := bytes[..j];
      bytes := bytes[j..];
    }
  }

  /** Reads exactly n bytes into the buffer, or reports the end of the stream. */
  method ReadN(fd: Incoming, buf: array<byte>, n: nat) returns (ret: int)
    requires n <= buf.Length
    modifies fd, buf
    ensures |old(fd.bytes)| >= n ==> ret == n && buf[..n] == old(fd.bytes)[..n] && fd.bytes == old(fd.bytes)[n..]
    ensures |old(fd.bytes)| < n ==> ret == 0 && fd.bytes == []
  {
    var pos := 0;
    while pos < n
      invariant 0 <= pos <= n
      invariant old(fd.bytes) == buf[..pos] + fd.bytes
      decreases n - pos
    {
      var chunk := fd.Read(n - pos);
      if chunk == [] {
        return 0;
      }
      ghost var before := buf[..pos];
      forall i | 0 <= i < |chunk| {
        buf[pos + i] := chunk[i];
      }
      assert buf[..pos + |chunk|] == before + chunk;
      pos := pos + |chunk|;
    }
    return pos;
  }

  lemma NextMessage(b: seq<byte>, n: int, lo: int, hi: int)
    requires 1 <= lo <= n <= hi && 4 + n <= |b| && n == FromLe32(b[..4])
    ensures Messages(b, lo, hi) == [b[4..][..n]] + Messages(b[4..][n..], lo, hi)
  {
    assert b[4..][..n] == b[4..4 + n] && b[4..][n..] == b[4 + n..];
  }

  /** The server's loop over one client's stream: what is handed to the request parser. */
  method ReadRequests(fd: Incoming) returns (requests: seq<seq<byte>>)
    modifies fd
    ensures requests == Messages(old(fd.bytes), 1, 1024 * 1024)
  {
    hide FromLe32;
    requests := [];
    while true
      invariant Messages(old(fd.bytes), 1, MAX_REQUEST) == requests + Messages(fd.bytes, 1, MAX_REQUEST)
      decreases |fd.bytes|
    {
      ghost var b := fd.bytes;
      var header := new byte[4];
      var ret := ReadN(fd, header, 4);
      if ret <= 0 {
        break;
      }
      var size := FromLe32(header[..4]);
      if size <= 0 || size > MAX_REQUEST {
        break;
      }
      var buf := new byte[size];
      ret := ReadN(fd, buf, size);
      if ret < size {
        break;
      }
      NextMessage(b, size, 1, MAX_REQUEST);
      requests := requests + [buf[..size]];
    }
  }

  /** The client's exact read: everything asked for, or nothing once the stream has ended. */
  method GetData(sock: Incoming, want: int) returns (d: seq<byte>)
    modifies sock
    ensures 0 <= want <= |old(sock.bytes)| ==> d == old(sock.bytes)[..want] && sock.bytes == old(sock.bytes)[want..]
    ensures want < 0 || want > |old(sock.bytes)| ==> d == []
  {
    d := [];
    var remaining := want;
    while remaining > 0
      invariant old(sock.bytes) == d + sock.bytes
      invariant want >= 0 ==> 0 <= remaining == want - |d|
      invariant want < 0 ==> d == []
    {
      var r := sock.Read(if remaining < 4096 then remaining else 4096);
      if r == [] {
        return [];
      }
      remaining := remaining - |r|;
      d := d + r;
    }
  }

  /** The client's loop over the server's stream. It ends where the original raises "connection lost". */
  method ReadReplies(sock: Incoming) returns (replies: seq<seq<byte>>)
    modifies sock
    ensures replies == Messages(old(sock.bytes), 4, 0x7FFF_FFFF)
  {
    hide FromLe32;
    replies := [];
    while true
      invariant Messages(old(sock.bytes), MIN_REPLY, INT_MAX) == replies + Messages(sock.bytes, MIN_REPLY, INT_MAX)
      decreases |sock.bytes|
    {
      ghost var b := sock.bytes;
      var d := GetData(sock, 4);
      if |d| < 4 {
        break;
      }
      assert d[..4] == b[..4];
      var l := FromLe32(d[..4]);
      d := GetData(sock, l);
      if |d| < MIN_REPLY {
        break;
      }
      NextMessage(b, l, MIN_REPLY, INT_MAX);
      replies := replies + [d];
    }
  }

  /** The sending end of a socket: it may take any part of what it is given, or fail. */
  class Outgoing {
    var bytes: seq<byte>
    var open: bool

    constructor ()
      ensures bytes == [] && open
    {
      bytes, open := [], true;
    }

    method Write(data: seq<byte>) returns (j: int)
      modifies this
      ensures j <= |data| && open == old(open)
      ensures j > 0 ==> bytes == old(bytes) + data[..j]
      ensures j <= 0 ==> bytes == old(bytes)
      ensures open && data != [] ==> j > 0
    {
      if !open || data == [] {
        return -1;
      }
      j :| 1 <= j <= |data|;
      bytes := bytes + data[..j];
    }
  }

  /** Writes all n bytes, or a proper prefix of them once the connection fails. */
  method WriteN(fd: Outgoing, data: seq<byte>) returns (ret: int)
    modifies fd
    ensures fd.open == old(fd.open) && old(fd.bytes) <= fd.bytes <= old(fd.bytes) + data
    ensures ret == |data| <==> fd.bytes == old(fd.bytes) + data
    ensures fd.open ==> ret == |data|
  {
    var pos := 0;
    while pos < |data|
      invariant 0 <= pos <= |data| && fd.open == old(fd.open)
      invariant fd.bytes == old(fd.bytes) + data[..pos]
      decreases |data| - pos
    {
      var j := fd.Write(data[pos..]);
      if j <= 0 {
        return j;
      }
      assert data[..pos] + data[pos..][..j] == data[..pos + j];
      pos := pos + j;
    }
    return pos;
  }

  /** The client's sender: the length, then the message, for every message queued. */
  method SendAll(fd: Outgoing, ms: seq<seq<byte>>)
    requires fd.open && Sendable(ms)
    modifies fd
    ensures fd.bytes == old(fd.bytes) + EncodeAll(ms)
  {
    for i := 0 to |ms|
      invariant fd.open
      invariant fd.bytes + EncodeAll(ms[i..]) == old(fd.bytes) + EncodeAll(ms)
    {
      ghost var before := fd.bytes;
      var ret := WriteN(fd, Le32(|ms[i]|));
      ret := WriteN(fd, ms[i]);
      assert ms[i..][0] == ms[i] && ms[i..][1..] == ms[i + 1..];
      assert fd.bytes + EncodeAll(ms[i + 1..]) == before + (Encode(ms[i]) + EncodeAll(ms[i + 1..]));
    }
    assert ms[|ms|..] == [];
    assert fd.bytes + [] == fd.bytes;
  }
}
