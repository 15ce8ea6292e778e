/** The NIS framing: length-prefixed messages over partial sends and receives. */
module Wire {

  type byte = b: int | 0 <= b < 256
  type Bytes = seq<byte>

  /** The value of `(short)n`. */
  function Short(n: int): int { (n + 32768) % 65536 - 32768 }

  /** `htons((short)len)` as two bytes. */
  function Header(len: nat): Bytes { [len % 65536 / 256, len % 256] }

  function HeaderValue(h: Bytes): int
    requires |h| >= 2
  {
    Short(h[0] as int * 256 + h[1])
  }

  function Frame(m: Bytes): Bytes { Header(|m|) + m }

  function Concat(ms: seq<Bytes>): Bytes {
    if ms == [] then [] else Concat(ms[..|ms| - 1]) + ms[|ms| - 1]
  }

  function Frames(ms: seq<Bytes>): Bytes {
    if ms == [] then [] else Frame(ms[0]) + Frames(ms[1..])
  }

  /** What a sender puts on the wire: its messages, then a zero-length one. */
  function Session(ms: seq<Bytes>): Bytes { Frames(ms) + Frame([]) }

  // ---- what a receiver makes of a byte stream ----

  datatype Received =
    | Message(m: Bytes)
    | SoftEof      // length zero; a negative length ends the same way
    | TooLong
    | Starved      // the stream ends inside the frame

  /** How many bytes net_recv takes off the stream, and what it returns. */
  function Expect(data: Bytes, maxlen: nat): (r: (Received, nat))
    ensures r.1 <= |data|
    ensures !r.0.Starved? ==> r.1 >= 2
  {
    if |data| < 2 then (Starved, |data|)
    else
      var v := HeaderValue(data);
      if v > maxlen then (TooLong, 2)
      else if v <= 0 then (SoftEof, 2)
      else if |data| < 2 + v then (Starved, |data|)
      else (Message(data[2..2 + v]), 2 + v)
  }

  lemma HeaderRoundTrip(len: nat)
    ensures HeaderValue(Header(len)) == Short(len)
  {
    var q, u := len / 65536, len % 65536;
    assert len == 65536 * q + u;
    WholeTurns(q, u);
    assert u / 256 * 256 + u % 256 == u;
  }

  /** Neither the low byte nor the short sees multiples of 65536. */
  lemma {:induction false} WholeTurns(q: nat, u: nat)
    ensures (65536 * q + u) % 256 == u % 256 && Short(65536 * q + u) == Short(u)
  {
    if q > 0 {
      WholeTurns(q - 1, u);
      OneTurn(65536 * (q - 1) + u);
    }
  }

  lemma OneTurn(n: nat)
    ensures (n + 65536) % 256 == n % 256 && Short(n + 65536) == Short(n)
  {
  }

  /** A message survives framing exactly if it is neither empty nor longer than the receiver's limit
      or a signed short. */
  lemma FrameRoundTrip(m: Bytes, rest: Bytes, maxlen: nat)
    ensures Expect(Frame(m) + rest, maxlen) == (Message(m), 2 + |m|)
            <==> 1 <= |m| <= maxlen && |m| <= 32767
    ensures m == [] ==> Expect(Frame(m) + rest, maxlen) == (SoftEof, 2)
  {
    var data := Frame(m) + rest;
    HeaderRoundTrip(|m|);
    assert data[0] == Header(|m|)[0] && data[1] == Header(|m|)[1];
    assert HeaderValue(data) == Short(|m|);
    if |m| <= 32767 {
      assert data[2..2 + |m|] == m;
    } else {
      assert Short(|m|) < |m|;
    }
  }

  /** All messages up to the end of a session; `clean` if it ended in a soft EOF. */
  datatype Decoded = Decoded(ms: seq<Bytes>, rest: Bytes, clean: bool)

  function Decode(data: Bytes, maxlen: nat): Decoded
    decreases |data|
  {
    match Expect(data, maxlen)
    case (Message(m), n) =>
      var d := Decode(data[n..], maxlen);
      d.(ms := [m] + d.ms)
    case (SoftEof, n) => Decoded([], data[n..], true)
    case (_, n) => Decoded([], data[n..], false)
  }

  predicate Sendable(ms: seq<Bytes>, maxlen: nat) {
    forall i :: 0 <= i < |ms| ==> 1 <= |ms[i]| <= maxlen && |ms[i]| <= 32767
  }

  /** The receiver gets exactly the messages of a session, in order, then its end. */
  lemma {:induction false} SessionRoundTrip(ms: seq<Bytes>, rest: Bytes, maxlen: nat)
    requires Sendable(ms, maxlen)
    ensures Decode(Session(ms) + rest, maxlen) == Decoded(ms, rest, true)
    decreases |ms|
  {
    if ms == [] {
      FrameRoundTrip([], rest, maxlen);
      assert Session(ms) + rest == Frame([]) + rest;
      assert (Frame([]) + rest)[2..] == rest;
    } else {
      var tail := Session(ms[1..]) + rest;
      assert Session(ms) + rest == Frame(ms[0]) + tail;
      FrameRoundTrip(ms[0], tail, maxlen);
      assert (Frame(ms[0]) + tail)[2 + |ms[0]|..] == tail;
      SessionRoundTrip(ms[1..], rest, maxlen);
      assert [ms[0]] + ms[1..] == ms;
    }
  }

  /** A receiver that has `seen` some messages of what decodes to `d` has `data` before it. */
  predicate Midway(d: Decoded, seen: seq<Bytes>, data: Bytes, maxlen: nat) {
    var r := Decode(data, maxlen);
    d.ms == seen + r.ms && d.rest == r.rest && d.clean == r.clean
  }

  lemma MidwayStarts(data: Bytes, maxlen: nat)
    ensures Midway(Decode(data, maxlen), [], data, maxlen)
  {
    assert [] + Decode(data, maxlen).ms == Decode(data, maxlen).ms;
  }

  lemma MidwayOn(d: Decoded, seen: seq<Bytes>, data: Bytes, maxlen: nat, m: Bytes)
    requires Midway(d, seen, data, maxlen) && Expect(data, maxlen) == (Message(m), 2 + |m|)
    ensures Midway(d, seen + [m], data[2 + |m|..], maxlen)
  {
    var later := Decode(data[2 + |m|..], maxlen).ms;
    assert seen + ([m] + later) == seen + [m] + later;
  }

  /** When no message comes next, all of a clean session has been seen. */
  lemma MidwayEnds(d: Decoded, seen: seq<Bytes>, data: Bytes, maxlen: nat)
    requires Midway(d, seen, data, maxlen) && !Expect(data, maxlen).0.Message? && d.clean
    ensures Expect(data, maxlen).0.SoftEof? && d.ms == seen && d.rest == data[Expect(data, maxlen).1..]
  {
    assert seen + [] == seen;
  }

  lemma {:induction false} FramesAppend(ms: seq<Bytes>, m: Bytes)
    ensures Frames(ms + [m]) == Frames(ms) + Frame(m)
    decreases |ms|
  {
    if ms == [] {
      assert ms + [m] == [m] && [m][1..] == [];
    } else {
      assert (ms + [m])[0] == ms[0] && (ms + [m])[1..] == ms[1..] + [m];
      FramesAppend(ms[1..], m);
    }
  }

  lemma OneMoreFrame(before: Bytes, sent: seq<Bytes>, m: Bytes)
    ensures before + Frames(sent) + Frame(m) == before + Frames(sent + [m])
  {
    FramesAppend(sent, m);
  }

  // ---- one direction of a connection ----

  /** Bytes in flight.  A healthy pipe never fails, but passes any positive part of what it is given
      or asked for. */
  class Pipe {
    var data: Bytes
    const healthy: bool

    constructor (healthy: bool)
      ensures data == [] && this.healthy == healthy
    {
      data := [];
      this.healthy := healthy;
    }

    /** send(2): accepts some of `p`, or fails. */
    method Send(p: Bytes) returns (n: int)
      requires p != []
      modifies this
      ensures n <= |p| && (healthy ==> n > 0)
      ensures data == old(data) + if n > 0 then p[..n] else []
    {
      n :| -1 <= n <= |p| && (healthy ==> n > 0);
      if n > 0 { data := data + p[..n]; }
    }

    /** select(2) and recv(2): some of the bytes in flight, or end of file, timeout or error. */
    method Recv(want: nat) returns (n: int, got: Bytes)
      requires want > 0
      modifies this
      ensures n <= want && (healthy && old(data) != [] ==> n > 0)
      ensures if n > 0 then n <= |old(data)| && got == old(data)[..n] && data == old(data)[n..]
              else got == [] && data == old(data)
    {
      n :| -1 <= n <= want && n <= |data| && (healthy && data != [] ==> n > 0);
      got := if n > 0 then data[..n] else [];
      if n > 0 { data := data[n..]; }
    }
  }

  method WriteNBytes(fd: Pipe, p: Bytes) returns (rc: int)
    modifies fd
    ensures rc == |p| || rc <= 0
    ensures rc == |p| ==> fd.data == old(fd.data) + p
    ensures fd.healthy ==> rc == |p|
    ensures exists k :: 0 <= k <= |p| && fd.data == old(fd.data) + p[..k]
  {
    var nleft := |p|;
    while nleft > 0
      invariant 0 <= nleft <= |p|
      invariant fd.data == old(fd.data) + p[..|p| - nleft]
    {
      var at := |p| - nleft;
      var nwritten := fd.Send(p[at..]);
      if nwritten <= 0 { return nwritten; }
      assert p[..at] + p[at..][..nwritten] == p[..at + nwritten];
      nleft := nleft - nwritten;
    }
    rc := |p| - nleft;
    assert p[..|p|] == p;
  }

  /** Reads exactly `nbytes` bytes into the buffer unless the stream ends or fails. */
  method ReadNBytes(fd: Pipe, buf: array<byte>, nbytes: int) returns (rc: int)
    requires nbytes <= buf.Length
    modifies fd, buf
    ensures rc <= 0 || rc == nbytes
    ensures rc > 0 ==> nbytes <= |old(fd.data)| && buf[..nbytes] == old(fd.data)[..nbytes]
                       && fd.data == old(fd.data)[nbytes..]
    ensures nbytes <= 0 ==> rc == 0 && fd.data == old(fd.data)
    ensures fd.healthy && 0 < nbytes <= |old(fd.data)| ==> rc == nbytes
    ensures |old(fd.data)| < nbytes ==> rc <= 0 && (fd.healthy ==> fd.data == [])
    ensures nbytes > 0 ==> buf[nbytes..] == old(buf[nbytes..])
  {
    if nbytes <= 0 { return 0; }
    ghost var all := fd.data;
    var nleft := nbytes;
    while nleft > 0
      invariant 0 <= nleft <= nbytes && nbytes - nleft <= |all|
      invariant fd.data == all[nbytes - nleft..]
      invariant buf[..nbytes - nleft] == all[..nbytes - nleft]
      invariant buf[nbytes..] == old(buf[nbytes..])
    {
      var at := nbytes - nleft;
      var nread, got := fd.Recv(nleft);
      if nread <= 0 { return nread; }
      forall k | 0 <= k < nread { buf[at + k] := got[k]; }
      assert buf[..at] == all[..at];
      assert buf[..at + nread] == all[..at] + got;
      assert all[..at + nread] == all[..at] + all[at..][..nread];
      nleft := nleft - nread;
    }
    rc := nbytes - nleft;
  }

  method NetSend(fd: Pipe, m: Bytes) returns (rc: int)
    modifies fd
    ensures rc > 0 ==> rc == |m| && fd.data == old(fd.data) + Frame(m)
    ensures fd.healthy ==> rc == |m| && fd.data == old(fd.data) + Frame(m)
    ensures (rc > 0 || fd.healthy) && |m| <= 32767 ==>
              var at := |old(fd.data)|;
              && |fd.data| == at + 2 + |m| && fd.data[..at] == old(fd.data)
              && fd.data[at] as int * 256 + fd.data[at + 1] == |m| && fd.data[at + 2..] == m
  {
    rc := WriteNBytes(fd, Header(|m|));
    if rc <= 0 { return; }
    rc := WriteNBytes(fd, m);
    assert old(fd.data) + Header(|m|) + m == old(fd.data) + Frame(m);
    if |m| <= 32767 { FrameBytes(old(fd.data), m); }
  }

  /** Behind what was in flight: the length, its high byte first, and the message. */
  lemma FrameBytes(before: Bytes, m: Bytes)
    requires |m| <= 32767
    ensures var data, at := before + Frame(m), |before|;
            && |data| == at + 2 + |m| && data[..at] == before
            && data[at] as int * 256 + data[at + 1] == |m| && data[at + 2..] == m
  {
  }

  /** One more message of a session. */
  method SendNext(fd: Pipe, m: Bytes, ghost before: Bytes, ghost sent: seq<Bytes>) returns (rc: int)
    modifies fd
    ensures fd.healthy ==> rc == |m|
    ensures fd.healthy && old(fd.data) == before + Frames(sent) ==> fd.data == before + Frames(sent + [m])
  {
    rc := NetSend(fd, m);
    OneMoreFrame(before, sent, m);
  }

  method NetRecv(fd: Pipe, buf: array<byte>, maxlen: nat) returns (n: int)
    requires maxlen <= buf.Length && buf.Length >= 2
    modifies fd, buf
    ensures n > 0 ==> n <= maxlen && Expect(old(fd.data), maxlen) == (Message(buf[..n]), 2 + n)
                      && fd.data == old(fd.data)[2 + n..]
    ensures fd.healthy ==>
              match Expect(old(fd.data), maxlen)
              case (Message(m), k) => n == |m| && fd.data == old(fd.data)[k..]
              case (SoftEof, k) => n == 0 && fd.data == old(fd.data)[k..]
              case (TooLong, k) => n < 0 && fd.data == old(fd.data)[k..]
              case (Starved, _) => n <= 0
    ensures n > 0 ==>
              var data := old(fd.data);
              && |data| >= 2 + n && data[0] as int * 256 + data[1] == n && buf[..n] == data[2..2 + n]
    ensures fd.healthy && |old(fd.data)| >= 2 ==>
              var data := old(fd.data);
              var v := data[0] as int * 256 + data[1];
              && (1 <= v <= maxlen && v <= 32767 && |data| >= 2 + v ==>
                    n == v && buf[..v] == data[2..2 + v] && fd.data == data[2 + v..])
              && (maxlen < v <= 32767 ==> n < 0 && fd.data == data[2..])
              && (v == 0 || v > 32767 ==> n == 0 && fd.data == data[2..])
  {
    var pktsiz := new byte[2];
    n := ReadNBytes(fd, pktsiz, 2);
    if n <= 0 { return; }
    assert pktsiz[..2] == old(fd.data)[..2];
    assert pktsiz[0] == old(fd.data)[..2][0] && pktsiz[1] == old(fd.data)[..2][1];
    var size := HeaderValue(pktsiz[..]);
    if size > maxlen { return -22; }
    if size == 0 { return 0; }
    ghost var body := fd.data;
    n := ReadNBytes(fd, buf, size);
    if n > 0 { assert body[..n] == old(fd.data)[2..2 + n]; }
  }
}
