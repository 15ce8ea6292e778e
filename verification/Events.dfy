/** The event file: sent to clients from a ring buffer, gathered newest first, trimmed from the front. */
module EventLog {
  import opened Wire
  import opened CText
  import opened Files

  const NLE := 50

  // ---- output_events: the last records, through a ring buffer ----

  /** The last `n` elements. */
  function Last<T>(s: seq<T>, n: nat): seq<T> { if |s| <= n then s else s[|s| - n..] }

  lemma LastAt<T>(s: seq<T>, n: nat, i: nat)
    requires i < |Last(s, n)|
    ensures |Last(s, n)| == (if |s| <= n then |s| else n) && Last(s, n)[i] == s[|s| - |Last(s, n)| + i]
  {
  }

  /** Slot `j % NLE` holds record `j`, for the last NLE records. */
  ghost predicate Ring(le: seq<Bytes>, records: seq<Bytes>) {
    && |le| == NLE
    && forall j :: 0 <= j < |records| && |records| - NLE <= j ==> le[j % NLE] == records[j]
  }

  lemma RingPush(le: seq<Bytes>, records: seq<Bytes>, line: Bytes)
    requires Ring(le, records)
    ensures Ring(le[|records| % NLE := line], records + [line])
  {
    var n := |records|;
    forall j | 0 <= j < n && n + 1 - NLE <= j ensures j % NLE != n % NLE {
      assert 0 < n - j < NLE;
    }
  }

  lemma NextSlot(n: nat)
    ensures (n + 1) % NLE == if n % NLE + 1 >= NLE then 0 else n % NLE + 1
  {
  }

  /** Reads the whole file into the ring buffer. */
  method FillRing(le: array<Bytes>, file: DiskFile) returns (i: nat, nrec: nat)
    requires le.Length == NLE && file.pos == 0
    modifies le, file`pos
    ensures Ring(le[..], Chunks(file.data)) && nrec == |Chunks(file.data)| && i == nrec % NLE
  {
    ghost var seen: seq<Bytes>, rest := [], file.data;
    i, nrec := 0, 0;
    assert file.data[0..] == file.data && seen + Chunks(rest) == Chunks(file.data);
    var line := file.Gets();
    while line != []
      invariant file.pos <= |file.data| && line == Chunk(rest) && rest[|line|..] == file.data[file.pos..]
      invariant seen + Chunks(rest) == Chunks(file.data)
      invariant nrec == |seen| && i == nrec % NLE && Ring(le[..], seen)
      decreases |rest|
    {
      SeqAssoc(seen, [line], Chunks(rest[|line|..]));
      ghost var ring := le[..];
      RingPush(ring, seen, line);
      NextSlot(nrec);
      le[i] := line;
      assert le[..] == ring[i := line];
      seen, rest := seen + [line], rest[|line|..];
      nrec := nrec + 1;
      i := i + 1;
      if i >= NLE { i := 0; }
      line := file.Gets();
    }
    assert seen == seen + [];
  }

  /** The slot of the first record to send, and how many there are. */
  method FirstRecord(i: nat, nrec: nat) returns (first: nat, count: nat)
    requires i == nrec % NLE
    ensures count == (if nrec <= NLE then nrec else NLE) && first == (nrec - count) % NLE
  {
    if nrec > NLE {
      count := NLE;
      first := i - i / NLE * NLE;
      assert (nrec - NLE) % NLE == nrec % NLE;
    } else {
      count, first := nrec, 0;
    }
  }

  /** Sends the last records of the file; a record that starts with a terminator would end the session. */
  method OutputEvents(fd: Pipe, file: DiskFile) returns (stat: int)
    requires file.pos == 0
    modifies fd, file`pos
    ensures fd.healthy && Plain(file.data) ==>
              stat == 0 && fd.data == old(fd.data) + Session(Last(Chunks(file.data), 50))
  {
    var le := new Bytes[NLE](_ => []);
    ghost var last := Last(Chunks(file.data), NLE);
    var i, nrec := FillRing(le, file);
    i, nrec := FirstRecord(i, nrec);
    if Plain(file.data) { PlainChunks(file.data); }
    stat := SendRing(fd, le[..], i, nrec, Chunks(file.data));
    var rc := NetSend(fd, []);
    if rc < 0 { stat := -1; }
    SessionEnds(old(fd.data), last);
  }

  lemma SessionEnds(before: Bytes, ms: seq<Bytes>)
    ensures before + Frames(ms) + Frame([]) == before + Session(ms)
  {
  }

  lemma RingRecord(le: seq<Bytes>, all: seq<Bytes>, at: nat)
    requires Ring(le, all) && |all| - NLE <= at < |all|
    ensures AllPlain(all) ==> CStr(le[at % NLE]) == all[at]
    ensures at >= |all| - |Last(all, NLE)| ==>
              all[|all| - |Last(all, NLE)|..at] + [all[at]] == all[|all| - |Last(all, NLE)|..at + 1]
  {
    if AllPlain(all) { CStrPlain(all[at]); }
  }

  /** Sends the ring's records, oldest first. */
  method SendRing(fd: Pipe, le: seq<Bytes>, first: nat, nrec: nat, ghost all: seq<Bytes>) returns (stat: int)
    requires Ring(le, all) && nrec == |Last(all, NLE)| && first == (|all| - nrec) % NLE
    requires forall j :: 0 <= j < |all| ==> all[j] != []
    modifies fd
    ensures fd.healthy && AllPlain(all) ==> stat == 0 && fd.data == old(fd.data) + Frames(Last(all, NLE))
  {
    ghost var start: nat := |all| - nrec;
    ghost var at := start;
    var i := first;
    for j := 0 to nrec
      invariant at == start + j && i == at % NLE
      invariant fd.healthy && AllPlain(all) ==> fd.data == old(fd.data) + Frames(all[start..at])
    {
      RingRecord(le, all, at);
      NextSlot(at);
      var rc := SendNext(fd, CStr(le[i]), old(fd.data), all[start..at]);
      if rc <= 0 { return -1; }
      at := at + 1;
      i := i + 1;
      if i >= NLE { i := 0; }
    }
    assert all[start..] == all[start..at] == Last(all, NLE);
    stat := 0;
  }

  // ---- fetch_events: newest first ----

  function Reversed(ms: seq<Bytes>): seq<Bytes> {
    if ms == [] then [] else [ms[|ms| - 1]] + Reversed(ms[..|ms| - 1])
  }

  lemma {:induction false} ReversedAt(ms: seq<Bytes>, k: nat)
    requires k < |ms|
    ensures |Reversed(ms)| == |ms| && Reversed(ms)[k] == ms[|ms| - 1 - k]
    decreases |ms|
  {
    if |ms| > 1 { ReversedAt(ms[..|ms| - 1], if k > 0 then k - 1 else 0); }
  }

  /** The client's buffer of STATBUF bytes, always a terminated string. */
  class EventClient {
    const statbuf: array<byte>

    constructor ()
      ensures statbuf.Length == STATBUF && fresh(statbuf)
    {
      statbuf := new byte[STATBUF](_ => NUL);
    }

    ghost function Text(): Bytes
      reads statbuf
    {
      CStr(statbuf[..])
    }

    /** memmove up by the length of the message, then memcpy of the message. */
    method Insert(buf: array<byte>, len: nat)
      requires len < STATBUF == statbuf.Length && len <= buf.Length && buf != statbuf
      modifies statbuf
      ensures statbuf[..] == buf[..len] + old(statbuf[..])[..STATBUF - len]
    {
      ghost var was := statbuf[..];
      Memmove(statbuf, len, 0, STATBUF - len);
      ghost var moved := statbuf[len..len + (STATBUF - len)];
      assert moved == was[0..STATBUF - len];
      forall k | 0 <= k < len { statbuf[k] := buf[k]; }
      assert statbuf[..len] == buf[..len] && statbuf[len..] == moved;
    }

    /** Puts a message in front of the text; what no longer fits falls off the end. */
    method PutInFront(buf: array<byte>, n: nat)
      requires statbuf.Length == STATBUF && NUL in statbuf[..] && buf != statbuf
      requires n < buf.Length <= 500 && buf[n] == NUL
      modifies statbuf
      ensures NUL in statbuf[..]
      ensures Text() == Take(CStr(buf[..]) + old(Text()), STATBUF - 1)
    {
      ghost var was := statbuf[..];
      StringEnds(buf[..], n);
      var len := |CStr(buf[..])|;
      if len < STATBUF {
        Insert(buf, len);
      } else {
        assert false;
      }
      Terminate();
      Shifted(was, CStr(buf[..]), buf[..len] + was[..STATBUF - len]);
    }

    method Terminate()
      requires statbuf.Length == STATBUF
      modifies statbuf
      ensures statbuf[..] == old(statbuf[..])[STATBUF - 1 := NUL]
    {
      statbuf[STATBUF - 1] := NUL;
    }

    /** Terminates the message in its buffer and puts it in front. */
    method Gather(buf: array<byte>, n: nat, ghost seen: seq<Bytes>)
      requires statbuf.Length == STATBUF && NUL in statbuf[..] && buf != statbuf && n < buf.Length <= 500
      requires AllPlain(seen) ==> Text() == Take(Concat(Reversed(seen)), STATBUF - 1)
      modifies statbuf, buf
      ensures NUL in statbuf[..]
      ensures var now := seen + [old(buf[..n])];
              AllPlain(now) ==> Text() == Take(Concat(Reversed(now)), STATBUF - 1)
    {
      ghost var m := buf[..n];
      buf[n] := NUL;
      assert buf[..n] == m;
      PutInFront(buf, n);
      MessageInFront(seen, m, buf[..]);
    }

    method FetchEvents(fd: Pipe) returns (stat: int, ghost k: nat)
      requires statbuf.Length == STATBUF
      modifies statbuf, fd
      ensures var d := Decode(old(fd.data), 499);
              k <= |d.ms| && (AllPlain(d.ms[..k]) ==> Text() == Take(Concat(Reversed(d.ms[..k])), STATBUF - 1))
      ensures fd.healthy ==>
                var d := Decode(old(fd.data), 499);
                d.clean && AllPlain(d.ms) ==>
                  stat == 1 && Text() == Take(Concat(Reversed(d.ms)), STATBUF - 1) && fd.data == d.rest
    {
      statbuf[0] := NUL;
      assert NUL in statbuf[..] by { assert statbuf[..][0] == NUL; }
      var buf := new byte[500];
      ghost var d := Decode(fd.data, 499);
      ghost var seen: seq<Bytes>, here := [], fd.data;
      var n;
      MidwayStarts(here, 499);
      while true
        invariant NUL in statbuf[..]
        invariant Midway(d, seen, fd.data, 499)
        invariant AllPlain(seen) ==> Text() == Take(Concat(Reversed(seen)), STATBUF - 1)
        decreases |fd.data|
      {
        here := fd.data;
        n := NetRecv(fd, buf, 499);
        if n <= 0 { break; }
        ghost var m := buf[..n];
        Gather(buf, n, seen);
        MidwayOn(d, seen, here, 499, m);
        seen := seen + [m];
      }
      k := |seen|;
      assert d.ms[..k] == seen;
      if fd.healthy && d.clean { MidwayEnds(d, seen, here, 499); }
      stat := if n < 0 then 0 else 1;
    }
  }

  /** Cutting at every step keeps the same prefix as cutting once. */
  lemma MessageInFront(seen: seq<Bytes>, m: Bytes, buf: Bytes)
    requires |m| < |buf| && buf[..|m|] == m && buf[|m|] == NUL
    ensures AllPlain(seen + [m]) ==>
              AllPlain(seen) &&
              Take(CStr(buf) + Take(Concat(Reversed(seen)), STATBUF - 1), STATBUF - 1)
              == Take(Concat(Reversed(seen + [m])), STATBUF - 1)
  {
    if AllPlain(seen + [m]) {
      assert (seen + [m])[..|seen|] == seen && (seen + [m])[|seen|] == m;
      assert forall i :: 0 <= i < |seen| ==> seen[i] == (seen + [m])[i];
      CStrIs(buf, m);
      ConcatCons(m, Reversed(seen));
    }
  }

  lemma StringEnds(buf: Bytes, n: nat)
    requires n < |buf| && buf[n] == NUL
    ensures |CStr(buf)| <= n && buf[..|CStr(buf)|] == CStr(buf)
  {
    CStrEnds(buf);
    assert forall i :: 0 <= i < |CStr(buf)| ==> CStr(buf)[i] == buf[i];
  }

  /** Shifting a terminated string up by the length of a message and cutting it at the end of the buffer. */
  lemma Shifted(was: Bytes, msg: Bytes, now: Bytes)
    requires |was| == STATBUF && NUL in was && Plain(msg) && |msg| < STATBUF
    requires now == msg + was[..STATBUF - |msg|]
    ensures var end := now[STATBUF - 1 := NUL];
            NUL in end && CStr(end) == Take(msg + CStr(was), STATBUF - 1)
  {
    CStrEnds(was);
    var end, t, k := now[STATBUF - 1 := NUL], CStr(was), |msg|;
    assert end[STATBUF - 1] == NUL;
    if k + |t| <= STATBUF - 1 {
      assert k + |t| < STATBUF - 1 ==> end[k + |t|] == was[|t|];
      assert end[..k + |t|] == msg + t;
    } else {
      assert end[..STATBUF - 1] == (msg + t)[..STATBUF - 1];
    }
    CStrIs(end, Take(msg + t, STATBUF - 1));
  }

  lemma EventsArrive(file: Bytes)
    requires Plain(file)
    ensures var ms := Last(Chunks(file), NLE);
            AllPlain(ms) && Decode(Session(ms), 499) == Decoded(ms, [], true)
  {
    PlainChunks(file);
    var ms := Last(Chunks(file), NLE);
    SessionRoundTrip(ms, [], 499);
    assert Session(ms) + [] == Session(ms);
  }

  /** A whole exchange: whatever the sizes of the partial transfers, the client ends with the first
      4095 characters of the last 50 records, newest first. */
  method Exchange(file: DiskFile, client: EventClient, fd: Pipe) returns (stat: int)
    requires client.statbuf.Length == STATBUF && file.pos == 0 && Plain(file.data)
    requires fd.healthy && fd.data == []
    modifies client.statbuf, fd, file`pos
    ensures stat == 1 && fd.data == []
    ensures client.Text() == Take(Concat(Reversed(Last(Chunks(file.data), 50))), 4095)
  {
    EventsArrive(file.data);
    ghost var ms := Last(Chunks(file.data), NLE);
    assert [] + Session(ms) == Session(ms);
    var rc := OutputEvents(fd, file);
    assert fd.data == Session(ms);
    ghost var k;
    stat, k := client.FetchEvents(fd);
  }

  // ---- trim_eventfile ----

  /** What is left of a file trimmed to its last `maxb` bytes: what follows the first newline there. */
  function Trimmed(file: Bytes, maxb: nat): (r: Bytes)
    requires maxb <= |file|
  {
    var tail := file[|file| - maxb..];
    var k := FindNl(tail);
    if k == maxb then [] else tail[k + 1..]
  }

  /** `file[k..]` starts just after a newline, within the last `maxb` bytes. */
  predicate LineStart(file: Bytes, k: nat, maxb: nat) {
    |file| - maxb < k <= |file| && 0 < k && file[k - 1] == NL
  }

  lemma FirstNl(s: Bytes, k: nat)
    requires k < |s| && s[k] == NL
    ensures FindNl(s) <= k
  {
    assert forall i :: 0 <= i < FindNl(s) ==> s[..FindNl(s)][i] == s[i];
  }

  /** The new file is the longest end of the old one, shorter than the limit, that starts after a newline. */
  lemma TrimmedIsLongest(file: Bytes, maxb: nat)
    requires maxb <= |file|
    ensures var r := Trimmed(file, maxb);
            && |r| <= maxb && r == file[|file| - |r|..]
            && (r == [] || LineStart(file, |file| - |r|, maxb))
            && forall k: nat :: LineStart(file, k, maxb) ==> |file| - k <= |r|
  {
    var at := |file| - maxb;
    var tail := file[at..];
    var n := FindNl(tail);
    forall k: nat | LineStart(file, k, maxb) ensures |file| - k <= |Trimmed(file, maxb)| {
      FirstNl(tail, k - 1 - at);
    }
  }

  /** Only whole lines are dropped, and the kept ones stay as they are. */
  lemma TrimmedKeepsLines(file: Bytes, maxb: nat)
    requires maxb <= |file| && EndsInNl(file)
    ensures var r := Trimmed(file, maxb);
            Lines(file) == Lines(file[..|file| - |r|]) + Lines(r)
  {
    var r := Trimmed(file, maxb);
    TrimmedIsLongest(file, maxb);
    var head := file[..|file| - |r|];
    assert file == head + r;
    assert r == [] ==> head == file;
    LinesAppend(head, r);
  }

  function MaxBytes(eventfilemax: nat): nat { eventfilemax * 1024 }

  method ReadAll(file: DiskFile, buf: array<byte>) returns (nbytes: nat)
    requires file.pos + buf.Length == |file.data|
    modifies file`pos, buf
    ensures nbytes <= buf.Length && (file.healthy ==> nbytes == buf.Length)
    ensures buf[..nbytes] == file.data[old(file.pos)..][..nbytes]
  {
    ghost var tail := file.data[file.pos..];
    nbytes := 0;
    while nbytes < buf.Length
      invariant nbytes <= buf.Length && file.pos == old(file.pos) + nbytes
      invariant buf[..nbytes] == tail[..nbytes]
    {
      var r, got := file.Read(buf.Length - nbytes);
      if r <= 0 { break; }
      forall k | 0 <= k < r { buf[nbytes + k] := got[k]; }
      assert buf[..nbytes + r] == buf[..nbytes] + got;
      PrefixGrows(file.data, old(file.pos), nbytes, r);
      nbytes := nbytes + r;
    }
  }

  lemma PrefixGrows(s: Bytes, from: nat, n: nat, r: nat)
    requires from + n + r <= |s|
    ensures s[from..][..n + r] == s[from..][..n] + s[from + n..from + n + r]
  {
  }

  method SkipToFirstNewline(buf: array<byte>, nbytes: nat) returns (i: nat)
    requires nbytes <= buf.Length
    ensures var k := FindNl(buf[..nbytes]); i == if k < nbytes then k + 1 else nbytes
  {
    i := 0;
    while i < nbytes
      invariant i <= nbytes && NL !in buf[..i]
    {
      if buf[i] == NL {
        assert buf[..i] == buf[..nbytes][..i];
        FindNlIs(buf[..nbytes], i);
        return i + 1;
      }
      i := i + 1;
    }
  }

  method WriteAll(file: DiskFile, buf: array<byte>, start: nat, n: nat)
    requires start + n <= buf.Length && file.pos == |file.data| == 0
    modifies file
    ensures file.healthy ==> file.data == buf[start..start + n]
  {
    var i, nbytes := start, n;
    while nbytes > 0
      invariant 0 <= nbytes <= n && i + nbytes == start + n && file.pos == |file.data|
      invariant file.data == buf[start..i]
    {
      var r := file.Write(buf[i..i + nbytes]);
      if r <= 0 { break; }
      SliceGrows(buf[..], start, i, i + nbytes, r);
      i := i + r;
      nbytes := nbytes - r;
    }
  }

  lemma SliceGrows(s: Bytes, start: nat, i: nat, end: nat, r: nat)
    requires start <= i <= i + r <= end <= |s|
    ensures s[start..i] + s[i..end][..r] == s[start..i + r]
  {
  }

  method TrimEventFile(file: DiskFile, eventfilemax: nat, isOpen: bool) returns (status: int)
    modifies file
    ensures eventfilemax == 0 || !isOpen || |old(file.data)| <= eventfilemax * 1024 ==>
              status == 0 && file.data == old(file.data)
    ensures eventfilemax > 0 && isOpen && |old(file.data)| > eventfilemax * 1024 && file.healthy ==>
              status == 1 && file.data == Trimmed(old(file.data), eventfilemax * 1024 * 80 / 100)
  {
    if eventfilemax == 0 || !isOpen { return 0; }
    var maxb := MaxBytes(eventfilemax);
    if |file.data| <= maxb { return 0; }
    TrimTo(file, maxb * 80 / 100);
    status := 1;
  }

  /** Reads the end of the file, empties it, and writes back what follows the first newline. */
  method TrimTo(file: DiskFile, maxb: nat)
    requires maxb <= |file.data|
    modifies file
    ensures file.healthy ==> file.data == Trimmed(old(file.data), maxb)
  {
    ghost var tail := file.data[|file.data| - maxb..];
    var buf := new byte[maxb];
    file.pos := |file.data| - maxb;
    var nbytes := ReadAll(file, buf);
    var i := SkipToFirstNewline(buf, nbytes);
    nbytes := nbytes - i;
    file.pos, file.data := 0, [];
    WriteAll(file, buf, i, nbytes);
    if file.healthy { assert buf[..maxb] == tail && buf[i..i + nbytes] == tail[i..]; }
  }
}
