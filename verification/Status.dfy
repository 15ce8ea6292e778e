/** The status report end to end: buffered by the server, sent line by line, gathered by the client. */
module Status {
  import opened Wire
  import opened CText

  const LARGEBUF := 4096

  /** `largebuf` as a C string, and the number of texts in it. */
  datatype Report = Report(body: Bytes, recs: nat)

  /** status_write: a text that would fill the buffer is dropped and not counted. */
  function Write(r: Report, text: Bytes): Report {
    var buf := Take(text, MAXSTRING - 1);
    if |r.body| + |buf| < LARGEBUF - 1 then Report(r.body + buf, r.recs + 1) else r
  }

  function WriteAll(texts: seq<Bytes>): Report {
    if texts == [] then Report([], 0) else Write(WriteAll(texts[..|texts| - 1]), texts[|texts| - 1])
  }

  /** Did the i-th text find room? */
  predicate Accepted(texts: seq<Bytes>, i: nat)
    requires i < |texts|
  {
    |WriteAll(texts[..i]).body| + |Take(texts[i], MAXSTRING - 1)| < LARGEBUF - 1
  }

  function AcceptedTexts(texts: seq<Bytes>): seq<Bytes> {
    if texts == [] then []
    else
      var n := |texts| - 1;
      AcceptedTexts(texts[..n]) + (if Accepted(texts, n) then [Take(texts[n], MAXSTRING - 1)] else [])
  }

  const TITLE: Bytes := [65, 80, 67, 32, 32, 32, 32, 32, 32, 58, 32]  // "APC      : "
  const STAT_REV := 1
  const COMMA: byte := 44

  /** "APC      : %03d,%03d,%04d\n" */
  function HeaderText(recs: nat, len: nat): Bytes {
    TITLE + Dec(STAT_REV, 3) + [COMMA] + Dec(recs, 3) + [COMMA] + Dec(len, 4) + [NL]
  }

  /** The first message of a report, in a buffer of MAXSTRING characters. */
  function HeaderMsg(r: Report): Bytes { Take(HeaderText(r.recs, |r.body|), MAXSTRING - 1) }

  /** Texts as output_status writes them: complete lines, also after the cut at 255 characters. */
  predicate WholeLines(text: Bytes) { Plain(text) && EndsInNl(Take(text, MAXSTRING - 1)) }

  predicate AllWhole(texts: seq<Bytes>) { forall i :: 0 <= i < |texts| ==> WholeLines(texts[i]) }

  /** The body is the concatenation of the accepted texts, counted, and stays under 4095 characters. */
  lemma {:induction false} BodyIsAccepted(texts: seq<Bytes>)
    ensures var r := WriteAll(texts);
            && r.body == Concat(AcceptedTexts(texts)) && r.recs == |AcceptedTexts(texts)|
            && |r.body| < 4095
    decreases |texts|
  {
    if texts != [] {
      var n := |texts| - 1;
      BodyIsAccepted(texts[..n]);
      var got := AcceptedTexts(texts[..n]);
      if Accepted(texts, n) {
        var t := Take(texts[n], MAXSTRING - 1);
        assert (got + [t])[..|got|] == got;
      } else {
        assert AcceptedTexts(texts) == got;
      }
    }
  }

  /** A text as far as a buffer of 256 characters takes it. */
  function Cut(texts: seq<Bytes>): seq<Bytes> {
    seq(|texts|, i requires 0 <= i < |texts| => if |texts[i]| <= 255 then texts[i] else texts[i][..255])
  }

  /** A report that stays under 4095 characters in all loses nothing. */
  lemma {:induction false} AllAccepted(texts: seq<Bytes>)
    requires |Concat(Cut(texts))| < 4095
    ensures AcceptedTexts(texts) == Cut(texts)
    decreases |texts|
  {
    if texts != [] {
      var n := |texts| - 1;
      assert Cut(texts)[..n] == Cut(texts[..n]);
      AllAccepted(texts[..n]);
      BodyIsAccepted(texts[..n]);
    }
  }

  /** Every line of the report is a short plain line, and the lines make up the whole body. */
  lemma {:induction false} LinesOfBody(texts: seq<Bytes>)
    requires AllWhole(texts)
    ensures var r := WriteAll(texts);
            && Plain(r.body) && (r.body == [] || EndsInNl(r.body))
            && Concat(Lines(r.body)) == r.body
            && ShortLines(Lines(r.body))
    decreases |texts|
  {
    if texts != [] {
      var n := |texts| - 1;
      LinesOfBody(texts[..n]);
      MoreLines(WriteAll(texts[..n]).body, Take(texts[n], MAXSTRING - 1));
    }
    LinesConcat(WriteAll(texts).body);
  }

  predicate ShortLines(ls: seq<Bytes>) {
    forall i :: 0 <= i < |ls| ==> 1 <= |ls[i]| < MAXSTRING && Plain(ls[i])
  }

  lemma MoreLines(body: Bytes, t: Bytes)
    requires Plain(body) && (body == [] || EndsInNl(body)) && ShortLines(Lines(body))
    requires Plain(t) && EndsInNl(t) && |t| < MAXSTRING
    ensures Plain(body + t) && EndsInNl(body + t) && ShortLines(Lines(body + t))
  {
    LinesAppend(body, t);
    LinesAreShort(t);
    ShortConcat(Lines(body), Lines(t));
  }

  lemma LinesAreShort(t: Bytes)
    requires Plain(t) && |t| < MAXSTRING
    ensures ShortLines(Lines(t))
  {
    LinesShape(t);
  }

  lemma ShortConcat(a: seq<Bytes>, b: seq<Bytes>)
    requires ShortLines(a) && ShortLines(b)
    ensures ShortLines(a + b)
  {
  }

  class StatusServer {
    var largebuf: Bytes
    var statRecs: nat

    ghost function View(): Report
      reads this
    {
      Report(largebuf, statRecs)
    }

    constructor ()
    {
      largebuf, statRecs := [], 0;
    }

    method Open()
      modifies this
      ensures View() == WriteAll([])
    {
      largebuf, statRecs := [], 0;
    }

    method WriteText(text: Bytes)
      modifies this
      ensures View() == Write(old(View()), text)
      ensures var buf := if |text| <= 255 then text else text[..255];
              if |old(largebuf)| + |buf| < 4095
              then largebuf == old(largebuf) + buf && statRecs == old(statRecs) + 1
              else largebuf == old(largebuf) && statRecs == old(statRecs)
    {
      var buf := Take(text, MAXSTRING - 1);
      if |largebuf| + |buf| < LARGEBUF - 1 {
        largebuf := largebuf + buf;
        statRecs := statRecs + 1;
      }
    }

    /** Sends the header and the complete lines, then the end marker. */
    method Close(fd: Pipe) returns (rc: int)
      modifies fd
      ensures fd.healthy ==>
                rc == 0 && fd.data == old(fd.data) + Session([HeaderMsg(View())] + Lines(largebuf))
    {
      ghost var head := HeaderMsg(View());
      rc := NetSend(fd, Take(HeaderText(statRecs, |largebuf|), MAXSTRING - 1));
      if rc <= 0 { return -1; }
      SendLines(fd);
      rc := NetSend(fd, []);
      rc := if rc < 0 then -1 else 0;
      SessionParts(head, Lines(largebuf), old(fd.data));
    }

    /** Two pointers run through the buffer; each newline sends the line it ends. */
    method SendLines(fd: Pipe)
      modifies fd
      ensures fd.healthy ==> fd.data == old(fd.data) + Frames(Lines(largebuf))
    {
      ghost var sent: seq<Bytes> := [];
      var sptr, eptr, i := 0, 0, |largebuf|;
      ScanIsLines(largebuf, 0, 0);
      assert largebuf[0..] == largebuf;
      while i > 0
        invariant 0 <= i <= |largebuf| && 0 <= sptr <= eptr == |largebuf| - i
        invariant sent + Scan(largebuf, sptr, eptr) == Lines(largebuf)
        invariant fd.healthy ==> fd.data == old(fd.data) + Frames(sent)
      {
        ScanOn(largebuf, sptr, eptr, sent);
        if largebuf[eptr] == NL {
          eptr := eptr + 1;
          var line := largebuf[sptr..eptr];
          var rc := SendNext(fd, line, old(fd.data), sent);
          if rc <= 0 { return; }
          sent := sent + [line];
          sptr := eptr;
        } else {
          eptr := eptr + 1;
        }
        i := i - 1;
      }
      assert sent + [] == sent;
    }
  }

  /** The lines still to come when the scan is at `eptr` and the current line began at `sptr`. */
  function Scan(buf: Bytes, sptr: nat, eptr: nat): seq<Bytes>
    requires sptr <= eptr <= |buf|
    decreases |buf| - eptr
  {
    if eptr == |buf| then []
    else if buf[eptr] == NL then [buf[sptr..eptr + 1]] + Scan(buf, eptr + 1, eptr + 1)
    else Scan(buf, sptr, eptr + 1)
  }

  /** A newline moves one line from those to come to those sent; another character moves none. */
  lemma ScanOn(buf: Bytes, sptr: nat, eptr: nat, sent: seq<Bytes>)
    requires sptr <= eptr < |buf|
    ensures sent + Scan(buf, sptr, eptr) ==
              if buf[eptr] == NL then sent + [buf[sptr..eptr + 1]] + Scan(buf, eptr + 1, eptr + 1)
              else sent + Scan(buf, sptr, eptr + 1)
  {
    if buf[eptr] == NL { SeqAssoc(sent, [buf[sptr..eptr + 1]], Scan(buf, eptr + 1, eptr + 1)); }
  }

  lemma {:induction false} ScanIsLines(buf: Bytes, sptr: nat, eptr: nat)
    requires sptr <= eptr <= |buf| && NL !in buf[sptr..eptr]
    ensures Scan(buf, sptr, eptr) == Lines(buf[sptr..])
    decreases |buf| - eptr
  {
    if eptr == |buf| {
      assert buf[sptr..] == buf[sptr..eptr];
      NoMoreLines(buf[sptr..]);
    } else if buf[eptr] == NL {
      ScanIsLines(buf, eptr + 1, eptr + 1);
      LineEnds(buf, sptr, eptr);
    } else {
      assert buf[sptr..eptr + 1] == buf[sptr..eptr] + [buf[eptr]];
      ScanIsLines(buf, sptr, eptr + 1);
    }
  }

  lemma LineEnds(buf: Bytes, sptr: nat, eptr: nat)
    requires sptr <= eptr < |buf| && buf[eptr] == NL && NL !in buf[sptr..eptr]
    ensures Lines(buf[sptr..]) == [buf[sptr..eptr + 1]] + Lines(buf[eptr + 1..])
  {
    var line := buf[sptr..eptr + 1];
    assert line[..|line| - 1] == buf[sptr..eptr] && buf[sptr..] == line + buf[eptr + 1..];
    LinesCons(buf[sptr..], line, buf[eptr + 1..]);
  }

  lemma SessionParts(head: Bytes, lines: seq<Bytes>, before: Bytes)
    ensures before + Frame(head) + Frames(lines) + Frame([]) == before + Session([head] + lines)
  {
    assert ([head] + lines)[1..] == lines;
  }

  lemma NoMoreLines(s: Bytes)
    requires NL !in s
    ensures Lines(s) == []
  {
    assert FindNl(s) == |s|;
  }

  // ---- the client ----

  /** Truncating at every step keeps the same prefix as truncating once. */
  lemma TakeRest(text: Bytes, m: Bytes, n: nat)
    ensures Take(text, n) + Take(m, n - |Take(text, n)|) == Take(text + m, n)
  {
    if |text| <= n {
      assert Take(text, n) == text;
      assert |text + m| > n ==> (text + m)[..n] == text + m[..n - |text|];
    } else {
      assert Take(m, 0) == [] && (text + m)[..n] == text[..n];
    }
  }

  /** strncat(3): at most `n` characters of the C string in `m` are appended. */
  function StrNCat(text: Bytes, m: Bytes, n: nat): (r: Bytes)
    ensures |r| <= |text| + n
  {
    text + Take(CStr(m), n)
  }

  lemma OneMorePlain(seen: seq<Bytes>, m: Bytes)
    requires AllPlain(seen + [m])
    ensures AllPlain(seen) && Plain(m) && Concat(seen + [m]) == Concat(seen) + m
  {
    assert (seen + [m])[..|seen|] == seen && (seen + [m])[|seen|] == m;
    assert forall i :: 0 <= i < |seen| ==> seen[i] == (seen + [m])[i];
  }

  lemma GatherOne(seen: seq<Bytes>, m: Bytes)
    ensures var text := Take(Concat(seen), STATBUF - 1);
            AllPlain(seen + [m]) ==>
              AllPlain(seen) && StrNCat(text, m, STATBUF - |text| - 1) == Take(Concat(seen + [m]), STATBUF - 1)
  {
    if AllPlain(seen + [m]) {
      OneMorePlain(seen, m);
      CStrPlain(m);
      TakeRest(Concat(seen), m, STATBUF - 1);
    }
  }

  /** `fill_buffer`, after the request is sent: messages of up to 999 bytes are appended to `statbuf`. */
  class StatusClient {
    var statbuf: Bytes  // as a C string
    var statlen: nat

    constructor ()
    {
      statbuf, statlen := [], 0;
    }

    /** strncat and strlen. */
    method Gather(m: Bytes, ghost seen: seq<Bytes>)
      requires statlen == |statbuf| < STATBUF
      requires AllPlain(seen) ==> statbuf == Take(Concat(seen), STATBUF - 1)
      modifies this
      ensures statlen == |statbuf| < STATBUF
      ensures AllPlain(seen + [m]) ==> statbuf == Take(Concat(seen + [m]), STATBUF - 1)
    {
      statbuf := StrNCat(statbuf, m, STATBUF - statlen - 1);
      statlen := |statbuf|;
      GatherOne(seen, m);
    }

    method FillBuffer(fd: Pipe) returns (stat: int, ghost k: nat)
      modifies this, fd
      ensures var d := Decode(old(fd.data), 999);
              k <= |d.ms| && (AllPlain(d.ms[..k]) ==> statbuf == Take(Concat(d.ms[..k]), STATBUF - 1))
      ensures fd.healthy ==>
                var d := Decode(old(fd.data), 999);
                d.clean && AllPlain(d.ms) ==>
                  stat == 1 && statbuf == Take(Concat(d.ms), STATBUF - 1) && fd.data == d.rest
    {
      statbuf, statlen := [], 0;
      var buf := new byte[1000];
      ghost var d := Decode(fd.data, 999);
      ghost var seen: seq<Bytes>, here := [], fd.data;
      var n;
      MidwayStarts(here, 999);
      while true
        invariant statlen == |statbuf| < STATBUF
        invariant Midway(d, seen, fd.data, 999)
        invariant AllPlain(seen) ==> statbuf == Take(Concat(seen), STATBUF - 1)
        decreases |fd.data|
      {
        here := fd.data;
        n := NetRecv(fd, buf, 999);
        if n <= 0 { break; }
        ghost var m := buf[..n];
        Gather(buf[..n], seen);
        MidwayOn(d, seen, here, 999, m);
        seen := seen + [m];
      }
      k := |seen|;
      assert d.ms[..k] == seen;
      if fd.healthy && d.clean { MidwayEnds(d, seen, here, 999); }
      stat := if n < 0 then 0 else 1;
    }
  }

  // ---- the header ----

  lemma {:induction false} RecsAtMostLength(texts: seq<Bytes>)
    requires AllWhole(texts)
    ensures WriteAll(texts).recs <= |WriteAll(texts).body|
    decreases |texts|
  {
    if texts != [] { RecsAtMostLength(texts[..|texts| - 1]); }
  }

  /** The header is one short plain line that tells how many texts and how many characters follow. */
  lemma HeaderTells(texts: seq<Bytes>)
    requires AllWhole(texts)
    ensures Tells(WriteAll(texts), HeaderMsg(WriteAll(texts)))
  {
    BodyIsAccepted(texts);
    RecsAtMostLength(texts);
    HeaderShape(WriteAll(texts));
  }

  ghost predicate Tells(r: Report, h: Bytes) {
    && Plain(h) && 24 <= |h| <= 25 && h[|h| - 1] == 10
    && h[..15] == [65, 80, 67, 32, 32, 32, 32, 32, 32, 58, 32, 48, 48, 49, 44]  // "APC      : 001,"
    && FromDec(h[15..|h| - 6]) == r.recs && h[|h| - 6] == 44
    && FromDec(h[|h| - 5..|h| - 1]) == |r.body|
  }

  lemma HeaderShape(r: Report)
    requires r.recs < 10_000 && |r.body| < 10_000
    ensures Tells(r, HeaderMsg(r))
  {
    var recs, len := Dec(r.recs, 3), Dec(|r.body|, 4);
    FourDigits(r.recs, 3);
    FourDigits(|r.body|, 4);
    RevText();
    var start: Bytes := [65, 80, 67, 32, 32, 32, 32, 32, 32, 58, 32, 48, 48, 49, 44];
    assert TITLE + [48, 48, 49] + [COMMA] == start;
    HeaderFields(start, recs, len);
    assert HeaderMsg(r) == start + recs + [COMMA] + len + [NL];
  }

  lemma FourDigits(n: nat, width: nat)
    requires n < 10_000 && width <= 4
    ensures width <= |Dec(n, width)| <= 4 && FromDec(Dec(n, width)) == n
  {
    assert Pow10(4) == 10_000 by { assert Pow10(2) == 100; }
    DecLength(n, width, 4);
    DecRoundTrip(n, width);
  }

  lemma RevText()
    ensures Dec(STAT_REV, 3) == [48, 48, 49]
  {
    assert Dec(0, 2) == Dec(0, 1) + [48] && Dec(0, 1) == Dec(0, 0) + [48];
  }

  lemma HeaderFields(start: Bytes, recs: Bytes, len: Bytes)
    requires |start| == 15 && |len| == 4 && Plain(start) && Plain(recs) && Plain(len)
    ensures var h := start + recs + [COMMA] + len + [NL];
            && h[..15] == start && h[15..|h| - 6] == recs && h[|h| - 6] == COMMA
            && h[|h| - 5..|h| - 1] == len && h[|h| - 1] == NL && Plain(h)
  {
  }

  /** Everything a report puts on the wire reaches a receiver that takes messages of up to 999 bytes. */
  lemma ReportArrives(texts: seq<Bytes>, rest: Bytes)
    requires AllWhole(texts)
    ensures var r := WriteAll(texts); var ms := [HeaderMsg(r)] + Lines(r.body);
            && Decode(Session(ms) + rest, 999) == Decoded(ms, rest, true)
            && AllPlain(ms) && Concat(ms) == HeaderMsg(r) + r.body
  {
    var r := WriteAll(texts);
    HeaderTells(texts);
    LinesOfBody(texts);
    SessionRoundTrip([HeaderMsg(r)] + Lines(r.body), rest, 999);
    ConcatCons(HeaderMsg(r), Lines(r.body));
  }

  /** A whole exchange: whatever the sizes of the partial transfers, the client ends with the first
      4095 characters of header and body; a report under 4095 characters arrives whole but for that. */
  method Exchange(server: StatusServer, client: StatusClient, fd: Pipe, texts: seq<Bytes>) returns (stat: int)
    requires AllWhole(texts) && fd.healthy && fd.data == []
    modifies server, client, fd
    ensures var r := WriteAll(texts);
            && stat == 1 && client.statbuf == Take(HeaderMsg(r) + Concat(AcceptedTexts(texts)), 4095)
            && fd.data == []
    ensures var all, body := HeaderMsg(WriteAll(texts)) + Concat(Cut(texts)), Concat(Cut(texts));
            |body| < 4095 ==> client.statbuf == if |all| <= 4095 then all else all[..4095]
  {
    server.Open();
    assert texts[..0] == [];
    for i := 0 to |texts|
      invariant server.View() == WriteAll(texts[..i])
      invariant fd.data == []
    {
      assert texts[..i + 1][..i] == texts[..i];
      server.WriteText(texts[i]);
    }
    assert texts[..|texts|] == texts;
    var rc := server.Close(fd);
    ghost var r := WriteAll(texts);
    ghost var ms := [HeaderMsg(r)] + Lines(r.body);
    assert fd.data == Session(ms) + [];
    ReportArrives(texts, []);
    BodyIsAccepted(texts);
    if |Concat(Cut(texts))| < 4095 { AllAccepted(texts); }
    ghost var k;
    stat, k := client.FillBuffer(fd);
  }
}
