/** FIELD lines of multimon.conf: a variable name and up to two quoted strings. */
module FieldLines {
  import opened Wire
  import opened CText

  const SPACE: byte := 32
  const QUOTE: byte := 34
  const BACKSLASH: byte := 92

  // ---- the scanner, as a function ----

  datatype Scanned =
    | Strings(ss: seq<Bytes>)
    | TooManyStrings
    | BackslashAtEnd
    | Unbalanced

  /** Scans `s` with `done` strings complete; `cur` is the string in progress, if inside one. */
  function Scan(s: Bytes, inString: bool, cur: Bytes, done: seq<Bytes>): Scanned
    decreases |s|
  {
    if s == [] then
      if inString then Unbalanced else Strings(done)
    else if s[0] == QUOTE then
      if !inString then Scan(s[1..], true, [], done)
      else if |done| == 2 then TooManyStrings
      else Scan(s[1..], false, [], done + [cur])
    else if !inString then Scan(s[1..], false, [], done)
    else if s[0] != BACKSLASH then Scan(s[1..], true, cur + [s[0]], done)
    else if |s| == 1 then BackslashAtEnd
    else Scan(s[2..], true, cur + [s[1]], done)
  }

  // ---- what a line means, by its layout ----

  /** `t` spells `s`: any character may carry a backslash, a quote and a backslash must. */
  predicate Spells(t: Bytes, s: Bytes) {
    if s == [] then t == []
    else if t == [] then false
    else if t[0] == BACKSLASH then |t| > 1 && t[1] == s[0] && Spells(t[2..], s[1..])
    else t[0] != QUOTE && t[0] == s[0] && Spells(t[1..], s[1..])
  }

  /** `tail` is made of the strings `ss`, quoted, with anything but quotes between them. */
  ghost predicate Reads(tail: Bytes, ss: seq<Bytes>)
    decreases |ss|
  {
    if ss == [] then QUOTE !in tail
    else exists gap, t, rest :: IsQuoted(tail, gap, t, rest) && Spells(t, ss[0]) && Reads(rest, ss[1..])
  }

  predicate IsQuoted(tail: Bytes, gap: Bytes, t: Bytes, rest: Bytes) {
    QUOTE !in gap && tail == gap + [QUOTE] + t + [QUOTE] + rest
  }

  /** The scanner finds exactly the strings the layout allows, and accepts at most two. */
  lemma ScanIsReads(tail: Bytes, ss: seq<Bytes>)
    ensures Scan(tail, false, [], []) == Strings(ss) <==> |ss| <= 2 && Reads(tail, ss)
  {
    if |ss| <= 2 && Reads(tail, ss) { ReadsScans(tail, ss, []); assert [] + ss == ss; }
    if Scan(tail, false, [], []) == Strings(ss) {
      ScansRead(tail, [], ss);
      assert ss[0..] == ss;
    }
  }

  lemma {:induction false} GapScans(gap: Bytes, rest: Bytes, done: seq<Bytes>)
    requires QUOTE !in gap
    ensures Scan(gap + rest, false, [], done) == Scan(rest, false, [], done)
    decreases |gap|
  {
    if gap == [] {
      assert gap + rest == rest;
    } else {
      assert (gap + rest)[1..] == gap[1..] + rest;
      GapScans(gap[1..], rest, done);
    }
  }

  lemma {:induction false} StringScans(t: Bytes, s: Bytes, rest: Bytes, cur: Bytes, done: seq<Bytes>)
    requires Spells(t, s)
    ensures Scan(t + [QUOTE] + rest, true, cur, done) == Scan([QUOTE] + rest, true, cur + s, done)
    decreases |t|
  {
    var all := t + [QUOTE] + rest;
    if s == [] {
      assert all == [QUOTE] + rest && cur + s == cur;
    } else if t[0] == BACKSLASH {
      assert all[2..] == t[2..] + [QUOTE] + rest;
      StringScans(t[2..], s[1..], rest, cur + [s[0]], done);
      assert cur + [s[0]] + s[1..] == cur + s;
    } else {
      assert all[1..] == t[1..] + [QUOTE] + rest;
      StringScans(t[1..], s[1..], rest, cur + [s[0]], done);
      assert cur + [s[0]] + s[1..] == cur + s;
    }
  }

  lemma OneString(tail: Bytes, gap: Bytes, t: Bytes, rest: Bytes, s: Bytes, done: seq<Bytes>)
    requires IsQuoted(tail, gap, t, rest) && Spells(t, s) && |done| < 2
    ensures Scan(tail, false, [], done) == Scan(rest, false, [], done + [s])
  {
    var inner := t + [QUOTE] + rest;
    assert tail == gap + ([QUOTE] + inner) && ([QUOTE] + inner)[1..] == inner;
    GapScans(gap, [QUOTE] + inner, done);
    StringScans(t, s, rest, [], done);
    assert [] + s == s && ([QUOTE] + rest)[1..] == rest;
  }

  lemma {:induction false} ReadsScans(tail: Bytes, ss: seq<Bytes>, done: seq<Bytes>)
    requires Reads(tail, ss) && |done| + |ss| <= 2
    ensures Scan(tail, false, [], done) == Strings(done + ss)
    decreases |ss|
  {
    if ss == [] {
      GapScans(tail, [], done);
      assert tail + [] == tail && done + ss == done;
    } else {
      var gap, t, rest :| IsQuoted(tail, gap, t, rest) && Spells(t, ss[0]) && Reads(rest, ss[1..]);
      OneString(tail, gap, t, rest, ss[0], done);
      ReadsScans(rest, ss[1..], done + [ss[0]]);
      assert done + [ss[0]] + ss[1..] == done + ss;
    }
  }

  /** Inside a string, an accepted scan reaches the closing quote. */
  lemma {:induction false} StringEnds(tail: Bytes, cur: Bytes, done: seq<Bytes>) returns (t: Bytes, s: Bytes, rest: Bytes)
    requires |done| <= 2 && Scan(tail, true, cur, done).Strings?
    ensures tail == t + [QUOTE] + rest && Spells(t, s) && |done| < 2
    ensures Scan(tail, true, cur, done) == Scan(rest, false, [], done + [cur + s])
    decreases |tail|
  {
    if tail[0] == QUOTE {
      t, s, rest := [], [], tail[1..];
      assert cur + s == cur;
    } else {
      var n := if tail[0] == BACKSLASH then 2 else 1;
      var c := tail[n - 1];
      t, s, rest := StringEnds(tail[n..], cur + [c], done);
      assert cur + [c] + s == cur + ([c] + s);
      assert (tail[..n] + t)[n..] == t && ([c] + s)[1..] == s;
      t, s := tail[..n] + t, [c] + s;
    }
  }

  /** Outside strings, a scan skips to the next quote, if there is one. */
  lemma {:induction false} NextQuote(tail: Bytes) returns (gap: Bytes, rest: Bytes)
    requires QUOTE in tail
    ensures QUOTE !in gap && tail == gap + [QUOTE] + rest
    decreases |tail|
  {
    if tail[0] == QUOTE {
      gap, rest := [], tail[1..];
    } else {
      gap, rest := NextQuote(tail[1..]);
      gap := [tail[0]] + gap;
    }
  }

  lemma {:induction false} ScansRead(tail: Bytes, done: seq<Bytes>, ss: seq<Bytes>)
    requires |done| <= 2 && Scan(tail, false, [], done) == Strings(ss)
    ensures done <= ss && |ss| <= 2 && Reads(tail, ss[|done|..])
    decreases |tail|
  {
    if QUOTE in tail {
      var gap, inner := NextQuote(tail);
      assert tail == gap + ([QUOTE] + inner) && ([QUOTE] + inner)[1..] == inner;
      GapScans(gap, [QUOTE] + inner, done);
      var t, s, rest := StringEnds(inner, [], done);
      assert [] + s == s;
      ScansRead(rest, done + [s], ss);
      assert IsQuoted(tail, gap, t, rest);
      assert ss[|done|..][0] == s && ss[|done|..][1..] == ss[|done| + 1..];
    } else {
      GapScans(tail, [], done);
      assert tail + [] == tail && ss[|done|..] == [];
    }
  }

  // ---- writing a line ----

  function Escaped(c: byte): Bytes { if c == QUOTE || c == BACKSLASH then [BACKSLASH, c] else [c] }

  function Escape(s: Bytes): Bytes { if s == [] then [] else Escaped(s[0]) + Escape(s[1..]) }

  function Quoted(s: Bytes): Bytes { [QUOTE] + Escape(s) + [QUOTE] }

  /** Escaping goes character by character. */
  lemma {:induction false} EscapeConcat(a: Bytes, b: Bytes)
    ensures Escape(a + b) == Escape(a) + Escape(b)
  {
    if a == [] {
      assert a + b == b;
    } else {
      assert (a + b)[1..] == a[1..] + b;
      EscapeConcat(a[1..], b);
      SeqAssoc(Escaped(a[0]), Escape(a[1..]), Escape(b));
    }
  }

  /** A quote and a backslash get a backslash, and no other character changes. */
  lemma EscapeOne(c: byte)
    ensures Escape([c]) == if c == 34 || c == 92 then [92, c] else [c]
  {
    assert [c][1..] == [];
  }

  lemma {:induction false} EscapeSpells(s: Bytes)
    ensures Spells(Escape(s), s)
  {
    if s != [] {
      EscapeSpells(s[1..]);
      var n := if s[0] == QUOTE || s[0] == BACKSLASH then 2 else 1;
      assert Escape(s)[n..] == Escape(s[1..]);
    }
  }

  /** Scanning undoes quoting, for any two strings. */
  lemma QuotedRoundTrip(name: Bytes, suffix: Bytes)
    ensures Scan(Quoted(name) + [SPACE] + Quoted(suffix), false, [], []) == Strings([name, suffix])
  {
    var tail := Quoted(name) + [SPACE] + Quoted(suffix);
    var rest := [SPACE] + Quoted(suffix);
    EscapeSpells(name);
    EscapeSpells(suffix);
    var ss := [name, suffix];
    assert ss[1..] == [suffix] && [suffix][1..] == [];
    assert Reads([], []);
    assert IsQuoted(rest, [SPACE], Escape(suffix), []);
    assert Reads(rest, [suffix]);
    assert IsQuoted(tail, [], Escape(name), rest);
    ScanIsReads(tail, ss);
  }

  // ---- parsefield ----

  datatype Field = Field(variable: Bytes, name: Option<Bytes>, suffix: Option<Bytes>)

  datatype Parsed = Added(field: Field) | NoSpace | Failed(why: Scanned)

  /** Where the spaces at `i` end. */
  function SpacesEnd(line: Bytes, i: nat): (k: nat)
    requires i <= |line|
    ensures i <= k <= |line| && (k < |line| ==> line[k] != SPACE) && forall j :: i <= j < k ==> line[j] == SPACE
    decreases |line| - i
  {
    if i == |line| || line[i] != SPACE then i else SpacesEnd(line, i + 1)
  }

  /** Where the word at `i` ends. */
  function WordEnd(line: Bytes, i: nat): (k: nat)
    requires i <= |line|
    ensures i <= k <= |line| && (k < |line| ==> line[k] == SPACE) && forall j :: i <= j < k ==> line[j] != SPACE
    decreases |line| - i
  {
    if i == |line| || line[i] == SPACE then i else WordEnd(line, i + 1)
  }

  lemma EndsAre(line: Bytes, i: nat, k: nat)
    requires i <= k <= |line|
    ensures (k < |line| ==> line[k] != SPACE) && (forall j :: i <= j < k ==> line[j] == SPACE) ==>
              SpacesEnd(line, i) == k
    ensures (k < |line| ==> line[k] == SPACE) && (forall j :: i <= j < k ==> line[j] != SPACE) ==>
              WordEnd(line, i) == k
  {
  }

  function AsFields(v: Bytes, r: Scanned): Parsed {
    match r
    case Strings(ss) =>
      Added(Field(v, if |ss| > 0 then Some(ss[0]) else None, if |ss| > 1 then Some(ss[1]) else None))
    case _ => Failed(r)
  }

  /** The first word begins here, if there is one. */
  function Start(line: Bytes): (k: nat)
    ensures k <= |line|
  {
    SpacesEnd(line, 0)
  }

  /** And ends here. */
  function End(line: Bytes): (k: nat)
    ensures Start(line) <= k <= |line| && (k == Start(line) ==> k == |line|)
  {
    WordEnd(line, Start(line))
  }

  /** A word alone: the scan would begin behind the terminator. */
  predicate BareWord(line: Bytes) { line != [] && Start(line) == 0 && End(line) == |line| }

  /** Where the scan begins: one past the word's length from the start of the line, whatever spaces came
      before the word; the terminator put behind an indented word ends it. */
  function Tail(line: Bytes): Bytes
    requires Start(line) < |line| && !BareWord(line)
  {
    line[End(line) - Start(line) + 1..if Start(line) == 0 then |line| else End(line)]
  }

  function ParseLine(line: Bytes): Parsed
    requires !BareWord(line)
  {
    if Start(line) == |line| then NoSpace
    else AsFields(line[Start(line)..End(line)], Scan(Tail(line), false, [], []))
  }

  /** Parsing undoes writing: any variable name without spaces, any two strings. */
  lemma FieldRoundTrip(v: Bytes, name: Bytes, suffix: Bytes)
    requires v != [] && 32 !in v
    ensures var line := v + [32] + ([34] + Escape(name) + [34]) + [32] + ([34] + Escape(suffix) + [34]);
            !BareWord(line) && ParseLine(line) == Added(Field(v, Some(name), Some(suffix)))
  {
    var tail := Quoted(name) + [SPACE] + Quoted(suffix);
    assert v + [SPACE] + Quoted(name) + [SPACE] + Quoted(suffix) == v + [SPACE] + tail;
    LineParts(v, tail);
    QuotedRoundTrip(name, suffix);
  }

  lemma LineParts(v: Bytes, tail: Bytes)
    requires v != [] && SPACE !in v
    ensures var line := v + [SPACE] + tail;
            Start(line) == 0 && End(line) == |v| && !BareWord(line) && Tail(line) == tail && line[..|v|] == v
  {
    var line := v + [SPACE] + tail;
    assert line[0] == v[0];
    EndsAre(line, 0, 0);
    EndsAre(line, 0, |v|);
    assert line[|v| + 1..|line|] == tail && line[..|v|] == v;
  }

  /** strtok(3) by spaces: skips the spaces, runs to the end of the word, and cuts the text there. */
  method FirstWord(buf: array<byte>, ghost line: Bytes) returns (start: nat, end: nat)
    requires |line| < buf.Length && buf[..|line|] == line && buf[|line|] == NUL && Plain(line)
    modifies buf
    ensures start == Start(line) && end == End(line)
    ensures buf[..] == old(buf[..])[end := NUL]
  {
    ghost var was := buf[..];
    start := SkipSpaces(buf, line);
    end := SkipWord(buf, line, start);
    if buf[end] == SPACE { buf[end] := NUL; }
    assert buf[..] == was[end := NUL];
  }

  method SkipSpaces(buf: array<byte>, ghost line: Bytes) returns (start: nat)
    requires |line| < buf.Length && buf[..|line|] == line && buf[|line|] == NUL && Plain(line)
    ensures start == Start(line)
  {
    start := 0;
    while buf[start] == SPACE
      invariant start <= |line| && forall j :: 0 <= j < start ==> line[j] == SPACE
      decreases |line| - start
    {
      assert start < |line| ==> buf[start] == line[start];
      start := start + 1;
    }
    assert start < |line| ==> buf[start] == line[start];
    EndsAre(line, 0, start);
  }

  method SkipWord(buf: array<byte>, ghost line: Bytes, start: nat) returns (end: nat)
    requires |line| < buf.Length && buf[..|line|] == line && buf[|line|] == NUL && Plain(line)
    requires start <= |line|
    ensures end == WordEnd(line, start)
    ensures end < |line| ==> buf[end] == SPACE
  {
    end := start;
    while buf[end] != SPACE && buf[end] != NUL
      invariant start <= end <= |line| && forall j :: start <= j < end ==> line[j] != SPACE
      decreases |line| - end
    {
      assert end < |line| ==> buf[end] == line[end];
      end := end + 1;
    }
    assert end < |line| ==> buf[end] == line[end];
    EndsAre(line, start, end);
  }

  /** After the cut, the text from one past the word's length up to a terminator is the line's tail. */
  lemma TailStays(line: Bytes, was: Bytes, now: Bytes, stop: nat)
    requires |line| < |was| && line == was[..|line|] && was[|line|] == NUL && Plain(line)
    requires Start(line) < |line| && !BareWord(line) && now == was[End(line) := NUL]
    requires stop == if Start(line) == 0 then |line| else End(line)
    ensures var k, end := Start(line), End(line);
            end - k < stop && now[end - k + 1..stop] == Tail(line) && now[stop] == NUL && Plain(Tail(line))
            && now[k..end] == line[k..end]
  {
    CutStays(line, was, now, End(line), End(line) - Start(line) + 1, stop);
    CutStays(line, was, now, End(line), Start(line), End(line));
  }

  lemma CutStays(line: Bytes, was: Bytes, now: Bytes, end: nat, from: nat, stop: nat)
    requires |line| < |was| && line == was[..|line|] && Plain(line) && end <= |line| && now == was[end := NUL]
    requires from <= stop <= |line| && !(from <= end < stop)
    ensures now[from..stop] == line[from..stop] && Plain(line[from..stop])
  {
  }

  /** The line is the string in `buf`; its text is cut behind the first word. */
  method ParseField(buf: array<byte>) returns (parsed: Parsed)
    requires NUL in buf[..] && !BareWord(CStr(buf[..]))
    modifies buf
    ensures parsed == ParseLine(CStr(old(buf[..])))
  {
    ghost var was, line := buf[..], CStr(buf[..]);
    CStrEnds(buf[..]);
    var len := |CStr(buf[..])| + 1;
    var start, end := FirstWord(buf, line);
    if start == end { return NoSpace; }
    parsed := ParseTail(buf, start, end, len, was, line);
  }

  /** Behind the first word: what it names, and the strings. */
  method ParseTail(buf: array<byte>, start: nat, end: nat, len: nat, ghost was: Bytes, ghost line: Bytes)
    returns (parsed: Parsed)
    requires |line| < |was| && line == was[..|line|] && was[|line|] == NUL && Plain(line) && len == |line| + 1
    requires buf[..] == was[End(line) := NUL] && Start(line) == start < |line| && end == End(line)
    requires !BareWord(line)
    ensures parsed == ParseLine(line)
  {
    ghost var stop := if start == 0 then |line| else end;
    TailStays(line, was, buf[..], stop);
    var v := buf[start..end];
    var r := ScanStrings(buf, |v| + 1, len, stop);
    return AsFields(v, r);
  }

  /** The scan loop, with a scratch buffer of `len` bytes for the string in progress. */
  method ScanStrings(buf: array<byte>, start: nat, len: nat, ghost stop: nat) returns (r: Scanned)
    requires start <= stop < buf.Length && buf[stop] == NUL && Plain(buf[start..stop]) && stop < len
    ensures r == Scan(buf[start..stop], false, [], [])
  {
    var tmp := new byte[len];
    var ptr, i, inString := start, 0, false;
    var strings: seq<Bytes> := [];
    while buf[ptr] != NUL
      invariant start <= ptr <= stop && i <= ptr - start
      invariant Scan(buf[ptr..stop], inString, if inString then tmp[..i] else [], strings)
                == Scan(buf[start..stop], false, [], [])
      invariant !inString ==> i == 0
      invariant |strings| <= 2
      decreases stop - ptr
    {
      ghost var rest := buf[ptr..stop];
      assert rest[1..] == buf[ptr + 1..stop] && (|rest| > 1 ==> rest[2..] == buf[ptr + 2..stop]);
      if buf[ptr] == QUOTE {
        inString := !inString;
        if !inString {
          tmp[i] := NUL;
          if |strings| == 2 { return TooManyStrings; }
          strings := strings + [tmp[..i]];
          i := 0;
        }
      } else if inString {
        if buf[ptr] == BACKSLASH {
          ptr := ptr + 1;
          if buf[ptr] == NUL { return BackslashAtEnd; }
        }
        tmp[i] := buf[ptr];
        i := i + 1;
        assert tmp[..i] == tmp[..i - 1] + [buf[ptr]];
      }
      ptr := ptr + 1;
    }
    return if inString then Unbalanced else Strings(strings);
  }
}
