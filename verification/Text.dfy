/** C strings and the small string routines both ends use. */
module CText {
  import opened Wire

  const NUL: byte := 0
  const NL: byte := 10

  const MAXSTRING := 256
  const STATBUF := 4096  // the client's buffer

  datatype Option<T> = None | Some(value: T)

  /** A string without a terminator inside. */
  predicate Plain(s: Bytes) { NUL !in s }

  function Take(s: Bytes, n: nat): (r: Bytes)
    ensures |r| <= n && r <= s
    ensures |s| <= n ==> r == s
    ensures |s| > n ==> |r| == n
  {
    if |s| <= n then s else s[..n]
  }

  /** The C string stored in a buffer: everything before the first terminator. */
  function CStr(buf: Bytes): (s: Bytes)
    ensures Plain(s) && s <= buf
  {
    if buf == [] || buf[0] == NUL then [] else [buf[0]] + CStr(buf[1..])
  }

  lemma {:induction false} CStrIs(buf: Bytes, s: Bytes)
    requires |s| < |buf| && buf[..|s|] == s && buf[|s|] == NUL && Plain(s)
    ensures CStr(buf) == s
  {
    if s != [] {
      assert buf[0] == s[0];
      CStrIs(buf[1..], s[1..]);
      assert [s[0]] + s[1..] == s;
    }
  }

  lemma {:induction false} CStrEnds(buf: Bytes)
    requires NUL in buf
    ensures |CStr(buf)| < |buf| && buf[|CStr(buf)|] == NUL
  {
    if buf[0] != NUL { CStrEnds(buf[1..]); }
  }

  predicate AllPlain(ms: seq<Bytes>) { forall i :: 0 <= i < |ms| ==> Plain(ms[i]) }

  lemma {:induction false} CStrPlain(m: Bytes)
    requires Plain(m)
    ensures CStr(m) == m
  {
    if m != [] { CStrPlain(m[1..]); }
  }

  /** memmove(3) inside one buffer, from the repository's own version: backward when the target lies
      inside the source, forward otherwise. */
  method Memmove(a: array<byte>, dst: nat, src: nat, n: nat)
    requires dst + n <= a.Length && src + n <= a.Length
    modifies a
    ensures a[dst..dst + n] == old(a[src..src + n])
    ensures a[..dst] == old(a[..dst]) && a[dst + n..] == old(a[dst + n..])
  {
    if dst > src && dst < src + n {
      var k := n;
      while k > 0
        invariant 0 <= k <= n
        invariant forall i :: 0 <= i < a.Length && !(dst + k <= i < dst + n) ==> a[i] == old(a[i])
        invariant forall j :: dst + k <= j < dst + n ==> a[j] == old(a[src + j - dst])
      {
        k := k - 1;
        a[dst + k] := a[src + k];
      }
    } else {
      var k := 0;
      while k < n
        invariant 0 <= k <= n
        invariant forall i :: 0 <= i < a.Length && !(dst <= i < dst + k) ==> a[i] == old(a[i])
        invariant forall j :: dst <= j < dst + k ==> a[j] == old(a[src + j - dst])
      {
        a[dst + k] := a[src + k];
        k := k + 1;
      }
    }
  }

  // ---- decimal numbers: "%0<width>d" ----

  function Digit(n: nat): byte { 48 + n % 10 }

  /** At least `width` digits, zero padded. */
  function Dec(n: nat, width: nat): (s: Bytes)
    ensures |s| >= width && Plain(s)
    decreases n + width
  {
    if n == 0 && width == 0 then []
    else Dec(n / 10, if width > 0 then width - 1 else 0) + [Digit(n)]
  }

  function FromDec(s: Bytes): int {
    if s == [] then 0 else 10 * FromDec(s[..|s| - 1]) + (s[|s| - 1] as int - 48)
  }

  /** The digits printed are the number. */
  lemma {:induction false} DecRoundTrip(n: nat, width: nat)
    ensures FromDec(Dec(n, width)) == n
    decreases n + width
  {
    if !(n == 0 && width == 0) {
      var w := if width > 0 then width - 1 else 0;
      DecRoundTrip(n / 10, w);
      assert Dec(n, width)[..|Dec(n, width)| - 1] == Dec(n / 10, w);
    }
  }

  lemma {:induction false} DecLength(n: nat, width: nat, bound: nat)
    requires width <= bound && n < Pow10(bound)
    ensures width <= |Dec(n, width)| <= bound
    decreases bound
  {
    if !(n == 0 && width == 0) {
      DecLength(n / 10, if width > 0 then width - 1 else 0, bound - 1);
    }
  }

  /** `n` without its last `k` decimal digits. */
  function DropDigits(n: nat, k: nat): nat { if k == 0 then n else DropDigits(n / 10, k - 1) }

  /** The k-th character from the end is the k-th digit of the number, and beyond the width there are no
      leading zeros. */
  lemma {:induction false} DecDigitAt(n: nat, width: nat, k: nat)
    requires k < |Dec(n, width)|
    ensures Dec(n, width)[|Dec(n, width)| - 1 - k] as int == 48 + DropDigits(n, k) % 10
    ensures |Dec(n, width)| > width ==> Dec(n, width)[0] as int != 48
    decreases n + width
  {
    var w := if width > 0 then width - 1 else 0;
    if k > 0 {
      DecDigitAt(n / 10, w, k - 1);
    } else if |Dec(n, width)| > 1 {
      DecDigitAt(n / 10, w, 0);
    }
  }

  function Pow10(w: nat): nat { if w == 0 then 1 else 10 * Pow10(w - 1) }

  // ---- lines ----

  /** The complete lines of a text, each with its newline. */
  function Lines(s: Bytes): seq<Bytes>
    decreases |s|
  {
    var k := FindNl(s);
    if k == |s| then [] else [s[..k + 1]] + Lines(s[k + 1..])
  }

  function FindNl(s: Bytes): (k: nat)
    ensures k <= |s| && NL !in s[..k] && (k < |s| ==> s[k] == NL)
  {
    if s == [] || s[0] == NL then 0 else 1 + FindNl(s[1..])
  }

  lemma {:induction false} FindNlIs(s: Bytes, k: nat)
    requires k < |s| && s[k] == NL && NL !in s[..k]
    ensures FindNl(s) == k
  {
    if k > 0 {
      assert s[0] in s[..k];
      assert s[1..][..k - 1] == s[..k][1..];
      FindNlIs(s[1..], k - 1);
    }
  }

  lemma {:induction false} HasNl(s: Bytes)
    requires NL in s
    ensures FindNl(s) < |s|
  {
    if s[0] != NL { HasNl(s[1..]); }
  }

  predicate EndsInNl(s: Bytes) { s != [] && s[|s| - 1] == NL }

  lemma LinesCons(s: Bytes, line: Bytes, rest: Bytes)
    requires s == line + rest && EndsInNl(line) && NL !in line[..|line| - 1]
    ensures Lines(s) == [line] + Lines(rest)
  {
    var k := |line| - 1;
    assert s[..k] == line[..k];
    FindNlIs(s, k);
    assert s[..k + 1] == line && s[k + 1..] == rest;
  }

  /** Lines of a text that continues after a newline. */
  lemma {:induction false} LinesAppend(a: Bytes, b: Bytes)
    requires a == [] || EndsInNl(a)
    ensures Lines(a + b) == Lines(a) + Lines(b)
    decreases |a|
  {
    if a == [] {
      assert a + b == b;
    } else {
      var line, rest := FirstLine(a);
      SeqAssoc(line, rest, b);
      LinesCons(a, line, rest);
      LinesCons(a + b, line, rest + b);
      LinesAppend(rest, b);
      SeqAssoc([line], Lines(rest), Lines(b));
    }
  }

  lemma FirstLine(a: Bytes) returns (line: Bytes, rest: Bytes)
    requires EndsInNl(a)
    ensures a == line + rest && EndsInNl(line) && NL !in line[..|line| - 1]
    ensures |rest| < |a| && (rest == [] || EndsInNl(rest))
  {
    HasNl(a);
    var k := FindNl(a);
    line, rest := a[..k + 1], a[k + 1..];
    assert line[..k] == a[..k];
  }

  lemma SeqAssoc<X>(a: seq<X>, b: seq<X>, c: seq<X>)
    ensures a + (b + c) == (a + b) + c
  {
  }

  lemma ConcatCons(m: Bytes, ms: seq<Bytes>)
    ensures Concat([m] + ms) == m + Concat(ms)
  {
    if ms == [] {
      assert [m] + ms == [m] && [m][..0] == [];
    } else {
      var n := |ms| - 1;
      assert ([m] + ms)[..n + 1] == [m] + ms[..n];
      ConcatCons(m, ms[..n]);
      assert (m + Concat(ms[..n])) + ms[n] == m + (Concat(ms[..n]) + ms[n]);
    }
  }

  /** A text is the concatenation of its complete lines exactly if it ends in a newline (or is empty). */
  lemma {:induction false} LinesConcat(s: Bytes)
    ensures Concat(Lines(s)) <= s
    ensures Concat(Lines(s)) == s <==> s == [] || EndsInNl(s)
    decreases |s|
  {
    var k := FindNl(s);
    if k < |s| {
      LinesConcat(s[k + 1..]);
      ConcatCons(s[..k + 1], Lines(s[k + 1..]));
      PrefixBehind(s, k + 1, Concat(Lines(s[k + 1..])));
    } else {
      assert s[..k] == s;
    }
  }

  lemma PrefixBehind(s: Bytes, n: nat, rest: Bytes)
    requires n <= |s| && rest <= s[n..]
    ensures s[..n] + rest <= s && (s[..n] + rest == s <==> rest == s[n..])
  {
    assert s == s[..n] + s[n..];
    if s[..n] + rest == s { assert |rest| == |s[n..]|; }
  }

  lemma {:induction false} LinesShape(s: Bytes)
    requires Plain(s)
    ensures forall i :: 0 <= i < |Lines(s)| ==>
              EndsInNl(Lines(s)[i]) && Plain(Lines(s)[i]) && |Lines(s)[i]| <= |s|
    decreases |s|
  {
    var k := FindNl(s);
    if k < |s| { LinesShape(s[k + 1..]); }
  }
}
