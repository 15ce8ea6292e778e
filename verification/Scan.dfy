/** Reading words and numbers off a string, in the C locale. */
module Scanning {
  import opened Wire
  import opened CText

  const PLUS: byte := 43
  const MINUS: byte := 45
  const ZERO: byte := 48

  predicate IsSpace(c: byte) { c == 32 || 9 <= c <= 13 }

  predicate IsDigit(c: byte) { ZERO <= c <= ZERO + 9 }

  predicate AllSpace(s: Bytes) { forall i :: 0 <= i < |s| ==> IsSpace(s[i]) }

  predicate NoSpace(s: Bytes) { forall i :: 0 <= i < |s| ==> !IsSpace(s[i]) }

  /** Where the white space at `i` ends. */
  function BlankEnd(s: Bytes, i: nat): (k: nat)
    requires i <= |s|
    ensures i <= k <= |s| && (forall j :: i <= j < k ==> IsSpace(s[j])) && (k < |s| ==> !IsSpace(s[k]))
    decreases |s| - i
  {
    if i == |s| || !IsSpace(s[i]) then i else BlankEnd(s, i + 1)
  }

  /** Where the word at `i` ends. */
  function WordEnd(s: Bytes, i: nat): (k: nat)
    requires i <= |s|
    ensures i <= k <= |s| && (forall j :: i <= j < k ==> !IsSpace(s[j])) && (k < |s| ==> IsSpace(s[k]))
    decreases |s| - i
  {
    if i == |s| || IsSpace(s[i]) then i else WordEnd(s, i + 1)
  }

  /** sscanf(v, "%d"): nothing to read, no number, or a number. */
  datatype Scanned = AtEnd | Mismatch | Got(n: int)

  /** Where the digits at `i` end. */
  function DigitsEnd(s: Bytes, i: nat): (k: nat)
    requires i <= |s|
    ensures i <= k <= |s| && (forall j :: i <= j < k ==> IsDigit(s[j])) && (k < |s| ==> !IsDigit(s[k]))
    decreases |s| - i
  {
    if i == |s| || !IsDigit(s[i]) then i else DigitsEnd(s, i + 1)
  }

  function ScanInt(v: Bytes): Scanned {
    var i := BlankEnd(v, 0);
    if i == |v| then AtEnd
    else
      var from := if v[i] == PLUS || v[i] == MINUS then i + 1 else i;
      var k := DigitsEnd(v, from);
      if k == from then Mismatch else Got(if v[i] == MINUS then -FromDec(v[from..k]) else FromDec(v[from..k]))
  }

  /** sscanf(v, "%s"): the first word, empty if there is none. */
  function ScanWord(v: Bytes): Bytes {
    var i := BlankEnd(v, 0);
    v[i..WordEnd(v, i)]
  }

  lemma BlankEndIs(s: Bytes, i: nat, k: nat)
    requires i <= k <= |s| && (forall j :: i <= j < k ==> IsSpace(s[j])) && (k < |s| ==> !IsSpace(s[k]))
    ensures BlankEnd(s, i) == k
  {
  }

  lemma WordEndIs(s: Bytes, i: nat, k: nat)
    requires i <= k <= |s| && (forall j :: i <= j < k ==> !IsSpace(s[j])) && (k < |s| ==> IsSpace(s[k]))
    ensures WordEnd(s, i) == k
  {
  }

  // ---- numbers read back ----

  /** A printed number is read back, whatever follows it. */
  lemma NumberReadsBack(n: nat, width: nat, rest: Bytes)
    requires width > 0 && (rest != [] ==> !IsDigit(rest[0]))
    ensures ScanInt(Dec(n, width) + rest) == Got(n)
  {
    DecDigits(n, width);
    DecRoundTrip(n, width);
    ScansDigits(Dec(n, width), rest);
  }

  lemma NegativeReadsBack(n: nat, width: nat, rest: Bytes)
    requires width > 0 && (rest != [] ==> !IsDigit(rest[0]))
    ensures ScanInt([MINUS] + Dec(n, width) + rest) == Got(-(n as int))
  {
    DecDigits(n, width);
    DecRoundTrip(n, width);
    ScansNegative(Dec(n, width), rest);
  }

  lemma ScansDigits(d: Bytes, rest: Bytes)
    requires d != [] && (forall i :: 0 <= i < |d| ==> IsDigit(d[i])) && (rest != [] ==> !IsDigit(rest[0]))
    ensures ScanInt(d + rest) == Got(FromDec(d))
  {
    DigitsRun([], d, rest);
    var v := d + rest;
    assert [] + d + rest == v && v[0] == d[0];
    ScansFrom(v, 0, |d|);
  }

  lemma ScansNegative(d: Bytes, rest: Bytes)
    requires d != [] && (forall i :: 0 <= i < |d| ==> IsDigit(d[i])) && (rest != [] ==> !IsDigit(rest[0]))
    ensures ScanInt([MINUS] + d + rest) == Got(-FromDec(d))
  {
    DigitsRun([MINUS], d, rest);
    ScansFrom([MINUS] + d + rest, 1, 1 + |d|);
  }

  lemma ScansFrom(v: Bytes, from: nat, end: nat)
    requires from <= 1 && from < end <= |v| && DigitsEnd(v, from) == end
    requires if from == 0 then IsDigit(v[0]) else v[0] == MINUS
    ensures ScanInt(v) == Got(if from == 0 then FromDec(v[from..end]) else -FromDec(v[from..end]))
  {
    assert BlankEnd(v, 0) == 0;
  }

  lemma DigitsRun(sign: Bytes, d: Bytes, rest: Bytes)
    requires (forall i :: 0 <= i < |d| ==> IsDigit(d[i])) && (rest != [] ==> !IsDigit(rest[0]))
    ensures var v := sign + d + rest; DigitsEnd(v, |sign|) == |sign| + |d| && v[|sign|..|sign| + |d|] == d
  {
    DigitsEndIs(sign + d + rest, |sign|, |sign| + |d|);
  }

  lemma DigitsEndIs(s: Bytes, i: nat, k: nat)
    requires i <= k <= |s| && (forall j :: i <= j < k ==> IsDigit(s[j])) && (k < |s| ==> !IsDigit(s[k]))
    ensures DigitsEnd(s, i) == k
  {
  }

  lemma {:induction false} DecDigits(n: nat, width: nat)
    ensures forall i :: 0 <= i < |Dec(n, width)| ==> IsDigit(Dec(n, width)[i])
    decreases n + width
  {
    if !(n == 0 && width == 0) { DecDigits(n / 10, if width > 0 then width - 1 else 0); }
  }
}
