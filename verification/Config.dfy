/** apcupsd.conf: one directive a line, dispatched by key. */
module Config {
  import opened Wire
  import opened CText
  import opened Files
  import opened Scanning

  const HASH: byte := 35

  // ---- characters, in the C locale ----

  function ToUpper(c: byte): byte { if 97 <= c <= 122 then c - 32 else c }

  function Upper(s: Bytes): (r: Bytes)
    ensures |r| == |s| && forall i :: 0 <= i < |s| ==> r[i] == ToUpper(s[i])
  {
    if s == [] then [] else [ToUpper(s[0])] + Upper(s[1..])
  }

  // ---- directives ----

  datatype Field =
    | UpsName | Cable | Mode | Device | PollTime | LockPath | ScriptDir | PwrFailPath | NoLoginPath
    | Annoy | AnnoyDelay | OnBattDelay | MaxTime | NoLogin | Percent | Runtime | KillDelay
    | NetStats | NisIp | StatusPort | EventFile | EventFileMax | SysFac | StatFile | LogStats
    | StatTime | DataTime | UpsClass | ShareNet

  /** A field's value; a choice is a position in its directive's list of names. */
  datatype Setting = Number(n: int) | Text(t: Bytes) | Choice(i: nat)

  datatype Handler =
    | Int(f: Field)
    | OneOf(f: Field, names: seq<Bytes>)
    | Str(f: Field, size: nat)
    | Obsolete(fatal: bool)

  datatype Pair = Pair(key: Bytes, handler: Handler)

  /** What a line does.  A number or a name is read by sscanf(3); when the value is empty the handlers
      go on with an uninitialised variable. */
  datatype Effect = Set(f: Field, v: Setting) | Nothing | Reject | Undefined(f: Field)

  // ---- values ----

  /** Position of the first name equal to `x`, in whatever case. */
  function FindName(names: seq<Bytes>, x: Bytes): (k: nat)
    ensures k <= |names|
    ensures forall i :: 0 <= i < k ==> Upper(names[i]) != Upper(x)
    ensures k < |names| ==> Upper(names[k]) == Upper(x)
  {
    if names == [] || Upper(names[0]) == Upper(x) then 0 else 1 + FindName(names[1..], x)
  }

  function FindHash(s: Bytes): (k: nat)
    ensures k <= |s| && (forall i :: 0 <= i < k ==> s[i] != HASH) && (k < |s| ==> s[k] == HASH)
  {
    if s == [] || s[0] == HASH then 0 else 1 + FindHash(s[1..])
  }

  /** Where the first `n` characters end without their trailing white space. */
  function TrimEnd(s: Bytes, n: nat): (k: nat)
    requires n <= |s|
    ensures k <= n && (k > 0 ==> !IsSpace(s[k - 1])) && forall i :: k <= i < n ==> IsSpace(s[i])
  {
    if n > 0 && IsSpace(s[n - 1]) then TrimEnd(s, n - 1) else n
  }

  /** A string value: up to a comment, without trailing white space. */
  function TextOf(v: Bytes): Bytes {
    var x := Take(v, MAXSTRING - 1);
    x[..TrimEnd(x, FindHash(x))]
  }

  function Handle(h: Handler, v: Bytes): Effect {
    match h
    case Int(f) =>
      (match ScanInt(v)
       case AtEnd => Undefined(f)
       case Mismatch => Reject
       case Got(n) => Set(f, Number(n)))
    case OneOf(f, names) =>
      var x := ScanWord(v);
      var k := FindName(names, x);
      if x == [] then Undefined(f) else if k == |names| then Reject else Set(f, Choice(k))
    case Str(f, size) => Set(f, Text(if size == 0 then [] else Take(TextOf(v), size - 1)))
    case Obsolete(fatal) => if fatal then Reject else Nothing
  }

  // ---- lines ----

  /** A directive: its key in upper case, and the rest of the line. */
  datatype Directive = Directive(key: Bytes, value: Bytes)

  /** The directive on a line, unless it is blank or a comment. */
  function Read(line: Bytes): Option<Directive> {
    var key := BlankEnd(line, 0);
    if key == |line| || line[key] == HASH then None
    else
      var end := WordEnd(line, key);
      Some(Directive(Upper(line[key..end]), line[BlankEnd(line, end)..]))
  }

  function Lookup(table: seq<Pair>, key: Bytes): (k: nat)
    ensures k <= |table| && (k < |table| ==> table[k].key == key)
    ensures forall i :: 0 <= i < k ==> table[i].key != key
  {
    if table == [] || table[0].key == key then 0 else 1 + Lookup(table[1..], key)
  }

  function Dispatch(table: seq<Pair>, d: Directive): Effect {
    var k := Lookup(table, d.key);
    if k == |table| then Reject else Handle(table[k].handler, d.value)
  }

  function LineEffect(table: seq<Pair>, line: Bytes): Effect {
    match Read(line)
    case None => Nothing
    case Some(d) => Dispatch(table, d)
  }

  /** Blank lines and comments hold no directive. */
  lemma NoDirective(indent: Bytes, comment: Bytes)
    requires AllSpace(indent) && (comment == [] || comment[0] == HASH)
    ensures Read(indent + comment) == None
  {
    BlankEndIs(indent + comment, 0, |indent|);
  }

  /** The layout of a line does not matter: its indentation, the gap, and the case of the key. */
  lemma ReadsDirective(indent: Bytes, key: Bytes, gap: Bytes, value: Bytes)
    requires AllSpace(indent) && NoSpace(key) && key != [] && key[0] != HASH && AllSpace(gap)
    requires value != [] ==> gap != [] && !IsSpace(value[0])
    ensures Read(indent + key + gap + value) == Some(Directive(Upper(key), value))
  {
    var line := indent + key + gap + value;
    var start, end, from := |indent|, |indent| + |key|, |indent| + |key| + |gap|;
    BlankEndIs(line, 0, start);
    WordEndIs(line, start, end);
    BlankEndIs(line, end, from);
    assert line[start..end] == key && line[from..] == value;
  }

  // ---- what values mean ----

  /** A string value loses a comment and trailing white space, and nothing else. */
  lemma TextReadsBack(t: Bytes, gap: Bytes, comment: Bytes)
    requires HASH !in t && (t != [] ==> !IsSpace(t[|t| - 1])) && AllSpace(gap)
    requires comment == [] || comment[0] == HASH
    requires |t| + |gap| + |comment| < MAXSTRING
    ensures TextOf(t + gap + comment) == t
  {
    var x := t + gap + comment;
    assert x[..|t|] == t && x[|t|..|t| + |gap|] == gap;
    assert forall i :: 0 <= i < |t| ==> x[i] == x[..|t|][i];
    assert forall i :: |t| <= i < |t| + |gap| ==> x[i] == gap[i - |t|];
    assert FindHash(x) == |t| + |gap| && TrimEnd(x, |t| + |gap|) == |t|;
  }

  // ---- files ----

  type Settings = map<Field, Setting>

  function Apply(s: Settings, e: Effect): Settings {
    if e.Set? then s[e.f := e.v] else s
  }

  function Effects(table: seq<Pair>, lines: seq<Bytes>): seq<Effect> {
    seq(|lines|, i requires 0 <= i < |lines| => LineEffect(table, lines[i]))
  }

  function Final(s: Settings, es: seq<Effect>): Settings {
    if es == [] then s else Apply(Final(s, es[..|es| - 1]), es[|es| - 1])
  }

  function Errors(es: seq<Effect>): nat {
    if es == [] then 0 else Errors(es[..|es| - 1]) + if es[|es| - 1] == Reject then 1 else 0
  }

  predicate Sets(e: Effect, f: Field) { e.Set? && e.f == f }

  lemma {:induction false} UnsetKept(s: Settings, es: seq<Effect>, from: nat, f: Field)
    requires from <= |es| && forall j :: from <= j < |es| ==> !Sets(es[j], f)
    ensures SameAt(Final(s, es), Final(s, es[..from]), f)
    decreases |es|
  {
    if from < |es| {
      assert es[..|es| - 1][..from] == es[..from];
      UnsetKept(s, es[..|es| - 1], from, f);
    } else {
      assert es[..from] == es;
    }
  }

  predicate SameAt(r: Settings, s: Settings, f: Field) {
    (f in r <==> f in s) && (f in s ==> r[f] == s[f])
  }

  /** Every field ends as the last line that sets it says, whatever other lines do. */
  lemma LastLineWins(table: seq<Pair>, s: Settings, lines: seq<Bytes>, f: Field, i: nat)
    requires i < |lines| && Sets(LineEffect(table, lines[i]), f)
    requires forall j :: i < j < |lines| ==> !Sets(LineEffect(table, lines[j]), f)
    ensures var r := Final(s, Effects(table, lines));
            f in r && r[f] == LineEffect(table, lines[i]).v
  {
    LastEffectWins(s, Effects(table, lines), f, i);
  }

  lemma LastEffectWins(s: Settings, es: seq<Effect>, f: Field, i: nat)
    requires i < |es| && Sets(es[i], f) && forall j :: i < j < |es| ==> !Sets(es[j], f)
    ensures f in Final(s, es) && Final(s, es)[f] == es[i].v
  {
    UnsetKept(s, es, i + 1, f);
    assert es[..i + 1] == es[..i] + [es[i]];
    OneMore(s, es[..i], es[i]);
  }

  /** A field no line sets stays as it was. */
  lemma UnsetStays(table: seq<Pair>, s: Settings, lines: seq<Bytes>, f: Field)
    requires forall j :: 0 <= j < |lines| ==> !Sets(LineEffect(table, lines[j]), f)
    ensures SameAt(Final(s, Effects(table, lines)), s, f)
  {
    UnsetKept(s, Effects(table, lines), 0, f);
  }

  /** The directives of a file, in order. */
  function Directives(lines: seq<Bytes>): seq<Directive> {
    if lines == [] then []
    else
      var ds := Directives(lines[..|lines| - 1]);
      match Read(lines[|lines| - 1])
      case None => ds
      case Some(d) => ds + [d]
  }

  function DispatchAll(table: seq<Pair>, ds: seq<Directive>): seq<Effect> {
    seq(|ds|, i requires 0 <= i < |ds| => Dispatch(table, ds[i]))
  }

  /** Files with the same directives give the same settings and the same number of errors. */
  lemma {:induction false} OnlyDirectivesCount(table: seq<Pair>, s: Settings, lines: seq<Bytes>)
    ensures var es, ds := Effects(table, lines), DispatchAll(table, Directives(lines));
            Final(s, es) == Final(s, ds) && Errors(es) == Errors(ds)
    decreases |lines|
  {
    if lines != [] {
      var init, last := lines[..|lines| - 1], lines[|lines| - 1];
      OnlyDirectivesCount(table, s, init);
      EffectsMore(table, init, last);
      assert init + [last] == lines;
      OneMore(s, Effects(table, init), LineEffect(table, last));
      match Read(last)
      case None =>
      case Some(d) =>
        var ds := Directives(init);
        DispatchMore(table, ds, d);
        OneMore(s, DispatchAll(table, ds), Dispatch(table, d));
    }
  }

  lemma EffectsMore(table: seq<Pair>, lines: seq<Bytes>, line: Bytes)
    ensures Effects(table, lines + [line]) == Effects(table, lines) + [LineEffect(table, line)]
  {
  }

  lemma DispatchMore(table: seq<Pair>, ds: seq<Directive>, d: Directive)
    ensures DispatchAll(table, ds + [d]) == DispatchAll(table, ds) + [Dispatch(table, d)]
  {
  }

  lemma OneMore(s: Settings, es: seq<Effect>, e: Effect)
    ensures Final(s, es + [e]) == Apply(Final(s, es), e)
    ensures Errors(es + [e]) == Errors(es) + if e == Reject then 1 else 0
  {
    assert (es + [e])[..|es|] == es;
  }

  /** A handler with effect `e` has run. */
  predicate Does(e: Effect, was: Settings, now: Settings, failed: bool) {
    if e.Undefined? then forall g :: g != e.f ==> SameAt(now, was, g)
    else now == Apply(was, e) && failed == (e == Reject)
  }

  /** The value begins with this number in decimal. */
  predicate StartsWithNumber(v: Bytes, n: int, width: nat, rest: Bytes) {
    && width > 0 && v == (if n < 0 then [45] + Dec(-n, width) else Dec(n, width)) + rest
    && (rest != [] ==> !(48 <= rest[0] <= 57))
  }

  /** The value begins with this word. */
  predicate StartsWithWord(v: Bytes, word: Bytes, rest: Bytes) {
    v == word + rest && word != [] && NoSpace(word) && (rest != [] ==> IsSpace(rest[0]))
  }

  /** The value is this text, followed by white space and a comment. */
  predicate HoldsText(v: Bytes, t: Bytes, gap: Bytes, comment: Bytes) {
    && v == t + gap + comment && |v| < 256 && 35 !in t && (t != [] ==> !IsSpace(t[|t| - 1])) && AllSpace(gap)
    && (comment == [] || comment[0] == 35)
  }

  lemma ReadsNumbers(v: Bytes)
    ensures forall n: int, width: nat, rest: Bytes :: StartsWithNumber(v, n, width, rest) ==> ScanInt(v) == Got(n)
  {
    forall n: int, width: nat, rest: Bytes | StartsWithNumber(v, n, width, rest) ensures ScanInt(v) == Got(n) {
      if n < 0 { NegativeReadsBack(-n, width, rest); } else { NumberReadsBack(n, width, rest); }
    }
  }

  lemma ReadsWords(v: Bytes)
    ensures forall word: Bytes, rest: Bytes :: StartsWithWord(v, word, rest) ==> ScanWord(v) == word
  {
    forall word: Bytes, rest: Bytes | StartsWithWord(v, word, rest) ensures ScanWord(v) == word {
      assert v[0] == word[0];
      BlankEndIs(v, 0, 0);
      WordEndIs(v, 0, |word|);
    }
  }

  lemma ReadsTexts(v: Bytes)
    ensures forall t: Bytes, gap: Bytes, comment: Bytes :: HoldsText(v, t, gap, comment) ==> TextOf(v) == t
  {
    forall t: Bytes, gap: Bytes, comment: Bytes | HoldsText(v, t, gap, comment) ensures TextOf(v) == t {
      TextReadsBack(t, gap, comment);
    }
  }

  /** The same letters, in upper or lower case. */
  predicate SameLetter(a: byte, b: byte) { a == b || (65 <= a <= 90 && b == a + 32) || (65 <= b <= 90 && a == b + 32) }

  predicate SameName(a: Bytes, b: Bytes) { |a| == |b| && forall i :: 0 <= i < |a| ==> SameLetter(a[i], b[i]) }

  /** Raising both is comparing in whatever case. */
  lemma SameNameIs(a: Bytes, b: Bytes)
    ensures Upper(a) == Upper(b) <==> SameName(a, b)
  {
    if Upper(a) == Upper(b) {
      assert |Upper(a)| == |Upper(b)|;
      forall i | 0 <= i < |a| ensures SameLetter(a[i], b[i]) { assert Upper(a)[i] == Upper(b)[i]; }
    }
  }

  lemma SameNamesAre(names: seq<Bytes>, x: Bytes)
    ensures forall i :: 0 <= i < |names| ==> (Upper(names[i]) == Upper(x) <==> SameName(names[i], x))
  {
    forall i | 0 <= i < |names| ensures Upper(names[i]) == Upper(x) <==> SameName(names[i], x) {
      SameNameIs(names[i], x);
    }
  }

  // ---- the parser, in place ----

  class UpsConfig {
    const table: seq<Pair>
    var settings: Settings

    constructor (table: seq<Pair>, settings: Settings)
      ensures this.table == table && this.settings == settings
    {
      this.table, this.settings := table, settings;
    }

    /** True for failure.  An empty value leaves `x` as it happened to be, and counts as success. */
    method MatchInt(f: Field, v: Bytes) returns (failed: bool)
      modifies this
      ensures Does(Handle(Int(f), v), old(settings), settings, failed)
      ensures forall n: int, width: nat, rest: Bytes :: StartsWithNumber(v, n, width, rest) ==>
                !failed && settings == old(settings)[f := Number(n)]
      ensures v != [] && !IsSpace(v[0]) && v[0] != 43 && v[0] != 45 && !(48 <= v[0] <= 57) ==>
                failed && settings == old(settings)
    {
      ReadsNumbers(v);
      var x: int := *;
      var read := ScanInt(v);
      if read.Got? { x := read.n; }
      if read.Mismatch? { return true; }
      settings := settings[f := Number(x)];
      failed := false;
    }

    method MatchName(f: Field, names: seq<Bytes>, v: Bytes) returns (failed: bool)
      modifies this
      ensures Does(Handle(OneOf(f, names), v), old(settings), settings, failed)
      ensures forall word: Bytes, rest: Bytes :: StartsWithWord(v, word, rest) ==>
                  if failed then settings == old(settings) && forall i :: 0 <= i < |names| ==> !SameName(names[i], word)
                  else
                    && f in settings && settings[f].Choice? && settings == old(settings)[f := settings[f]]
                    && settings[f].i < |names| && SameName(names[settings[f].i], word)
                    && forall i :: 0 <= i < settings[f].i ==> !SameName(names[i], word)
    {
      ReadsWords(v);
      SameNamesAre(names, ScanWord(v));
      var x: Bytes := *;
      if ScanWord(v) != [] { x := ScanWord(v); }
      var k := 0;
      while k < |names| && Upper(x) != Upper(names[k])
        invariant k <= |names| && forall i :: 0 <= i < k ==> Upper(names[i]) != Upper(x)
      {
        k := k + 1;
      }
      if k == |names| { return true; }
      settings := settings[f := Choice(k)];
      failed := false;
    }

    method MatchStr(f: Field, size: nat, v: Bytes) returns (failed: bool)
      modifies this
      ensures !failed && settings == Apply(old(settings), Handle(Str(f, size), v))
      ensures forall t: Bytes, gap: Bytes, comment: Bytes :: HoldsText(v, t, gap, comment) ==>
                settings == old(settings)[f := Text(if |t| < size then t else if size == 0 then [] else t[..size - 1])]
    {
      ReadsTexts(v);
      var x := CutText(v);
      settings := settings[f := Text(if size == 0 then [] else Take(x, size - 1))];
      failed := false;
    }

    /** Drops a comment and the white space before it. */
    method CutText(v: Bytes) returns (t: Bytes)
      ensures t == TextOf(v)
    {
      var x := Take(v, MAXSTRING - 1);
      var n: nat := FindHash(x);
      ghost var end: nat := n;
      while n > 0 && IsSpace(x[n - 1])
        invariant n <= end && TrimEnd(x, n) == TrimEnd(x, end)
      {
        n := n - 1;
      }
      t := x[..n];
    }

    method Match(h: Handler, v: Bytes) returns (failed: bool)
      modifies this
      ensures Does(Handle(h, v), old(settings), settings, failed)
      ensures h.Obsolete? ==> failed == h.fatal && settings == old(settings)
    {
      match h
      case Int(f) => failed := MatchInt(f, v);
      case OneOf(f, names) => failed := MatchName(f, names, v);
      case Str(f, size) => failed := MatchStr(f, size, v);
      case Obsolete(fatal) => failed := fatal;
    }

    method FindKey(key: Bytes) returns (p: nat)
      ensures p == Lookup(table, key)
    {
      p := 0;
      assert table[0..] == table;
      while p < |table| && table[p].key != key
        invariant p <= |table| && Lookup(table, key) == p + Lookup(table[p..], key)
      {
        assert table[p..][1..] == table[p + 1..];
        p := p + 1;
      }
    }

    /** Cuts the line in its buffer into key and value. */
    method ParseConfig(line: array<byte>) returns (failed: bool)
      requires NUL in line[..]
      modifies this, line
      ensures Does(LineEffect(table, CStr(old(line[..]))), old(settings), settings, failed)
    {
      ghost var text := CStr(line[..]);
      CStrEnds(line[..]);
      var key := SkipBlank(line, text);
      if line[key] == NUL || line[key] == HASH { return false; }
      var end := RaiseKey(line, key, text);
      var value := CutKey(line, end, text);
      CutStrings(text, line[..], key, end, value);
      failed := DispatchTo(CStr(line[key..]), CStr(line[value..]));
    }

    method DispatchTo(key: Bytes, value: Bytes) returns (failed: bool)
      modifies this
      ensures Does(Dispatch(table, Directive(key, value)), old(settings), settings, failed)
      ensures (forall i :: 0 <= i < |table| ==> table[i].key != key) ==> failed && settings == old(settings)
    {
      var p := FindKey(key);
      if p == |table| { return true; }
      failed := Match(table[p].handler, value);
    }

    /** Parses a file line by line; `errors` counts the lines that failed. */
    method CheckForConfig(file: DiskFile) returns (errors: nat)
      requires file.pos == 0
      modifies this, file`pos
      ensures Parsed(table, old(settings), Chunks(file.data), settings, errors)
    {
      ghost var seen: seq<Bytes>, rest := [], file.data;
      errors := 0;
      assert file.data[0..] == file.data && seen + Chunks(rest) == Chunks(file.data);
      var line := file.Gets();
      while line != []
        invariant file.pos <= |file.data| && line == Chunk(rest) && rest[|line|..] == file.data[file.pos..]
        invariant seen + Chunks(rest) == Chunks(file.data)
        invariant Parsed(table, old(settings), seen, settings, errors)
        decreases |rest|
      {
        SeqAssoc(seen, [line], Chunks(rest[|line|..]));
        ghost var was, count := settings, errors;
        var failed := ParseText(line);
        if failed { errors := errors + 1; }
        ParsedMore(table, old(settings), seen, was, count, line, settings, failed);
        seen, rest := seen + [line], rest[|line|..];
        line := file.Gets();
      }
      assert seen + [] == seen;
    }

    /** Parses a line as fgets(3) stores it. */
    method ParseText(text: Bytes) returns (failed: bool)
      modifies this
      ensures Does(LineEffect(table, CStr(text)), old(settings), settings, failed)
    {
      var line := new byte[|text| + 1];
      forall i | 0 <= i < |text| { line[i] := text[i]; }
      line[|text|] := NUL;
      assert line[..] == text + [NUL] && line[..][|text|] == NUL;
      CStrStored(text);
      failed := ParseConfig(line);
    }
  }

  function Texts(chunks: seq<Bytes>): seq<Bytes> {
    seq(|chunks|, i requires 0 <= i < |chunks| => CStr(chunks[i]))
  }

  /** The last effect on the field is a value, not what happened to be in memory. */
  predicate Known(es: seq<Effect>, f: Field) {
    es == [] || Sets(es[|es| - 1], f) || (es[|es| - 1] != Undefined(f) && Known(es[..|es| - 1], f))
  }

  function Unknowns(es: seq<Effect>): nat {
    if es == [] then 0 else Unknowns(es[..|es| - 1]) + if es[|es| - 1].Undefined? then 1 else 0
  }

  /** The settings and the error count after `lines`: a field is as the lines say unless the last one on it
      leaves its value uninitialised, and such a line may or may not count as an error. */
  ghost predicate Parsed(table: seq<Pair>, was: Settings, lines: seq<Bytes>, now: Settings, errors: nat) {
    var es := Effects(table, Texts(lines));
    && (forall f :: Known(es, f) ==> SameAt(now, Final(was, es), f))
    && Errors(es) <= errors <= Errors(es) + Unknowns(es)
  }

  lemma ParsedMore(table: seq<Pair>, was: Settings, lines: seq<Bytes>, mid: Settings, count: nat,
                   line: Bytes, now: Settings, failed: bool)
    requires Parsed(table, was, lines, mid, count)
    requires Does(LineEffect(table, CStr(line)), mid, now, failed)
    ensures Parsed(table, was, lines + [line], now, count + if failed then 1 else 0)
  {
    var es, e := Effects(table, Texts(lines)), LineEffect(table, CStr(line));
    EffectsOfTexts(table, lines, line);
    OneMore(was, es, e);
    assert (es + [e])[..|es|] == es && (es + [e])[|es|] == e;
    forall f | Known(es + [e], f) ensures SameAt(now, Final(was, es + [e]), f) {
      StaysKnown(es, e, Final(was, es), mid, now, failed, f);
    }
  }

  lemma StaysKnown(es: seq<Effect>, e: Effect, final: Settings, mid: Settings, now: Settings, failed: bool, f: Field)
    requires Known(es, f) ==> SameAt(mid, final, f)
    requires Does(e, mid, now, failed) && (Sets(e, f) || (e != Undefined(f) && Known(es, f)))
    ensures SameAt(now, Apply(final, e), f)
  {
    if e.Undefined? { assert SameAt(now, mid, f); }
  }

  lemma EffectsOfTexts(table: seq<Pair>, seen: seq<Bytes>, line: Bytes)
    ensures Effects(table, Texts(seen + [line])) == Effects(table, Texts(seen)) + [LineEffect(table, CStr(line))]
  {
    assert Texts(seen + [line]) == Texts(seen) + [CStr(line)];
    EffectsMore(table, Texts(seen), CStr(line));
  }

  lemma {:induction false} CStrStored(text: Bytes)
    ensures CStr(text + [NUL]) == CStr(text)
  {
    if text != [] {
      assert (text + [NUL])[1..] == text[1..] + [NUL];
      CStrStored(text[1..]);
    }
  }

  method SkipBlank(line: array<byte>, ghost text: Bytes) returns (key: nat)
    requires |text| < line.Length && line[..|text|] == text && line[|text|] == NUL && Plain(text)
    ensures key == BlankEnd(text, 0)
  {
    key := 0;
    while line[key] != NUL && IsSpace(line[key])
      invariant key <= |text| && forall i :: 0 <= i < key ==> IsSpace(text[i])
      decreases |text| - key
    {
      assert line[key] == text[key];
      key := key + 1;
    }
    assert key < |text| ==> line[key] == text[key];
    BlankEndIs(text, 0, key);
  }

  /** Raises the key, and returns where it ends. */
  method RaiseKey(line: array<byte>, key: nat, ghost text: Bytes) returns (end: nat)
    requires |text| < line.Length && line[..|text|] == text && line[|text|] == NUL && Plain(text)
    requires key <= |text|
    modifies line
    ensures end == WordEnd(text, key)
    ensures forall i :: key <= i < end ==> line[i] == ToUpper(text[i])
    ensures line[|text|] == NUL && forall i :: end <= i < |text| ==> line[i] == text[i]
  {
    end := key;
    while line[end] != NUL && !IsSpace(line[end])
      invariant key <= end <= |text| && line[|text|] == NUL
      invariant forall i :: key <= i < end ==> line[i] == ToUpper(text[i]) && !IsSpace(text[i])
      invariant forall i :: end <= i < |text| ==> line[i] == text[i]
      decreases |text| - end
    {
      line[end] := ToUpper(line[end]);
      end := end + 1;
    }
    WordEndIs(text, key, end);
  }

  /** Puts terminators over the white space behind the key, and returns where the value begins. */
  method CutKey(line: array<byte>, end: nat, ghost text: Bytes) returns (value: nat)
    requires end <= |text| < line.Length && line[|text|] == NUL && Plain(text)
    requires forall i :: end <= i < |text| ==> line[i] == text[i]
    modifies line
    ensures value == BlankEnd(text, end)
    ensures forall i :: 0 <= i < end ==> line[i] == old(line[i])
    ensures forall i :: end <= i < value ==> line[i] == NUL
    ensures line[|text|] == NUL && forall i :: value <= i < |text| ==> line[i] == text[i]
  {
    value := end;
    while line[value] != NUL && IsSpace(line[value])
      invariant end <= value <= |text| && line[|text|] == NUL
      invariant forall i :: 0 <= i < end ==> line[i] == old(line[i])
      invariant forall i :: end <= i < value ==> line[i] == NUL && IsSpace(text[i])
      invariant forall i :: value <= i < |text| ==> line[i] == text[i]
      decreases |text| - value
    {
      line[value] := NUL;
      value := value + 1;
    }
    BlankEndIs(text, end, value);
  }

  /** The strings that then stand in the buffer are the directive's key and value. */
  lemma CutStrings(text: Bytes, line: Bytes, key: nat, end: nat, value: nat)
    requires |text| < |line| && Plain(text) && key == BlankEnd(text, 0) < |text| && text[key] != HASH
    requires end == WordEnd(text, key) && value == BlankEnd(text, end)
    requires forall i :: key <= i < end ==> line[i] == ToUpper(text[i])
    requires forall i :: end <= i < value ==> line[i] == NUL
    requires line[|text|] == NUL && forall i :: value <= i < |text| ==> line[i] == text[i]
    ensures Read(text) == Some(Directive(CStr(line[key..]), CStr(line[value..])))
  {
    UpperAt(text, line, key, end);
    StringAt(line, key, Upper(text[key..end]));
    StringAt(line, value, text[value..]);
  }

  lemma UpperAt(text: Bytes, line: Bytes, key: nat, end: nat)
    requires key <= end <= |text| < |line| && Plain(text)
    requires forall i :: key <= i < end ==> line[i] == ToUpper(text[i])
    ensures var u := Upper(text[key..end]);
            Plain(u) && |u| == end - key && forall i :: 0 <= i < |u| ==> line[key + i] == u[i]
  {
  }

  lemma StringAt(line: Bytes, p: nat, s: Bytes)
    requires Plain(s) && p + |s| < |line| && line[p + |s|] == NUL
    requires forall i :: 0 <= i < |s| ==> line[p + i] == s[i]
    ensures CStr(line[p..]) == s
  {
    CStrIs(line[p..], s);
  }

  // ---- the directives of apcupsd.conf ----

  function Ascii(s: string): (r: Bytes)
    ensures |r| == |s| && forall i :: 0 <= i < |s| && s[i] < 128 as char ==> r[i] == s[i] as int
  {
    seq(|s|, i requires 0 <= i < |s| => if s[i] < 128 as char then s[i] as int else 0)
  }

  function Names(ss: seq<string>): seq<Bytes> {
    seq(|ss|, i requires 0 <= i < |ss| => Ascii(ss[i]))
  }

  const FILENAMEMAX := 4096

  /** Names in the order of their lists: the first one that fits is taken. */
  function OnOrOff(): seq<Bytes> { Names(["off", "on"]) }

  function Cables(): seq<Bytes> {
    Names(["simple", "smart", "ether", "940-0119A", "940-0127A", "940-0128A", "940-0020B", "940-0020C",
           "940-0023A", "940-0024B", "940-0024C", "940-1524C", "940-0024G", "940-0095A", "940-0095B", "940-0095C",
           "MAM-04-02-2000", "usb"])
  }

  function UpsClasses(): seq<Bytes> { Names(["standalone", "shareslave", "sharemaster"]) }

  function Logins(): seq<Bytes> { Names(["always", "disable", "timeout", "percent", "minutes"]) }

  function Modes(): seq<Bytes> { Names(["disable", "share"]) }

  function Types(): seq<Bytes> {
    Names(["backups", "sharebasic", "backupspro", "smartvsups", "newbackupspro", "backupspropnp", "smartups",
           "matrixups", "sharesmart", "dumb", "apcsmart", "usb", "snmp", "net", "test", "pcnet"])
  }

  function Facilities(): seq<Bytes> {
    Names(["daemon", "local0", "local1", "local2", "local3", "local4", "local5", "local6", "local7",
           "lpr", "mail", "news", "uucp", "user"])
  }

  function General(): seq<Pair> {
    [ Pair(Ascii("UPSNAME"), Str(UpsName, 100)),
      Pair(Ascii("UPSCABLE"), OneOf(Cable, Cables())),
      Pair(Ascii("UPSTYPE"), OneOf(Mode, Types())),
      Pair(Ascii("DEVICE"), Str(Device, MAXSTRING)),
      Pair(Ascii("POLLTIME"), Int(PollTime)) ]
  }

  function Paths(): seq<Pair> {
    [ Pair(Ascii("LOCKFILE"), Str(LockPath, FILENAMEMAX)),
      Pair(Ascii("SCRIPTDIR"), Str(ScriptDir, FILENAMEMAX)),
      Pair(Ascii("PWRFAILDIR"), Str(PwrFailPath, FILENAMEMAX)),
      Pair(Ascii("NOLOGINDIR"), Str(NoLoginPath, FILENAMEMAX)) ]
  }

  function PowerEvents(): seq<Pair> {
    [ Pair(Ascii("ANNOY"), Int(Annoy)),
      Pair(Ascii("ANNOYDELAY"), Int(AnnoyDelay)),
      Pair(Ascii("ONBATTERYDELAY"), Int(OnBattDelay)),
      Pair(Ascii("TIMEOUT"), Int(MaxTime)) ]
  }

  function PowerLimits(): seq<Pair> {
    [ Pair(Ascii("NOLOGON"), OneOf(NoLogin, Logins())),
      Pair(Ascii("BATTERYLEVEL"), Int(Percent)),
      Pair(Ascii("MINUTES"), Int(Runtime)),
      Pair(Ascii("KILLDELAY"), Int(KillDelay)) ]
  }

  function Network(): seq<Pair> {
    [ Pair(Ascii("NETSERVER"), OneOf(NetStats, OnOrOff())),
      Pair(Ascii("NISIP"), Str(NisIp, 64)),
      Pair(Ascii("NISPORT"), Int(StatusPort)) ]
  }

  function Events(): seq<Pair> {
    [ Pair(Ascii("EVENTSFILE"), Str(EventFile, FILENAMEMAX)),
      Pair(Ascii("EVENTSFILEMAX"), Int(EventFileMax)) ]
  }

  function SystemLog(): seq<Pair> {
    [ Pair(Ascii("FACILITY"), OneOf(SysFac, Facilities())),
      Pair(Ascii("STATFILE"), Str(StatFile, FILENAMEMAX)),
      Pair(Ascii("LOGSTATS"), OneOf(LogStats, OnOrOff())) ]
  }

  function LogTimes(): seq<Pair> {
    [ Pair(Ascii("STATTIME"), Int(StatTime)),
      Pair(Ascii("DATATIME"), Int(DataTime)) ]
  }

  function Sharing(): seq<Pair> {
    [ Pair(Ascii("UPSCLASS"), OneOf(UpsClass, UpsClasses())),
      Pair(Ascii("UPSMODE"), OneOf(ShareNet, Modes())),
      Pair(Ascii("NETTIME"), Int(PollTime)) ]
  }

  function ObsoleteOptions(): seq<Pair> {
    [ Pair(Ascii("CONTROL"), Obsolete(true)),
      Pair(Ascii("NETACCESS"), Obsolete(true)),
      Pair(Ascii("MASTER"), Obsolete(true)) ]
  }

  function ObsoleteSharing(): seq<Pair> {
    [ Pair(Ascii("USERMAGIC"), Obsolete(false)),
      Pair(Ascii("SLAVE"), Obsolete(false)),
      Pair(Ascii("NETPORT"), Obsolete(false)),
      Pair(Ascii("NETSTATUS"), Obsolete(false)),
      Pair(Ascii("SERVERPORT"), Obsolete(false)) ]
  }

  function ObsoleteEeprom(): seq<Pair> {
    [ Pair(Ascii("SELFTEST"), Obsolete(false)),
      Pair(Ascii("HITRANSFER"), Obsolete(false)),
      Pair(Ascii("LOTRANSFER"), Obsolete(false)),
      Pair(Ascii("LOWBATT"), Obsolete(false)),
      Pair(Ascii("WAKEUP"), Obsolete(false)),
      Pair(Ascii("RETURNCHARGE"), Obsolete(false)) ]
  }

  function ObsoletePower(): seq<Pair> {
    [ Pair(Ascii("OUTPUTVOLTS"), Obsolete(false)),
      Pair(Ascii("SLEEP"), Obsolete(false)),
      Pair(Ascii("BEEPSTATE"), Obsolete(false)),
      Pair(Ascii("BATTDATE"), Obsolete(false)),
      Pair(Ascii("SENSITIVITY"), Obsolete(false)) ]
  }

  function DaemonTable(): seq<Pair> { General() + Paths() + PowerEvents() + PowerLimits() + Network() + Events() }

  function LogTable(): seq<Pair> {
    SystemLog() + LogTimes() + Sharing() + ObsoleteOptions() + ObsoleteSharing() + ObsoleteEeprom() + ObsoletePower()
  }

  /** Two keys set the poll time; obsolete keys are ignored, three of them with an error. */
  function ApcTable(): seq<Pair> { DaemonTable() + LogTable() }

  /** The daemon's own table, on a file. */
  method LoadConfig(file: DiskFile, defaults: Settings) returns (settings: Settings, errors: nat)
    requires file.pos == 0
    modifies file`pos
    ensures Parsed(ApcTable(), defaults, Chunks(file.data), settings, errors)
  {
    var ups := new UpsConfig(ApcTable(), defaults);
    errors := ups.CheckForConfig(file);
    settings := ups.settings;
  }
}
