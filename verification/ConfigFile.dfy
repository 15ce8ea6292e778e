/** From the bytes of apcupsd.conf to the daemon's settings: what a line with a known key does, whatever
    else is in the file. */
module ConfigFile {
  import opened Wire
  import opened CText
  import opened Files
  import opened Scanning
  import opened Config
  import opened ConfigKeys

  /** The key of a field; two keys set the poll time. */
  function KeyOf(f: Field): string {
    match f
    case UpsName => "UPSNAME"
    case Cable => "UPSCABLE"
    case Mode => "UPSTYPE"
    case Device => "DEVICE"
    case LockPath => "LOCKFILE"
    case ScriptDir => "SCRIPTDIR"
    case PwrFailPath => "PWRFAILDIR"
    case NoLoginPath => "NOLOGINDIR"
    case Annoy => "ANNOY"
    case AnnoyDelay => "ANNOYDELAY"
    case OnBattDelay => "ONBATTERYDELAY"
    case MaxTime => "TIMEOUT"
    case NoLogin => "NOLOGON"
    case Percent => "BATTERYLEVEL"
    case Runtime => "MINUTES"
    case KillDelay => "KILLDELAY"
    case NetStats => "NETSERVER"
    case NisIp => "NISIP"
    case StatusPort => "NISPORT"
    case EventFile => "EVENTSFILE"
    case EventFileMax => "EVENTSFILEMAX"
    case SysFac => "FACILITY"
    case StatFile => "STATFILE"
    case LogStats => "LOGSTATS"
    case StatTime => "STATTIME"
    case DataTime => "DATATIME"
    case UpsClass => "UPSCLASS"
    case ShareNet => "UPSMODE"
    case PollTime => ""
  }

  /** What stands behind that key: a number, a text of so many bytes, or one of some names. */
  function HandlerOf(f: Field): Handler {
    match f
    case UpsName => Str(UpsName, 100)
    case Cable => OneOf(Cable, Cables())
    case Mode => OneOf(Mode, Types())
    case Device => Str(Device, 256)
    case LockPath => Str(LockPath, 4096)
    case ScriptDir => Str(ScriptDir, 4096)
    case PwrFailPath => Str(PwrFailPath, 4096)
    case NoLoginPath => Str(NoLoginPath, 4096)
    case NoLogin => OneOf(NoLogin, Logins())
    case NetStats => OneOf(NetStats, OnOrOff())
    case NisIp => Str(NisIp, 64)
    case EventFile => Str(EventFile, 4096)
    case SysFac => OneOf(SysFac, Facilities())
    case StatFile => Str(StatFile, 4096)
    case LogStats => OneOf(LogStats, OnOrOff())
    case UpsClass => OneOf(UpsClass, UpsClasses())
    case ShareNet => OneOf(ShareNet, Modes())
    case _ => Int(f)
  }

  /** Each key has an entry, with its field. */
  lemma KeyListed(f: Field) returns (i: nat)
    requires !f.PollTime?
    ensures i < |ApcTable()| && ApcTable()[i] == Pair(Ascii(KeyOf(f)), HandlerOf(f))
  {
    i := FieldPlace(f);
    if i < 9 { ListedFirst(f); } else if i < 22 { ListedNext(f); } else { ListedLast(f); }
  }

  lemma ListedFirst(f: Field)
    requires 0 <= FieldPlace(f) < 9
    ensures ApcTable()[FieldPlace(f)] == Pair(Ascii(KeyOf(f)), HandlerOf(f))
  {
  }

  lemma ListedNext(f: Field)
    requires 9 <= FieldPlace(f) < 22
    ensures ApcTable()[FieldPlace(f)] == Pair(Ascii(KeyOf(f)), HandlerOf(f))
  {
  }

  lemma ListedLast(f: Field)
    requires 22 <= FieldPlace(f) < 49
    ensures ApcTable()[FieldPlace(f)] == Pair(Ascii(KeyOf(f)), HandlerOf(f))
  {
  }

  // ---- a line and what comes after it ----

  /** Spaces and tabs. */
  predicate Blank(s: Bytes) { forall i :: 0 <= i < |s| ==> s[i] == 32 || s[i] == 9 }

  /** The name in capitals, each letter of the key in upper or lower case. */
  predicate IsKey(key: Bytes, name: string) {
    |key| == |name| && forall i :: 0 <= i < |key| ==> key[i] == name[i] as int || key[i] == name[i] as int + 32
  }

  /** A short line of text with its newline. */
  predicate OneLine(line: Bytes) {
    1 <= |line| <= 255 && line[|line| - 1] == 10 && (forall i :: 0 <= i < |line| - 1 ==> line[i] != 10) && 0 !in line
  }

  /** The text begins with the key, however indented. */
  ghost predicate Mentions(text: Bytes, name: string) {
    exists indent, key, rest :: StartsWithKey(text, name, indent, key, rest)
  }

  predicate StartsWithKey(text: Bytes, name: string, indent: Bytes, key: Bytes, rest: Bytes) {
    text == indent + key + rest && AllSpace(indent) && IsKey(key, name) && (rest != [] ==> IsSpace(rest[0]))
  }

  /** No later line has this key. */
  ghost predicate NotMentioned(after: Bytes, name: string) {
    forall j :: 0 <= j < |Chunks(after)| ==> !Mentions(CStr(Chunks(after)[j]), name)
  }

  predicate Capitals(name: string) { name != "" && forall i :: 0 <= i < |name| ==> 'A' <= name[i] <= 'Z' }

  lemma KeyIsUpper(key: Bytes, name: string)
    requires Capitals(name)
    ensures IsKey(key, name) <==> Upper(key) == Ascii(name)
  {
    if Upper(key) == Ascii(name) { UpperIsKey(key, name); }
    if IsKey(key, name) { assert Upper(key) == Ascii(name); }
  }

  lemma UpperIsKey(key: Bytes, name: string)
    requires Capitals(name) && Upper(key) == Ascii(name)
    ensures IsKey(key, name)
  {
    forall i | 0 <= i < |key| ensures key[i] == name[i] as int || key[i] == name[i] as int + 32 {
      assert Upper(key)[i] == Ascii(name)[i];
    }
  }

  lemma OtherKey(text: Bytes, name: string)
    requires Capitals(name) && !Mentions(text, name) && Read(text).Some?
    ensures Read(text).value.key != Ascii(name)
  {
    var from := BlankEnd(text, 0);
    var end := WordEnd(text, from);
    SplitTwice(text, from, end);
    assert !StartsWithKey(text, name, text[..from], text[from..end], text[end..]);
    KeyIsUpper(text[from..end], name);
  }

  lemma SplitTwice(s: Bytes, i: nat, j: nat)
    requires i <= j <= |s|
    ensures s == s[..i] + s[i..j] + s[j..] && (j < |s| ==> s[j..][0] == s[j])
  {
  }

  predicate Touches(e: Effect, f: Field) { (e.Set? || e.Undefined?) && e.f == f }

  lemma OtherLine(table: seq<Pair>, text: Bytes, name: string, h: Handler)
    requires Capitals(name) && !Mentions(text, name) && AllAgree(table, Ascii(name), h) && !h.Obsolete?
    ensures !Touches(LineEffect(table, text), h.f)
  {
    if Read(text).Some? {
      OtherKey(text, name);
      var d := Read(text).value;
      var k := Lookup(table, d.key);
      if k < |table| { assert Agrees(table[k], Ascii(name), h); }
    }
  }

  lemma {:induction false} LastTouchKnown(es: seq<Effect>, f: Field, i: nat)
    requires i < |es| && Sets(es[i], f) && forall j :: i < j < |es| ==> !Touches(es[j], f)
    ensures Known(es, f)
    decreases |es|
  {
    if i < |es| - 1 { LastTouchKnown(es[..|es| - 1], f, i); }
  }

  /** Whatever else is in the file, the last line with the key decides the field. */
  lemma LineSticks(table: seq<Pair>, was: Settings, before: Bytes, line: Bytes, after: Bytes, now: Settings,
                   errors: nat, name: string, h: Handler, v: Setting)
    requires Parsed(table, was, Chunks(before + line + after), now, errors)
    requires (before != [] ==> before[|before| - 1] == 10) && OneLine(line) && NotMentioned(after, name)
    requires Capitals(name) && AllAgree(table, Ascii(name), h) && !h.Obsolete?
    requires LineEffect(table, line) == Set(h.f, v)
    ensures h.f in now && now[h.f] == v
  {
    LineIsChunk(before, line, after);
    CStrPlain(line);
    OtherLines(table, after, name, h);
    EffectsStick(table, was, Chunks(before), line, Chunks(after), now, errors, h.f, v);
  }

  lemma EffectsStick(table: seq<Pair>, was: Settings, a: seq<Bytes>, line: Bytes, b: seq<Bytes>, now: Settings,
                     errors: nat, f: Field, v: Setting)
    requires Parsed(table, was, a + [line] + b, now, errors) && LineEffect(table, CStr(line)) == Set(f, v)
    requires forall j :: 0 <= j < |b| ==> !Touches(LineEffect(table, CStr(b[j])), f)
    ensures f in now && now[f] == v
  {
    var before, after := Effects(table, Texts(a)), Effects(table, Texts(b));
    EffectsOfTexts(table, a, line);
    EffectsConcat(table, a + [line], b);
    LastOneSticks(was, before, after, f, v);
    assert SameAt(now, Final(was, before + [Set(f, v)] + after), f);
  }

  lemma EffectsConcat(table: seq<Pair>, a: seq<Bytes>, b: seq<Bytes>)
    ensures Effects(table, Texts(a + b)) == Effects(table, Texts(a)) + Effects(table, Texts(b))
  {
  }

  lemma LastOneSticks(was: Settings, before: seq<Effect>, after: seq<Effect>, f: Field, v: Setting)
    requires forall j :: 0 <= j < |after| ==> !Touches(after[j], f)
    ensures var es := before + [Set(f, v)] + after;
            Known(es, f) && f in Final(was, es) && Final(was, es)[f] == v
  {
    var es, i := before + [Set(f, v)] + after, |before|;
    assert es[i] == Set(f, v);
    forall j | i < j < |es| ensures !Touches(es[j], f) { assert es[j] == after[j - i - 1]; }
    LastTouchKnown(es, f, i);
    LastEffectWins(was, es, f, i);
  }

  lemma OtherLines(table: seq<Pair>, after: Bytes, name: string, h: Handler)
    requires Capitals(name) && NotMentioned(after, name) && AllAgree(table, Ascii(name), h) && !h.Obsolete?
    ensures forall j :: 0 <= j < |Chunks(after)| ==> !Touches(LineEffect(table, CStr(Chunks(after)[j])), h.f)
  {
    forall j | 0 <= j < |Chunks(after)| ensures !Touches(LineEffect(table, CStr(Chunks(after)[j])), h.f) {
      OtherLine(table, CStr(Chunks(after)[j]), name, h);
    }
  }

  lemma Listed(table: seq<Pair>, name: string, h: Handler, i: nat,
               line: Bytes, indent: Bytes, key: Bytes, gap: Bytes, value: Bytes)
    requires Capitals(name) && IsKey(key, name) && Blank(indent) && Blank(gap) && gap != []
    requires line == indent + key + gap + value && (value != [] ==> !IsSpace(value[0]))
    requires AllAgree(table, Ascii(name), h) && i < |table| && table[i] == Pair(Ascii(name), h)
    ensures LineEffect(table, line) == Handle(h, value)
  {
    KeyIsUpper(key, name);
    ReadsDirective(indent, key, gap, value);
    var k := Lookup(table, Ascii(name));
    assert Agrees(table[k], Ascii(name), h);
  }

  lemma KeyInCapitals(f: Field)
    requires !f.PollTime?
    ensures Capitals(KeyOf(f))
  {
    if FieldPlace(f) < 9 { FirstInCapitals(f); }
    else if FieldPlace(f) < 20 { NextInCapitals(f); }
    else { LastInCapitals(f); }
  }

  lemma FirstInCapitals(f: Field)
    requires 0 <= FieldPlace(f) < 9
    ensures Capitals(KeyOf(f))
  {
  }

  lemma NextInCapitals(f: Field)
    requires 9 <= FieldPlace(f) < 20
    ensures Capitals(KeyOf(f))
  {
  }

  lemma LastInCapitals(f: Field)
    requires 20 <= FieldPlace(f)
    ensures Capitals(KeyOf(f))
  {
  }

  lemma HandlerFits(f: Field)
    ensures !HandlerOf(f).Obsolete? && HandlerOf(f).f == f
  {
  }

  /** Whatever else is in the file and however the line is laid out: the last line with the key decides. */
  lemma KeySticks(was: Settings, before: Bytes, line: Bytes, after: Bytes, now: Settings, errors: nat,
                  f: Field, indent: Bytes, key: Bytes, gap: Bytes, value: Bytes, v: Setting)
    requires Parsed(ApcTable(), was, Chunks(before + line + after), now, errors) && LastWith(before, line, after, f)
    requires LaidOut(line, f, indent, key, gap, value) && Handle(HandlerOf(f), value) == Set(f, v)
    ensures f in now && now[f] == v
  {
    var i := KeyListed(f);
    HandlerFits(f);
    Alone(i);
    KeyInCapitals(f);
    Listed(ApcTable(), KeyOf(f), HandlerOf(f), i, line, indent, key, gap, value);
    LineSticks(ApcTable(), was, before, line, after, now, errors, KeyOf(f), HandlerOf(f), v);
  }

  /** A line of its own in the file, and no later one with the field's key. */
  ghost predicate LastWith(before: Bytes, line: Bytes, after: Bytes, f: Field) {
    (before != [] ==> before[|before| - 1] == 10) && OneLine(line) && NotMentioned(after, KeyOf(f))
  }

  /** The line holds the field's key, in whatever case, and behind it the value. */
  predicate LaidOut(line: Bytes, f: Field, indent: Bytes, key: Bytes, gap: Bytes, value: Bytes) {
    && !f.PollTime? && line == indent + key + gap + value && (value != [] ==> !IsSpace(value[0]))
    && Blank(indent) && IsKey(key, KeyOf(f)) && Blank(gap) && gap != []
  }

  /** The last line with a key that takes a number decides its field: after the file is read the field holds
      that number, however the line is laid out and whatever other lines say. */
  lemma NumberSticks(was: Settings, before: Bytes, line: Bytes, after: Bytes, now: Settings, errors: nat,
                     f: Field, indent: Bytes, key: Bytes, gap: Bytes, value: Bytes, n: int, width: nat, rest: Bytes)
    requires Parsed(ApcTable(), was, Chunks(before + line + after), now, errors) && LastWith(before, line, after, f)
    requires LaidOut(line, f, indent, key, gap, value) && HandlerOf(f) == Int(f)
    requires StartsWithNumber(value, n, width, rest)
    ensures f in now && now[f] == Number(n)
  {
    ReadsNumbers(value);
    KeySticks(was, before, line, after, now, errors, f, indent, key, gap, value, Number(n));
  }

  /** The same for a text: what the line holds up to a comment, without white space behind it, cut to the field. */
  lemma TextSticks(was: Settings, before: Bytes, line: Bytes, after: Bytes, now: Settings, errors: nat,
                   f: Field, size: nat, indent: Bytes, key: Bytes, gap: Bytes, value: Bytes,
                   t: Bytes, space: Bytes, comment: Bytes)
    requires Parsed(ApcTable(), was, Chunks(before + line + after), now, errors) && LastWith(before, line, after, f)
    requires LaidOut(line, f, indent, key, gap, value) && HandlerOf(f) == Str(f, size) && size > 0
    requires HoldsText(value, t, space, comment)
    ensures f in now && now[f] == Text(if |t| < size then t else t[..size - 1])
  {
    TextHandled(f, size, value, t, space, comment);
    KeySticks(was, before, line, after, now, errors, f, indent, key, gap, value,
              Text(if |t| < size then t else t[..size - 1]));
  }

  lemma TextHandled(f: Field, size: nat, value: Bytes, t: Bytes, space: Bytes, comment: Bytes)
    requires HoldsText(value, t, space, comment) && size > 0
    ensures Handle(Str(f, size), value) == Set(f, Text(if |t| < size then t else t[..size - 1]))
  {
    ReadsTexts(value);
  }

  /** The same for a name: the position of the first name equal to the word in whatever case. */
  lemma ChoiceSticks(was: Settings, before: Bytes, line: Bytes, after: Bytes, now: Settings, errors: nat,
                     f: Field, names: seq<Bytes>, indent: Bytes, key: Bytes, gap: Bytes, value: Bytes,
                     word: Bytes, rest: Bytes, k: nat)
    requires Parsed(ApcTable(), was, Chunks(before + line + after), now, errors) && LastWith(before, line, after, f)
    requires LaidOut(line, f, indent, key, gap, value) && HandlerOf(f) == OneOf(f, names)
    requires StartsWithWord(value, word, rest)
    requires k < |names| && SameName(names[k], word) && forall i :: 0 <= i < k ==> !SameName(names[i], word)
    ensures f in now && now[f] == Choice(k)
  {
    ChoiceHandled(f, names, value, word, rest, k);
    KeySticks(was, before, line, after, now, errors, f, indent, key, gap, value, Choice(k));
  }

  lemma ChoiceHandled(f: Field, names: seq<Bytes>, value: Bytes, word: Bytes, rest: Bytes, k: nat)
    requires StartsWithWord(value, word, rest)
    requires k < |names| && SameName(names[k], word) && forall i :: 0 <= i < k ==> !SameName(names[i], word)
    ensures Handle(OneOf(f, names), value) == Set(f, Choice(k))
  {
    ReadsWords(value);
    SameNamesAre(names, word);
  }
}
