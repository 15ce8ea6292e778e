/** The answer to an EEPROM query: records for several locales, parsed for one. */
module Eeprom {
  import opened Wire
  import opened CText
  import opened Scanning

  const HASH: byte := 35
  const ALL_LOCALES: byte := 52  // '4'
  const MAX_CMDS := 15
  const VALSIZE := 50

  /** A record offers `num` values of `size` characters each for a command, in one locale. */
  datatype Record = Record(cmd: byte, locale: byte, num: nat, size: nat, vals: Bytes)

  datatype Item = Separator | Rec(r: Record)

  /** `num` values of `size` characters, one after another. */
  function Total(num: nat, size: nat): nat { if num == 0 then 0 else size + Total(num - 1, size) }

  lemma {:induction false} TotalIsProduct(num: nat, size: nat)
    ensures Total(num, size) == num * size
  {
    if num > 0 {
      TotalIsProduct(num - 1, size);
      assert num * size == size + (num - 1) * size;
    }
  }

  predicate ValidItem(i: Item) {
    match i
    case Separator => true
    case Rec(r) =>
      && r.cmd != NUL && r.cmd != HASH && r.num <= 9 && r.size <= 9
      && |r.vals| == Total(r.num, r.size) && Plain(r.vals)
  }

  function Encode(i: Item): Bytes
    requires ValidItem(i)
  {
    match i
    case Separator => [HASH]
    case Rec(r) => [r.cmd, r.locale, ZERO + r.num, ZERO + r.size] + r.vals
  }

  /** A record is its command, its locale, two digits and its values. */
  lemma RecordText(r: Record)
    requires ValidItem(Rec(r))
    ensures var e := Encode(Rec(r));
            && |e| == 4 + r.num * r.size && e[0] == r.cmd && e[1] == r.locale
            && e[2] as int == 48 + r.num && e[3] as int == 48 + r.size && e[4..] == r.vals
    ensures Encode(Separator) == [35]
  {
    TotalIsProduct(r.num, r.size);
  }

  predicate AllValid(items: seq<Item>) { forall k :: 0 <= k < |items| ==> ValidItem(items[k]) }

  function EncodeAll(items: seq<Item>): Bytes
    requires AllValid(items)
  {
    if items == [] then [] else Encode(items[0]) + EncodeAll(items[1..])
  }

  // ---- the grammar of well-formed strings ----

  function Length(i: Item): nat {
    match i
    case Separator => 1
    case Rec(r) => 4 + |r.vals|
  }

  /** Reads the item that stands at `p`, if one does. */
  function ItemAt(s: Bytes, p: nat): (r: Option<Item>)
    requires p < |s|
    ensures r.Some? ==> p + Length(r.value) <= |s|
  {
    if s[p] == HASH then Some(Separator)
    else if s[p] == NUL || |s| < p + 4 || !IsDigit(s[p + 2]) || !IsDigit(s[p + 3]) then None
    else Values(s, p, s[p + 2] - ZERO, s[p + 3] - ZERO, p + 4)
  }

  function Values(s: Bytes, p: nat, num: nat, size: nat, from: nat): (r: Option<Item>)
    requires p + 1 < from <= |s|
    ensures r.Some? ==> r.value.Rec? && from + |r.value.r.vals| <= |s|
  {
    var n := Total(num, size);
    if |s| < from + n || !Plain(s[from..from + n]) then None
    else Some(Rec(Record(s[p], s[p + 1], num, size, s[from..from + n])))
  }

  /** Item `i` stands at `p`. */
  predicate StandsAt(s: Bytes, p: nat, i: Item) {
    && p + Length(i) <= |s| && s[p] != NUL
    && match i
       case Separator => s[p] == HASH
       case Rec(r) =>
         && s[p] == r.cmd != HASH && s[p + 1] == r.locale
         && s[p + 2] == ZERO + r.num && s[p + 3] == ZERO + r.size
         && s[p + 4..p + 4 + |r.vals|] == r.vals
  }

  lemma ItemStands(s: Bytes, p: nat)
    requires p < |s| && ItemAt(s, p).Some?
    ensures var i := ItemAt(s, p).value; StandsAt(s, p, i) && ValidItem(i)
  {
  }

  lemma StandingItem(s: Bytes, p: nat, i: Item)
    requires StandsAt(s, p, i) && ValidItem(i)
    ensures ItemAt(s, p) == Some(i)
  {
  }

  /** A valid item stands where it is written. */
  lemma EncodedStands(s: Bytes, p: nat, i: Item)
    requires ValidItem(i) && p + Length(i) <= |s| && s[p..p + Length(i)] == Encode(i)
    ensures StandsAt(s, p, i)
  {
    var e := s[p..p + Length(i)];
    assert s[p] == e[0];
    if i.Rec? {
      assert s[p + 1] == e[1] && s[p + 2] == e[2] && s[p + 3] == e[3];
      assert s[p + 4..p + Length(i)] == e[4..] == i.r.vals;
    }
  }

  lemma StandingEncoded(s: Bytes, p: nat, i: Item)
    requires StandsAt(s, p, i) && ValidItem(i)
    ensures s[p..p + Length(i)] == Encode(i)
  {
    if i.Rec? {
      assert s[p..p + 4] == [i.r.cmd, i.r.locale, ZERO + i.r.num, ZERO + i.r.size];
      assert s[p..p + Length(i)] == s[p..p + 4] + s[p + 4..p + Length(i)];
    }
  }

  /** The items of a well-formed string from `p` on. */
  function Items(s: Bytes, p: nat): Option<seq<Item>>
    requires p <= |s|
    decreases |s| - p
  {
    if p == |s| then Some([])
    else
      match ItemAt(s, p)
      case None => None
      case Some(i) =>
        match Items(s, p + Length(i))
        case None => None
        case Some(rest) => Some([i] + rest)
  }

  /** The items `left` stand one after another from `p` to the end of the string. */
  ghost predicate StandInRow(s: Bytes, p: nat, left: seq<Item>)
    decreases |left|
  {
    if left == [] then p == |s|
    else p < |s| && ValidItem(left[0]) && StandsAt(s, p, left[0]) && StandInRow(s, p + Length(left[0]), left[1..])
  }

  lemma {:induction false} ItemsStandInRow(s: Bytes, p: nat)
    requires p <= |s| && Items(s, p).Some?
    ensures StandInRow(s, p, Items(s, p).value)
    decreases |s| - p
  {
    if p < |s| {
      var i := ItemAt(s, p).value;
      ItemStands(s, p);
      ItemsStandInRow(s, p + Length(i));
      var rest := Items(s, p + Length(i)).value;
      assert ([i] + rest)[1..] == rest;
    }
  }

  lemma {:induction false} RowIsItems(s: Bytes, p: nat, left: seq<Item>)
    requires p <= |s| && StandInRow(s, p, left)
    ensures Items(s, p) == Some(left)
    decreases |left|
  {
    if left != [] {
      StandingItem(s, p, left[0]);
      RowIsItems(s, p + Length(left[0]), left[1..]);
      assert [left[0]] + left[1..] == left;
    }
  }

  lemma {:induction false} EncodedRow(s: Bytes, p: nat, items: seq<Item>)
    requires AllValid(items) && p <= |s| && s[p..] == EncodeAll(items)
    ensures StandInRow(s, p, items)
    decreases |items|
  {
    if items != [] {
      FirstOfRow(s, p, items);
      EncodedRow(s, p + Length(items[0]), items[1..]);
    }
  }

  lemma FirstOfRow(s: Bytes, p: nat, items: seq<Item>)
    requires items != [] && AllValid(items) && p <= |s| && s[p..] == EncodeAll(items)
    ensures AllValid(items[1..])
    ensures p + Length(items[0]) <= |s| && s[p + Length(items[0])..] == EncodeAll(items[1..])
    ensures StandInRow(s, p + Length(items[0]), items[1..]) ==> StandInRow(s, p, items)
  {
    Uncons(items);
    FirstStands(s, p, items[0], EncodeAll(items[1..]));
  }

  lemma Uncons(items: seq<Item>)
    requires items != [] && AllValid(items)
    ensures ValidItem(items[0]) && AllValid(items[1..])
    ensures EncodeAll(items) == Encode(items[0]) + EncodeAll(items[1..])
  {
  }

  lemma FirstStands(s: Bytes, p: nat, i: Item, rest: Bytes)
    requires ValidItem(i) && p <= |s| && s[p..] == Encode(i) + rest
    ensures StandsAt(s, p, i) && p < |s| && p + Length(i) <= |s| && s[p + Length(i)..] == rest
  {
    Splits(s, p, Encode(i), rest);
    EncodedStands(s, p, i);
  }

  /** Every list of items is read back from its encoding. */
  lemma ItemsOfEncoded(s: Bytes, p: nat, items: seq<Item>)
    requires AllValid(items) && p <= |s| && s[p..] == EncodeAll(items)
    ensures Items(s, p) == Some(items)
  {
    EncodedRow(s, p, items);
    RowIsItems(s, p, items);
  }

  lemma Splits(s: Bytes, p: nat, e: Bytes, rest: Bytes)
    requires p <= |s| && s[p..] == e + rest
    ensures p + |e| <= |s| && s[p..p + |e|] == e && s[p + |e|..] == rest
  {
    assert s[p..][..|e|] == e && s[p..][|e|..] == rest;
  }

  lemma Joins(s: Bytes, p: nat, q: nat)
    requires p <= q <= |s|
    ensures s[p..] == s[p..q] + s[q..]
  {
  }

  /** A string is well formed only if it is the encoding of its items. */
  lemma {:induction false} EncodedItems(s: Bytes, p: nat)
    requires p <= |s| && Items(s, p).Some?
    ensures AllValid(Items(s, p).value) && EncodeAll(Items(s, p).value) == s[p..]
    decreases |s| - p
  {
    if p < |s| {
      var i := ItemAt(s, p).value;
      ItemStands(s, p);
      StandingEncoded(s, p, i);
      EncodedItems(s, p + Length(i));
      EncodeCons(i, Items(s, p + Length(i)).value);
      Joins(s, p, p + Length(i));
    }
  }

  lemma EncodeCons(i: Item, rest: seq<Item>)
    requires ValidItem(i) && AllValid(rest)
    ensures AllValid([i] + rest) && EncodeAll([i] + rest) == Encode(i) + EncodeAll(rest)
  {
    assert ([i] + rest)[1..] == rest;
  }

  /** The records of the wanted locale, in order. */
  function Selected(items: seq<Item>, locale: byte): seq<Record> {
    if items == [] then []
    else
      var rest := Selected(items[1..], locale);
      match items[0]
      case Separator => rest
      case Rec(r) => if Wanted(items[0], locale) then [r] + rest else rest
  }

  /** Exactly the records of the locale and those for all locales, in order. */
  lemma {:induction false} SelectedConcat(a: seq<Item>, b: seq<Item>, locale: byte)
    ensures Selected(a + b, locale) == Selected(a, locale) + Selected(b, locale)
    ensures Selected([Separator], locale) == []
    ensures forall r :: Selected([Rec(r)], locale) == if r.locale == 52 || r.locale == locale then [r] else []
  {
    if a == [] {
      assert a + b == b;
    } else {
      assert (a + b)[1..] == a[1..] + b;
      SelectedConcat(a[1..], b, locale);
    }
  }

  /** What `cmd[15]` keeps of a record: its locale is not stored. */
  datatype Entry = Entry(cmd: byte, size: nat, num: nat, cmdvals: Bytes)

  function Stored(r: Record): Entry { Entry(r.cmd, r.size, r.num, r.vals) }

  predicate Fits(rs: seq<Record>) {
    |rs| <= MAX_CMDS && forall k :: 0 <= k < |rs| ==> |rs[k].vals| <= VALSIZE
  }

  predicate Wanted(i: Item, locale: byte) { i.Rec? && (i.r.locale == ALL_LOCALES || i.r.locale == locale) }

  /** What is left to select, one item further on. */
  lemma SelectedStep(all: seq<Record>, n: nat, left: seq<Item>, locale: byte)
    requires left != [] && n <= |all| && Selected(left, locale) == all[n..]
    ensures if Wanted(left[0], locale)
            then n < |all| && all[n] == left[0].r && Selected(left[1..], locale) == all[n + 1..]
            else Selected(left[1..], locale) == all[n..]
  {
    if Wanted(left[0], locale) {
      assert all[n] == all[n..][0] && all[n..][1..] == all[n + 1..];
    }
  }

  class CommandTable {
    const cmd: array<Entry>
    var ncmd: nat

    constructor ()
      ensures cmd.Length == MAX_CMDS && ncmd == 0 && fresh(cmd)
    {
      cmd := new Entry[MAX_CMDS](_ => Entry(NUL, 0, 0, []));
      ncmd := 0;
    }

    /** `eprom` is a string; reading at its end gives the terminator. */
    method ParseEepromCmds(eprom: Bytes, locale: byte)
      requires cmd.Length == MAX_CMDS
      requires Items(eprom, 0).Some? && Fits(Selected(Items(eprom, 0).value, locale))
      modifies this`ncmd, cmd
      ensures var rs := Selected(Items(eprom, 0).value, locale);
              && ncmd == |rs| && forall k :: 0 <= k < ncmd ==> cmd[k] == Stored(rs[k])
      ensures var rs := Selected(Items(eprom, 0).value, locale);
              forall k :: 0 <= k < ncmd ==>
                && cmd[k].cmd == rs[k].cmd && cmd[k].size == rs[k].size && cmd[k].num == rs[k].num
                && cmd[k].cmdvals == rs[k].vals
    {
      ghost var left := Items(eprom, 0).value;
      ghost var all := Selected(left, locale);
      ItemsStandInRow(eprom, 0);
      ncmd := 0;
      var p := 0;
      while true
        invariant 0 <= p <= |eprom| && StandInRow(eprom, p, left)
        invariant ncmd <= |all| && Selected(left, locale) == all[ncmd..]
        invariant forall k :: 0 <= k < ncmd ==> cmd[k] == Stored(all[k])
        decreases |eprom| - p
      {
        ghost var i := Separator;
        if p < |eprom| {
          SelectedStep(all, ncmd, left, locale);
          i, left := left[0], left[1..];
        }
        var more;
        p, more := ParseItem(eprom, p, locale, i);
        if !more { break; }
      }
    }

    /** One turn of the loop: a separator or a record, or the end of the string. */
    method ParseItem(eprom: Bytes, p: nat, locale: byte, ghost i: Item) returns (next: nat, more: bool)
      requires cmd.Length == MAX_CMDS && p <= |eprom|
      requires p < |eprom| ==> ValidItem(i) && StandsAt(eprom, p, i) && (Wanted(i, locale) ==> ncmd < MAX_CMDS)
      modifies this`ncmd, cmd
      ensures more <==> p < |eprom|
      ensures more ==> next == p + Length(i)
      ensures if more && Wanted(i, locale) then ncmd == old(ncmd) + 1 && cmd[old(ncmd)] == Stored(i.r)
              else ncmd == old(ncmd)
      ensures forall k :: 0 <= k < MAX_CMDS && k != old(ncmd) ==> cmd[k] == old(cmd[k])
    {
      var c := if p < |eprom| then eprom[p] else NUL;
      next, more := p + 1, true;
      if c == NUL { return next, false; }
      if c == HASH { return; }
      next := TakeRecord(eprom, next, c, locale, i.r);
    }

    /** The rest of a record: stored if its locale is wanted, skipped whole if not. */
    method TakeRecord(eprom: Bytes, p: nat, c: byte, locale: byte, ghost r: Record) returns (next: nat)
      requires cmd.Length == MAX_CMDS && 0 < p && ValidItem(Rec(r)) && StandsAt(eprom, p - 1, Rec(r))
      requires c == eprom[p - 1] && (Wanted(Rec(r), locale) ==> ncmd < MAX_CMDS)
      modifies this`ncmd, cmd
      ensures next == p - 1 + Length(Rec(r))
      ensures if Wanted(Rec(r), locale) then ncmd == old(ncmd) + 1 && cmd[old(ncmd)] == Stored(r)
              else ncmd == old(ncmd)
      ensures forall k :: 0 <= k < MAX_CMDS && k != old(ncmd) ==> cmd[k] == old(cmd[k])
    {
      var l := eprom[p];
      var n, size := eprom[p + 1] - ZERO, eprom[p + 2] - ZERO;
      next := p + 3;
      var vals := n * size;
      TotalIsProduct(n, size);
      if l != ALL_LOCALES && l != locale { return next + vals; }
      cmd[ncmd] := Entry(c, size, n, eprom[next..next + vals]);
      next := next + vals;
      ncmd := ncmd + 1;
    }
  }
}
