/** The table of apcupsd.conf's directives: no key stands twice in it, and each sets a field of its own, but
    for the two that set the poll time. */
module ConfigKeys {
  import opened Wire
  import opened Config

  /** An entry with this key has the handler `h`, and no other entry sets its field. */
  predicate Agrees(p: Pair, key: Bytes, h: Handler) {
    (p.key == key <==> SetsField(p.handler, h)) && (p.key == key ==> p.handler == h)
  }

  predicate SetsField(h: Handler, h': Handler) { !h.Obsolete? && !h'.Obsolete? && h.f == h'.f }

  predicate AllAgree(t: seq<Pair>, key: Bytes, h: Handler) { forall i :: 0 <= i < |t| ==> Agrees(t[i], key, h) }

  // ---- no two entries have the same key, and but for the poll time no two set the same field ----

  /** Where the entry with that key stands, going by the key's length and three of its letters. */
  function Place(key: Bytes): int { if |key| < 5 then -1 else PlaceOf(|key|, key[0], key[1], key[4]) }

  function PlaceOf(n: nat, a: byte, b: byte, c: byte): int {
    if n == 5 then
      if a == 65 && b == 78 && c == 89 then 9
      else if a == 78 && b == 73 && c == 80 then 18
      else if a == 83 && b == 76 && c == 69 then 34
      else if a == 83 && b == 76 && c == 80 then 45
      else -1
    else if n == 6 then
      if a == 68 && b == 69 && c == 67 then 3
      else if a == 77 && b == 65 && c == 69 then 32
      else if a == 87 && b == 65 && c == 85 then 42
      else -1
    else if n == 7 then
      if a == 85 && b == 80 && c == 65 then 0
      else if a == 85 && b == 80 && c == 89 then 2
      else if a == 84 && b == 73 && c == 79 then 12
      else if a == 78 && b == 79 && c == 71 then 13
      else if a == 77 && b == 73 && c == 84 then 15
      else if a == 78 && b == 73 && c == 79 then 19
      else if a == 85 && b == 80 && c == 79 then 28
      else if a == 78 && b == 69 && c == 73 then 29
      else if a == 67 && b == 79 && c == 82 then 30
      else if a == 78 && b == 69 && c == 79 then 35
      else if a == 76 && b == 79 && c == 65 then 41
      else -1
    else if n == 8 then
      if a == 85 && b == 80 && c == 65 then 1
      else if a == 80 && b == 79 && c == 84 then 4
      else if a == 76 && b == 79 && c == 70 then 5
      else if a == 70 && b == 65 && c == 76 then 22
      else if a == 83 && b == 84 && c == 70 then 23
      else if a == 76 && b == 79 && c == 84 then 24
      else if a == 83 && b == 84 && c == 84 then 25
      else if a == 68 && b == 65 && c == 84 then 26
      else if a == 85 && b == 80 && c == 76 then 27
      else if a == 83 && b == 69 && c == 84 then 38
      else if a == 66 && b == 65 && c == 68 then 47
      else -1
    else if n == 9 then
      if a == 83 && b == 67 && c == 80 then 6
      else if a == 75 && b == 73 && c == 68 then 16
      else if a == 78 && b == 69 && c == 69 then 17
      else if a == 78 && b == 69 && c == 67 then 31
      else if a == 85 && b == 83 && c == 77 then 33
      else if a == 78 && b == 69 && c == 84 then 36
      else if a == 66 && b == 69 && c == 83 then 46
      else -1
    else if n == 10 then
      if a == 80 && b == 87 && c == 65 then 7
      else if a == 78 && b == 79 && c == 71 then 8
      else if a == 65 && b == 78 && c == 89 then 10
      else if a == 69 && b == 86 && c == 84 then 20
      else if a == 83 && b == 69 && c == 69 then 37
      else if a == 72 && b == 73 && c == 65 then 39
      else if a == 76 && b == 79 && c == 65 then 40
      else -1
    else if n == 11 then
      if a == 79 && b == 85 && c == 85 then 44
      else if a == 83 && b == 69 && c == 73 then 48
      else -1
    else if n == 12 then
      if a == 66 && b == 65 && c == 69 then 14
      else if a == 82 && b == 69 && c == 82 then 43
      else -1
    else if n == 13 then
      if a == 69 && b == 86 && c == 84 then 21
      else -1
    else if n == 14 then
      if a == 79 && b == 78 && c == 84 then 11
      else -1
    else -1
  }

  function FieldPlace(f: Field): int {
    match f
    case UpsName => 0
    case Cable => 1
    case Mode => 2
    case Device => 3
    case LockPath => 5
    case ScriptDir => 6
    case PwrFailPath => 7
    case NoLoginPath => 8
    case Annoy => 9
    case AnnoyDelay => 10
    case OnBattDelay => 11
    case MaxTime => 12
    case NoLogin => 13
    case Percent => 14
    case Runtime => 15
    case KillDelay => 16
    case NetStats => 17
    case NisIp => 18
    case StatusPort => 19
    case EventFile => 20
    case EventFileMax => 21
    case SysFac => 22
    case StatFile => 23
    case LogStats => 24
    case StatTime => 25
    case DataTime => 26
    case UpsClass => 27
    case ShareNet => 28
    case PollTime => -1
  }

  predicate Placed(t: seq<Pair>, from: nat) {
    forall i :: 0 <= i < |t| ==>
      && Place(t[i].key) == from + i
      && (t[i].handler.Obsolete? || t[i].handler.f.PollTime? || FieldPlace(t[i].handler.f) == from + i)
  }

  lemma PlacedConcat(a: seq<Pair>, b: seq<Pair>, from: nat)
    requires Placed(a, from) && Placed(b, from + |a|)
    ensures Placed(a + b, from)
  {
  }

  lemma GeneralPlaced()
    ensures Placed(General(), 0)
  {
    assert Place(General()[0].key) == 0;
    assert Place(General()[1].key) == 1;
    assert Place(General()[2].key) == 2;
    assert Place(General()[3].key) == 3;
    assert Place(General()[4].key) == 4;
  }

  lemma PathsPlaced()
    ensures Placed(Paths(), 5)
  {
    assert Place(Paths()[0].key) == 5;
    assert Place(Paths()[1].key) == 6;
    assert Place(Paths()[2].key) == 7;
    assert Place(Paths()[3].key) == 8;
  }

  lemma PowerEventsPlaced()
    ensures Placed(PowerEvents(), 9)
  {
    assert Place(PowerEvents()[0].key) == 9;
    assert Place(PowerEvents()[1].key) == 10;
    assert Place(PowerEvents()[2].key) == 11;
    assert Place(PowerEvents()[3].key) == 12;
  }

  lemma PowerLimitsPlaced()
    ensures Placed(PowerLimits(), 13)
  {
    assert Place(PowerLimits()[0].key) == 13;
    assert Place(PowerLimits()[1].key) == 14;
    assert Place(PowerLimits()[2].key) == 15;
    assert Place(PowerLimits()[3].key) == 16;
  }

  lemma NetworkPlaced()
    ensures Placed(Network(), 17)
  {
    assert Place(Network()[0].key) == 17;
    assert Place(Network()[1].key) == 18;
    assert Place(Network()[2].key) == 19;
  }

  lemma EventsPlaced()
    ensures Placed(Events(), 20)
  {
    assert Place(Events()[0].key) == 20;
    assert Place(Events()[1].key) == 21;
  }

  lemma SystemLogPlaced()
    ensures Placed(SystemLog(), 22)
  {
    assert Place(SystemLog()[0].key) == 22;
    assert Place(SystemLog()[1].key) == 23;
    assert Place(SystemLog()[2].key) == 24;
  }

  lemma LogTimesPlaced()
    ensures Placed(LogTimes(), 25)
  {
    assert Place(LogTimes()[0].key) == 25;
    assert Place(LogTimes()[1].key) == 26;
  }

  lemma SharingPlaced()
    ensures Placed(Sharing(), 27)
  {
    assert Place(Sharing()[0].key) == 27;
    assert Place(Sharing()[1].key) == 28;
    assert Place(Sharing()[2].key) == 29;
  }

  lemma ObsoleteOptionsPlaced()
    ensures Placed(ObsoleteOptions(), 30)
  {
    assert Place(ObsoleteOptions()[0].key) == 30;
    assert Place(ObsoleteOptions()[1].key) == 31;
    assert Place(ObsoleteOptions()[2].key) == 32;
  }

  lemma ObsoleteSharingPlaced()
    ensures Placed(ObsoleteSharing(), 33)
  {
    assert Place(ObsoleteSharing()[0].key) == 33;
    assert Place(ObsoleteSharing()[1].key) == 34;
    assert Place(ObsoleteSharing()[2].key) == 35;
    assert Place(ObsoleteSharing()[3].key) == 36;
    assert Place(ObsoleteSharing()[4].key) == 37;
  }

  lemma ObsoleteEepromPlaced()
    ensures Placed(ObsoleteEeprom(), 38)
  {
    assert Place(ObsoleteEeprom()[0].key) == 38;
    assert Place(ObsoleteEeprom()[1].key) == 39;
    assert Place(ObsoleteEeprom()[2].key) == 40;
    assert Place(ObsoleteEeprom()[3].key) == 41;
    assert Place(ObsoleteEeprom()[4].key) == 42;
    assert Place(ObsoleteEeprom()[5].key) == 43;
  }

  lemma ObsoletePowerPlaced()
    ensures Placed(ObsoletePower(), 44)
  {
    assert Place(ObsoletePower()[0].key) == 44;
    assert Place(ObsoletePower()[1].key) == 45;
    assert Place(ObsoletePower()[2].key) == 46;
    assert Place(ObsoletePower()[3].key) == 47;
    assert Place(ObsoletePower()[4].key) == 48;
  }

  lemma TablePlaced()
    ensures Placed(ApcTable(), 0)
  {
    GeneralPlaced();
    PathsPlaced();
    PowerEventsPlaced();
    PowerLimitsPlaced();
    NetworkPlaced();
    EventsPlaced();
    SystemLogPlaced();
    LogTimesPlaced();
    SharingPlaced();
    ObsoleteOptionsPlaced();
    ObsoleteSharingPlaced();
    ObsoleteEepromPlaced();
    ObsoletePowerPlaced();
    JoinFirst();
    JoinRest();
    PlacedConcat(DaemonTable(), LogTable(), 0);
  }

  lemma JoinFirst()
    requires Placed(General(), 0) && Placed(Paths(), 5) && Placed(PowerEvents(), 9)
    requires Placed(PowerLimits(), 13) && Placed(Network(), 17) && Placed(Events(), 20)
    ensures Placed(DaemonTable(), 0) && |DaemonTable()| == 22
  {
    PlacedConcat(General(), Paths(), 0);
    PlacedConcat(General() + Paths(), PowerEvents(), 0);
    PlacedConcat(General() + Paths() + PowerEvents(), PowerLimits(), 0);
    PlacedConcat(General() + Paths() + PowerEvents() + PowerLimits(), Network(), 0);
    PlacedConcat(General() + Paths() + PowerEvents() + PowerLimits() + Network(), Events(), 0);
  }

  lemma JoinRest()
    requires Placed(SystemLog(), 22) && Placed(LogTimes(), 25) && Placed(Sharing(), 27)
    requires Placed(ObsoleteOptions(), 30) && Placed(ObsoleteSharing(), 33)
    requires Placed(ObsoleteEeprom(), 38) && Placed(ObsoletePower(), 44)
    ensures Placed(LogTable(), 22) && |LogTable()| == 27
  {
    var a := SystemLog() + LogTimes() + Sharing();
    PlacedConcat(SystemLog(), LogTimes(), 22);
    PlacedConcat(SystemLog() + LogTimes(), Sharing(), 22);
    PlacedConcat(a, ObsoleteOptions(), 22);
    PlacedConcat(a + ObsoleteOptions(), ObsoleteSharing(), 22);
    PlacedConcat(a + ObsoleteOptions() + ObsoleteSharing(), ObsoleteEeprom(), 22);
    PlacedConcat(a + ObsoleteOptions() + ObsoleteSharing() + ObsoleteEeprom(), ObsoletePower(), 22);
  }

  /** An entry is the only one with its key and the only one that sets its field. */
  lemma Alone(i: nat)
    requires i < |ApcTable()| && !ApcTable()[i].handler.Obsolete? && !ApcTable()[i].handler.f.PollTime?
    ensures AllAgree(ApcTable(), ApcTable()[i].key, ApcTable()[i].handler)
  {
    TablePlaced();
    AloneIn(ApcTable(), i);
  }

  lemma AloneIn(t: seq<Pair>, i: nat)
    requires Placed(t, 0) && i < |t| && !t[i].handler.Obsolete? && !t[i].handler.f.PollTime?
    ensures AllAgree(t, t[i].key, t[i].handler)
  {
    forall j | 0 <= j < |t| ensures Agrees(t[j], t[i].key, t[i].handler) {
      assert t[j].key == t[i].key ==> Place(t[j].key) == i;
    }
  }
}
