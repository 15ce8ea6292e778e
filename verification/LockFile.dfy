/** The lock file that keeps two daemons off one serial port: the functions run alone, and the
    processes' system calls interleaved in any way. */
module LockFiles {
  import opened Wire
  import opened CText
  import opened Scanning

  // ---- the text of the file: "%010ld" and its terminator written, "%d" read ----

  const WIDTH := 10
  const FULL := 11
  const PIDMAX := 0x7fff_ffff

  function PidText(pid: nat): (t: Bytes)
    ensures |t| >= FULL
  {
    Dec(pid, WIDTH) + [NUL]
  }

  /** What is in the file after a write of which `w` bytes are stored. */
  function Written(pid: nat, w: nat): Bytes { if w < FULL then PidText(pid)[..w] else PidText(pid) }

  /** The number read back, if there is one: at most 11 bytes are read. */
  function ParsePid(text: Bytes): Option<int> {
    match ScanInt(CText.Take(text, FULL))
    case Got(n) => Some(n)
    case _ => None
  }

  lemma PidDigits(pid: nat)
    requires pid <= PIDMAX
    ensures |Dec(pid, WIDTH)| == WIDTH && |PidText(pid)| == FULL && pid < Pow10(WIDTH)
  {
    assert Pow10(5) == 100_000;
    assert Pow10(WIDTH) == 10_000_000_000;
    DecLength(pid, WIDTH, WIDTH);
  }

  /** Reading back a process id gives the process id. */
  lemma PidRoundTrip(pid: nat)
    requires pid <= 0x7fff_ffff
    ensures ParsePid(PidText(pid)) == Some(pid)
    ensures |PidText(pid)| == 11 && PidText(pid)[10] == 0
    ensures forall k :: 0 <= k < 10 ==> PidText(pid)[9 - k] as int == 48 + DropDigits(pid, k) % 10
  {
    PidDigits(pid);
    NumberReadsBack(pid, WIDTH, [NUL]);
    forall k | 0 <= k < 10 ensures PidText(pid)[9 - k] as int == 48 + DropDigits(pid, k) % 10 {
      DecDigitAt(pid, WIDTH, k);
    }
  }

  lemma {:induction false} DecPrefix(n: nat, width: nat, w: nat)
    requires w <= width && n < Pow10(width)
    ensures |Dec(n, width)| == width
    ensures Dec(n, width)[..w] == Dec(DropDigits(n, width - w), w)
    decreases width
  {
    DecLength(n, width, width);
    if w < width {
      DecPrefix(n / 10, width - 1, w);
      assert Dec(n, width)[..width - 1] == Dec(n / 10, width - 1);
      assert Dec(n, width)[..w] == Dec(n, width)[..width - 1][..w];
    } else {
      assert Dec(n, width)[..width] == Dec(n, width);
    }
  }

  /** A write cut short names another process: the first digits of the number. */
  lemma PrefixNames(pid: nat, w: nat)
    requires pid <= PIDMAX && w <= WIDTH
    ensures ParsePid(Written(pid, w)) == if w == 0 then None else Some(DropDigits(pid, WIDTH - w))
  {
    PidDigits(pid);
    DecPrefix(pid, WIDTH, w);
    assert Written(pid, w) == Dec(pid, WIDTH)[..w];
    if w > 0 { ParsesDigits(DropDigits(pid, WIDTH - w), w); }
  }

  lemma ParsesDigits(n: nat, w: nat)
    requires 0 < w == |Dec(n, w)| <= FULL
    ensures ParsePid(Dec(n, w)) == Some(n)
  {
    NumberReadsBack(n, w, []);
    assert Dec(n, w) + [] == Dec(n, w);
  }

  // ---- the functions, run by a process alone ----

  datatype Code = Success | Error | Exist | NoLock

  /** What a process sees: its own and its parent's id, what else kill(2) finds, and its options. */
  datatype Context = Context(
    pid: nat, ppid: nat, others: set<int>, apcNet: bool, hasPath: bool, hibernate: bool, shutdown: bool)

  /** Which system calls succeed (`canOpen`: open for reading fails for no reason but a missing file), and
      how many bytes a write stores. */
  datatype Io = Io(canOpen: bool, canRead: bool, canUnlink: bool, canCreate: bool, stored: nat)

  datatype File = Missing | Present(text: Bytes)

  /** The text names the process or its parent. */
  predicate NamesUs(x: Context, text: Bytes) {
    var p := ParsePid(text);
    p == Some(x.pid) || p == Some(x.ppid)
  }

  /** The text names a process that is no more; kill(0, 0) and kill(-1, 0) always succeed. */
  predicate NamesDead(x: Context, text: Bytes) {
    var p := ParsePid(text);
    p.Some? && !NamesUs(x, text) && p.value != 0 && p.value != -1 && p.value !in x.others
  }

  class LockPath {
    var file: File

    constructor (file: File)
      ensures this.file == file
    {
      this.file := file;
    }

    /** A lock left by a dead process is removed; nothing else is touched. */
    method CheckStale(x: Context, io: Io) returns (code: Code)
      modifies this
      ensures code == NoLock <==> x.apcNet
      ensures code == Exist <==>
                && !x.apcNet && x.hasPath && io.canOpen && io.canRead
                && old(file).Present? && NamesUs(x, old(file).text)
      ensures code == Success <==>
                && !x.apcNet && x.hasPath && io.canOpen
                && (old(file).Present? ==> io.canRead && io.canUnlink && NamesDead(x, old(file).text))
      ensures file == if code == Success then Missing else old(file)
      ensures old(file).Present? && ParsePid(old(file).text) in {Some(0), Some(-1)} ==> code != Success
    {
      if x.apcNet { return NoLock; }
      if !x.hasPath || !io.canOpen { return Error; }
      if file.Missing? { return Success; }
      if !io.canRead { return Error; }
      var stalePid := ParsePid(file.text);
      if stalePid.None? { return Error; }
      if stalePid.value == x.pid || stalePid.value == x.ppid { return Exist; }
      var found := stalePid.value == 0 || stalePid.value == -1 || stalePid.value in x.others;
      if found || !io.canUnlink { return Error; }
      file := Missing;
      return Success;
    }

    /** Alone, a process gets the lock exactly if none is needed, or the file names it or its parent, or
        the file is absent or names a dead process and its own text is stored whole. */
    method Create(x: Context, io: Io) returns (code: Code)
      modifies this
      ensures code == Success || code == Error
      ensures x.hibernate || x.shutdown || x.apcNet ==> code == Success && file == old(file)
      ensures !(x.hibernate || x.shutdown || x.apcNet) ==>
                var f := old(file);
                var ours := x.hasPath && io.canOpen && io.canRead && f.Present? && NamesUs(x, f.text);
                var free := x.hasPath && io.canOpen
                            && (f.Present? ==> io.canRead && io.canUnlink && NamesDead(x, f.text));
                && (code == Success <==> ours || (free && io.canCreate && io.stored >= FULL))
                && (file == if !free then f else if io.canCreate then Present(Written(x.pid, io.stored)) else Missing)
    {
      if x.hibernate || x.shutdown { return Success; }
      var found := CheckStale(x, io);
      match found {
        case NoLock => return Success;
        case Exist => return Success;
        case Error => return Error;
        case Success =>
          if !io.canCreate { return Error; }
          file := Present(Written(x.pid, io.stored));
          return if io.stored >= FULL then Success else Error;
      }
    }

    /** A file that names the process or its parent is removed, and so is one left by a dead process. */
    method Delete(x: Context, io: Io)
      modifies this
      ensures file == old(file) || file.Missing?
      ensures old(file).Present? && file.Missing? <==>
                && !x.apcNet && x.hasPath && io.canOpen && io.canRead && io.canUnlink
                && old(file).Present? && (NamesUs(x, old(file).text) || NamesDead(x, old(file).text))
    {
      if x.hasPath {
        var found := CheckStale(x, io);
        if found == Exist && io.canUnlink { file := Missing; }
      }
    }
  }

  // ---- interleaved system calls ----

  datatype Id = Id(pid: nat, ppid: nat, alive: bool)

  /** Everybody's ids, and what else kill(2) finds: other processes, and groups as negative numbers. */
  datatype World = World(ids: seq<Id>, others: set<int>)

  predicate Live(w: World, i: nat) { i < |w.ids| && w.ids[i].alive }

  /** kill(v, 0) succeeds. */
  predicate Exists(w: World, v: int) {
    v == 0 || v == -1 || v in w.others || exists j :: 0 <= j < |w.ids| && w.ids[j].alive && w.ids[j].pid == v
  }

  /** Where a process stands inside `create_lockfile` (or `delete_lockfile`, if `deleting`). */
  datatype Pc =
    | Out
    | Opening(deleting: bool)              // before open(O_RDONLY)
    | Reading(deleting: bool, ino: nat)    // before read
    | Probing(deleting: bool, stale: int)  // before kill(stale, 0)
    | Unlinking(deleting: bool)            // before unlink of a stale lock
    | Creating                             // before open(O_CREAT | O_EXCL)
    | Writing(ino: nat)                    // before write
    | Removing                             // before unlink in delete_lockfile

  /** `holding`: the last `create_lockfile` succeeded and `delete_lockfile` was not called since. */
  datatype Proc = Proc(holding: bool, pc: Pc)

  /** `inodes` holds the text of every file ever created at the path, `path` the current one. */
  datatype Sys = Sys(world: World, path: int, inodes: seq<Bytes>, procs: seq<Proc>)

  const ABSENT := -1

  /** What process `i` does next; a write stores the first `w` bytes. */
  datatype Action = CallCreate(i: nat) | CallDelete(i: nat) | Proceed(i: nat, w: nat) | Die(i: nat)

  function Put(s: Sys, i: nat, p: Proc): Sys
    requires i < |s.procs|
  {
    s.(procs := s.procs[i := p])
  }

  function Move(s: Sys, i: nat, pc: Pc): Sys
    requires i < |s.procs|
  {
    Put(s, i, s.procs[i].(pc := pc))
  }

  /** The end of a call: the process is out again, and holds the lock or not. */
  function Leave(s: Sys, i: nat, holding: bool): Sys
    requires i < |s.procs|
  {
    Put(s, i, Proc(holding, Out))
  }

  /** The number is the process's own id or its parent's. */
  predicate Entitled(w: World, i: nat, v: int)
    requires i < |w.ids|
  {
    v == w.ids[i].pid || v == w.ids[i].ppid
  }

  function ReadStep(s: Sys, i: nat, deleting: bool, text: Bytes): Sys
    requires i < |s.procs| == |s.world.ids|
  {
    match ParsePid(text)
    case None => Leave(s, i, false)
    case Some(v) =>
      if Entitled(s.world, i, v) then (if deleting then Move(s, i, Removing) else Leave(s, i, true))
      else Move(s, i, Probing(deleting, v))
  }

  function ProceedStep(s: Sys, i: nat, w: nat): Sys
    requires i < |s.procs| == |s.world.ids|
  {
    match s.procs[i].pc
    case Out => s
    case Opening(deleting) =>
      if 0 <= s.path < |s.inodes| then Move(s, i, Reading(deleting, s.path))
      else if deleting then Leave(s, i, false)
      else Move(s, i, Creating)
    case Reading(deleting, ino) =>
      if ino < |s.inodes| then ReadStep(s, i, deleting, s.inodes[ino]) else s
    case Probing(deleting, stale) =>
      if Exists(s.world, stale) then Leave(s, i, false) else Move(s, i, Unlinking(deleting))
    case Unlinking(deleting) =>
      if s.path == ABSENT then Leave(s, i, false)
      else if deleting then Leave(s.(path := ABSENT), i, false)
      else Move(s.(path := ABSENT), i, Creating)
    case Creating =>
      if s.path == ABSENT
      then Move(s.(path := |s.inodes|, inodes := s.inodes + [[]]), i, Writing(|s.inodes|))
      else Leave(s, i, false)
    case Writing(ino) =>
      if ino >= |s.inodes| then s
      else Leave(s.(inodes := s.inodes[ino := Written(s.world.ids[i].pid, w)]), i, w >= FULL)
    case Removing => Leave(s.(path := ABSENT), i, false)
  }

  function Next(s: Sys, a: Action): Sys {
    if a.i >= |s.procs| || |s.procs| != |s.world.ids| || !Live(s.world, a.i) then s
    else
      match a
      case CallCreate(i) => if s.procs[i].pc.Out? then Move(s, i, Opening(false)) else s
      case CallDelete(i) => if s.procs[i].pc.Out? then Move(s, i, Opening(true)) else s
      case Proceed(i, w) => ProceedStep(s, i, w)
      case Die(i) =>
        Put(s.(world := s.world.(ids := s.world.ids[i := s.world.ids[i].(alive := false)])), i,
            s.procs[i].(holding := false))
  }

  function Run(s: Sys, run: seq<Action>): Sys
    decreases |run|
  {
    if run == [] then s else Next(Run(s, run[..|run| - 1]), run[|run| - 1])
  }

  /** Nobody dies, and writes store as many bytes as `ws` allows. */
  predicate GentleStep(a: Action, ws: set<nat>) { !a.Die? && (a.Proceed? ==> a.w in ws) }

  predicate Gentle(run: seq<Action>, ws: set<nat>) { forall k :: 0 <= k < |run| ==> GentleStep(run[k], ws) }

  predicate Holds(s: Sys, i: nat) { i < |s.procs| && Live(s.world, i) && s.procs[i].holding }

  predicate Writes(s: Sys, i: nat) { i < |s.procs| && Live(s.world, i) && s.procs[i].pc.Writing? }

  /** At most one live process holds the lock. */
  predicate AtMostOne(s: Sys) {
    forall i, j :: 0 <= i < |s.procs| && 0 <= j < |s.procs| && Holds(s, i) && Holds(s, j) ==> i == j
  }

  /** The lock excludes: no run has two holders. */
  ghost predicate Exclusive(s: Sys, ws: set<nat>) {
    forall run :: Gentle(run, ws) ==> AtMostOne(Run(s, run))
  }

  // ---- when it does ----

  /** Fewer than two live processes. */
  predicate Alone(w: World) {
    forall i, j :: 0 <= i < |w.ids| && 0 <= j < |w.ids| && w.ids[i].alive && w.ids[j].alive ==> i == j
  }

  predicate Claims(w: World, i: nat, text: Bytes) {
    i < |w.ids| && w.ids[i].alive && ParsePid(text).Some? && Entitled(w, i, ParsePid(text).value)
  }

  predicate AtMostOneClaim(w: World, text: Bytes) {
    forall i, j :: 0 <= i < |w.ids| && 0 <= j < |w.ids| && Claims(w, i, text) && Claims(w, j, text) ==> i == j
  }

  predicate Unclaimed(w: World, text: Bytes) { forall i :: 0 <= i < |w.ids| ==> !Claims(w, i, text) }

  /** A text in the file does no harm if it cannot be read, or names something that exists, and at most
      one live process goes by that name or has that parent. */
  predicate Harmless(w: World, text: Bytes) {
    ParsePid(text).Some? ==> Exists(w, ParsePid(text).value) && AtMostOneClaim(w, text)
  }

  /** No write that a live process can make does harm. */
  ghost predicate Writable(w: World, ws: set<nat>) {
    forall i, n :: 0 <= i < |w.ids| && w.ids[i].alive && n in ws ==> Harmless(w, Written(w.ids[i].pid, n))
  }

  /** All live processes are outside the calls and hold nothing; whatever file there is. */
  ghost predicate Outside(s: Sys) {
    && |s.procs| == |s.world.ids| && Sized(s.world) && (s.path == ABSENT || 0 <= s.path < |s.inodes|)
    && forall i :: 0 <= i < |s.procs| && Live(s.world, i) ==>
         s.procs[i] == Proc(false, Out)
  }

  predicate Sized(w: World) { forall i :: 0 <= i < |w.ids| && w.ids[i].alive ==> w.ids[i].pid <= PIDMAX }

  /** What a caller could check beforehand: whether the lock can ever be held twice. */
  ghost predicate Safe(s: Sys, ws: set<nat>)
    requires s.path == ABSENT || 0 <= s.path < |s.inodes|
  {
    || Alone(s.world)
    || (if s.path == ABSENT then Writable(s.world, ws)
        else
          var text := s.inodes[s.path];
          && Harmless(s.world, text)
          && (Unclaimed(s.world, text) || Writable(s.world, ws)))
  }

  ghost predicate ProcOk(w: World, path: int, inodes: seq<Bytes>, i: nat, p: Proc) {
    && (p.holding ==> Keeps(w, path, inodes, i))
    && (match p.pc
        case Reading(_, ino) =>
          ino < |inodes| && Harmless(w, inodes[ino]) && (Claims(w, i, inodes[ino]) ==> path == ino)
        case Probing(_, stale) => Exists(w, stale)
        case Unlinking(_) => false
        case Writing(ino) => path == ino < |inodes| && inodes[ino] == []
        case Removing => Keeps(w, path, inodes, i)
        case _ => true)
  }

  /** The file at the path names the process or its parent. */
  predicate Keeps(w: World, path: int, inodes: seq<Bytes>, i: nat) {
    0 <= path < |inodes| && Claims(w, i, inodes[path])
  }

  ghost predicate OkAt(s: Sys, i: nat) {
    i < |s.procs| && ProcOk(s.world, s.path, s.inodes, i, s.procs[i])
  }

  ghost predicate AllOk(s: Sys) {
    forall i :: 0 <= i < |s.procs| && Live(s.world, i) ==> ProcOk(s.world, s.path, s.inodes, i, s.procs[i])
  }

  predicate OneWriter(s: Sys) {
    forall i, j :: 0 <= i < |s.procs| && 0 <= j < |s.procs| && Writes(s, i) && Writes(s, j) ==> i == j
  }

  ghost predicate Inv(s: Sys, ws: set<nat>) {
    && |s.procs| == |s.world.ids| && Sized(s.world) && Writable(s.world, ws)
    && (s.path == ABSENT || (0 <= s.path < |s.inodes| && Harmless(s.world, s.inodes[s.path])))
    && AllOk(s) && OneWriter(s)
  }

  lemma EmptyUnread()
    ensures ParsePid([]) == None
  {
  }

  lemma WholeText(w: World, i: nat, n: nat)
    requires Sized(w) && Live(w, i) && n >= FULL
    ensures Claims(w, i, Written(w.ids[i].pid, n))
  {
    PidRoundTrip(w.ids[i].pid);
  }

  /** How a step changes the file: not at all, or as its place in the call allows. */
  lemma FileSteps(s: Sys, ws: set<nat>, a: Action)
    requires Inv(s, ws) && GentleStep(a, ws)
    ensures var t := Next(s, a);
            && t.world == s.world
            && if a.Proceed? && Live(s.world, a.i) && s.procs[a.i].pc.Creating? && s.path == ABSENT then
                 t.path == |s.inodes| && t.inodes == s.inodes + [[]]
               else if a.Proceed? && Writes(s, a.i) then
                 && t.path == s.path == s.procs[a.i].pc.ino && 0 <= s.path < |s.inodes| && s.inodes[s.path] == []
                 && t.inodes == s.inodes[s.path := Written(s.world.ids[a.i].pid, a.w)]
               else if a.Proceed? && Live(s.world, a.i) && s.procs[a.i].pc.Removing? then
                 t.path == ABSENT && t.inodes == s.inodes
               else t.path == s.path && t.inodes == s.inodes
  {
    if Live(s.world, a.i) { assert ProcOk(s.world, s.path, s.inodes, a.i, s.procs[a.i]); }
  }

  /** A step touches no other process. */
  lemma OthersStay(s: Sys, ws: set<nat>, a: Action)
    requires |s.procs| == |s.world.ids| && GentleStep(a, ws)
    ensures var t := Next(s, a);
            && t.world == s.world && |t.procs| == |s.procs|
            && forall j :: 0 <= j < |s.procs| && j != a.i ==> t.procs[j] == s.procs[j]
  {
  }

  /** The acting process, while it writes. */
  lemma WriterOk(s: Sys, ws: set<nat>, a: Action)
    requires Inv(s, ws) && GentleStep(a, ws) && a.Proceed? && Writes(s, a.i)
    ensures OkAt(Next(s, a), a.i)
  {
    assert ProcOk(s.world, s.path, s.inodes, a.i, s.procs[a.i]);
    if a.w >= FULL { WholeText(s.world, a.i, a.w); }
  }

  /** The acting process, elsewhere. */
  lemma ActorOk(s: Sys, ws: set<nat>, a: Action)
    requires Inv(s, ws) && GentleStep(a, ws) && Live(s.world, a.i) && !(a.Proceed? && Writes(s, a.i))
    ensures OkAt(Next(s, a), a.i)
    ensures Writes(Next(s, a), a.i) && !Writes(s, a.i) ==> s.path == ABSENT
  {
    assert ProcOk(s.world, s.path, s.inodes, a.i, s.procs[a.i]);
  }

  /** Another process, when the file appears. */
  lemma CreationOk(w: World, inodes: seq<Bytes>, j: nat, p: Proc)
    requires ProcOk(w, ABSENT, inodes, j, p)
    ensures ProcOk(w, |inodes|, inodes + [[]], j, p)
  {
  }

  /** Another process, when the writer stores its text. */
  lemma WriteOk(w: World, path: int, inodes: seq<Bytes>, text: Bytes, j: nat, p: Proc)
    requires 0 <= path < |inodes| && inodes[path] == [] && Harmless(w, text)
    requires ProcOk(w, path, inodes, j, p) && !p.pc.Writing?
    ensures ProcOk(w, path, inodes[path := text], j, p)
  {
    EmptyUnread();
  }

  /** Another process, when the one that claims the file removes it. */
  lemma RemovalOk(w: World, path: int, inodes: seq<Bytes>, i: nat, j: nat, p: Proc)
    requires Keeps(w, path, inodes, i) && Harmless(w, inodes[path]) && i != j && Live(w, j)
    requires ProcOk(w, path, inodes, j, p)
    ensures ProcOk(w, ABSENT, inodes, j, p)
  {
    EmptyUnread();
    assert !Claims(w, j, inodes[path]);
  }

  lemma OtherOk(s: Sys, ws: set<nat>, a: Action, j: nat)
    requires Inv(s, ws) && GentleStep(a, ws) && Live(s.world, j) && j != a.i
    ensures OkAt(Next(s, a), j)
  {
    FileSteps(s, ws, a);
    OthersStay(s, ws, a);
    var p := s.procs[j];
    assert ProcOk(s.world, s.path, s.inodes, j, p);
    if a.Proceed? && Live(s.world, a.i) {
      assert ProcOk(s.world, s.path, s.inodes, a.i, s.procs[a.i]);
      match s.procs[a.i].pc
      case Creating => if s.path == ABSENT { CreationOk(s.world, s.inodes, j, p); }
      case Writing(_) =>
        assert Writes(s, a.i) && !Writes(s, j);
        WriteOk(s.world, s.path, s.inodes, Written(s.world.ids[a.i].pid, a.w), j, p);
      case Removing => RemovalOk(s.world, s.path, s.inodes, a.i, j, p);
      case _ =>
    }
  }

  lemma StepKeepsInv(s: Sys, ws: set<nat>, a: Action)
    requires Inv(s, ws) && GentleStep(a, ws)
    ensures Inv(Next(s, a), ws) && Next(s, a).world == s.world
  {
    var t := Next(s, a);
    FileSteps(s, ws, a);
    OthersStay(s, ws, a);
    EmptyUnread();
    forall j | 0 <= j < |t.procs| && Live(t.world, j)
      ensures ProcOk(t.world, t.path, t.inodes, j, t.procs[j])
    {
      if j != a.i { OtherOk(s, ws, a, j); }
      else if a.Proceed? && Writes(s, j) { WriterOk(s, ws, a); }
      else { ActorOk(s, ws, a); }
    }
    StepKeepsOneWriter(s, ws, a);
  }

  lemma StepKeepsOneWriter(s: Sys, ws: set<nat>, a: Action)
    requires Inv(s, ws) && GentleStep(a, ws)
    ensures OneWriter(Next(s, a))
  {
    var t := Next(s, a);
    OthersStay(s, ws, a);
    forall i, j | 0 <= i < |t.procs| && 0 <= j < |t.procs| && Writes(t, i) && Writes(t, j) ensures i == j {
      if i != a.i && j != a.i {
        assert Writes(s, i) && Writes(s, j);
      } else if i != j {
        var k := if i == a.i then j else i;
        assert Writes(s, k) && ProcOk(s.world, s.path, s.inodes, k, s.procs[k]);
        if !(a.Proceed? && Writes(s, a.i)) { ActorOk(s, ws, a); }
      }
    }
  }

  lemma {:induction false} RunKeepsInv(s: Sys, ws: set<nat>, run: seq<Action>)
    requires Inv(s, ws) && Gentle(run, ws)
    ensures Inv(Run(s, run), ws) && Run(s, run).world == s.world
    decreases |run|
  {
    if run != [] {
      RunKeepsInv(s, ws, run[..|run| - 1]);
      StepKeepsInv(Run(s, run[..|run| - 1]), ws, run[|run| - 1]);
    }
  }

  /** The holder is the one process that claims the file. */
  lemma HolderClaims(s: Sys, ws: set<nat>, i: nat)
    requires Inv(s, ws) && i < |s.procs| && Holds(s, i)
    ensures Keeps(s.world, s.path, s.inodes, i)
    ensures forall j :: 0 <= j < |s.procs| && Holds(s, j) ==> j == i
  {
    assert ProcOk(s.world, s.path, s.inodes, i, s.procs[i]);
    forall j | 0 <= j < |s.procs| && Holds(s, j) ensures j == i {
      assert ProcOk(s.world, s.path, s.inodes, j, s.procs[j]);
    }
  }

  lemma ExclusiveFrom(s: Sys, ws: set<nat>)
    requires Inv(s, ws)
    ensures Exclusive(s, ws)
  {
    forall run | Gentle(run, ws) ensures AtMostOne(Run(s, run)) {
      RunKeepsInv(s, ws, run);
      var t := Run(s, run);
      forall i, j | 0 <= i < |t.procs| && 0 <= j < |t.procs| && Holds(t, i) && Holds(t, j) ensures i == j {
        HolderClaims(t, ws, i);
      }
    }
  }

  /** Only the process that claims the file makes it disappear, in `delete_lockfile`. */
  lemma OnlyClaimantRemoves(s: Sys, ws: set<nat>, run: seq<Action>, a: Action)
    requires Inv(s, ws) && Gentle(run, ws) && GentleStep(a, ws)
    requires Run(s, run).path != ABSENT && Next(Run(s, run), a).path != Run(s, run).path
    ensures var t := Run(s, run);
            && a.Proceed? && Live(t.world, a.i) && t.procs[a.i].pc.Removing? && Keeps(t.world, t.path, t.inodes, a.i)
  {
    RunKeepsInv(s, ws, run);
    var t := Run(s, run);
    FileSteps(t, ws, a);
    if Live(t.world, a.i) { assert ProcOk(t.world, t.path, t.inodes, a.i, t.procs[a.i]); }
  }

  // ---- a file nobody claims ----

  ghost predicate Stuck(s: Sys) {
    && |s.procs| == |s.world.ids| && 0 <= s.path < |s.inodes|
    && Harmless(s.world, s.inodes[s.path]) && Unclaimed(s.world, s.inodes[s.path])
    && forall i :: 0 <= i < |s.procs| && Live(s.world, i) ==> Idling(s, s.procs[i])
  }

  predicate Idling(s: Sys, p: Proc) {
    && !p.holding
    && match p.pc
       case Out => true
       case Opening(_) => true
       case Reading(_, ino) => ino == s.path
       case Probing(_, stale) => Exists(s.world, stale)
       case _ => false
  }

  lemma StuckStep(s: Sys, ws: set<nat>, a: Action)
    requires Stuck(s) && GentleStep(a, ws)
    ensures Stuck(Next(s, a))
  {
    OthersStay(s, ws, a);
    if Live(s.world, a.i) {
      assert Idling(s, s.procs[a.i]) && !Claims(s.world, a.i, s.inodes[s.path]);
    }
  }

  lemma {:induction false} StuckRun(s: Sys, ws: set<nat>, run: seq<Action>)
    requires Stuck(s) && Gentle(run, ws)
    ensures Stuck(Run(s, run))
    decreases |run|
  {
    if run != [] {
      StuckRun(s, ws, run[..|run| - 1]);
      StuckStep(Run(s, run[..|run| - 1]), ws, run[|run| - 1]);
    }
  }

  lemma {:induction false} WorldStays(s: Sys, ws: set<nat>, run: seq<Action>)
    requires |s.procs| == |s.world.ids| && Gentle(run, ws)
    ensures Run(s, run).world == s.world && |Run(s, run).procs| == |s.procs|
    decreases |run|
  {
    if run != [] {
      WorldStays(s, ws, run[..|run| - 1]);
      OthersStay(Run(s, run[..|run| - 1]), ws, run[|run| - 1]);
    }
  }

  lemma SafeExcludes(s: Sys, ws: set<nat>)
    requires Outside(s) && Safe(s, ws)
    ensures Exclusive(s, ws)
  {
    if Alone(s.world) {
      forall run | Gentle(run, ws) ensures AtMostOne(Run(s, run)) { WorldStays(s, ws, run); }
    } else if s.path != ABSENT && Unclaimed(s.world, s.inodes[s.path]) {
      forall run | Gentle(run, ws) ensures AtMostOne(Run(s, run)) {
        StuckRun(s, ws, run);
        var t := Run(s, run);
        forall i | 0 <= i < |t.procs| ensures !Holds(t, i) {
          if Live(t.world, i) { assert Idling(t, t.procs[i]); }
        }
      }
    } else {
      ExclusiveFrom(s, ws);
    }
  }

  // ---- otherwise two processes get in ----

  lemma {:induction false} RunConcat(s: Sys, r1: seq<Action>, r2: seq<Action>)
    ensures Run(s, r1 + r2) == Run(Run(s, r1), r2)
    decreases |r2|
  {
    if r2 == [] {
      assert r1 + r2 == r1;
    } else {
      assert (r1 + r2)[..|r1 + r2| - 1] == r1 + r2[..|r2| - 1];
      RunConcat(s, r1, r2[..|r2| - 1]);
    }
  }

  lemma GentleConcat(r1: seq<Action>, r2: seq<Action>, ws: set<nat>)
    requires Gentle(r1, ws) && Gentle(r2, ws)
    ensures Gentle(r1 + r2, ws)
  {
    forall k | 0 <= k < |r1 + r2| ensures GentleStep((r1 + r2)[k], ws) {
      if k < |r1| { assert (r1 + r2)[k] == r1[k]; } else { assert (r1 + r2)[k] == r2[k - |r1|]; }
    }
  }

  lemma RunFour(s: Sys, a: Action, b: Action, c: Action, d: Action)
    ensures Run(s, [a, b, c, d]) == Next(Next(Next(Next(s, a), b), c), d)
    ensures Run(s, [a, b, c]) == Next(Next(Next(s, a), b), c)
  {
    assert [a][..0] == [] && Run(s, [a]) == Next(s, a);
    assert [a, b][..1] == [a] && Run(s, [a, b]) == Next(Next(s, a), b);
    assert [a, b, c][..2] == [a, b];
    assert [a, b, c, d][..3] == [a, b, c];
  }

  /** Process `i` is outside, and there is a file. */
  predicate Facing(s: Sys, i: nat) {
    i < |s.procs| == |s.world.ids| && Live(s.world, i) && s.procs[i].pc.Out? && 0 <= s.path < |s.inodes|
  }

  predicate Stale(w: World, text: Bytes) { ParsePid(text).Some? && !Exists(w, ParsePid(text).value) }

  /** create_lockfile up to the read. */
  function Claim(i: nat): seq<Action> { [CallCreate(i), Proceed(i, FULL), Proceed(i, FULL)] }

  /** create_lockfile up to the judgement that the lock is stale. */
  function Judge(i: nat): seq<Action> { [CallCreate(i), Proceed(i, FULL), Proceed(i, FULL), Proceed(i, FULL)] }

  /** The rest of it: unlink, create, write. */
  function Replace(i: nat): seq<Action> { [Proceed(i, FULL), Proceed(i, FULL), Proceed(i, FULL)] }

  function Remove(i: nat): seq<Action> { [CallDelete(i), Proceed(i, FULL), Proceed(i, FULL), Proceed(i, FULL)] }

  /** create_lockfile without a file, storing `n` bytes. */
  function Store(i: nat, n: nat): seq<Action> { [CallCreate(i), Proceed(i, FULL), Proceed(i, FULL), Proceed(i, n)] }

  /** The file as process `i` leaves it after storing `n` bytes. */
  function Stored(s: Sys, i: nat, n: nat): Sys
    requires i < |s.procs| == |s.world.ids|
  {
    Leave(s.(path := |s.inodes|, inodes := s.inodes + [Written(s.world.ids[i].pid, n)]), i, n >= FULL)
  }

  lemma OpenStep(s: Sys, i: nat)
    requires Facing(s, i)
    ensures Next(Next(s, CallCreate(i)), Proceed(i, FULL)) == Move(s, i, Reading(false, s.path))
    ensures Next(Next(s, CallDelete(i)), Proceed(i, FULL)) == Move(s, i, Reading(true, s.path))
  {
  }

  lemma CreateStep(s: Sys, i: nat)
    requires i < |s.procs| == |s.world.ids| && Live(s.world, i) && s.procs[i].pc.Creating? && s.path == ABSENT
    ensures Next(s, Proceed(i, FULL))
            == Move(s.(path := |s.inodes|, inodes := s.inodes + [[]]), i, Writing(|s.inodes|))
  {
  }

  lemma WriteStep(s: Sys, i: nat, n: nat)
    requires i < |s.procs| == |s.world.ids| && Live(s.world, i)
    ensures Next(Move(s.(path := |s.inodes|, inodes := s.inodes + [[]]), i, Writing(|s.inodes|)), Proceed(i, n))
            == Stored(s, i, n)
  {
    var text := Written(s.world.ids[i].pid, n);
    assert (s.inodes + [[]])[|s.inodes| := text] == s.inodes + [text];
  }

  lemma TakeClaimed(s: Sys, i: nat)
    requires Facing(s, i) && Claims(s.world, i, s.inodes[s.path])
    ensures Run(s, Claim(i)) == Leave(s, i, true)
  {
    var p := Proceed(i, FULL);
    RunFour(s, CallCreate(i), p, p, p);
    OpenStep(s, i);
    ReadToHold(s, i);
  }

  lemma ReadToHold(s: Sys, i: nat)
    requires Facing(s, i) && Claims(s.world, i, s.inodes[s.path])
    ensures Next(Move(s, i, Reading(false, s.path)), Proceed(i, FULL)) == Leave(s, i, true)
  {
  }

  lemma JudgeStale(s: Sys, i: nat)
    requires Facing(s, i) && Stale(s.world, s.inodes[s.path]) && !Claims(s.world, i, s.inodes[s.path])
    ensures Run(s, Judge(i)) == Move(s, i, Unlinking(false))
  {
    var p := Proceed(i, FULL);
    RunFour(s, CallCreate(i), p, p, p);
    OpenStep(s, i);
    ReadStale(s, i);
    ProbeStale(s, i);
  }

  lemma ReadStale(s: Sys, i: nat)
    requires Facing(s, i) && Stale(s.world, s.inodes[s.path]) && !Claims(s.world, i, s.inodes[s.path])
    ensures Next(Move(s, i, Reading(false, s.path)), Proceed(i, FULL))
            == Move(s, i, Probing(false, ParsePid(s.inodes[s.path]).value))
  {
  }

  lemma ProbeStale(s: Sys, i: nat)
    requires Facing(s, i) && Stale(s.world, s.inodes[s.path])
    ensures Next(Move(s, i, Probing(false, ParsePid(s.inodes[s.path]).value)), Proceed(i, FULL))
            == Move(s, i, Unlinking(false))
  {
  }

  /** Whatever the file says by then, a process that has judged it stale replaces it by its own. */
  lemma ReplaceWins(s: Sys, i: nat)
    requires i < |s.procs| == |s.world.ids| && Live(s.world, i) && s.procs[i].pc == Unlinking(false)
    requires 0 <= s.path < |s.inodes|
    ensures Run(s, Replace(i)) == Stored(s, i, FULL)
  {
    var p := Proceed(i, FULL);
    RunFour(s, p, p, p, p);
    var t := s.(path := ABSENT);
    assert Next(s, p) == Move(t, i, Creating);
    CreateStep(Move(t, i, Creating), i);
    WriteStep(t, i, FULL);
    SameMove(t, i);
  }

  /** A move forgets the place before it. */
  lemma SameMove(t: Sys, i: nat)
    requires i < |t.procs| == |t.world.ids|
    ensures var m := Move(t, i, Creating);
            Move(m.(path := |m.inodes|, inodes := m.inodes + [[]]), i, Writing(|m.inodes|))
            == Move(t.(path := |t.inodes|, inodes := t.inodes + [[]]), i, Writing(|t.inodes|))
  {
  }

  lemma RemoveClaimed(s: Sys, i: nat)
    requires Facing(s, i) && Claims(s.world, i, s.inodes[s.path])
    ensures Run(s, Remove(i)) == Leave(s.(path := ABSENT), i, false)
  {
    var p := Proceed(i, FULL);
    RunFour(s, CallDelete(i), p, p, p);
    OpenStep(s, i);
    ReadToRemove(s, i);
    RemoveStep(s, i);
  }

  lemma ReadToRemove(s: Sys, i: nat)
    requires Facing(s, i) && Claims(s.world, i, s.inodes[s.path])
    ensures Next(Move(s, i, Reading(true, s.path)), Proceed(i, FULL)) == Move(s, i, Removing)
  {
  }

  lemma RemoveStep(s: Sys, i: nat)
    requires Facing(s, i)
    ensures Next(Move(s, i, Removing), Proceed(i, FULL)) == Leave(s.(path := ABSENT), i, false)
  {
  }

  lemma StoreFresh(s: Sys, i: nat, n: nat)
    requires i < |s.procs| == |s.world.ids| && Live(s.world, i) && s.procs[i].pc.Out? && s.path == ABSENT
    ensures Run(s, Store(i, n)) == Stored(s, i, n)
  {
    var p := Proceed(i, FULL);
    RunFour(s, CallCreate(i), p, p, Proceed(i, n));
    assert Next(Next(s, CallCreate(i)), p) == Move(s, i, Creating);
    CreateStep(Move(s, i, Creating), i);
    SameMove(s, i);
    WriteStep(s, i, n);
  }

  /** Two processes that claim the same file both get the lock. */
  lemma ClaimantsCollide(s: Sys, i: nat, j: nat)
    requires Facing(s, i) && Facing(s, j) && i != j
    requires Claims(s.world, i, s.inodes[s.path]) && Claims(s.world, j, s.inodes[s.path])
    ensures !AtMostOne(Run(s, Claim(i) + Claim(j)))
  {
    RunConcat(s, Claim(i), Claim(j));
    TakeClaimed(s, i);
    TakeClaimed(Leave(s, i, true), j);
    var t := Run(s, Claim(i) + Claim(j));
    assert Holds(t, i) && Holds(t, j);
  }

  /** So do any two that find a stale file, whether each of them claims or recovers it. */
  lemma RecoverersCollide(s: Sys, i: nat, j: nat) returns (run: seq<Action>)
    requires Facing(s, i) && Facing(s, j) && i != j && Stale(s.world, s.inodes[s.path])
    ensures Gentle(run, {FULL}) && !AtMostOne(Run(s, run))
  {
    var text := s.inodes[s.path];
    if Claims(s.world, i, text) && Claims(s.world, j, text) {
      ClaimantsCollide(s, i, j);
      run := Claim(i) + Claim(j);
    } else if Claims(s.world, i, text) {
      run := ClaimAndRecover(s, i, j);
    } else if Claims(s.world, j, text) {
      run := ClaimAndRecover(s, j, i);
    } else {
      run := RecoverBoth(s, i, j);
    }
  }

  lemma ClaimAndRecover(s: Sys, i: nat, j: nat) returns (run: seq<Action>)
    requires Facing(s, i) && Facing(s, j) && i != j && Stale(s.world, s.inodes[s.path])
    requires Claims(s.world, i, s.inodes[s.path]) && !Claims(s.world, j, s.inodes[s.path])
    ensures Gentle(run, {FULL}) && !AtMostOne(Run(s, run))
  {
    run := Judge(j) + Claim(i) + Replace(j);
    RunConcat(s, Judge(j) + Claim(i), Replace(j));
    RunConcat(s, Judge(j), Claim(i));
    JudgeStale(s, j);
    var s1 := Move(s, j, Unlinking(false));
    TakeClaimed(s1, i);
    ReplaceWins(Leave(s1, i, true), j);
    var t := Run(s, run);
    assert Holds(t, i) && Holds(t, j);
  }

  lemma RecoverBoth(s: Sys, i: nat, j: nat) returns (run: seq<Action>)
    requires Facing(s, i) && Facing(s, j) && i != j && Stale(s.world, s.inodes[s.path])
    requires !Claims(s.world, i, s.inodes[s.path]) && !Claims(s.world, j, s.inodes[s.path])
    ensures Gentle(run, {FULL}) && !AtMostOne(Run(s, run))
  {
    JudgeBoth(s, i, j);
    ReplaceBoth(Run(Run(s, Judge(i)), Judge(j)), i, j);
    RunConcat(s, Judge(i), Judge(j));
    RunConcat(Run(s, Judge(i) + Judge(j)), Replace(i), Replace(j));
    run := Judge(i) + Judge(j) + (Replace(i) + Replace(j));
    GentleRecovery(i, j);
    Collides(s, Judge(i) + Judge(j), Run(s, Judge(i) + Judge(j)), Replace(i) + Replace(j), {FULL});
  }

  lemma GentleRecovery(i: nat, j: nat)
    ensures Gentle(Judge(i) + Judge(j), {FULL}) && Gentle(Replace(i) + Replace(j), {FULL})
  {
    GentleConcat(Judge(i), Judge(j), {FULL});
    GentleConcat(Replace(i), Replace(j), {FULL});
  }

  lemma JudgeBoth(s: Sys, i: nat, j: nat)
    requires Facing(s, i) && Facing(s, j) && i != j && Stale(s.world, s.inodes[s.path])
    requires !Claims(s.world, i, s.inodes[s.path]) && !Claims(s.world, j, s.inodes[s.path])
    ensures Run(Run(s, Judge(i)), Judge(j)) == Move(Move(s, i, Unlinking(false)), j, Unlinking(false))
  {
    JudgeStale(s, i);
    JudgeStale(Move(s, i, Unlinking(false)), j);
  }

  lemma ReplaceBoth(s: Sys, i: nat, j: nat)
    requires |s.procs| == |s.world.ids| && Live(s.world, i) && Live(s.world, j) && i != j && 0 <= s.path < |s.inodes|
    requires s.procs[i].pc == s.procs[j].pc == Unlinking(false)
    ensures !AtMostOne(Run(Run(s, Replace(i)), Replace(j)))
  {
    ReplaceWins(s, i);
    var t := Stored(s, i, FULL);
    ReplaceWins(t, j);
    assert Holds(Stored(t, j, FULL), i) && Holds(Stored(t, j, FULL), j);
  }

  lemma GentlePieces(i: nat, n: nat, ws: set<nat>)
    requires FULL in ws && n in ws
    ensures Gentle(Store(i, n), ws) && Gentle(Remove(i), ws)
  {
  }

  lemma Collides(s: Sys, r1: seq<Action>, t: Sys, r2: seq<Action>, ws: set<nat>)
    requires Run(s, r1) == t && Gentle(r1, ws) && Gentle(r2, ws) && !AtMostOne(Run(t, r2))
    ensures Gentle(r1 + r2, ws) && !AtMostOne(Run(s, r1 + r2))
  {
    RunConcat(s, r1, r2);
    GentleConcat(r1, r2, ws);
  }

  /** Without a file, a harmful write lets two processes in. */
  lemma HarmfulWriteCollides(s: Sys, ws: set<nat>) returns (run: seq<Action>)
    requires Outside(s) && FULL in ws && s.path == ABSENT && !Alone(s.world) && !Writable(s.world, ws)
    ensures Gentle(run, ws) && !AtMostOne(Run(s, run))
  {
    var k, n :| 0 <= k < |s.world.ids| && s.world.ids[k].alive && n in ws
                && !Harmless(s.world, Written(s.world.ids[k].pid, n));
    AfterStore(s, k, n);
    var more := HarmfulFileCollides(Stored(s, k, n), ws);
    run := Store(k, n) + more;
    GentlePieces(k, n, ws);
    Collides(s, Store(k, n), Stored(s, k, n), more, ws);
  }

  lemma AfterStore(s: Sys, k: nat, n: nat)
    requires Outside(s) && s.path == ABSENT && Live(s.world, k)
    ensures var t := Stored(s, k, n);
            && Run(s, Store(k, n)) == t && |t.procs| == |t.world.ids| && t.world == s.world
            && 0 <= t.path < |t.inodes| && t.inodes[t.path] == Written(s.world.ids[k].pid, n)
            && forall i :: 0 <= i < |t.procs| && Live(t.world, i) ==> t.procs[i].pc.Out?
  {
    StoreFresh(s, k, n);
  }

  lemma AfterRemove(s: Sys, k: nat)
    requires Outside(s) && s.path != ABSENT && Claims(s.world, k, s.inodes[s.path])
    ensures var t := Leave(s.(path := ABSENT), k, false);
            Run(s, Remove(k)) == t && Outside(t) && t.path == ABSENT && t.world == s.world
  {
    assert Live(s.world, k);
    RemoveClaimed(s, k);
  }

  lemma HarmfulFileCollides(s: Sys, ws: set<nat>) returns (run: seq<Action>)
    requires |s.procs| == |s.world.ids| && FULL in ws && 0 <= s.path < |s.inodes|
    requires forall i :: 0 <= i < |s.procs| && Live(s.world, i) ==> s.procs[i].pc.Out?
    requires !Alone(s.world) && !Harmless(s.world, s.inodes[s.path])
    ensures Gentle(run, ws) && !AtMostOne(Run(s, run))
  {
    var text := s.inodes[s.path];
    if Stale(s.world, text) {
      var i, j :| 0 <= i < |s.world.ids| && 0 <= j < |s.world.ids|
                  && s.world.ids[i].alive && s.world.ids[j].alive && i != j;
      assert Live(s.world, i) && Live(s.world, j);
      run := RecoverersCollide(s, i, j);
      assert forall k :: 0 <= k < |run| ==> GentleStep(run[k], {FULL});
    } else {
      var i, j :| 0 <= i < |s.world.ids| && 0 <= j < |s.world.ids|
                  && Claims(s.world, i, text) && Claims(s.world, j, text) && i != j;
      assert Live(s.world, i) && Live(s.world, j);
      ClaimantsCollide(s, i, j);
      run := Claim(i) + Claim(j);
    }
  }

  /** A harmless file does not help if its claimant can remove it and harm can be written afterwards. */
  lemma ClaimantClearsTheWay(s: Sys, ws: set<nat>) returns (run: seq<Action>)
    requires Outside(s) && FULL in ws && s.path != ABSENT && !Alone(s.world)
    requires !Unclaimed(s.world, s.inodes[s.path]) && !Writable(s.world, ws)
    ensures Gentle(run, ws) && !AtMostOne(Run(s, run))
  {
    var k :| 0 <= k < |s.world.ids| && Claims(s.world, k, s.inodes[s.path]);
    AfterRemove(s, k);
    var more := HarmfulWriteCollides(Leave(s.(path := ABSENT), k, false), ws);
    run := Remove(k) + more;
    GentlePieces(k, FULL, ws);
    Collides(s, Remove(k), Leave(s.(path := ABSENT), k, false), more, ws);
  }

  /** Exactly when the lock excludes, for live processes outside the calls and any file there may be:
      fewer than two processes, or no text that is in the file or may be written to it does harm, or
      the file does no harm and nobody can ever remove it. */
  lemma ExcludesExactlyIfSafe(s: Sys, ws: set<nat>)
    requires Outside(s) && FULL in ws
    ensures Exclusive(s, ws) <==> Safe(s, ws)
  {
    if Safe(s, ws) {
      SafeExcludes(s, ws);
    } else {
      var run;
      if s.path == ABSENT { run := HarmfulWriteCollides(s, ws); }
      else if !Harmless(s.world, s.inodes[s.path]) { run := HarmfulFileCollides(s, ws); }
      else { run := ClaimantClearsTheWay(s, ws); }
      assert Gentle(run, ws) && !AtMostOne(Run(s, run));
    }
  }

  // ---- special cases ----

  /** Writes that store the whole text or none of it, or all but the terminator. */
  const WHOLE: set<nat> := {0, WIDTH, FULL}

  predicate DistinctPids(w: World) {
    forall i, j :: 0 <= i < |w.ids| && 0 <= j < |w.ids| && w.ids[i].alive && w.ids[j].alive && i != j ==>
      w.ids[i].pid != w.ids[j].pid
  }

  /** No live process is the parent of another. */
  predicate Strangers(w: World) {
    forall i, j :: 0 <= i < |w.ids| && 0 <= j < |w.ids| && w.ids[i].alive && w.ids[j].alive && i != j ==>
      w.ids[i].ppid != w.ids[j].pid
  }

  /** The text of a whole write names its writer. */
  lemma WholeNames(w: World, i: nat, n: nat)
    requires Sized(w) && Live(w, i) && n in WHOLE
    ensures ParsePid(Written(w.ids[i].pid, n)) == if n == 0 then None else Some(w.ids[i].pid)
  {
    PidRoundTrip(w.ids[i].pid);
    PrefixNames(w.ids[i].pid, if n < FULL then n else WIDTH);
  }

  lemma WholeWritable(w: World)
    requires Sized(w) && DistinctPids(w)
    ensures Writable(w, WHOLE) <==> Strangers(w)
  {
    if Strangers(w) {
      forall i, n | 0 <= i < |w.ids| && w.ids[i].alive && n in WHOLE ensures Harmless(w, Written(w.ids[i].pid, n)) {
        WholeNames(w, i, n);
      }
    }
    if Writable(w, WHOLE) {
      forall i, j | 0 <= i < |w.ids| && 0 <= j < |w.ids| && w.ids[i].alive && w.ids[j].alive && i != j
        ensures w.ids[i].ppid != w.ids[j].pid
      {
        WholeNames(w, j, FULL);
        var text := Written(w.ids[j].pid, FULL);
        assert Harmless(w, text) && Claims(w, j, text);
        assert !Claims(w, i, text);
      }
    }
  }

  /** Without a file and with whole writes the lock excludes exactly if no process is the parent of
      another. */
  lemma StrangersExclude(s: Sys)
    requires Outside(s) && s.path == ABSENT && DistinctPids(s.world)
    ensures Exclusive(s, WHOLE) <==> Strangers(s.world)
  {
    WholeWritable(s.world);
    ExcludesExactlyIfSafe(s, WHOLE);
  }

  /** With a stale file it excludes exactly if fewer than two live processes are there to find it. */
  lemma StaleFileExcludes(s: Sys, ws: set<nat>)
    requires Outside(s) && FULL in ws && s.path != ABSENT && Stale(s.world, s.inodes[s.path])
    ensures Exclusive(s, ws) <==> Alone(s.world)
  {
    ExcludesExactlyIfSafe(s, ws);
  }

  /** With a file that cannot be read, as after a write that stored nothing, nobody ever gets in. */
  lemma UnreadableFileExcludes(s: Sys, ws: set<nat>)
    requires Outside(s) && FULL in ws && s.path != ABSENT && ParsePid(s.inodes[s.path]).None?
    ensures Exclusive(s, ws)
  {
    ExcludesExactlyIfSafe(s, ws);
  }

  /** After the owner has died, a process running alone always gets the lock, by the dead process's name if
      that was its parent, else by a file of its own; and from then on the lock excludes again exactly if
      fewer than two processes are live or no write does harm. */
  lemma RecoversAlone(s: Sys, i: nat, ws: set<nat>)
    requires Outside(s) && Facing(s, i) && Stale(s.world, s.inodes[s.path]) && FULL in ws
    ensures Claims(s.world, i, s.inodes[s.path]) ==> Holds(Run(s, Claim(i)), i)
    ensures !Claims(s.world, i, s.inodes[s.path]) ==>
              var t := Run(s, Judge(i) + Replace(i));
              && t.world == s.world && i < |t.procs| && Holds(t, i) && Keeps(t.world, t.path, t.inodes, i)
              && (Exclusive(t, ws) <==> Alone(s.world) || Writable(s.world, ws))
  {
    if Claims(s.world, i, s.inodes[s.path]) {
      TakeClaimed(s, i);
    } else {
      RunConcat(s, Judge(i), Replace(i));
      JudgeStale(s, i);
      var m := Move(s, i, Unlinking(false));
      ReplaceWins(m, i);
      Recovered(s, m, i, ws);
    }
  }

  lemma Recovered(s: Sys, m: Sys, i: nat, ws: set<nat>)
    requires Outside(s) && Facing(s, i) && m == Move(s, i, Unlinking(false)) && FULL in ws
    ensures var t := Stored(m, i, FULL);
            && Holds(t, i) && Keeps(t.world, t.path, t.inodes, i)
            && (Exclusive(t, ws) <==> Alone(s.world) || Writable(s.world, ws))
  {
    var t := Stored(m, i, FULL);
    WholeText(s.world, i, FULL);
    assert t.inodes[t.path] == Written(s.world.ids[i].pid, FULL);
    if Writable(s.world, ws) {
      assert Inv(t, ws);
      ExclusiveFrom(t, ws);
    } else if Alone(s.world) {
      forall run | Gentle(run, ws) ensures AtMostOne(Run(t, run)) { WorldStays(t, ws, run); }
    } else {
      var run := HolderClearsTheWay(t, i, ws);
      assert Gentle(run, ws) && !AtMostOne(Run(t, run));
    }
  }

  /** The one holder gives the lock back, and then harm can be written. */
  lemma HolderClearsTheWay(t: Sys, i: nat, ws: set<nat>) returns (run: seq<Action>)
    requires Facing(t, i) && Claims(t.world, i, t.inodes[t.path]) && Sized(t.world)
    requires forall j :: 0 <= j < |t.procs| && Live(t.world, j) && j != i ==> t.procs[j] == Proc(false, Out)
    requires FULL in ws && !Alone(t.world) && !Writable(t.world, ws)
    ensures Gentle(run, ws) && !AtMostOne(Run(t, run))
  {
    RemoveClaimed(t, i);
    var u := Leave(t.(path := ABSENT), i, false);
    assert Outside(u);
    var more := HarmfulWriteCollides(u, ws);
    run := Remove(i) + more;
    GentlePieces(i, FULL, ws);
    Collides(t, Remove(i), u, more, ws);
  }

  /** The number names something that exists, and at most one live process goes by it or has that parent. */
  predicate Tame(w: World, v: int) {
    && Exists(w, v)
    && forall i, j :: 0 <= i < |w.ids| && 0 <= j < |w.ids| && Bears(w, i, v) && Bears(w, j, v) ==> i == j
  }

  predicate Bears(w: World, i: nat, v: int) { i < |w.ids| && w.ids[i].alive && Entitled(w, i, v) }

  lemma HarmlessIsTame(w: World, text: Bytes, v: int)
    requires ParsePid(text) == Some(v)
    ensures Harmless(w, text) <==> Tame(w, v)
  {
    assert forall i :: 0 <= i < |w.ids| ==> (Claims(w, i, text) <==> Bears(w, i, v));
  }

  /** The first `n` digits of every live process's id are tame. */
  predicate TamePrefixes(w: World, n: nat)
    requires n <= WIDTH
  {
    forall k :: 0 <= k < |w.ids| && w.ids[k].alive ==> Tame(w, DropDigits(w.ids[k].pid, WIDTH - n))
  }

  lemma ShortWritable(w: World, n: nat)
    requires Sized(w) && Writable(w, WHOLE) && 0 < n < WIDTH
    ensures Writable(w, WHOLE + {n}) <==> TamePrefixes(w, n)
  {
    forall k | 0 <= k < |w.ids| && w.ids[k].alive
      ensures Harmless(w, Written(w.ids[k].pid, n)) <==> Tame(w, DropDigits(w.ids[k].pid, WIDTH - n))
    {
      PrefixNames(w.ids[k].pid, n);
      HarmlessIsTame(w, Written(w.ids[k].pid, n), DropDigits(w.ids[k].pid, WIDTH - n));
    }
    if Writable(w, WHOLE + {n}) {
      assert forall k :: 0 <= k < |w.ids| && w.ids[k].alive ==> Harmless(w, Written(w.ids[k].pid, n));
    }
  }

  /** Exactly which short writes are safe among two or more strangers: those after whose digits no
      process finds a name that is dead, or that two of them can take for their own. */
  lemma ShortWritesExclude(s: Sys, n: nat)
    requires Outside(s) && s.path == ABSENT && DistinctPids(s.world) && Strangers(s.world) && !Alone(s.world)
    requires 0 < n < WIDTH
    ensures Exclusive(s, WHOLE + {n}) <==> TamePrefixes(s.world, n)
  {
    WholeWritable(s.world);
    ShortWritable(s.world, n);
    ExcludesExactlyIfSafe(s, WHOLE + {n});
  }
}
