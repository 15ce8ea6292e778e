/** What every run of the step system keeps.

    Each invariant is a predicate on one state, stated for every place of the consumer, with one
    lemma that every action keeps it.  The theorems at the end speak about all action sequences. */
module MachineProofs {
  import opened Machine
  import Timers

  // ---- control ----

  /** The state changes the machine can make. */
  predicate Edge(from: StateId, to: StateId) {
    match from
    case Idle => to.Onbatt? || to.SelfTesting?
    case Onbatt => to.Idle? || to.Shut()
    case SelfTesting => to.Idle? || to.Onbatt?
    case _ => false
  }

  /** At each place of the consumer: the states it can be in and how deep ChangeState is nested. */
  predicate Ctl(s: Sys) {
    match s.pc
    case Depart(to) => Edge(s.state, to) && s.depth <= 1 && (s.depth == 1 ==> s.state.Idle? && to.Onbatt?)
    case StopTimer(id, to) => Stopping(s, id, to)
    case JoinTimer(id, to) => Stopping(s, id, to)
    case Switch(to) => Edge(s.state, to) && 1 <= s.depth <= 2 && (s.depth == 2 ==> s.state.Idle? && to.Onbatt?)
    case EnterIdle => s.state.Idle? && s.depth <= 1
    case EnterOnbatt => s.state.Onbatt? && 1 <= s.depth <= 2
    case EnterSelftest => s.state.SelfTesting? && s.depth == 1
    case Check(id, entering) => Watched(id) && s.state.Onbatt? && Entering(entering, s.depth)
    case StartTimer(id, entering) =>
      && Entering(entering, s.depth)
      && (id.Selftest? ==> s.state.SelfTesting? && s.depth == 1)
      && (!id.Selftest? ==> s.state.Onbatt?)
      && (!Watched(id) ==> entering)
    case LeaveOutage => s.state.Onbatt? && s.depth == 0
    case FinishSelftest => s.state.SelfTesting? && s.depth == 0
    case JudgeSelftest => s.state.SelfTesting? && s.depth == 0
    case Return => s.depth <= 2
    case _ => s.depth == 0
  }

  predicate Watched(id: TimerId) { id.LoadLimit? || id.RunLimit? || id.LowBattery? }

  predicate Entering(b: bool, depth: nat) { if b then 1 <= depth <= 2 else depth == 0 }

  predicate Stopping(s: Sys, id: TimerId, to: StateId) {
    if id.Selftest? then s.state.SelfTesting? && to.Idle? && s.depth == 0
    else s.state.Onbatt? && Edge(Onbatt, to) && s.depth == 1
  }

  lemma CtlHandlers(s: Sys)
    requires Ctl(s)
    ensures Ctl(Handlers(s))
  {
  }

  lemma CtlStops(s: Sys)
    requires Ctl(s)
    ensures Ctl(StopCalls(s))
  {
  }

  lemma CtlStarts(s: Sys, spawned: bool)
    requires Ctl(s)
    ensures Ctl(StartCalls(s, spawned))
  {
  }

  lemma CtlOthers(s: Sys, e: Env)
    requires Ctl(s)
    ensures Ctl(Environment(s, e))
  {
  }

  // ---- no power failure is lost ----

  predicate IsDischarging(e: Event) { e.Datum? && e.ci.Discharging? }

  /** The value of the last CI_Discharging datum waiting in the queue, if there is one. */
  function LastQueued(q: seq<Event>): (r: seq<int>)
    ensures |r| <= 1
  {
    if q == [] then []
    else if IsDischarging(q[|q| - 1]) then [q[|q| - 1].value]
    else LastQueued(q[..|q| - 1])
  }

  /** It is the value of that datum, and empty exactly if no such datum waits. */
  lemma {:induction false} LastQueuedIsLast(q: seq<Event>)
    ensures LastQueued(q) == [] <==> forall i :: 0 <= i < |q| ==> !IsDischarging(q[i])
    ensures forall i :: 0 <= i < |q| && IsDischarging(q[i]) && (forall j :: i < j < |q| ==> !IsDischarging(q[j])) ==>
              LastQueued(q) == [q[i].value]
  {
    if q != [] && !IsDischarging(q[|q| - 1]) {
      var init := q[..|q| - 1];
      LastQueuedIsLast(init);
      assert forall i :: 0 <= i < |init| ==> init[i] == q[i];
    }
  }

  lemma {:induction false} LastQueuedBehind(q: seq<Event>)
    requires q != []
    ensures LastQueued(q[1..]) != [] ==> LastQueued(q) == LastQueued(q[1..])
    ensures LastQueued(q[1..]) == [] ==>
              LastQueued(q) == if q[0].Datum? && q[0].ci.Discharging? then [q[0].value] else []
  {
    var last := q[|q| - 1];
    if |q| > 1 {
      var init := q[..|q| - 1];
      assert q[1..][..|q| - 2] == init[1..] && q[1..][|q| - 2] == last;
      if !(last.Datum? && last.ci.Discharging?) { LastQueuedBehind(init); }
    } else {
      assert q[..0] == [] && q[1..] == [];
    }
  }

  lemma LastQueuedAppend(q: seq<Event>, e: Event)
    ensures LastQueued(q + [e]) == if e.Datum? && e.ci.Discharging? then [e.value] else LastQueued(q)
  {
    assert (q + [e])[..|q|] == q;
  }

  /** What being in a state says about the database. */
  predicate Claim(st: StateId, db: map<Ci, int>) {
    && (st.Idle? ==> !Truth(db, Discharging))
    && (st.Onbatt? ==> Truth(db, Discharging))
  }

  /** The claim the consumer is about to make good on, wherever it stands. */
  predicate Belief(s: Sys) {
    match s.pc
    case Handling(e) =>
      if e.Datum? && e.ci.Discharging?
      then Discharging in s.db && s.db[Discharging] == e.value
      else Claim(s.state, s.db)
    case Depart(to) => to.Onbatt? ==> Claim(to, s.db)
    case StopTimer(_, to) => true
    case JoinTimer(_, to) => true
    case Switch(to) => to.Onbatt? ==> Claim(to, s.db)
    case EnterIdle => true
    case LeaveOutage => true
    case _ => Claim(s.state, s.db)
  }

  /** A queued datum is no older than the database; with none queued the consumer's belief is right. */
  predicate Lossless(s: Sys) {
    var q := LastQueued(s.queue);
    && (q != [] ==> Discharging in s.db && s.db[Discharging] == q[0])
    && (q == [] ==> Belief(s))
  }

  lemma LosslessHandlers(s: Sys)
    requires Ctl(s) && Lossless(s)
    ensures Lossless(Handlers(s))
  {
    if s.pc.Head? && s.queue != [] { LastQueuedBehind(s.queue); }
  }

  lemma LosslessTimerCalls(s: Sys, spawned: bool)
    requires Ctl(s) && Lossless(s)
    ensures Lossless(StopCalls(s)) && Lossless(StartCalls(s, spawned))
  {
  }

  lemma LosslessOthers(s: Sys, e: Env)
    requires Lossless(s)
    ensures Lossless(Environment(s, e))
  {
    match e
    case Update(ci, v) => LastQueuedAppend(s.queue, Datum(ci, v));
    case Thread(id, w) => LastQueuedAppend(s.queue, Timeout(id));
    case AskQuit => LastQueuedAppend(s.queue, Quit);
    case _ =>
  }

  // ---- the timers, and when they may be started ----

  predicate OfOnbatt(id: TimerId) { !id.Selftest? }

  /** Position of the timer's stop in StateOnbatt::OnExit. */
  function ExitIndex(id: TimerId): nat {
    match id
    case TimeLimit => 0
    case RunLimit => 1
    case LowBattery => 2
    case LoadLimit => 3
    case _ => 4
  }

  /** OnExit has already stopped this timer, or OnEnter has not yet started any. */
  predicate AlreadyStopped(s: Sys, id: TimerId) {
    match s.pc
    case StopTimer(at, _) => !at.Selftest? && ExitIndex(id) < ExitIndex(at)
    case JoinTimer(at, _) => !at.Selftest? && ExitIndex(id) <= ExitIndex(at)
    case Switch(_) => true
    case EnterOnbatt => true
    case StartTimer(at, _) => at.OnbattEvent?
    case _ => false
  }

  /** The controller is inside a `stop` exactly when the timer says so, and the five timers of ONBATT
      are started only in ONBATT. */
  predicate Owned(s: Sys, id: TimerId) {
    && (s.timers(id).joining <==> s.pc.JoinTimer? && s.pc.id == id)
    && (OfOnbatt(id) && s.timers(id).started ==> s.state.Onbatt? && !AlreadyStopped(s, id))
  }

  predicate AllOwned(s: Sys) { forall id :: Owned(s, id) }

  ghost predicate AllSound(s: Sys) { forall id :: Timers.Inv(s.timers(id), s.now) }

  ghost predicate TimersOk(s: Sys) { AllOwned(s) && AllSound(s) }

  lemma OwnedHandlers(s: Sys, id: TimerId)
    requires Ctl(s) && Owned(s, id)
    ensures Owned(Handlers(s), id)
  {
  }

  lemma OwnedStops(s: Sys, id: TimerId)
    requires Ctl(s) && Owned(s, id)
    ensures Owned(StopCalls(s), id)
  {
  }

  lemma OwnedStarts(s: Sys, spawned: bool, id: TimerId)
    requires Ctl(s) && Owned(s, id)
    ensures Owned(StartCalls(s, spawned), id)
  {
  }

  lemma OwnedOthers(s: Sys, e: Env, id: TimerId)
    requires Ctl(s) && Owned(s, id)
    ensures Owned(Environment(s, e), id)
  {
  }

  lemma SoundStops(s: Sys, id: TimerId)
    requires Timers.Inv(s.timers(id), s.now)
    ensures Timers.Inv(StopCalls(s).timers(id), s.now)
  {
    Timers.StopJoinKeepInv(s.timers(id), s.now);
  }

  lemma SoundStarts(s: Sys, spawned: bool, id: TimerId)
    requires Timers.Inv(s.timers(id), s.now) && Owned(s, id)
    ensures Timers.Inv(StartCalls(s, spawned).timers(id), s.now)
  {
    if s.pc.StartTimer? { Timers.StartKeepsInv(s.timers(id), s.now, Period(s.cfg, id), spawned); }
  }

  lemma SoundOthers(s: Sys, e: Env, id: TimerId)
    requires Timers.Inv(s.timers(id), s.now)
    ensures Timers.Inv(Environment(s, e).timers(id), Environment(s, e).now)
  {
    match e
    case Thread(_, w) => Timers.ThreadKeepsInv(s.timers(id), s.now, w);
    case Tick(d) => Timers.TickKeepsInv(s.timers(id), s.now, s.now + d);
    case _ =>
  }

  lemma TimersHandlers(s: Sys)
    requires Ctl(s) && TimersOk(s)
    ensures TimersOk(Handlers(s))
  {
    forall id ensures Owned(Handlers(s), id) { OwnedHandlers(s, id); }
  }

  lemma TimersStops(s: Sys)
    requires Ctl(s) && TimersOk(s)
    ensures TimersOk(StopCalls(s))
  {
    assert AllOwned(StopCalls(s)) by {
      forall id ensures Owned(StopCalls(s), id) { OwnedStops(s, id); }
    }
    assert AllSound(StopCalls(s)) by {
      forall id ensures Timers.Inv(StopCalls(s).timers(id), s.now) { SoundStops(s, id); }
    }
  }

  lemma TimersStarts(s: Sys, spawned: bool)
    requires Ctl(s) && TimersOk(s)
    ensures TimersOk(StartCalls(s, spawned))
  {
    var s' := StartCalls(s, spawned);
    assert AllOwned(s') by {
      forall id ensures Owned(s', id) { OwnedStarts(s, spawned, id); }
    }
    assert AllSound(s') by {
      forall id ensures Timers.Inv(s'.timers(id), s.now) { SoundStarts(s, spawned, id); }
    }
  }

  lemma TimersOthers(s: Sys, e: Env)
    requires Ctl(s) && TimersOk(s)
    ensures TimersOk(Environment(s, e))
  {
    var s' := Environment(s, e);
    forall id ensures Owned(s', id) { OwnedOthers(s, e, id); }
    forall id ensures Timers.Inv(s'.timers(id), s'.now) { SoundOthers(s, e, id); }
  }

  // ---- the log tells the outages ----

  /** What a reader of the log alone knows: between outages, or inside one that began at `since`
      (`onbattery`: ONBATTERY was posted in it), or about to read its MAINSBACK; `total` seconds of
      completed outages.  `Garbled` when the log is not a sequence of well-formed outages. */
  datatype Meter =
    | OnMains(total: int)
    | InOutage(onbattery: bool, since: int, total: int)
    | Closing(since: int, total: int)
    | Garbled

  function Read(m: Meter, p: Posted): Meter {
    match p.cmd
    case PowerOut => if m.OnMains? then InOutage(false, p.at, m.total) else Garbled
    case OnBattery => if m.InOutage? then m.(onbattery := true) else Garbled
    case OffBattery => if m.InOutage? && m.onbattery then Closing(m.since, m.total) else Garbled
    case MainsBack =>
      if m.Closing? || (m.InOutage? && !m.onbattery) then OnMains(m.total + (p.at - m.since)) else Garbled
    case _ => if m.Closing? then Garbled else m
  }

  function MeterOf(log: seq<Posted>): Meter {
    if log == [] then OnMains(0) else Read(MeterOf(log[..|log| - 1]), log[|log| - 1])
  }

  function Count(log: seq<Posted>, cmd: Cmd): nat {
    if log == [] then 0
    else Count(log[..|log| - 1], cmd) + (if log[|log| - 1].cmd == cmd then 1 else 0)
  }

  lemma MeterAppend(log: seq<Posted>, p: Posted)
    ensures MeterOf(log + [p]) == Read(MeterOf(log), p)
    ensures Count(log + [p], PowerOut) == Count(log, PowerOut) + (if p.cmd.PowerOut? then 1 else 0)
  {
    assert (log + [p])[..|log|] == log;
  }

  /** In a well-formed log the POWEROUTs exceed the MAINSBACKs by one inside an outage only. */
  lemma {:induction false} MeterBalances(log: seq<Posted>)
    requires !MeterOf(log).Garbled?
    ensures Count(log, PowerOut) == Count(log, MainsBack) + (if MeterOf(log).OnMains? then 0 else 1)
  {
    if log != [] { MeterBalances(log[..|log| - 1]); }
  }

  /** The consumer is inside an outage: POWEROUT is posted and MAINSBACK is not. */
  predicate Outage(s: Sys) {
    match s.pc
    case Depart(to) => to.Shut()
    case StopTimer(_, to) => to.Shut()
    case JoinTimer(_, to) => to.Shut()
    case Switch(to) => to.Shut()
    case EnterOnbatt => false
    case _ => s.state.Onbatt? || s.state.Shut()
  }

  predicate BooksOk(b: Books, outage: bool) {
    && b.numXfers == Count(b.log, PowerOut)
    && MeterOf(b.log) == (if outage then InOutage(b.onbatteryPosted, b.lastOnbattTime, b.cumTimeOnBatt)
                          else OnMains(b.cumTimeOnBatt))
  }

  predicate Accounts(s: Sys) { BooksOk(s.books, Outage(s)) }

  lemma PostKeepsBooks(b: Books, outage: bool, cmd: Cmd, at: int)
    requires BooksOk(b, outage)
    requires cmd.StartSelftest? || cmd.EndSelftest? || cmd.BattAttach? || cmd.BattDetach?
    ensures BooksOk(Post(b, cmd, at), outage)
  {
    MeterAppend(b.log, Posted(cmd, at));
  }

  lemma OnBatteryKeepsBooks(b: Books, at: int)
    requires BooksOk(b, true)
    ensures BooksOk(Post(b, OnBattery, at).(onbatteryPosted := true), true)
  {
    MeterAppend(b.log, Posted(OnBattery, at));
  }

  lemma BeginOutageKeepsBooks(b: Books, at: int)
    requires BooksOk(b, false)
    ensures BooksOk(BeginOutage(b, at), true)
  {
    MeterAppend(b.log, Posted(PowerOut, at));
  }

  lemma EndOutageKeepsBooks(b: Books, at: int)
    requires BooksOk(b, true)
    ensures BooksOk(EndOutage(b, at), false)
  {
    var off := Posted(OffBattery, at);
    MeterAppend(b.log, off);
    MeterAppend(if b.onbatteryPosted then b.log + [off] else b.log, Posted(MainsBack, at));
  }

  lemma BooksAfterEvent(s: Sys, e: Event)
    requires Accounts(s) && s.pc == Handling(e)
    ensures BooksOk(BooksAfter(s.books, s.state, e, Sec(s.now)), s.state.Onbatt? || s.state.Shut())
  {
    var at := Sec(s.now);
    match e
    case Datum(ci, v) =>
      PostKeepsBooks(s.books, Outage(s), BattAttach, at);
      PostKeepsBooks(s.books, Outage(s), BattDetach, at);
    case Timeout(id) => if s.state.Onbatt? { OnBatteryKeepsBooks(s.books, at); }
    case Quit =>
  }

  lemma AccountsHandling(s: Sys)
    requires Ctl(s) && Accounts(s) && s.pc.Handling?
    ensures Accounts(Handlers(s))
  {
    BooksAfterEvent(s, s.pc.e);
  }

  predicate Posts(pc: Pc) {
    pc.Handling? || pc.EnterOnbatt? || pc.EnterSelftest? || pc.LeaveOutage? || pc.FinishSelftest?
  }

  lemma AccountsQuiet(s: Sys)
    requires Ctl(s) && !Posts(s.pc)
    ensures Handlers(s).books == s.books && Outage(Handlers(s)) == Outage(s)
  {
  }

  /** What the posting handlers do to the books, and on which side of an outage that leaves the consumer. */
  lemma PostingSteps(s: Sys)
    requires Ctl(s) && Posts(s.pc) && !s.pc.Handling?
    ensures var t, at := Handlers(s), Sec(s.now);
            match s.pc
            case EnterOnbatt => t.books == BeginOutage(s.books, at) && !Outage(s) && Outage(t)
            case EnterSelftest => t.books == Post(s.books, StartSelftest, at) && !Outage(s) && !Outage(t)
            case LeaveOutage => t.books == EndOutage(s.books, at) && Outage(s) && !Outage(t)
            case FinishSelftest => t.books == Post(s.books, EndSelftest, at) && !Outage(s) && !Outage(t)
            case _ => true
  {
  }

  lemma AccountsPosts(s: Sys)
    requires Ctl(s) && Accounts(s) && Posts(s.pc) && !s.pc.Handling?
    ensures Accounts(Handlers(s))
  {
    PostingSteps(s);
    PostKeeps(s.books, s.pc, Sec(s.now), Outage(s));
  }

  lemma PostKeeps(b: Books, pc: Pc, at: int, outage: bool)
    requires BooksOk(b, outage) && outage == pc.LeaveOutage?
    ensures match pc
            case EnterOnbatt => BooksOk(BeginOutage(b, at), true)
            case EnterSelftest => BooksOk(Post(b, StartSelftest, at), false)
            case LeaveOutage => BooksOk(EndOutage(b, at), false)
            case FinishSelftest => BooksOk(Post(b, EndSelftest, at), false)
            case _ => true
  {
    match pc
    case EnterOnbatt => BeginOutageKeepsBooks(b, at);
    case EnterSelftest => PostKeepsBooks(b, false, StartSelftest, at);
    case LeaveOutage => EndOutageKeepsBooks(b, at);
    case FinishSelftest => PostKeepsBooks(b, false, EndSelftest, at);
    case _ =>
  }

  lemma AccountsHandlers(s: Sys)
    requires Ctl(s) && Accounts(s) && !s.pc.Handling?
    ensures Accounts(Handlers(s))
  {
    if Posts(s.pc) { AccountsPosts(s); } else { AccountsQuiet(s); }
  }

  lemma AccountsTimerCalls(s: Sys, spawned: bool)
    requires Ctl(s) && Accounts(s)
    ensures Accounts(StopCalls(s)) && Accounts(StartCalls(s, spawned))
  {
  }

  lemma AccountsOthers(s: Sys, e: Env)
    requires Accounts(s)
    ensures Accounts(Environment(s, e))
  {
  }

  /** The clock has not run backwards, and an open outage began after the start. */
  predicate SinceStart(s: Sys, start: nat) {
    start <= s.now && (Outage(s) ==> Sec(start) <= s.books.lastOnbattTime)
  }

  lemma SinceStartHandlers(s: Sys, start: nat)
    requires Ctl(s) && SinceStart(s, start)
    ensures SinceStart(Handlers(s), start)
  {
  }

  lemma SinceStartElsewhere(s: Sys, start: nat, spawned: bool, e: Env)
    requires Ctl(s) && SinceStart(s, start)
    ensures SinceStart(StopCalls(s), start) && SinceStart(StartCalls(s, spawned), start)
    ensures SinceStart(Environment(s, e), start)
  {
  }

  // ---- why the machine shuts down ----

  /** Microseconds that must pass between the cause and the timeout of `id`. */
  function Delay(cfg: Config, id: TimerId): int {
    if id.TimeLimit? then cfg.maxTime * 1_000_000 else SHUTDOWN_DEBOUNCE_MSEC * 1000
  }

  predicate Trigger(id: TimerId) { id.TimeLimit? || id.LowBattery? || id.RunLimit? || id.LoadLimit? }

  /** ONBATT was entered (with a time limit configured), or CheckShutdown saw the reading meet its limit in ONBATT. */
  predicate Cause(cfg: Config, n: Note, id: TimerId) {
    if id.TimeLimit? then n.Entered? && n.into.Onbatt? && cfg.maxTime > 0
    else n.Saw? && n.trigger == id && n.during.Onbatt? && Met(cfg, id, n.reading)
  }

  predicate Leads(id: TimerId, st: StateId) {
    match id
    case TimeLimit => st.ShutRunLimit?
    case RunLimit => st.ShutRunLimit?
    case LowBattery => st.ShutBattLow?
    case LoadLimit => st.ShutLoadLimit?
    case _ => false
  }

  /** The history holds a cause at least the delay of `id` before `at`. */
  ghost predicate Justified(cfg: Config, hist: seq<Note>, id: TimerId, at: int) {
    exists i :: 0 <= i < |hist| && Cause(cfg, hist[i], id) && hist[i].at + Delay(cfg, id) <= at
  }

  ghost predicate ShutJustified(cfg: Config, hist: seq<Note>, st: StateId, at: int) {
    exists id :: Trigger(id) && Leads(id, st) && Justified(cfg, hist, id, at)
  }

  lemma JustifiedLater(cfg: Config, h: seq<Note>, h': seq<Note>, id: TimerId, at: int, at': int)
    requires Justified(cfg, h, id, at) && h <= h' && at <= at'
    ensures Justified(cfg, h', id, at')
  {
    var i :| 0 <= i < |h| && Cause(cfg, h[i], id) && h[i].at + Delay(cfg, id) <= at;
    assert h'[i] == h[i];
  }

  lemma ShutJustifiedLater(cfg: Config, h: seq<Note>, h': seq<Note>, st: StateId, at: int, at': int)
    requires ShutJustified(cfg, h, st, at) && h <= h' && at <= at'
    ensures ShutJustified(cfg, h', st, at')
  {
    var id :| Trigger(id) && Leads(id, st) && Justified(cfg, h, id, at);
    JustifiedLater(cfg, h, h', id, at, at');
  }

  /** The history never runs ahead of the clock, and every shutdown in it was justified when it came. */
  ghost predicate HistOk(cfg: Config, hist: seq<Note>, now: int) {
    && (forall i :: 0 <= i < |hist| ==> hist[i].at <= now)
    && (forall i :: 0 <= i < |hist| ==> EntryOk(cfg, hist, i))
  }

  ghost predicate EntryOk(cfg: Config, hist: seq<Note>, i: nat)
    requires i < |hist|
  {
    hist[i].Entered? && hist[i].into.Shut() ==> ShutJustified(cfg, hist[..i], hist[i].into, hist[i].at)
  }

  ghost predicate Caused(cfg: Config, hist: seq<Note>, id: TimerId) {
    exists i :: 0 <= i < |hist| && Cause(cfg, hist[i], id)
  }

  /** A moment of a run: how much history there was, and how often each timer had been started and had
      fired. */
  datatype Epoch = Epoch(from: nat, launches: TimerId -> nat, firings: TimerId -> nat)

  const BEGINNING := Epoch(0, _ => 0, _ => 0)

  function EpochOf(s: Sys): Epoch
    requires s.hist != []
  {
    Epoch(|s.hist| - 1, id => |s.timers(id).launches|, id => |s.timers(id).firings|)
  }

  /** The history since then. */
  function Late(s: Sys, ep: Epoch): seq<Note> { if ep.from <= |s.hist| then s.hist[ep.from..] else [] }

  /** The timer has fired, is firing and waits only for starts since then. */
  ghost predicate RecentTimer(t: Timers.Timer, launches: nat, firings: nat) {
    && launches <= |t.launches| && firings <= |t.firings| && (t.started ==> launches < |t.launches|)
    && (forall i :: firings <= i < |t.firings| ==> launches <= t.firings[i].gen)
    && (t.thread.Calling? || t.thread.Waiting? ==> launches <= t.thread.gen)
  }

  ghost predicate Recent(s: Sys, ep: Epoch) {
    && ep.from <= |s.hist|
    && forall id :: Trigger(id) ==> RecentTimer(s.timers(id), ep.launches(id), ep.firings(id))
  }

  /** In ONBATT its entry is on record; a debounce timer is started on record of its condition only. */
  ghost predicate Grounds(s: Sys, ep: Epoch) {
    && (s.state.Onbatt? && s.cfg.maxTime > 0 ==> Caused(s.cfg, Late(s, ep), TimeLimit))
    && (s.pc.StartTimer? && Watched(s.pc.id) ==> Caused(s.cfg, Late(s, ep), s.pc.id))
  }

  /** Every effective start of a shutdown timer was due to a cause on record. */
  ghost predicate LaunchesOk(cfg: Config, hist: seq<Note>, id: TimerId, launches: seq<Timers.Launch>, from: nat) {
    Trigger(id) ==> forall g :: from <= g < |launches| ==> Justified(cfg, hist, id, launches[g].deadline)
  }

  ghost predicate AllLaunchesOk(s: Sys, ep: Epoch) {
    forall id :: LaunchesOk(s.cfg, Late(s, ep), id, s.timers(id).launches, ep.launches(id))
  }

  /** A shutdown timer's timeout in the queue or in hand was posted by its timer since then. */
  predicate Real(s: Sys, ep: Epoch, e: Event) {
    e.Timeout? && Trigger(e.id) ==> |s.timers(e.id).firings| > ep.firings(e.id)
  }

  ghost predicate TimeoutsReal(s: Sys, ep: Epoch) {
    && (forall i :: 0 <= i < |s.queue| ==> Real(s, ep, s.queue[i]))
    && (s.pc.Handling? ==> Real(s, ep, s.pc.e))
  }

  predicate HeadingTo(pc: Pc, to: StateId) {
    (pc.Depart? || pc.StopTimer? || pc.JoinTimer? || pc.Switch?) && pc.to == to
  }

  /** A shutdown the consumer is heading for is justified by now. */
  ghost predicate PendingOk(s: Sys, ep: Epoch) {
    forall to: StateId :: to.Shut() && HeadingTo(s.pc, to) ==> ShutJustified(s.cfg, Late(s, ep), to, s.now)
  }

  /** Since the epoch, everything that leads to a shutdown has its cause. */
  ghost predicate Causes(s: Sys, ep: Epoch) {
    && Recent(s, ep) && HistOk(s.cfg, Late(s, ep), s.now) && Grounds(s, ep) && TimeoutsReal(s, ep)
    && PendingOk(s, ep) && AllLaunchesOk(s, ep)
  }

  lemma HistAppend(cfg: Config, h: seq<Note>, n: Note)
    requires HistOk(cfg, h, n.at)
    requires n.Entered? && n.into.Shut() ==> ShutJustified(cfg, h, n.into, n.at)
    ensures HistOk(cfg, h + [n], n.at)
    ensures forall id :: Caused(cfg, h, id) || Cause(cfg, n, id) ==> Caused(cfg, h + [n], id)
  {
    var h' := h + [n];
    forall i | 0 <= i < |h'| ensures EntryOk(cfg, h', i) {
      if i < |h| {
        assert EntryOk(cfg, h, i) && h'[..i] == h[..i];
      } else {
        assert h'[..i] == h;
      }
    }
    forall id | Caused(cfg, h, id) || Cause(cfg, n, id) ensures Caused(cfg, h', id) {
      if Caused(cfg, h, id) {
        var i :| 0 <= i < |h| && Cause(cfg, h[i], id);
        assert Cause(cfg, h'[i], id);
      } else {
        assert Cause(cfg, h'[|h|], id);
      }
    }
  }

  lemma LaunchesAppend(cfg: Config, h: seq<Note>, n: Note, id: TimerId, launches: seq<Timers.Launch>, from: nat)
    requires LaunchesOk(cfg, h, id, launches, from)
    ensures LaunchesOk(cfg, h + [n], id, launches, from)
  {
    forall g | Trigger(id) && from <= g < |launches| ensures Justified(cfg, h + [n], id, launches[g].deadline) {
      JustifiedLater(cfg, h, h + [n], id, launches[g].deadline, launches[g].deadline);
    }
  }

  /** A note appended to the history is appended to its later part. */
  lemma NoteAppended(s: Sys, ep: Epoch, n: Note)
    requires Recent(s, ep) && HistOk(s.cfg, Late(s, ep), n.at) && AllLaunchesOk(s, ep)
    requires n.Entered? && n.into.Shut() ==> ShutJustified(s.cfg, Late(s, ep), n.into, n.at)
    ensures var t := s.(hist := s.hist + [n]);
            && Late(t, ep) == Late(s, ep) + [n] && HistOk(s.cfg, Late(t, ep), n.at) && AllLaunchesOk(t, ep)
            && forall id :: Caused(s.cfg, Late(s, ep), id) || Cause(s.cfg, n, id) ==> Caused(s.cfg, Late(t, ep), id)
  {
    var t := s.(hist := s.hist + [n]);
    assert Late(t, ep) == Late(s, ep) + [n];
    HistAppend(s.cfg, Late(s, ep), n);
    forall id ensures LaunchesOk(t.cfg, Late(t, ep), id, t.timers(id).launches, ep.launches(id)) {
      LaunchesAppend(s.cfg, Late(s, ep), n, id, s.timers(id).launches, ep.launches(id));
    }
  }

  /** A timeout in hand comes at or after the deadline of a justified start. */
  lemma TimeoutJustified(s: Sys, ep: Epoch, id: TimerId)
    requires Timers.Inv(s.timers(id), s.now) && Recent(s, ep)
    requires LaunchesOk(s.cfg, Late(s, ep), id, s.timers(id).launches, ep.launches(id))
    requires Trigger(id) && |s.timers(id).firings| > ep.firings(id)
    ensures Justified(s.cfg, Late(s, ep), id, s.now)
  {
    var t := s.timers(id);
    var f := t.firings[ep.firings(id)];
    assert Timers.FiredInTime(t, f, s.now) && ep.launches(id) <= f.gen;
    JustifiedLater(s.cfg, Late(s, ep), Late(s, ep), id, t.launches[f.gen].deadline, s.now);
  }

  lemma PendingHandling(s: Sys, ep: Epoch)
    requires Ctl(s) && TimersOk(s) && Causes(s, ep) && s.pc.Handling?
    ensures PendingOk(Handlers(s), ep)
  {
    var e := s.pc.e;
    if e.Timeout? && s.state.Onbatt? && Trigger(e.id) {
      assert Timers.Inv(s.timers(e.id), s.now);
      assert LaunchesOk(s.cfg, Late(s, ep), e.id, s.timers(e.id).launches, ep.launches(e.id));
      TimeoutJustified(s, ep, e.id);
    }
  }

  lemma CausesSwitch(s: Sys, ep: Epoch)
    requires Ctl(s) && Causes(s, ep) && s.pc.Switch?
    ensures Causes(Handlers(s), ep)
  {
    assert HeadingTo(s.pc, s.pc.to);
    NoteAppended(s, ep, Entered(s.pc.to, s.now));
  }

  lemma PendingOnward(s: Sys, ep: Epoch)
    requires Ctl(s) && PendingOk(s, ep) && !s.pc.Handling? && !s.pc.Switch?
    ensures PendingOk(Handlers(s), ep) && PendingOk(StopCalls(s), ep)
  {
    assert forall to: StateId | HeadingTo(Handlers(s).pc, to) && to.Shut() :: HeadingTo(s.pc, to);
    assert forall to: StateId | HeadingTo(StopCalls(s).pc, to) && to.Shut() :: HeadingTo(s.pc, to);
  }

  lemma CausesHandlers(s: Sys, ep: Epoch)
    requires Ctl(s) && TimersOk(s) && Causes(s, ep)
    ensures Causes(Handlers(s), ep)
  {
    if s.pc.Switch? { CausesSwitch(s, ep); }
    else if s.pc.Handling? { PendingHandling(s, ep); }
    else { PendingOnward(s, ep); }
  }

  lemma CausesStops(s: Sys, ep: Epoch)
    requires Ctl(s) && Causes(s, ep) && (s.pc.StopTimer? || s.pc.JoinTimer?)
    ensures Causes(StopCalls(s), ep)
  {
    PendingOnward(s, ep);
  }

  lemma CausesCheck(s: Sys, ep: Epoch, spawned: bool)
    requires Ctl(s) && Causes(s, ep) && s.pc.Check?
    ensures Causes(StartCalls(s, spawned), ep)
  {
    var ci := ReadingOf(s.pc.id);
    if ci in s.db && Met(s.cfg, s.pc.id, s.db[ci]) {
      NoteAppended(s, ep, Saw(s.pc.id, s.db[ci], s.state, s.now));
    }
  }

  /** The timer that is started gets a deadline at least its delay after the cause. */
  lemma LaunchesStart(s: Sys, h: seq<Note>, spawned: bool, id: TimerId, from: nat)
    requires LaunchesOk(s.cfg, h, id, s.timers(id).launches, from)
    requires Trigger(id) ==> Caused(s.cfg, h, id)
    requires HistOk(s.cfg, h, s.now)
    ensures LaunchesOk(s.cfg, h, id,
                       Timers.Start(s.timers(id), s.now, Period(s.cfg, id), spawned).launches, from)
  {
    if Trigger(id) {
      var i :| 0 <= i < |h| && Cause(s.cfg, h[i], id);
      assert h[i].at + Delay(s.cfg, id) <= s.now + Period(s.cfg, id) * 1000;
      assert Justified(s.cfg, h, id, s.now + Period(s.cfg, id) * 1000);
    }
  }

  lemma CausesStart(s: Sys, ep: Epoch, spawned: bool)
    requires Ctl(s) && Causes(s, ep) && s.pc.StartTimer?
    ensures Causes(StartCalls(s, spawned), ep)
  {
    if !(s.pc.id.TimeLimit? && s.cfg.maxTime <= 0) {
      LaunchesStart(s, Late(s, ep), spawned, s.pc.id, ep.launches(s.pc.id));
    }
    RecentStart(s, ep, spawned);
  }

  lemma RecentStart(s: Sys, ep: Epoch, spawned: bool)
    requires Recent(s, ep) && s.pc.StartTimer?
    ensures Recent(StartCalls(s, spawned), ep)
  {
  }

  lemma CausesStarts(s: Sys, ep: Epoch, spawned: bool)
    requires Ctl(s) && Causes(s, ep)
    ensures Causes(StartCalls(s, spawned), ep)
  {
    if s.pc.Check? { CausesCheck(s, ep, spawned); } else if s.pc.StartTimer? { CausesStart(s, ep, spawned); }
  }

  lemma CausesOthers(s: Sys, ep: Epoch, e: Env)
    requires Causes(s, ep)
    ensures Causes(Environment(s, e), ep)
  {
    PendingLater(s, ep, e);
    forall id ensures LaunchesOk(s.cfg, Late(s, ep), id, Environment(s, e).timers(id).launches, ep.launches(id)) {
      assert Environment(s, e).timers(id).launches == s.timers(id).launches;
    }
  }

  lemma PendingLater(s: Sys, ep: Epoch, e: Env)
    requires PendingOk(s, ep)
    ensures PendingOk(Environment(s, e), ep)
  {
    var s' := Environment(s, e);
    forall to: StateId | to.Shut() && HeadingTo(s'.pc, to) ensures ShutJustified(s.cfg, Late(s, ep), to, s'.now) {
      ShutJustifiedLater(s.cfg, Late(s, ep), Late(s, ep), to, s.now, s'.now);
    }
  }
}
