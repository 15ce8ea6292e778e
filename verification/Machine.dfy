/** The UPS state machine as a step system.

    One consumer thread drains the event queue and runs the handlers of the current state; driver
    threads update the shared readings, timer threads post timeouts, the clock advances.  `pc` is the
    consumer's place between two accesses to shared data, `depth` the number of `ChangeState` calls
    it is inside, so every other thread may step between any two such accesses. */
module Machine {
  import Timers

  /** The readings the machine looks at; drivers may report any other. */
  datatype Ci = Discharging | SelftestStat | BattLevel | RunTime | BattLow | BatteryPresent | OtherCi(n: int)

  datatype TimerId = Selftest | TimeLimit | LowBattery | RunLimit | LoadLimit | OnbattEvent

  datatype StateId = Idle | Onbatt | SelfTesting | ShutLoadLimit | ShutRunLimit | ShutBattLow {
    predicate Shut() { ShutLoadLimit? || ShutRunLimit? || ShutBattLow? }
  }

  datatype Event = Datum(ci: Ci, value: int) | Timeout(id: TimerId) | Quit

  datatype Cmd =
    | PowerOut | OnBattery | OffBattery | MainsBack
    | StartSelftest | EndSelftest | BattAttach | BattDetach

  /** One entry of the event log, stamped in seconds. */
  datatype Posted = Posted(cmd: Cmd, at: int)

  /** History of the consumer, stamped in microseconds: states entered and shutdown triggers seen. */
  datatype Note =
    | Entered(into: StateId, at: int)
    | Saw(trigger: TimerId, reading: int, during: StateId, at: int)

  datatype Config = Config(onbattDelay: int, maxTime: int, percent: int, runtime: int)

  const TEST_INPROGRESS := 4
  const MAX_SELFTEST_TIME_MSEC := 40000
  const SHUTDOWN_DEBOUNCE_MSEC := 5000

  type Timers6 = TimerId -> Timers.Timer

  const ALL_FRESH: Timers6 := _ => Timers.FRESH

  function With(ts: Timers6, id: TimerId, t: Timers.Timer): Timers6 { x => if x == id then t else ts(x) }

  datatype Pc =
    | Head                                   // waiting for the next event
    | Handling(e: Event)                     // event taken, handler not begun
    | Depart(to: StateId)                    // ChangeState called
    | StopTimer(id: TimerId, to: StateId)    // before a timer's stop, in an OnExit or a self test's end
    | JoinTimer(id: TimerId, to: StateId)    // inside the join of that stop
    | Switch(to: StateId)                    // OnExit done
    | EnterIdle                              // OnEnter of the three states that do something
    | EnterOnbatt
    | EnterSelftest
    | Check(id: TimerId, entering: bool)     // inside CheckShutdown, called from OnEnter or from OnDatum
    | StartTimer(id: TimerId, entering: bool)
    | LeaveOutage                            // StateOnbatt::OnDatum saw the mains return
    | FinishSelftest
    | JudgeSelftest                          // StateSelftest::OnTimeout
    | Return                                 // the rest of the handler only returns
    | Stopped                                // EVENT_QUIT was handled

  /** The consumer's own bookkeeping and the event log. */
  datatype Books = Books(
    onbatteryPosted: bool,
    lastOnbattTime: int,
    numXfers: int,
    cumTimeOnBatt: int,
    log: seq<Posted>)

  datatype Sys = Sys(
    cfg: Config,
    now: nat,
    db: map<Ci, int>,
    queue: seq<Event>,
    timers: Timers6,
    state: StateId,
    books: Books,
    hist: seq<Note>,
    pc: Pc,
    depth: nat)

  /** The moment `Start` enters the initial state, already registered for updates. */
  function Init(cfg: Config, now: nat, db: map<Ci, int>): Sys {
    Sys(cfg, now, db, [], ALL_FRESH, Idle, Books(false, 0, 0, 0, []), [], EnterIdle, 0)
  }

  function Sec(now: nat): int { now / 1_000_000 }

  predicate Truth(db: map<Ci, int>, ci: Ci) { ci in db && db[ci] != 0 }

  // ---- bookkeeping ----

  function Post(b: Books, cmd: Cmd, at: int): Books { b.(log := b.log + [Posted(cmd, at)]) }

  function BeginOutage(b: Books, at: int): Books {
    Post(b, PowerOut, at).(lastOnbattTime := at, numXfers := b.numXfers + 1, onbatteryPosted := false)
  }

  function EndOutage(b: Books, at: int): Books {
    var b1 := b.(cumTimeOnBatt := b.cumTimeOnBatt + (at - b.lastOnbattTime));
    Post(if b.onbatteryPosted then Post(b1, OffBattery, at) else b1, MainsBack, at)
  }

  // ---- the handlers ----

  /** Which way the handler of event `e` goes in state `st`. */
  function Dispatch(st: StateId, e: Event): Pc {
    match e
    case Quit => Stopped
    case Datum(ci, v) =>
      if ci.BatteryPresent? then Return
      else (match st
            case Idle =>
              if ci.Discharging? && v != 0 then Depart(Onbatt)
              else if ci.SelftestStat? && v == TEST_INPROGRESS then Depart(SelfTesting)
              else Return
            case Onbatt =>
              if ci.Discharging? && v == 0 then LeaveOutage
              else if ci.BattLevel? || ci.RunTime? || ci.BattLow? then Check(LoadLimit, false)
              else Return
            case SelfTesting =>
              if ci.SelftestStat? && v != TEST_INPROGRESS then StopTimer(Selftest, Idle) else Return
            case _ => Return)
    case Timeout(id) =>
      (match st
       case Onbatt =>
         (match id
          case TimeLimit => Depart(ShutRunLimit)
          case RunLimit => Depart(ShutRunLimit)
          case LowBattery => Depart(ShutBattLow)
          case LoadLimit => Depart(ShutLoadLimit)
          case _ => Return)
       case SelfTesting => if id.Selftest? then JudgeSelftest else Return
       case _ => Return)
  }

  /** What handling `e` posts before anything else. */
  function BooksAfter(b: Books, st: StateId, e: Event, at: int): Books {
    match e
    case Datum(ci, v) =>
      if ci.BatteryPresent? then Post(b, if v != 0 then BattAttach else BattDetach, at) else b
    case Timeout(id) =>
      if id.OnbattEvent? && st.Onbatt? then Post(b, OnBattery, at).(onbatteryPosted := true) else b
    case Quit => b
  }

  function OnEnter(t: StateId): Pc {
    match t
    case Idle => EnterIdle
    case Onbatt => EnterOnbatt
    case SelfTesting => EnterSelftest
    case _ => Return
  }

  function Handlers(s: Sys): Sys {
    var at := Sec(s.now);
    match s.pc
    case Head =>
      if s.queue == [] then s else s.(pc := Handling(s.queue[0]), queue := s.queue[1..])
    case Handling(e) => s.(pc := Dispatch(s.state, e), books := BooksAfter(s.books, s.state, e, at))
    case Depart(to) =>
      s.(pc := if s.state.Onbatt? then StopTimer(TimeLimit, to) else Switch(to), depth := s.depth + 1)
    case Switch(to) => s.(pc := OnEnter(to), state := to, hist := s.hist + [Entered(to, s.now)])
    case EnterIdle => s.(pc := if Truth(s.db, Discharging) then Depart(Onbatt) else Return)
    case EnterOnbatt => s.(pc := StartTimer(OnbattEvent, true), books := BeginOutage(s.books, at))
    case EnterSelftest =>
      s.(pc := StartTimer(Selftest, true), books := Post(s.books, StartSelftest, at))
    case LeaveOutage => s.(pc := Depart(Idle), books := EndOutage(s.books, at))
    case FinishSelftest => s.(pc := Depart(Idle), books := Post(s.books, EndSelftest, at))
    case JudgeSelftest =>
      s.(pc := if Truth(s.db, Discharging) then Depart(Onbatt) else FinishSelftest)
    case Return => if s.depth > 0 then s.(depth := s.depth - 1) else s.(pc := Head)
    case _ => s
  }

  // ---- the handlers' dealings with the timers ----

  /** The shutdown condition watched by `id`, on the value `v` of its reading. */
  predicate Met(cfg: Config, id: TimerId, v: int) {
    match id
    case LoadLimit => Timers.CDiv(v, 10) <= cfg.percent
    case RunLimit => Timers.CDiv(v, 60) <= cfg.runtime
    case LowBattery => v != 0
    case _ => false
  }

  /** The database holds a reading at its limit: charge in tenths of a percent, run time in seconds. */
  predicate Due(cfg: Config, db: map<Ci, int>, id: TimerId) {
    match id
    case LoadLimit => BattLevel in db && db[BattLevel] <= 10 * cfg.percent + (if cfg.percent >= 0 then 9 else 0)
    case RunLimit => RunTime in db && db[RunTime] <= 60 * cfg.runtime + (if cfg.runtime >= 0 then 59 else 0)
    case LowBattery => BattLow in db && db[BattLow] != 0
    case _ => false
  }

  lemma DueIsMet(cfg: Config, db: map<Ci, int>, id: TimerId)
    requires id.LoadLimit? || id.RunLimit? || id.LowBattery?
    ensures Due(cfg, db, id) <==> ReadingOf(id) in db && Met(cfg, id, db[ReadingOf(id)])
  {
  }

  function ReadingOf(id: TimerId): Ci {
    match id
    case LoadLimit => BattLevel
    case RunLimit => RunTime
    case _ => BattLow
  }

  /** The argument of the timer's `start`. */
  function Period(cfg: Config, id: TimerId): int {
    match id
    case Selftest => MAX_SELFTEST_TIME_MSEC
    case TimeLimit => cfg.maxTime * 1000
    case OnbattEvent => cfg.onbattDelay * 1000
    case _ => SHUTDOWN_DEBOUNCE_MSEC
  }

  /** What follows the check or the start of a timer: CheckShutdown looks at the charge, the run time
      and the low-battery signal in this order; OnEnter then starts the time limit. */
  function AfterCheck(id: TimerId, entering: bool): Pc {
    match id
    case OnbattEvent => Check(LoadLimit, true)
    case LoadLimit => Check(RunLimit, entering)
    case RunLimit => Check(LowBattery, entering)
    case LowBattery => if entering then StartTimer(TimeLimit, true) else Return
    case _ => Return
  }

  /** StateOnbatt::OnExit stops its five timers in this order. */
  function AfterStop(id: TimerId, to: StateId): Pc {
    match id
    case TimeLimit => StopTimer(RunLimit, to)
    case RunLimit => StopTimer(LowBattery, to)
    case LowBattery => StopTimer(LoadLimit, to)
    case LoadLimit => StopTimer(OnbattEvent, to)
    case OnbattEvent => Switch(to)
    case Selftest => FinishSelftest
  }

  /** The consumer inside `atimer::stop`. */
  function StopCalls(s: Sys): Sys {
    match s.pc
    case StopTimer(id, to) =>
      s.(pc := if s.timers(id).started then JoinTimer(id, to) else AfterStop(id, to),
         timers := With(s.timers, id, Timers.Stop(s.timers(id))))
    case JoinTimer(id, to) =>
      s.(pc := if s.timers(id).thread.Off? then AfterStop(id, to) else s.pc,
         timers := With(s.timers, id, Timers.Join(s.timers(id))))
    case _ => s
  }

  /** The consumer at a check of CheckShutdown or at a call of `atimer::start`; `spawned` is the
      outcome of the pthread_create, should it happen. */
  function StartCalls(s: Sys, spawned: bool): Sys {
    match s.pc
    case Check(id, entering) =>
      var ci := ReadingOf(id);
      if ci in s.db && Met(s.cfg, id, s.db[ci])
      then s.(pc := StartTimer(id, entering), hist := s.hist + [Saw(id, s.db[ci], s.state, s.now)])
      else s.(pc := AfterCheck(id, entering))
    case StartTimer(id, entering) =>
      if id.TimeLimit? && s.cfg.maxTime <= 0 then s.(pc := Return)
      else
        s.(pc := AfterCheck(id, entering),
           timers := With(s.timers, id, Timers.Start(s.timers(id), s.now, Period(s.cfg, id), spawned)))
    case _ => s
  }

  function Consumer(s: Sys, spawned: bool): Sys {
    if s.pc.StopTimer? || s.pc.JoinTimer? then StopCalls(s)
    else if s.pc.Check? || s.pc.StartTimer? then StartCalls(s, spawned)
    else Handlers(s)
  }

  // ---- the other threads ----

  datatype Env =
    | Update(ci: Ci, v: int)                      // a driver reports a reading
    | Touch(ci: Ci)                               // UpsInfo::get(int) default-inserts a missing reading
    | Thread(id: TimerId, w: Timers.Wake)         // a timer thread steps
    | Tick(d: nat)                                // time passes
    | AskQuit                                     // the destructor queues EventQuit

  datatype Action = Consume(spawned: bool) | Other(env: Env)

  function UpdateInfo(s: Sys, ci: Ci, v: int): Sys {
    if ci !in s.db || s.db[ci] != v
    then s.(db := s.db[ci := v], queue := s.queue + [Datum(ci, v)])
    else s
  }

  function Environment(s: Sys, e: Env): Sys {
    match e
    case Update(ci, v) => UpdateInfo(s, ci, v)
    case Touch(ci) => if ci in s.db then s else s.(db := s.db[ci := 0])
    case Thread(id, w) =>
      s.(timers := With(s.timers, id, Timers.ThreadStep(s.timers(id), s.now, w)),
         queue := if s.timers(id).thread.Calling? then s.queue + [Timeout(id)] else s.queue)
    case Tick(d) => s.(now := s.now + d)
    case AskQuit => s.(queue := s.queue + [Quit])
  }

  function Next(s: Sys, a: Action): Sys {
    match a
    case Consume(spawned) => Consumer(s, spawned)
    case Other(e) => Environment(s, e)
  }

  /** Every interleaving is a sequence of actions; one that cannot happen leaves the system as it is. */
  function Run(s: Sys, run: seq<Action>): Sys
    decreases |run|
  {
    if run == [] then s else Next(Run(s, run[..|run| - 1]), run[|run| - 1])
  }

  function Reach(cfg: Config, now: nat, db: map<Ci, int>, run: seq<Action>): Sys {
    Run(Init(cfg, now, db), run)
  }

  /** What the status report prints after CUMONBATT. */
  function CumOnBatt(s: Sys): int {
    s.books.cumTimeOnBatt +
    (if Truth(s.db, Discharging) && s.books.lastOnbattTime > 0 then Sec(s.now) - s.books.lastOnbattTime else 0)
  }
}
