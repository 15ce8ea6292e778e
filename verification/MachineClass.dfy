/** `UpsStateMachine` as an object whose handlers update its fields, executed under any schedule of the
    other threads.  Before every access to shared data the scheduled steps of the drivers, the timer
    threads and the clock take place.  Each handler is proved to take exactly the steps of the step
    system, so every theorem about all runs holds for it. */
module MachineClass {
  import opened Machine
  import opened MachineProofs
  import MachineTheorems
  import Timers

  /** No timer has been started in between. */
  predicate NoneStarted(earlier: Timers6, later: Timers6) {
    forall id :: (later(id).started ==> earlier(id).started) && later(id).launches == earlier(id).launches
  }

  /** Microseconds a timer runs. */
  function Wait(cfg: Config, id: TimerId): int {
    match id
    case Selftest => 40_000_000
    case TimeLimit => cfg.maxTime * 1_000_000
    case OnbattEvent => cfg.onbattDelay * 1_000_000
    case _ => 5_000_000
  }

  /** Only the timers in `ids` have been started, each once if it was not started before. */
  predicate Started(cfg: Config, earlier: Timers6, later: Timers6, ids: set<TimerId>) {
    forall id {:trigger StartedAt(cfg, earlier, later, ids, id)} :: StartedAt(cfg, earlier, later, ids, id)
  }

  predicate StartedAt(cfg: Config, earlier: Timers6, later: Timers6, ids: set<TimerId>, id: TimerId) {
    if id in ids then Launched(earlier(id), later(id), Wait(cfg, id))
    else (later(id).started ==> earlier(id).started) && later(id).launches == earlier(id).launches
  }

  /** The first `n` timers that OnExit stops are stopped. */
  predicate StoppedBefore(ts: Timers6, n: nat) { forall id :: OfOnbatt(id) && ExitIndex(id) < n ==> !ts(id).started }

  /** Started in between, for so long, unless it was started already. */
  predicate Launched(earlier: Timers.Timer, later: Timers.Timer, wait: int) {
    || (&& |later.launches| == |earlier.launches| + 1 && earlier.launches <= later.launches
        && later.launches[|earlier.launches|].deadline == later.launches[|earlier.launches|].at + wait)
    || (earlier.started && later.launches == earlier.launches)
  }

  lemma StartedMore(cfg: Config, a: Timers6, b: Timers6, c: Timers6, x: set<TimerId>, y: set<TimerId>)
    requires Started(cfg, a, b, x) && Started(cfg, b, c, y) && x !! y
    ensures Started(cfg, a, c, x + y)
  {
    forall id ensures StartedAt(cfg, a, c, x + y, id) {
      assert StartedAt(cfg, a, b, x, id) && StartedAt(cfg, b, c, y, id);
    }
  }

  lemma StartedLater(cfg: Config, a: Timers6, b: Timers6, c: Timers6, x: set<TimerId>)
    requires NoneStarted(a, b) && Started(cfg, b, c, x)
    ensures Started(cfg, a, c, x)
  {
    forall id ensures StartedAt(cfg, a, c, x, id) { assert StartedAt(cfg, b, c, x, id); }
  }

  lemma NoneIsStarted(cfg: Config, a: Timers6, b: Timers6)
    requires NoneStarted(a, b)
    ensures Started(cfg, a, b, {})
  {
  }

  /** When CheckShutdown looked at the charge, the run time and the low-battery signal: moments of the run. */
  datatype Looks = Looks(charge: nat, time: nat, signal: nat)

  /** The conditions noted as seen met. */
  function Seen(cfg: Config, notes: seq<Note>): set<TimerId> {
    set i | 0 <= i < |notes| && notes[i].Saw? && Met(cfg, notes[i].trigger, notes[i].reading) :: notes[i].trigger
  }

  lemma SeenOne(cfg: Config, h: seq<Note>, n: Note)
    requires n.Saw? && Met(cfg, n.trigger, n.reading)
    ensures Seen(cfg, (h + [n])[|h|..]) == {n.trigger}
  {
    assert (h + [n])[|h|..] == [n] && [n][0] == n;
  }

  lemma SeenMore(cfg: Config, a: seq<Note>, b: seq<Note>, c: seq<Note>)
    requires a <= b <= c
    ensures Seen(cfg, c[|a|..]) == Seen(cfg, b[|a|..]) + Seen(cfg, c[|b|..])
  {
    var x, y, z := b[|a|..], c[|b|..], c[|a|..];
    assert z == x + y;
    forall i | 0 <= i < |y| ensures y[i] == z[|x| + i] {}
  }

  /** The conditions in `met` have been noted as seen met, and their timers started, and no other. */
  ghost predicate Checks(cfg: Config, ts: Timers6, ts': Timers6, h: seq<Note>, h': seq<Note>, met: set<TimerId>) {
    h <= h' && met == Seen(cfg, h'[|h|..]) && Started(cfg, ts, ts', met)
  }

  lemma ChecksMore(cfg: Config, a: Timers6, b: Timers6, c: Timers6, h: seq<Note>, h': seq<Note>, h'': seq<Note>,
                   x: set<TimerId>, y: set<TimerId>)
    requires Checks(cfg, a, b, h, h', x) && Checks(cfg, b, c, h', h'', y) && x !! y
    ensures Checks(cfg, a, c, h, h'', x + y)
  {
    StartedMore(cfg, a, b, c, x, y);
    SeenMore(cfg, h, h', h'');
  }

  // ---- what is posted ----

  /** The log has grown by just these. */
  predicate Adds(was: seq<Posted>, now: seq<Posted>, cmds: seq<Cmd>) {
    was <= now && |now| == |was| + |cmds| && forall i :: 0 <= i < |cmds| ==> now[|was| + i].cmd == cmds[i]
  }

  lemma AddsMore(a: seq<Posted>, b: seq<Posted>, c: seq<Posted>, x: seq<Cmd>, y: seq<Cmd>)
    requires Adds(a, b, x) && Adds(b, c, y)
    ensures Adds(a, c, x + y)
  {
    forall i | 0 <= i < |x + y| ensures c[|a| + i].cmd == (x + y)[i] {
      if i >= |x| { assert c[|b| + (i - |x|)].cmd == y[i - |x|]; }
    }
  }

  /** What entering a state posts. */
  function EntryCmds(st: StateId): seq<Cmd> {
    match st
    case Onbatt => [PowerOut]
    case SelfTesting => [StartSelftest]
    case _ => []
  }

  function EndCmds(onbatteryPosted: bool): seq<Cmd> {
    (if onbatteryPosted then [OffBattery] else []) + [MainsBack]
  }

  // ---- runs with the states they visit ----

  ghost predicate StepAt(path: seq<Sys>, trace: seq<Action>, i: nat)
    requires i < |trace| && i + 1 < |path|
  {
    path[i + 1] == Next(path[i], trace[i])
  }

  ghost predicate IsPath(path: seq<Sys>, trace: seq<Action>) {
    && |path| == |trace| + 1
    && forall i {:trigger StepAt(path, trace, i)} :: 0 <= i < |trace| ==> StepAt(path, trace, i)
  }

  lemma PathAppend(path: seq<Sys>, trace: seq<Action>, s: Sys, a: Action)
    requires IsPath(path, trace) && s == Next(path[|trace|], a)
    ensures IsPath(path + [s], trace + [a])
  {
    var path', trace' := path + [s], trace + [a];
    forall i | 0 <= i < |trace'| ensures StepAt(path', trace', i) {
      if i < |trace| { assert StepAt(path, trace, i); }
    }
  }

  /** The states on a path are those the step system reaches. */
  lemma {:induction false} PathIsRun(path: seq<Sys>, trace: seq<Action>, i: nat)
    requires IsPath(path, trace) && i <= |trace|
    ensures path[i] == Run(path[0], trace[..i])
  {
    if i > 0 {
      PathIsRun(path, trace, i - 1);
      assert StepAt(path, trace, i - 1);
      assert trace[..i][..i - 1] == trace[..i - 1];
    }
  }

  class UpsStateMachine {
    const cfg: Config
    // shared with the drivers, the timer threads and the clock
    var now: nat
    var db: map<Ci, int>
    var queue: seq<Event>
    var timers: Timers6
    // the consumer's own
    var state: StateId
    var onbatteryPosted: bool
    var lastOnbattTime: int
    var numXfers: int
    var cumTimeOnBatt: int
    var log: seq<Posted>
    // what the other threads will do before each access, and how pthread_create will fare
    var schedule: seq<seq<Env>>
    var spawns: seq<bool>
    // where the consumer stands, and the run so far
    ghost var hist: seq<Note>
    ghost var pc: Pc
    ghost var depth: nat
    ghost const bornAt: nat
    ghost const bornWith: map<Ci, int>
    ghost var trace: seq<Action>
    ghost var path: seq<Sys>

    ghost function View(): Sys
      reads this
    {
      Sys(cfg, now, db, queue, timers, state, BooksView(), hist, pc, depth)
    }

    /** The object is where its run through the step system has led. */
    ghost predicate Valid()
      reads this
    {
      IsPath(path, trace) && path[0] == Init(cfg, bornAt, bornWith) && path[|trace|] == View()
    }

    constructor (cfg: Config, now: nat, db: map<Ci, int>, schedule: seq<seq<Env>>, spawns: seq<bool>)
      ensures Valid() && View() == Init(cfg, now, db) && this.schedule == schedule
    {
      this.cfg, this.now, this.db, this.queue, this.timers := cfg, now, db, [], ALL_FRESH;
      state, onbatteryPosted, lastOnbattTime, numXfers, cumTimeOnBatt, log := Idle, false, 0, 0, 0, [];
      this.schedule, this.spawns := schedule, spawns;
      hist, pc, depth, bornAt, bornWith, trace := [], EnterIdle, 0, now, db, [];
      path := [Init(cfg, now, db)];
    }

    /** Records that the fields have just made the consumer's next step. */
    ghost method Commit(before: Sys, spawned: bool)
      requires IsPath(path, trace) && path[0] == Init(cfg, bornAt, bornWith)
      requires path[|trace|] == before && View() == Consumer(before, spawned)
      modifies this`trace, this`path
      ensures Valid() && path == old(path) + [View()]
    {
      PathAppend(path, trace, View(), Consume(spawned));
      path, trace := path + [View()], trace + [Consume(spawned)];
    }

    // ---- the other threads ----

    /** UpsInfo::update with the machine registered. */
    method Update(ci: Ci, v: int)
      modifies this`db, this`queue
      ensures View() == UpdateInfo(old(View()), ci, v)
      ensures db == old(db)[ci := v]
      ensures queue == old(queue) + if ci in old(db) && old(db)[ci] == v then [] else [Datum(ci, v)]
    {
      if ci !in db || db[ci] != v {
        db := db[ci := v];
        queue := queue + [Datum(ci, v)];
      }
    }

    /** A step of a timer thread, which may be the call of HandleTimeout. */
    method StepThread(id: TimerId, w: Timers.Wake)
      modifies this`queue, this`timers
      ensures View() == Environment(old(View()), Thread(id, w)) && NoneStarted(old(timers), timers)
      ensures queue == old(queue) + if old(timers(id)).thread.Calling? then [Timeout(id)] else []
    {
      if timers(id).thread.Calling? { queue := queue + [Timeout(id)]; }
      timers := With(timers, id, Timers.ThreadStep(timers(id), now, w));
    }

    method OtherThread(e: Env)
      requires Valid()
      modifies this`now, this`db, this`queue, this`timers, this`trace, this`path
      ensures Valid() && View() == Environment(old(View()), e) && old(path) <= path
      ensures NoneStarted(old(timers), timers)
      ensures match e
              case Touch(ci) => db == (if ci in old(db) then old(db) else old(db)[ci := 0]) && queue == old(queue)
              case Tick(d) => now == old(now) + d && queue == old(queue)
              case AskQuit => queue == old(queue) + [Quit]
              case _ => true
    {
      match e {
        case Update(ci, v) => Update(ci, v);
        case Touch(ci) => if ci !in db { db := db[ci := 0]; }
        case Thread(id, w) => StepThread(id, w);
        case Tick(d) => now := now + d;
        case AskQuit => queue := queue + [Quit];
      }
      PathAppend(path, trace, View(), Other(e));
      path, trace := path + [View()], trace + [Other(e)];
    }

    /** Lets the other threads take the steps scheduled before the next access. */
    method Yield()
      requires Valid()
      modifies this`now, this`db, this`queue, this`timers, this`trace, this`path, this`schedule
      ensures Valid() && old(path) <= path
      ensures NoneStarted(old(timers), timers)
    {
      if schedule == [] { return; }
      var steps := schedule[0];
      schedule := schedule[1..];
      for i := 0 to |steps|
        invariant Valid() && old(path) <= path
        invariant NoneStarted(old(timers), timers)
      {
        OtherThread(steps[i]);
      }
    }

    method GenerateEvent(cmd: Cmd)
      modifies this`log
      ensures log == old(log) + [Posted(cmd, now / 1_000_000)]
    {
      log := log + [Posted(cmd, Sec(now))];
    }

    // ---- timers ----

    method StartTimer(id: TimerId, msec: int)
      requires Valid() && pc.StartTimer? && pc.id == id && msec == Period(cfg, id)
      requires id.TimeLimit? ==> cfg.maxTime > 0
      modifies this`now, this`db, this`queue, this`timers, this`trace, this`path, this`schedule, this`spawns, this`pc
      ensures Valid() && old(path) <= path && pc == AfterCheck(id, old(pc).entering)
      ensures Started(cfg, old(timers), timers, {id})
    {
      ghost var was := timers;
      Yield();
      ghost var mid := timers;
      var spawned := spawns == [] || spawns[0];
      if spawns != [] { spawns := spawns[1..]; }
      CallStart(id, msec, spawned);
      StartedLater(cfg, was, mid, timers, {id});
    }

    method CallStart(id: TimerId, msec: int, spawned: bool)
      requires Valid() && pc.StartTimer? && pc.id == id && msec == Period(cfg, id)
      requires id.TimeLimit? ==> cfg.maxTime > 0
      modifies this`timers, this`pc, this`trace, this`path
      ensures Valid() && path == old(path) + [View()] && pc == AfterCheck(id, old(pc).entering)
      ensures Started(cfg, old(timers), timers, {id})
    {
      ghost var before := View();
      timers := With(timers, id, Timers.Start(timers(id), now, msec, spawned));
      pc := AfterCheck(id, pc.entering);
      assert View() == StartCalls(before, spawned);
      Commit(before, spawned);
    }

    /** `stop` of a timer that is started blocks in `join` until the timer thread has ended. */
    method StopTimer(id: TimerId, ghost to: StateId)
      requires Valid() && pc == Pc.StopTimer(id, to)
      modifies this`now, this`db, this`queue, this`timers, this`trace, this`path, this`schedule, this`pc
      ensures Valid() && old(path) <= path && pc == AfterStop(id, to)
      ensures !timers(id).started && NoneStarted(old(timers), timers)
    {
      var wasStarted := AskStop(id, to);
      if wasStarted { JoinTimer(id, to); }
    }

    method AskStop(id: TimerId, ghost to: StateId) returns (wasStarted: bool)
      requires Valid() && pc == Pc.StopTimer(id, to)
      modifies this`now, this`db, this`queue, this`timers, this`trace, this`path, this`schedule, this`pc
      ensures Valid() && old(path) <= path
      ensures !timers(id).started && NoneStarted(old(timers), timers)
      ensures pc == if wasStarted then Pc.JoinTimer(id, to) else AfterStop(id, to)
    {
      Yield();
      wasStarted := CallStop(id, to);
    }

    method JoinTimer(id: TimerId, ghost to: StateId)
      requires Valid() && pc == Pc.JoinTimer(id, to) && !timers(id).started
      modifies this`now, this`db, this`queue, this`timers, this`trace, this`path, this`schedule, this`pc
      ensures Valid() && old(path) <= path && pc == AfterStop(id, to)
      ensures NoneStarted(old(timers), timers)
    {
      Yield();
      AwaitThread(id);
      CallJoin(id, to);
    }

    method CallStop(id: TimerId, ghost to: StateId) returns (wasStarted: bool)
      requires Valid() && pc == Pc.StopTimer(id, to)
      modifies this`timers, this`pc, this`trace, this`path
      ensures Valid() && path == old(path) + [View()]
      ensures !timers(id).started && NoneStarted(old(timers), timers)
      ensures pc == if wasStarted then Pc.JoinTimer(id, to) else AfterStop(id, to)
    {
      ghost var before := View();
      wasStarted := timers(id).started;
      timers := With(timers, id, Timers.Stop(timers(id)));
      pc := if wasStarted then Pc.JoinTimer(id, to) else AfterStop(id, to);
      assert View() == StopCalls(before);
      Commit(before, true);
    }

    method CallJoin(id: TimerId, ghost to: StateId)
      requires Valid() && pc == Pc.JoinTimer(id, to) && timers(id).thread.Off?
      modifies this`timers, this`pc, this`trace, this`path
      ensures Valid() && path == old(path) + [View()] && pc == AfterStop(id, to)
      ensures NoneStarted(old(timers), timers)
    {
      ghost var before := View();
      timers := With(timers, id, Timers.Join(timers(id)));
      pc := AfterStop(id, to);
      assert View() == StopCalls(before);
      Commit(before, true);
    }

    /** The thread of a stopped timer ends after a few steps of its own. */
    method AwaitThread(id: TimerId)
      requires Valid() && !timers(id).started
      modifies this`now, this`db, this`queue, this`timers, this`trace, this`path
      ensures Valid() && old(path) <= path && timers(id).thread.Off?
      ensures NoneStarted(old(timers), timers)
    {
      while !timers(id).thread.Off?
        invariant Valid() && old(path) <= path && NoneStarted(old(timers), timers)
        decreases Timers.ThreadRank(timers(id).thread)
      {
        OtherThread(Thread(id, Timers.Woken));
      }
    }

    // ---- ChangeState and what it calls ----

    /** The state is the one asked for; only IDLE gives way to ONBATT, exactly if the battery was
        discharging when IDLE was entered, at moment `k` of the run. */
    method ChangeState(to: StateId) returns (ghost k: nat, ghost looks: Looks)
      requires Valid() && pc == Depart(to)
      modifies this
      ensures Valid() && old(path) <= path && pc.Return? && depth == old(depth)
      ensures Adds(old(log), log, EntryCmds(state))
      ensures to.Idle? ==> EnteredIdle(|old(path)|, k)
      ensures !to.Idle? ==> state == to
      ensures to.Onbatt? ==> EnteredOnbatt(|old(path)|, looks, old(timers))
      decreases if to.Idle? then 1 else 0, 2
    {
      k, looks := LeaveAndEnter(to);
      ReturnFromChange();
    }

    method LeaveAndEnter(to: StateId) returns (ghost k: nat, ghost looks: Looks)
      requires Valid() && pc == Depart(to)
      modifies this
      ensures Valid() && old(path) <= path && pc.Return? && depth == old(depth) + 1
      ensures Adds(old(log), log, EntryCmds(state))
      ensures to.Idle? ==> EnteredIdle(|old(path)|, k)
      ensures !to.Idle? ==> state == to
      ensures to.Onbatt? ==> EnteredOnbatt(|old(path)|, looks, old(timers))
      decreases if to.Idle? then 1 else 0, 1
    {
      ghost var was := timers;
      LeaveState(to);
      ghost var mid := timers;
      k, looks := EnterState(to);
      if to.Onbatt? { StartedLater(cfg, was, mid, timers, OnbattStarts(looks)); }
    }

    /** OnExit of the present state; only ONBATT has one that does something. */
    method LeaveState(to: StateId)
      requires Valid() && pc == Depart(to)
      modifies this`now, this`db, this`queue, this`timers, this`trace, this`path, this`schedule, this`pc, this`depth
      ensures Valid() && old(path) <= path && pc == Switch(to) && depth == old(depth) + 1
      ensures NoneStarted(old(timers), timers) && (state.Onbatt? ==> forall id :: OfOnbatt(id) ==> !timers(id).started)
    {
      CallChange(to);
      if state.Onbatt? { OnbattOnExit(to); }
    }

    /** At moment `k`, not before the `from`-th, IDLE's OnEnter looked at the database, and the state now
        is what follows from that. */
    ghost predicate EnteredIdle(from: nat, k: nat)
      reads this
    {
      && from <= k + 1 && k < |path| && path[k].pc.EnterIdle?
      && state == if Discharging in path[k].db && path[k].db[Discharging] != 0 then Onbatt else Idle
    }

    /** The database was looked at, in this order and not before the `from`-th moment. */
    ghost predicate InOrder(from: nat, looks: Looks)
      reads this
    {
      from <= looks.charge + 1 && looks.charge <= looks.time <= looks.signal < |path|
    }

    /** The timers whose readings were at their limits when it was. */
    ghost function DueAt(looks: Looks): set<TimerId>
      requires looks.charge <= looks.time <= looks.signal < |path|
      reads this
    {
      (if Due(cfg, path[looks.charge].db, LoadLimit) then {LoadLimit} else {})
      + (if Due(cfg, path[looks.time].db, RunLimit) then {RunLimit} else {})
      + (if Due(cfg, path[looks.signal].db, LowBattery) then {LowBattery} else {})
    }

    /** ONBATT's OnEnter has started the timer of ONBATTERY, those of the readings at their limits, and the
        time limit if there is one. */
    ghost predicate EnteredOnbatt(from: nat, looks: Looks, was: Timers6)
      reads this
    {
      InOrder(from, looks) && Started(cfg, was, timers, OnbattStarts(looks))
    }

    ghost function OnbattStarts(looks: Looks): set<TimerId>
      requires looks.charge <= looks.time <= looks.signal < |path|
      reads this
    {
      {OnbattEvent} + DueAt(looks) + if cfg.maxTime > 0 then {TimeLimit} else {}
    }

    ghost method CallChange(to: StateId)
      requires Valid() && pc == Depart(to)
      modifies this`depth, this`pc, this`trace, this`path
      ensures Valid() && path == old(path) + [View()] && depth == old(depth) + 1
      ensures pc == if state.Onbatt? then Pc.StopTimer(TimeLimit, to) else Switch(to)
    {
      ghost var before := View();
      depth := depth + 1;
      pc := if state.Onbatt? then Pc.StopTimer(TimeLimit, to) else Switch(to);
      Commit(before, true);
    }

    ghost method ReturnFromChange()
      requires Valid() && pc.Return? && depth > 0
      modifies this`depth, this`trace, this`path
      ensures Valid() && path == old(path) + [View()] && depth == old(depth) - 1
    {
      ghost var before := View();
      depth := depth - 1;
      Commit(before, true);
    }

    method EnterState(to: StateId) returns (ghost k: nat, ghost looks: Looks)
      requires Valid() && pc == Switch(to)
      modifies this
      ensures Valid() && old(path) <= path && pc.Return? && depth == old(depth)
      ensures Adds(old(log), log, EntryCmds(state))
      ensures to.Idle? ==> EnteredIdle(|old(path)|, k)
      ensures !to.Idle? ==> state == to
      ensures to.Onbatt? ==> EnteredOnbatt(|old(path)|, looks, old(timers))
      decreases if to.Idle? then 1 else 0, 0
    {
      SwitchTo(to);
      k, looks := 0, Looks(0, 0, 0);
      match to {
        case Idle => k := IdleOnEnter();
        case Onbatt => var _, l := OnbattOnEnter(); looks := l;
        case SelfTesting => var _ := SelftestOnEnter();
        case _ =>
      }
    }

    method SwitchTo(to: StateId)
      requires Valid() && pc == Switch(to)
      modifies this`state, this`hist, this`pc, this`trace, this`path
      ensures Valid() && path == old(path) + [View()] && state == to && pc == OnEnter(to)
      ensures hist == old(hist) + [Entered(to, now)]
    {
      ghost var before := View();
      state := to;
      hist := hist + [Entered(to, now)];
      pc := OnEnter(to);
      Commit(before, true);
    }

    method IdleOnEnter() returns (ghost k: nat)
      requires Valid() && pc.EnterIdle? && state.Idle?
      modifies this
      ensures Valid() && old(path) <= path && pc.Return? && depth == old(depth)
      ensures Adds(old(log), log, EntryCmds(state))
      ensures EnteredIdle(|old(path)|, k)
      decreases 0, 4
    {
      Yield();
      k := |path| - 1;
      var discharging := LookAtBattery(Depart(Onbatt), Return);
      if discharging { GoToOnbatt(); }
    }

    method GoToOnbatt()
      requires Valid() && pc == Depart(Onbatt)
      modifies this
      ensures Valid() && old(path) <= path && pc.Return? && depth == old(depth)
      ensures Adds(old(log), log, [PowerOut]) && state.Onbatt?
      decreases 0, 3
    {
      var _, _ := ChangeState(Onbatt);
    }

    /** Reads CI_Discharging, and goes one way or the other. */
    method LookAtBattery(ghost yes: Pc, ghost no: Pc) returns (discharging: bool)
      requires Valid() && (if pc.EnterIdle? then yes == Depart(Onbatt) && no == Return
                           else pc.JudgeSelftest? && yes == Depart(Onbatt) && no == FinishSelftest)
      modifies this`pc, this`trace, this`path
      ensures Valid() && path == old(path) + [View()]
      ensures (discharging <==> Truth(db, Discharging)) && pc == if discharging then yes else no
    {
      ghost var before := View();
      discharging := Truth(db, Discharging);
      pc := if discharging then yes else no;
      Commit(before, true);
    }

    /** Posts POWEROUT, then starts the ONBATTERY timer, the timers of conditions that are met, and the
        time limit, if there is one. */
    method OnbattOnEnter() returns (ghost met: set<TimerId>, ghost looks: Looks)
      requires Valid() && pc.EnterOnbatt?
      modifies this`now, this`db, this`queue, this`timers, this`trace, this`path, this`schedule, this`spawns, this`pc,
               this`lastOnbattTime, this`numXfers, this`onbatteryPosted, this`log, this`hist
      ensures Valid() && old(path) <= path && pc.Return?
      ensures log == old(log) + [Posted(PowerOut, lastOnbattTime)]
      ensures numXfers == old(numXfers) + 1 && !onbatteryPosted
      ensures old(hist) <= hist && met == Seen(cfg, hist[|old(hist)|..])
      ensures Started(cfg, old(timers), timers, {OnbattEvent} + met + if cfg.maxTime > 0 then {TimeLimit} else {})
      ensures InOrder(|old(path)|, looks) && met == DueAt(looks)
    {
      ghost var was := timers;
      AnnounceOutage();
      ghost var a := timers;
      met, looks := CheckShutdown(true);
      ghost var b := timers;
      StartedMore(cfg, was, a, b, {OnbattEvent}, met);
      StartTimeLimit();
      StartedMore(cfg, was, b, timers, {OnbattEvent} + met, if cfg.maxTime > 0 then {TimeLimit} else {});
    }

    method AnnounceOutage()
      requires Valid() && pc.EnterOnbatt?
      modifies this`now, this`db, this`queue, this`timers, this`trace, this`path, this`schedule, this`spawns, this`pc,
               this`lastOnbattTime, this`numXfers, this`onbatteryPosted, this`log
      ensures Valid() && old(path) <= path && pc == Check(LoadLimit, true)
      ensures log == old(log) + [Posted(PowerOut, lastOnbattTime)]
      ensures numXfers == old(numXfers) + 1 && !onbatteryPosted
      ensures Started(cfg, old(timers), timers, {OnbattEvent})
    {
      ghost var was := timers;
      Yield();
      BeginOutage();
      ghost var mid := timers;
      StartTimer(OnbattEvent, cfg.onbattDelay * 1000);
      StartedLater(cfg, was, mid, timers, {OnbattEvent});
    }

    method StartTimeLimit()
      requires Valid() && pc == Pc.StartTimer(TimeLimit, true)
      modifies this`now, this`db, this`queue, this`timers, this`trace, this`path, this`schedule, this`spawns, this`pc
      ensures Valid() && old(path) <= path && pc.Return?
      ensures Started(cfg, old(timers), timers, if cfg.maxTime > 0 then {TimeLimit} else {})
    {
      if cfg.maxTime > 0 {
        StartTimer(TimeLimit, cfg.maxTime * 1000);
      } else {
        ghost var before := View();
        pc := Return;
        Commit(before, true);
      }
    }

    method BeginOutage()
      requires Valid() && pc.EnterOnbatt?
      modifies this`lastOnbattTime, this`numXfers, this`onbatteryPosted, this`log, this`pc, this`trace, this`path
      ensures Valid() && path == old(path) + [View()] && pc == Pc.StartTimer(OnbattEvent, true)
      ensures log == old(log) + [Posted(PowerOut, lastOnbattTime)] && lastOnbattTime == now / 1_000_000
      ensures numXfers == old(numXfers) + 1 && !onbatteryPosted
    {
      ghost var before := View();
      OpenBooks();
      pc := Pc.StartTimer(OnbattEvent, true);
      assert View() == Handlers(before);
      Commit(before, true);
    }

    ghost function BooksView(): Books
      reads this
    {
      Books(onbatteryPosted, lastOnbattTime, numXfers, cumTimeOnBatt, log)
    }

    method OpenBooks()
      modifies this`lastOnbattTime, this`numXfers, this`onbatteryPosted, this`log
      ensures BooksView() == Machine.BeginOutage(old(BooksView()), Sec(now))
    {
      lastOnbattTime := Sec(now);
      numXfers := numXfers + 1;
      GenerateEvent(PowerOut);
      onbatteryPosted := false;
    }

    method CloseBooks()
      modifies this`cumTimeOnBatt, this`log
      ensures BooksView() == Machine.EndOutage(old(BooksView()), Sec(now))
    {
      cumTimeOnBatt := cumTimeOnBatt + (Sec(now) - lastOnbattTime);
      if onbatteryPosted { GenerateEvent(OffBattery); }
      GenerateEvent(MainsBack);
    }

    /** Afterwards none of the five timers is started. */
    method OnbattOnExit(ghost to: StateId)
      requires Valid() && pc == Pc.StopTimer(TimeLimit, to)
      modifies this`now, this`db, this`queue, this`timers, this`trace, this`path, this`schedule, this`pc
      ensures Valid() && old(path) <= path && pc == Switch(to)
      ensures NoneStarted(old(timers), timers) && forall id :: OfOnbatt(id) ==> !timers(id).started
    {
      StopFirstTwo(to);
      StopNext(LowBattery, to);
      StopLastTwo(to);
      assert forall id :: OfOnbatt(id) ==> ExitIndex(id) < 5;
    }

    method StopFirstTwo(ghost to: StateId)
      requires Valid() && pc == Pc.StopTimer(TimeLimit, to)
      modifies this`now, this`db, this`queue, this`timers, this`trace, this`path, this`schedule, this`pc
      ensures Valid() && old(path) <= path && pc == Pc.StopTimer(LowBattery, to)
      ensures NoneStarted(old(timers), timers) && StoppedBefore(timers, 2)
    {
      StopNext(TimeLimit, to);
      StopNext(RunLimit, to);
    }

    method StopLastTwo(ghost to: StateId)
      requires Valid() && pc == Pc.StopTimer(LoadLimit, to) && StoppedBefore(timers, 3)
      modifies this`now, this`db, this`queue, this`timers, this`trace, this`path, this`schedule, this`pc
      ensures Valid() && old(path) <= path && pc == Switch(to)
      ensures NoneStarted(old(timers), timers) && StoppedBefore(timers, 5)
    {
      StopNext(LoadLimit, to);
      StopNext(OnbattEvent, to);
    }

    method StopNext(id: TimerId, ghost to: StateId)
      requires Valid() && pc == Pc.StopTimer(id, to) && OfOnbatt(id) && StoppedBefore(timers, ExitIndex(id))
      modifies this`now, this`db, this`queue, this`timers, this`trace, this`path, this`schedule, this`pc
      ensures Valid() && old(path) <= path && pc == AfterStop(id, to)
      ensures NoneStarted(old(timers), timers) && StoppedBefore(timers, ExitIndex(id) + 1)
    {
      StopTimer(id, to);
    }

    /** Starts exactly the timers of the conditions it sees met, and notes what it saw. */
    method CheckShutdown(ghost entering: bool) returns (ghost met: set<TimerId>, ghost looks: Looks)
      requires Valid() && pc == Check(LoadLimit, entering)
      modifies this`now, this`db, this`queue, this`timers, this`trace, this`path, this`schedule, this`spawns, this`pc,
               this`hist
      ensures Valid() && old(path) <= path
      ensures pc == if entering then Pc.StartTimer(TimeLimit, true) else Return
      ensures Checks(cfg, old(timers), timers, old(hist), hist, met) && met <= {LoadLimit, RunLimit, LowBattery}
      ensures InOrder(|old(path)|, looks) && met == DueAt(looks)
    {
      ghost var was, before := timers, hist;
      ghost var a, i, j := CheckTwo(entering);
      ghost var mid, notes := timers, hist;
      ghost var sofar := path;
      ghost var b, k := CheckOne(LowBattery, entering);
      assert sofar <= path && path[i] == sofar[i] && path[j] == sofar[j];
      ChecksMore(cfg, was, mid, timers, before, notes, hist, a, b);
      met, looks := a + b, Looks(i, j, k);
    }

    method CheckTwo(ghost entering: bool) returns (ghost met: set<TimerId>, ghost i: nat, ghost j: nat)
      requires Valid() && pc == Check(LoadLimit, entering)
      modifies this`now, this`db, this`queue, this`timers, this`trace, this`path, this`schedule, this`spawns, this`pc,
               this`hist
      ensures Valid() && old(path) <= path && pc == Check(LowBattery, entering)
      ensures Checks(cfg, old(timers), timers, old(hist), hist, met) && met <= {LoadLimit, RunLimit}
      ensures |old(path)| <= i + 1 && i <= j < |path|
      ensures met == (if Due(cfg, path[i].db, LoadLimit) then {LoadLimit} else {})
                     + (if Due(cfg, path[j].db, RunLimit) then {RunLimit} else {})
    {
      ghost var was, before := timers, hist;
      ghost var a, l := CheckOne(LoadLimit, entering);
      ghost var mid, notes := timers, hist;
      ghost var b, m := CheckOne(RunLimit, entering);
      ChecksMore(cfg, was, mid, timers, before, notes, hist, a, b);
      met, i, j := a + b, l, m;
    }

    /** `j` is the moment the database was looked at. */
    method CheckOne(id: TimerId, ghost entering: bool) returns (ghost met: set<TimerId>, ghost j: nat)
      requires Valid() && pc == Check(id, entering) && Watched(id)
      modifies this`now, this`db, this`queue, this`timers, this`trace, this`path, this`schedule, this`spawns, this`pc,
               this`hist
      ensures Valid() && old(path) <= path && pc == AfterCheck(id, entering)
      ensures met <= {id} && Checks(cfg, old(timers), timers, old(hist), hist, met)
      ensures |old(path)| <= j + 1 && j < |path| && met == if Due(cfg, path[j].db, id) then {id} else {}
    {
      ghost var was := timers;
      Yield();
      j := |path| - 1;
      ghost var mid := timers;
      met := JudgeOne(id, entering);
      StartedLater(cfg, was, mid, timers, met);
    }

    method JudgeOne(id: TimerId, ghost entering: bool) returns (ghost met: set<TimerId>)
      requires Valid() && pc == Check(id, entering) && Watched(id)
      modifies this`now, this`db, this`queue, this`timers, this`trace, this`path, this`schedule, this`spawns, this`pc,
               this`hist
      ensures Valid() && old(path) <= path && pc == AfterCheck(id, entering)
      ensures met == if Due(cfg, old(db), id) then {id} else {}
      ensures LoadLimit in met <==>
                && id.LoadLimit? && BattLevel in old(db)
                && old(db)[BattLevel] <= 10 * cfg.percent + (if cfg.percent >= 0 then 9 else 0)
      ensures RunLimit in met <==>
                && id.RunLimit? && RunTime in old(db)
                && old(db)[RunTime] <= 60 * cfg.runtime + (if cfg.runtime >= 0 then 59 else 0)
      ensures LowBattery in met <==> id.LowBattery? && BattLow in old(db) && old(db)[BattLow] != 0
      ensures old(hist) <= hist && met == Seen(cfg, hist[|old(hist)|..])
      ensures Started(cfg, old(timers), timers, met)
    {
      DueIsMet(cfg, db, id);
      var ci := ReadingOf(id);
      if ci in db && Met(cfg, id, db[ci]) {
        met := {id};
        StartMet(id, entering);
      } else {
        met := {};
        PassOver(id, entering);
      }
    }

    method StartMet(id: TimerId, ghost entering: bool)
      requires Valid() && pc == Check(id, entering) && Watched(id)
      requires ReadingOf(id) in db && Met(cfg, id, db[ReadingOf(id)])
      modifies this`now, this`db, this`queue, this`timers, this`trace, this`path, this`schedule, this`spawns, this`pc,
               this`hist
      ensures Valid() && old(path) <= path && pc == AfterCheck(id, entering)
      ensures old(hist) <= hist && Seen(cfg, hist[|old(hist)|..]) == {id}
      ensures Started(cfg, old(timers), timers, {id})
    {
      ghost var note := Saw(id, db[ReadingOf(id)], state, now);
      SeenOne(cfg, hist, note);
      SeeMet(id, entering);
      StartTimer(id, SHUTDOWN_DEBOUNCE_MSEC);
    }

    ghost method PassOver(id: TimerId, entering: bool)
      requires Valid() && pc == Check(id, entering)
      requires !(ReadingOf(id) in db && Met(cfg, id, db[ReadingOf(id)]))
      modifies this`pc, this`trace, this`path
      ensures Valid() && path == old(path) + [View()] && pc == AfterCheck(id, entering)
    {
      ghost var before := View();
      pc := AfterCheck(id, entering);
      assert View() == StartCalls(before, true);
      Commit(before, true);
    }

    ghost method SeeMet(id: TimerId, entering: bool)
      requires Valid() && pc == Check(id, entering) && ReadingOf(id) in db && Met(cfg, id, db[ReadingOf(id)])
      modifies this`hist, this`pc, this`trace, this`path
      ensures Valid() && path == old(path) + [View()] && pc == Pc.StartTimer(id, entering)
      ensures hist == old(hist) + [Saw(id, db[ReadingOf(id)], state, now)]
    {
      ghost var before := View();
      hist := hist + [Saw(id, db[ReadingOf(id)], state, now)];
      pc := Pc.StartTimer(id, entering);
      assert View() == StartCalls(before, true);
      Commit(before, true);
    }

    /** Posts the start of the test, and arms its timer. */
    method SelftestOnEnter() returns (ghost at: int)
      requires Valid() && pc.EnterSelftest?
      modifies this`now, this`db, this`queue, this`timers, this`trace, this`path, this`schedule, this`spawns, this`pc,
               this`log
      ensures Valid() && old(path) <= path && pc.Return?
      ensures log == old(log) + [Posted(StartSelftest, at)]
      ensures Started(cfg, old(timers), timers, {Selftest})
    {
      ghost var was := timers;
      at := BeginTest();
      ghost var mid := timers;
      StartTimer(Selftest, MAX_SELFTEST_TIME_MSEC);
      StartedLater(cfg, was, mid, timers, {Selftest});
    }

    method BeginTest() returns (ghost at: int)
      requires Valid() && pc.EnterSelftest?
      modifies this`now, this`db, this`queue, this`timers, this`trace, this`path, this`schedule, this`pc, this`log
      ensures Valid() && old(path) <= path && pc == Pc.StartTimer(Selftest, true)
      ensures log == old(log) + [Posted(StartSelftest, at)] && NoneStarted(old(timers), timers)
    {
      Yield();
      at := Sec(now);
      PostAndGo(StartSelftest, Pc.StartTimer(Selftest, true));
    }

    /** Posts the start or the end of a self test. */
    method PostAndGo(cmd: Cmd, ghost next: Pc)
      requires Valid() && (if pc.EnterSelftest? then cmd.StartSelftest? && next == Pc.StartTimer(Selftest, true)
                           else pc.FinishSelftest? && cmd.EndSelftest? && next == Depart(Idle))
      modifies this`log, this`pc, this`trace, this`path
      ensures Valid() && path == old(path) + [View()] && pc == next && log == old(log) + [Posted(cmd, Sec(now))]
    {
      ghost var before := View();
      GenerateEvent(cmd);
      pc := next;
      Commit(before, true);
    }

    // ---- OnDatum and OnTimeout ----

    ghost predicate Ignored(st: StateId, was: seq<Posted>, ts: Timers6)
      reads this
    {
      state == st && log == was && NoneStarted(ts, timers)
    }

    ghost predicate Announced(cmd: Cmd, st: StateId, was: seq<Posted>, ts: Timers6)
      reads this
    {
      state == st && Adds(was, log, [cmd]) && NoneStarted(ts, timers)
    }

    ghost predicate IdleHandled(ci: Ci, value: int, from: nat, looks: Looks, was: seq<Posted>, ts: Timers6)
      reads this
    {
      if ci.Discharging? && value != 0
      then state.Onbatt? && Adds(was, log, [PowerOut]) && EnteredOnbatt(from, looks, ts)
      else if ci.SelftestStat? && value == 4 then state.SelfTesting? && Adds(was, log, [StartSelftest])
      else Ignored(Idle, was, ts)
    }

    ghost predicate OnbattHandled(ci: Ci, value: int, from: nat, k: nat, looks: Looks, was: seq<Posted>, posted: bool,
                                  ts: Timers6)
      reads this
    {
      if ci.Discharging? && value == 0 then
        EnteredIdle(from, k)
        && Adds(was, log, (if posted then [OffBattery] else []) + [MainsBack]
                          + if state.Onbatt? then [PowerOut] else [])
      else if ci.BattLevel? || ci.RunTime? || ci.BattLow? then
        state.Onbatt? && log == was && InOrder(from, looks) && Started(cfg, ts, timers, DueAt(looks))
      else Ignored(Onbatt, was, ts)
    }

    ghost predicate SelftestHandled(ci: Ci, value: int, from: nat, k: nat, was: seq<Posted>, ts: Timers6)
      reads this
    {
      if ci.SelftestStat? && value != 4
      then EnteredIdle(from, k) && Adds(was, log, [EndSelftest] + if state.Onbatt? then [PowerOut] else [])
      else Ignored(SelfTesting, was, ts)
    }

    /** What has come of a datum handled in state `st`: the new state, all that was posted, the timers. */
    ghost predicate DatumHandled(ci: Ci, value: int, from: nat, k: nat, looks: Looks,
                                 st: StateId, was: seq<Posted>, posted: bool, ts: Timers6)
      reads this
    {
      match st
      case Idle => IdleHandled(ci, value, from, looks, was, ts)
      case Onbatt => OnbattHandled(ci, value, from, k, looks, was, posted, ts)
      case SelfTesting => SelftestHandled(ci, value, from, k, was, ts)
      case _ => Ignored(st, was, ts)
    }

    method IdleOnDatum(ci: Ci, value: int) returns (ghost looks: Looks)
      requires Valid() && pc == Handling(Datum(ci, value)) && !ci.BatteryPresent? && depth == 0 && state.Idle?
      modifies this
      ensures Valid() && old(path) <= path && pc.Return? && depth == 0
      ensures IdleHandled(ci, value, |old(path)|, looks, old(log), old(timers))
    {
      looks := Looks(0, 0, 0);
      Begin(Datum(ci, value));
      if ci.Discharging? {
        if value != 0 { ghost var k; k, looks := ChangeState(Onbatt); }
      } else if ci.SelftestStat? {
        if value == TEST_INPROGRESS { var _, _ := ChangeState(SelfTesting); }
      }
    }

    method OnbattOnDatum(ci: Ci, value: int) returns (ghost k: nat, ghost looks: Looks)
      requires Valid() && pc == Handling(Datum(ci, value)) && !ci.BatteryPresent? && depth == 0 && state.Onbatt?
      modifies this
      ensures Valid() && old(path) <= path && pc.Return? && depth == 0
      ensures OnbattHandled(ci, value, |old(path)|, k, looks, old(log), old(onbatteryPosted), old(timers))
    {
      k, looks := 0, Looks(0, 0, 0);
      Begin(Datum(ci, value));
      if ci.Discharging? {
        if value == 0 { k := MainsReturned(); }
      } else if ci.BattLevel? || ci.RunTime? || ci.BattLow? {
        ghost var met;
        met, looks := CheckShutdown(false);
      }
    }

    method SelftestOnDatum(ci: Ci, value: int) returns (ghost k: nat)
      requires Valid() && pc == Handling(Datum(ci, value)) && !ci.BatteryPresent? && depth == 0 && state.SelfTesting?
      modifies this
      ensures Valid() && old(path) <= path && pc.Return? && depth == 0
      ensures SelftestHandled(ci, value, |old(path)|, k, old(log), old(timers))
    {
      k := 0;
      Begin(Datum(ci, value));
      if ci.SelftestStat? && value != TEST_INPROGRESS { k := TestReported(); }
    }

    method OnDatum(ci: Ci, value: int) returns (ghost k: nat, ghost looks: Looks)
      requires Valid() && pc == Handling(Datum(ci, value)) && !ci.BatteryPresent? && depth == 0
      modifies this
      ensures Valid() && old(path) <= path && pc.Return? && depth == 0
      ensures DatumHandled(ci, value, |old(path)|, k, looks, old(state), old(log), old(onbatteryPosted), old(timers))
    {
      k, looks := 0, Looks(0, 0, 0);
      match state {
        case Idle => looks := IdleOnDatum(ci, value);
        case Onbatt => k, looks := OnbattOnDatum(ci, value);
        case SelfTesting => k := SelftestOnDatum(ci, value);
        case _ => Begin(Datum(ci, value));
      }
    }

    method MainsReturned() returns (ghost k: nat)
      requires Valid() && pc.LeaveOutage?
      modifies this
      ensures Valid() && old(path) <= path && pc.Return? && depth == old(depth)
      ensures EnteredIdle(|old(path)|, k)
      ensures Adds(old(log), log, EndCmds(old(onbatteryPosted)) + EntryCmds(state))
    {
      Yield();
      EndOutage();
      ghost var mid := log;
      ghost var i, l := ChangeState(Idle);
      k := i;
      AddsMore(old(log), mid, log, EndCmds(old(onbatteryPosted)), EntryCmds(state));
    }

    method TestReported() returns (ghost k: nat)
      requires Valid() && pc == Pc.StopTimer(Selftest, Idle)
      modifies this
      ensures Valid() && old(path) <= path && pc.Return? && depth == old(depth)
      ensures EnteredIdle(|old(path)|, k) && Adds(old(log), log, [EndSelftest] + EntryCmds(state))
    {
      StopTimer(Selftest, Idle);
      k := FinishTest();
    }

    /** Posts OFFBATTERY if ONBATTERY was posted, and MAINSBACK, and adds the outage's length. */
    method EndOutage()
      requires Valid() && pc.LeaveOutage?
      modifies this`cumTimeOnBatt, this`log, this`pc, this`trace, this`path
      ensures Valid() && path == old(path) + [View()] && pc == Depart(Idle)
      ensures cumTimeOnBatt == old(cumTimeOnBatt) + (now / 1_000_000 - lastOnbattTime)
      ensures log == old(log) + (if onbatteryPosted then [Posted(OffBattery, now / 1_000_000)] else [])
                     + [Posted(MainsBack, now / 1_000_000)]
    {
      ghost var before := View();
      CloseBooks();
      pc := Depart(Idle);
      Commit(before, true);
    }

    /** Posts the end of the test, and goes to IDLE. */
    method FinishTest() returns (ghost k: nat)
      requires Valid() && pc.FinishSelftest?
      modifies this
      ensures Valid() && old(path) <= path && pc.Return? && depth == old(depth)
      ensures Adds(old(log), log, [EndSelftest] + EntryCmds(state))
      ensures EnteredIdle(|old(path)|, k)
    {
      PostAndGo(EndSelftest, Depart(Idle));
      ghost var mid := log;
      ghost var i, l := ChangeState(Idle);
      k := i;
      AddsMore(old(log), mid, log, [EndSelftest], EntryCmds(state));
    }

    /** What has come of a timeout handled in state `st`. */
    ghost predicate TimeoutHandled(id: TimerId, from: nat, j: nat, k: nat, st: StateId, was: seq<Posted>, ts: Timers6)
      reads this
    {
      match st
      case Onbatt =>
        (match id
         case TimeLimit => state.ShutRunLimit? && log == was
         case RunLimit => state.ShutRunLimit? && log == was
         case LowBattery => state.ShutBattLow? && log == was
         case LoadLimit => state.ShutLoadLimit? && log == was
         case OnbattEvent => onbatteryPosted && Announced(OnBattery, st, was, ts)
         case Selftest => Ignored(st, was, ts))
      case SelfTesting => if id.Selftest? then Judged(from, j, k, was) else Ignored(st, was, ts)
      case _ => Ignored(st, was, ts)
    }

    method OnTimeout(id: TimerId) returns (ghost j: nat, ghost k: nat)
      requires Valid() && pc == Handling(Timeout(id)) && depth == 0
      modifies this
      ensures Valid() && old(path) <= path && pc.Return? && depth == 0
      ensures TimeoutHandled(id, |old(path)|, j, k, old(state), old(log), old(timers))
    {
      j, k := 0, 0;
      if id.OnbattEvent? && state.Onbatt? {
        PostOnbattery();
        return;
      }
      Begin(Timeout(id));
      match state {
        case Onbatt =>
          match id {
            case TimeLimit => ShutDown(ShutRunLimit);
            case RunLimit => ShutDown(ShutRunLimit);
            case LowBattery => ShutDown(ShutBattLow);
            case LoadLimit => ShutDown(ShutLoadLimit);
            case _ =>
          }
        case SelfTesting => if id.Selftest? { j, k := SelftestTimeout(); }
        case _ =>
      }
    }

    method PostOnbattery()
      requires Valid() && pc == Handling(Timeout(OnbattEvent)) && state.Onbatt?
      modifies this`onbatteryPosted, this`log, this`pc, this`trace, this`path
      ensures Valid() && path == old(path) + [View()] && pc.Return?
      ensures onbatteryPosted && Adds(old(log), log, [OnBattery])
    {
      ghost var before := View();
      onbatteryPosted := true;
      GenerateEvent(OnBattery);
      pc := Return;
      Commit(before, true);
    }

    /** An event that posts nothing at once goes to the handler of the state. */
    ghost method Begin(e: Event)
      requires Valid() && pc == Handling(e) && BooksAfter(BooksView(), state, e, Sec(now)) == BooksView()
      modifies this`pc, this`trace, this`path
      ensures Valid() && path == old(path) + [View()] && pc == Dispatch(state, e)
    {
      ghost var before := View();
      pc := Dispatch(state, e);
      Commit(before, true);
    }

    method ShutDown(to: StateId)
      requires Valid() && pc == Depart(to) && to.Shut()
      modifies this
      ensures Valid() && old(path) <= path && pc.Return? && depth == old(depth)
      ensures state == to && log == old(log)
    {
      var _, _ := ChangeState(to);
    }

    ghost predicate Judged(from: nat, j: nat, k: nat, was: seq<Posted>)
      reads this
    {
      && from <= j + 1 && j < |path| && path[j].pc.JudgeSelftest?
      && if Discharging in path[j].db && path[j].db[Discharging] != 0 then state.Onbatt? && Adds(was, log, [PowerOut])
         else EnteredIdle(from, k) && Adds(was, log, [EndSelftest] + if state.Onbatt? then [PowerOut] else [])
    }

    /** Discharging when the timeout was judged, at moment `j`: to ONBATT; otherwise the end of the test is
        posted, and the machine goes to IDLE. */
    method SelftestTimeout() returns (ghost j: nat, ghost k: nat)
      requires Valid() && pc.JudgeSelftest?
      modifies this
      ensures Valid() && old(path) <= path && pc.Return? && depth == old(depth)
      ensures Judged(|old(path)|, j, k, old(log))
    {
      Yield();
      j, k := |path| - 1, 0;
      var discharging := LookAtBattery(Depart(Onbatt), FinishSelftest);
      if discharging { GoToOnbatt(); } else { k := FinishTest(); }
    }

    // ---- the event loop ----

    /** Takes the event off the queue. */
    method Dequeue() returns (e: Event)
      requires Valid() && pc.Head? && queue != []
      modifies this
      ensures Valid() && old(path) <= path && pc == Handling(e) && e == old(queue[0]) && queue == old(queue)[1..]
      ensures depth == old(depth) && state == old(state)
    {
      ghost var before := View();
      e := queue[0];
      queue := queue[1..];
      pc := Handling(e);
      Commit(before, true);
    }

    /** The "any state" handler: the battery was attached or detached. */
    method HandleAny(v: int)
      requires Valid() && pc == Handling(Datum(BatteryPresent, v))
      modifies this`log, this`pc, this`trace, this`path
      ensures Valid() && path == old(path) + [View()] && pc.Return?
      ensures Adds(old(log), log, [if v != 0 then BattAttach else BattDetach])
    {
      ghost var before := View();
      GenerateEvent(if v != 0 then BattAttach else BattDetach);
      pc := Return;
      Commit(before, true);
    }

    /** A datum goes to the "any state" handler or to the state's own. */
    method HandleDatum(ci: Ci, value: int) returns (ghost k: nat, ghost looks: Looks)
      requires Valid() && pc == Handling(Datum(ci, value)) && depth == 0
      modifies this
      ensures Valid() && old(path) <= path && pc.Head? && depth == 0
      ensures if ci.BatteryPresent?
              then Announced(if value != 0 then BattAttach else BattDetach, old(state), old(log), old(timers))
              else DatumHandled(ci, value, |old(path)|, k, looks,
                                old(state), old(log), old(onbatteryPosted), old(timers))
    {
      k, looks := 0, Looks(0, 0, 0);
      if ci.BatteryPresent? { HandleAny(value); } else { k, looks := OnDatum(ci, value); }
      BackToHead();
    }

    method HandleTimeout(id: TimerId) returns (ghost j: nat, ghost k: nat)
      requires Valid() && pc == Handling(Timeout(id)) && depth == 0
      modifies this
      ensures Valid() && old(path) <= path && pc.Head? && depth == 0
      ensures TimeoutHandled(id, |old(path)|, j, k, old(state), old(log), old(timers))
    {
      j, k := OnTimeout(id);
      BackToHead();
    }

    /** Handles one event; only EVENT_QUIT ends the loop. */
    method HandleEvent(e: Event) returns (quit: bool, ghost j: nat, ghost k: nat, ghost looks: Looks)
      requires Valid() && pc == Handling(e) && depth == 0
      modifies this
      ensures Valid() && old(path) <= path
      ensures quit <==> e.Quit?
      ensures if quit then pc.Stopped? && Ignored(old(state), old(log), old(timers)) else pc.Head? && depth == 0
      ensures match e
              case Datum(ci, v) =>
                if ci.BatteryPresent?
                then Announced(if v != 0 then BattAttach else BattDetach, old(state), old(log), old(timers))
                else DatumHandled(ci, v, |old(path)|, k, looks, old(state), old(log), old(onbatteryPosted), old(timers))
              case Timeout(id) => TimeoutHandled(id, |old(path)|, j, k, old(state), old(log), old(timers))
              case Quit => true
    {
      quit, j, k, looks := e.Quit?, 0, 0, Looks(0, 0, 0);
      match e {
        case Datum(ci, v) => k, looks := HandleDatum(ci, v);
        case Timeout(id) => j, k := HandleTimeout(id);
        case Quit => Begin(e);
      }
    }

    ghost method BackToHead()
      requires Valid() && pc.Return? && depth == 0
      modifies this`pc, this`trace, this`path
      ensures Valid() && path == old(path) + [View()] && pc.Head?
    {
      ghost var before := View();
      pc := Head;
      Commit(before, true);
    }

    /** `Start` followed by `passes` turns of the event loop, whatever the schedule.  The loop itself
        runs for ever; at each of its heads no power failure has been lost and the books are right. */
    method Body(passes: nat) returns (quit: bool)
      requires Valid() && pc.EnterIdle? && state.Idle? && depth == 0
      modifies this
      ensures Valid() && old(path) <= path
      ensures if quit then pc.Stopped? else pc.Head?
      ensures !quit && LastQueued(queue) != [] ==> Discharging in db && db[Discharging] == LastQueued(queue)[0]
      ensures !quit && LastQueued(queue) == [] ==>
                (state.Idle? ==> !Truth(db, Discharging)) && (state.Onbatt? ==> Truth(db, Discharging))
      ensures !quit ==>
                && numXfers == Count(log, PowerOut)
                && numXfers - Count(log, MainsBack) == (if state.Onbatt? || state.Shut() then 1 else 0)
                && !MeterOf(log).Garbled? && MeterOf(log).total == cumTimeOnBatt
    {
      var _ := IdleOnEnter();
      BackToHead();
      quit := false;
      var n := 0;
      while n < passes && !quit
        invariant Valid() && old(path) <= path
        invariant if quit then pc.Stopped? else pc.Head? && depth == 0
        decreases passes - n, !quit
      {
        Yield();
        if queue != [] {
          var e := Dequeue();
          ghost var j, k, looks;
          quit, j, k, looks := HandleEvent(e);
        }
        n := n + 1;
      }
      PathIsRun(path, trace, |trace|);
      assert trace[..|trace|] == trace;
      if !quit {
        MachineTheorems.NoPowerFailureLost(cfg, bornAt, bornWith, trace);
        MachineTheorems.OutagesAccounted(cfg, bornAt, bornWith, trace);
      }
    }
  }
}
