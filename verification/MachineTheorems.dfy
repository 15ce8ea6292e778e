/** What holds on every run: of the UPS state machine, its timers, its drivers and the clock,
    interleaved in any way. */
module MachineTheorems {
  import opened Machine
  import opened MachineProofs
  import Timers

  /** ONBATT's OnEnter comes right behind the note of its entry. */
  predicate EntryNoted(s: Sys) {
    s.pc.EnterOnbatt? ==> s.hist != [] && s.hist[|s.hist| - 1].Entered? && s.hist[|s.hist| - 1].into.Onbatt?
  }

  ghost predicate Inv(s: Sys) {
    Ctl(s) && Lossless(s) && TimersOk(s) && Accounts(s) && Causes(s, BEGINNING) && EntryNoted(s)
  }

  lemma HandlersKeepInv(s: Sys)
    requires Inv(s)
    ensures Inv(Handlers(s))
  {
    CtlHandlers(s);
    LosslessHandlers(s);
    TimersHandlers(s);
    if s.pc.Handling? { AccountsHandling(s); } else { AccountsHandlers(s); }
    CausesHandlers(s, BEGINNING);
  }

  lemma StopsKeepInv(s: Sys)
    requires Inv(s) && (s.pc.StopTimer? || s.pc.JoinTimer?)
    ensures Inv(StopCalls(s))
  {
    CtlStops(s);
    LosslessTimerCalls(s, true);
    TimersStops(s);
    AccountsTimerCalls(s, true);
    CausesStops(s, BEGINNING);
  }

  lemma StartsKeepInv(s: Sys, spawned: bool)
    requires Inv(s)
    ensures Inv(StartCalls(s, spawned))
  {
    CtlStarts(s, spawned);
    LosslessTimerCalls(s, spawned);
    TimersStarts(s, spawned);
    AccountsTimerCalls(s, spawned);
    CausesStarts(s, BEGINNING, spawned);
  }

  lemma OthersKeepInv(s: Sys, e: Env)
    requires Inv(s)
    ensures Inv(Environment(s, e))
  {
    CtlOthers(s, e);
    LosslessOthers(s, e);
    TimersOthers(s, e);
    AccountsOthers(s, e);
    CausesOthers(s, BEGINNING, e);
  }

  lemma StepKeepsInv(s: Sys, a: Action)
    requires Inv(s)
    ensures Inv(Next(s, a))
  {
    match a
    case Consume(spawned) =>
      if s.pc.StopTimer? || s.pc.JoinTimer? { StopsKeepInv(s); }
      else if s.pc.Check? || s.pc.StartTimer? { StartsKeepInv(s, spawned); }
      else { HandlersKeepInv(s); }
    case Other(e) => OthersKeepInv(s, e);
  }

  lemma InitInv(cfg: Config, now: nat, db: map<Ci, int>)
    ensures Inv(Init(cfg, now, db))
  {
  }

  lemma {:induction false} Reachable(cfg: Config, now: nat, db: map<Ci, int>, run: seq<Action>)
    ensures Inv(Reach(cfg, now, db, run))
    decreases |run|
  {
    if run == [] {
      InitInv(cfg, now, db);
    } else {
      Reachable(cfg, now, db, run[..|run| - 1]);
      StepKeepsInv(Reach(cfg, now, db, run[..|run| - 1]), run[|run| - 1]);
    }
  }

  lemma {:induction false} RunKeepsInv(s: Sys, run: seq<Action>)
    requires Inv(s)
    ensures Inv(Run(s, run)) && s.hist <= Run(s, run).hist && Run(s, run).cfg == s.cfg
    decreases |run|
  {
    if run != [] {
      RunKeepsInv(s, run[..|run| - 1]);
      StepKeepsInv(Run(s, run[..|run| - 1]), run[|run| - 1]);
      HistoryGrows(Run(s, run[..|run| - 1]), run[|run| - 1]);
    }
  }

  lemma HistoryGrows(s: Sys, a: Action)
    ensures s.hist <= Next(s, a).hist && Next(s, a).cfg == s.cfg
  {
  }

  lemma ReachCtl(cfg: Config, now: nat, db: map<Ci, int>, run: seq<Action>)
    ensures Ctl(Reach(cfg, now, db, run))
  {
    Reachable(cfg, now, db, run);
  }

  // ---- no power failure is lost ----

  /** At every head of the event loop: the last queued CI_Discharging datum equals the database; with
      none queued, IDLE means the database says not discharging and ONBATT means it says discharging. */
  lemma NoPowerFailureLost(cfg: Config, now: nat, db: map<Ci, int>, run: seq<Action>)
    requires Reach(cfg, now, db, run).pc.Head?
    ensures var s := Reach(cfg, now, db, run);
            var q := LastQueued(s.queue);
            && (q != [] ==> Discharging in s.db && s.db[Discharging] == q[0])
            && (q == [] && s.state.Idle? ==> !Truth(s.db, Discharging))
            && (q == [] && s.state.Onbatt? ==> Truth(s.db, Discharging))
  {
    Reachable(cfg, now, db, run);
  }

  // ---- shutdowns are justified ----

  /** The note gives a reason for state `st` by the time `end`: five seconds earlier CheckShutdown saw a
      reading at its limit, or ONBATT was entered the configured time earlier. */
  predicate Reason(cfg: Config, n: Note, st: StateId, end: int) {
    match n
    case Saw(id, v, during, at) =>
      && during.Onbatt? && at + 5_000_000 <= end
      && (match id
          case LoadLimit => st.ShutLoadLimit? && v <= 10 * cfg.percent + (if cfg.percent >= 0 then 9 else 0)
          case RunLimit => st.ShutRunLimit? && v <= 60 * cfg.runtime + (if cfg.runtime >= 0 then 59 else 0)
          case LowBattery => st.ShutBattLow? && v != 0
          case _ => false)
    case Entered(into, at) =>
      into.Onbatt? && st.ShutRunLimit? && cfg.maxTime > 0 && at + cfg.maxTime * 1_000_000 <= end
  }

  lemma CauseIsReason(cfg: Config, n: Note, id: TimerId, st: StateId, end: int)
    requires Cause(cfg, n, id) && Leads(id, st) && n.at + Delay(cfg, id) <= end
    ensures Reason(cfg, n, st, end)
  {
  }

  /** Every entry to a SHUTDOWN state has, earlier in the history and at least the delay before it,
      a cause that leads to this very state: a reading CheckShutdown saw at its limit in ONBATT
      (5 s), or the entry to ONBATT (the configured time limit). */
  lemma ShutdownsAreJustified(cfg: Config, now: nat, db: map<Ci, int>, run: seq<Action>, k: nat)
    requires var h := Reach(cfg, now, db, run).hist; k < |h| && h[k].Entered? && h[k].into.Shut()
    ensures var h := Reach(cfg, now, db, run).hist;
            exists j, id: TimerId :: 0 <= j < k && Leads(id, h[k].into)
                            && Cause(cfg, h[j], id) && h[j].at + Delay(cfg, id) <= h[k].at
    ensures var h := Reach(cfg, now, db, run).hist;
            exists j :: 0 <= j < k && Reason(cfg, h[j], h[k].into, h[k].at)
  {
    Reachable(cfg, now, db, run);
    ConfigFixed(cfg, now, db, run);
    var h := Reach(cfg, now, db, run).hist;
    assert EntryOk(cfg, h, k);
    var id: TimerId :| Trigger(id) && Leads(id, h[k].into) && Justified(cfg, h[..k], id, h[k].at);
    var j :| 0 <= j < k && Cause(cfg, h[..k][j], id) && h[..k][j].at + Delay(cfg, id) <= h[k].at;
    CauseIsReason(cfg, h[j], id, h[k].into, h[k].at);
  }

  /** The j-th note of a run was written in this step. */
  predicate NotedAt(cfg: Config, now: nat, db: map<Ci, int>, run: seq<Action>, j: nat, p: nat) {
    && p < |run|
    && var s, t := Reach(cfg, now, db, run[..p]), Reach(cfg, now, db, run[..p + 1]);
       |s.hist| == j && |t.hist| == j + 1
  }

  lemma {:induction false} NoteWritten(cfg: Config, now: nat, db: map<Ci, int>, run: seq<Action>, j: nat)
    returns (p: nat)
    requires j < |Reach(cfg, now, db, run).hist|
    ensures NotedAt(cfg, now, db, run, j, p)
    ensures Reach(cfg, now, db, run[..p + 1]).hist[j] == Reach(cfg, now, db, run).hist[j]
    decreases |run|
  {
    var before := run[..|run| - 1];
    LastNote(cfg, now, db, run);
    if j < |Reach(cfg, now, db, before).hist| {
      p := NoteWritten(cfg, now, db, before, j);
      assert run[..p] == before[..p] && run[..p + 1] == before[..p + 1];
    } else {
      p := |run| - 1;
      assert run[..p + 1] == run;
    }
  }

  lemma LastNote(cfg: Config, now: nat, db: map<Ci, int>, run: seq<Action>)
    requires run != []
    ensures var s, t := Reach(cfg, now, db, run[..|run| - 1]), Reach(cfg, now, db, run);
            s.hist <= t.hist && |t.hist| <= |s.hist| + 1
  {
    HistoryGrows(Reach(cfg, now, db, run[..|run| - 1]), run[|run| - 1]);
    OneNote(Reach(cfg, now, db, run[..|run| - 1]), run[|run| - 1]);
  }

  lemma OneNote(s: Sys, a: Action)
    ensures |Next(s, a).hist| <= |s.hist| + 1
  {
  }

  /** What the database held when a reading was noted, and which state was entered. */
  lemma NoteTells(s: Sys, a: Action)
    requires Ctl(s) && |Next(s, a).hist| > |s.hist|
    ensures var n := Next(s, a).hist[|s.hist|];
            && n.at == s.now
            && match n
               case Entered(into, _) => Next(s, a).state == into && s.pc == Switch(into)
               case Saw(id, v, during, _) =>
                 && during == s.state
                 && (match id
                     case LoadLimit => BattLevel in s.db && s.db[BattLevel] == v
                     case RunLimit => RunTime in s.db && s.db[RunTime] == v
                     case LowBattery => BattLow in s.db && s.db[BattLow] == v
                     case _ => false)
  {
  }

  /** So at least five seconds before every shutdown the machine was in ONBATT and its database held a reading
      at its limit, or it was entering ONBATT at least the time limit before. */
  lemma ShutdownsHaveReadings(cfg: Config, now: nat, db: map<Ci, int>, run: seq<Action>, k: nat) returns (p: nat)
    requires var h := Reach(cfg, now, db, run).hist; k < |h| && h[k].Entered? && h[k].into.Shut()
    ensures p < |run|
    ensures var u, n := Reach(cfg, now, db, run[..p]), Reach(cfg, now, db, run).hist[k];
            if n.into.ShutRunLimit? && u.pc == Switch(Onbatt)
            then cfg.maxTime > 0 && u.now + cfg.maxTime * 1_000_000 <= n.at
            else
              && u.state.Onbatt? && u.now + 5_000_000 <= n.at
              && (match n.into
                  case ShutLoadLimit =>
                    BattLevel in u.db && u.db[BattLevel] <= 10 * cfg.percent + (if cfg.percent >= 0 then 9 else 0)
                  case ShutRunLimit =>
                    RunTime in u.db && u.db[RunTime] <= 60 * cfg.runtime + (if cfg.runtime >= 0 then 59 else 0)
                  case _ => BattLow in u.db && u.db[BattLow] != 0)
  {
    ShutdownsAreJustified(cfg, now, db, run, k);
    var h := Reach(cfg, now, db, run).hist;
    var j :| 0 <= j < k && Reason(cfg, h[j], h[k].into, h[k].at);
    p := NoteWritten(cfg, now, db, run, j);
    assert run[..p + 1][..p] == run[..p];
    ReachCtl(cfg, now, db, run[..p]);
    NoteTells(Reach(cfg, now, db, run[..p]), run[p]);
  }

  /** No shutdown timer's timeout is queued or about to be. */
  predicate NonePending(s: Sys) {
    && (forall i :: 0 <= i < |s.queue| ==> !(s.queue[i].Timeout? && Trigger(s.queue[i].id)))
    && (forall id :: Trigger(id) ==> !s.timers(id).thread.Calling?)
  }

  lemma EpochBegins(s: Sys)
    requires Inv(s) && s.pc.EnterOnbatt? && NonePending(s)
    ensures Causes(s, EpochOf(s))
  {
    var ep := EpochOf(s);
    var n := s.hist[|s.hist| - 1];
    assert Late(s, ep) == [n];
    assert Late(s, BEGINNING) == s.hist;
    assert s.cfg.maxTime > 0 ==> Cause(s.cfg, Late(s, ep)[0], TimeLimit);
    forall id | Trigger(id) ensures RecentTimer(s.timers(id), ep.launches(id), ep.firings(id)) {
      assert Owned(s, id) && Timers.Inv(s.timers(id), s.now);
    }
  }

  lemma {:induction false} EpochLasts(s: Sys, ep: Epoch, run: seq<Action>)
    requires Inv(s) && Causes(s, ep)
    ensures Causes(Run(s, run), ep)
    decreases |run|
  {
    if run != [] {
      var before, a := run[..|run| - 1], run[|run| - 1];
      EpochLasts(s, ep, before);
      RunKeepsInv(s, before);
      EpochStep(Run(s, before), ep, a);
    }
  }

  lemma EpochStep(s: Sys, ep: Epoch, a: Action)
    requires Inv(s) && Causes(s, ep)
    ensures Causes(Next(s, a), ep)
  {
    match a
    case Consume(spawned) =>
      if s.pc.StopTimer? || s.pc.JoinTimer? { CausesStops(s, ep); }
      else if s.pc.Check? || s.pc.StartTimer? { CausesStarts(s, ep, spawned); }
      else { CausesHandlers(s, ep); }
    case Other(e) => CausesOthers(s, ep, e);
  }

  /** If no shutdown timeout is pending when ONBATT is entered, every later shutdown has its cause at or
      after that entry: a condition seen before it shuts nothing down any more. */
  lemma LaterShutdownsHaveLaterCauses(cfg: Config, now: nat, db: map<Ci, int>, pre: seq<Action>, run: seq<Action>,
                                      k: nat)
    requires var s := Reach(cfg, now, db, pre); s.pc.EnterOnbatt? && NonePending(s)
    requires var s, h := Reach(cfg, now, db, pre), Run(Reach(cfg, now, db, pre), run).hist;
             |s.hist| <= k < |h| && h[k].Entered? && h[k].into.Shut()
    ensures var s, h := Reach(cfg, now, db, pre), Run(Reach(cfg, now, db, pre), run).hist;
            exists j, id: TimerId :: |s.hist| - 1 <= j < k && 0 <= j && Leads(id, h[k].into)
                                     && Cause(cfg, h[j], id) && h[j].at + Delay(cfg, id) <= h[k].at
    ensures var s, h := Reach(cfg, now, db, pre), Run(Reach(cfg, now, db, pre), run).hist;
            exists j :: |s.hist| - 1 <= j < k && 0 <= j && Reason(cfg, h[j], h[k].into, h[k].at)
  {
    var s := Reach(cfg, now, db, pre);
    Reachable(cfg, now, db, pre);
    ConfigFixed(cfg, now, db, pre);
    EpochBegins(s);
    EpochLasts(s, EpochOf(s), run);
    RunKeepsInv(s, run);
    var j, id := LateEntryJustified(Run(s, run), EpochOf(s), k);
    var h := Run(s, run).hist;
    CauseIsReason(cfg, h[j], id, h[k].into, h[k].at);
  }

  lemma LateEntryJustified(t: Sys, ep: Epoch, k: nat) returns (j: nat, id: TimerId)
    requires Causes(t, ep) && ep.from <= k < |t.hist| && t.hist[k].Entered? && t.hist[k].into.Shut()
    ensures ep.from <= j < k && Leads(id, t.hist[k].into)
    ensures Cause(t.cfg, t.hist[j], id) && t.hist[j].at + Delay(t.cfg, id) <= t.hist[k].at
  {
    var late, i := Late(t, ep), k - ep.from;
    assert EntryOk(t.cfg, late, i) && late[i] == t.hist[k];
    id :| Trigger(id) && Leads(id, late[i].into) && Justified(t.cfg, late[..i], id, late[i].at);
    var m :| 0 <= m < i && Cause(t.cfg, late[..i][m], id) && late[..i][m].at + Delay(t.cfg, id) <= late[i].at;
    assert t.hist[ep.from + m] == late[m];
    j := ep.from + m;
  }

  lemma {:induction false} ConfigFixed(cfg: Config, now: nat, db: map<Ci, int>, run: seq<Action>)
    ensures Reach(cfg, now, db, run).cfg == cfg
    decreases |run|
  {
    if run != [] { ConfigFixed(cfg, now, db, run[..|run| - 1]); }
  }

  // ---- outages are accounted for ----

  /** At every head of the loop the log is a sequence of well-formed outages (each MAINSBACK preceded
      by OFFBATTERY exactly if ONBATTERY was posted in that outage), still open exactly in ONBATT and
      SHUTDOWN; the transfer count is the number of POWEROUTs, which exceed the MAINSBACKs by one
      exactly there; and the cumulated time is the sum of the completed outages. */
  lemma OutagesAccounted(cfg: Config, now: nat, db: map<Ci, int>, run: seq<Action>)
    requires Reach(cfg, now, db, run).pc.Head?
    ensures var s := Reach(cfg, now, db, run);
            var b := s.books;
            && !MeterOf(b.log).Garbled? && !MeterOf(b.log).Closing?
            && MeterOf(b.log).total == b.cumTimeOnBatt
            && (MeterOf(b.log).InOutage? <==> s.state.Onbatt? || s.state.Shut())
            && (MeterOf(b.log).InOutage? ==> MeterOf(b.log).since == b.lastOnbattTime)
            && b.numXfers == Count(b.log, PowerOut)
            && b.numXfers - Count(b.log, MainsBack) == (if s.state.Onbatt? || s.state.Shut() then 1 else 0)
  {
    Reachable(cfg, now, db, run);
    MeterBalances(Reach(cfg, now, db, run).books.log);
  }

  /** The log is well-formed at every moment, not only at the head of the loop. */
  lemma LogNeverGarbled(cfg: Config, now: nat, db: map<Ci, int>, run: seq<Action>)
    ensures !MeterOf(Reach(cfg, now, db, run).books.log).Garbled?
  {
    Reachable(cfg, now, db, run);
  }

  lemma SinceStartStep(s: Sys, start: nat, a: Action)
    requires Ctl(s) && SinceStart(s, start)
    ensures SinceStart(Next(s, a), start)
  {
    match a
    case Consume(spawned) =>
      SinceStartHandlers(s, start);
      SinceStartElsewhere(s, start, spawned, AskQuit);
    case Other(e) => SinceStartElsewhere(s, start, false, e);
  }

  lemma {:induction false} OutageBeganAfterStart(cfg: Config, now: nat, db: map<Ci, int>, run: seq<Action>)
    ensures SinceStart(Reach(cfg, now, db, run), now)
    decreases |run|
  {
    if run != [] {
      var before := run[..|run| - 1];
      ReachCtl(cfg, now, db, before);
      OutageBeganAfterStart(cfg, now, db, before);
      SinceStartStep(Reach(cfg, now, db, before), now, run[|run| - 1]);
    }
  }

  /** At every moment of every run, the status report's CUMONBATT is the sum of the completed outages plus
      the one in progress, as told by the log alone, exactly if the log and the database agree on whether
      there is one, or no time has passed since the last one began. */
  lemma CumOnBattExactly(cfg: Config, now: nat, db: map<Ci, int>, run: seq<Action>)
    requires Sec(now) > 0
    ensures var s := Reach(cfg, now, db, run);
            var m := MeterOf(s.books.log);
            && !m.Garbled?
            && (CumOnBatt(s) == m.total + (if m.InOutage? then Sec(s.now) - m.since else 0)
                <==> (m.InOutage? <==> Truth(s.db, Discharging))
                     || Sec(s.now) == s.books.lastOnbattTime || (!m.InOutage? && s.books.lastOnbattTime <= 0))
  {
    Reachable(cfg, now, db, run);
    OutageBeganAfterStart(cfg, now, db, run);
  }

  /** With no CI_Discharging datum queued in IDLE or ONBATT, the status report's CUMONBATT is the sum
      of the completed outages plus the one in progress, as told by the log alone. */
  lemma CumOnBattIsExact(cfg: Config, now: nat, db: map<Ci, int>, run: seq<Action>)
    requires Sec(now) > 0
    requires var s := Reach(cfg, now, db, run);
             s.pc.Head? && (s.state.Idle? || s.state.Onbatt?) && LastQueued(s.queue) == []
    ensures var s := Reach(cfg, now, db, run);
            var m := MeterOf(s.books.log);
            && !m.Garbled?
            && CumOnBatt(s) == m.total + (if m.InOutage? then Sec(s.now) - m.since else 0)
  {
    Reachable(cfg, now, db, run);
    OutageBeganAfterStart(cfg, now, db, run);
  }

  // ---- timers belong to their state, SHUTDOWN is final ----

  /** The five timers of ONBATT are started only in ONBATT. */
  lemma OnbattTimersOnlyInOnbatt(cfg: Config, now: nat, db: map<Ci, int>, run: seq<Action>, id: TimerId)
    requires !id.Selftest? && Reach(cfg, now, db, run).timers(id).started
    ensures Reach(cfg, now, db, run).state.Onbatt?
  {
    Reachable(cfg, now, db, run);
    assert Owned(Reach(cfg, now, db, run), id);
  }

  /** The history of each timer in the machine meets the promises of `atimer`. */
  lemma MachineTimersFireOnce(cfg: Config, now: nat, db: map<Ci, int>, run: seq<Action>, id: TimerId)
    ensures var t := Reach(cfg, now, db, run).timers(id);
            && (forall i, j :: 0 <= i < j < |t.firings| ==> t.firings[i].gen < t.firings[j].gen)
            && (forall i :: 0 <= i < |t.firings| ==>
                  && t.firings[i].gen < |t.launches|
                  && t.launches[t.firings[i].gen].deadline <= t.firings[i].at)
  {
    Reachable(cfg, now, db, run);
    var s := Reach(cfg, now, db, run);
    assert Timers.Inv(s.timers(id), s.now);
    forall i | 0 <= i < |s.timers(id).firings|
      ensures s.timers(id).firings[i].gen < |s.timers(id).launches|
      ensures s.timers(id).launches[s.timers(id).firings[i].gen].deadline <= s.timers(id).firings[i].at
    {
      assert Timers.FiredInTime(s.timers(id), s.timers(id).firings[i], s.now);
    }
  }

  /** The steps that disarm a started timer: a `stop`, and the end of its own thread's wait by timeout or
      error. */
  predicate Disarms(s: Sys, a: Action, id: TimerId) {
    match a
    case Consume(_) => s.pc.StopTimer? && s.pc.id == id
    case Other(e) =>
      && e.Thread? && e.id == id && s.timers(id).thread.Waiting?
      && (e.w.Failed? || (e.w.TimedOut? && s.timers(id).thread.until <= s.now))
  }

  /** A condition that clears does not cancel a shutdown: a timer is disarmed exactly by those steps, and
      the `stop` of an ONBATT timer is called only in leaving ONBATT. */
  lemma OnlyExitDisarms(s: Sys, a: Action, id: TimerId)
    requires Ctl(s) && s.timers(id).started
    ensures !Next(s, a).timers(id).started <==> Disarms(s, a, id)
    ensures OfOnbatt(id) && a.Consume? && Disarms(s, a, id) ==> s.state.Onbatt? && Edge(Onbatt, s.pc.to) && s.depth == 1
  {
    match a
    case Consume(spawned) => OnlyStopsDisarm(s, spawned, id);
    case Other(e) =>
  }

  lemma OnlyStopsDisarm(s: Sys, spawned: bool, id: TimerId)
    requires s.timers(id).started
    ensures !Consumer(s, spawned).timers(id).started <==> s.pc.StopTimer? && s.pc.id == id
  {
  }

  /** The consumer stops this timer in the k-th step. */
  predicate StopsAt(s: Sys, run: seq<Action>, k: nat, id: TimerId)
    requires k < |run|
  {
    run[k].Consume? && Run(s, run[..k]).pc.StopTimer? && Run(s, run[..k]).pc.id == id
  }

  /** A timer of the machine that is lost fires never, whatever else happens, until it is stopped; a
      shutdown it was to bring about does not come. */
  lemma {:induction false} LostTimerNeverFires(s: Sys, run: seq<Action>, id: TimerId)
    requires Timers.Lost(s.timers(id))
    requires forall k :: 0 <= k < |run| ==> !StopsAt(s, run, k, id)
    ensures var t := Run(s, run).timers(id);
            Timers.Lost(t) && t.launches == s.timers(id).launches && t.firings == s.timers(id).firings
    decreases |run|
  {
    if run != [] {
      var before := run[..|run| - 1];
      forall k | 0 <= k < |before| ensures !StopsAt(s, before, k, id) {
        assert before[..k] == run[..k];
        assert !StopsAt(s, run, k, id);
      }
      LostTimerNeverFires(s, before, id);
      assert !StopsAt(s, run, |before|, id);
      LostStep(Run(s, before), run[|run| - 1], id);
    }
  }

  lemma LostStep(s: Sys, a: Action, id: TimerId)
    requires Timers.Lost(s.timers(id)) && !(a.Consume? && s.pc.StopTimer? && s.pc.id == id)
    ensures var t, t' := s.timers(id), Next(s, a).timers(id);
            Timers.Lost(t') && t'.launches == t.launches && t'.firings == t.firings
  {
    match a
    case Consume(spawned) => LostInCalls(s, spawned, id);
    case Other(e) =>
  }

  lemma LostInCalls(s: Sys, spawned: bool, id: TimerId)
    requires Timers.Lost(s.timers(id)) && !(s.pc.StopTimer? && s.pc.id == id)
    ensures Consumer(s, spawned).timers(id) == s.timers(id)
  {
  }

  /** The timeout's timer belongs to another state. */
  predicate Foreign(st: StateId, id: TimerId) { !(st.Onbatt? && OfOnbatt(id)) && !(st.SelfTesting? && id.Selftest?) }

  /** Nothing of the machine has changed but what the other threads share with it. */
  predicate Untouched(s: Sys, t: Sys) {
    && t.state == s.state && t.books == s.books && t.hist == s.hist && t.depth == s.depth
    && forall id :: t.timers(id).launches == s.timers(id).launches
  }

  predicate BackAtHead(s: Sys, run: seq<Action>, k: nat)
    requires k <= |run|
  {
    Run(s, run[..k]).pc.Head?
  }

  /** A timeout whose timer belongs to another state changes nothing: over every interleaving, from its
      being taken off the queue to the next head of the loop. */
  lemma {:induction false} ForeignTimeoutIgnored(s: Sys, id: TimerId, run: seq<Action>)
    requires Ctl(s) && s.pc == Handling(Timeout(id)) && Foreign(s.state, id)
    requires forall k :: 0 <= k < |run| ==> !BackAtHead(s, run, k)
    ensures var t := Run(s, run);
            Untouched(s, t) && (t.pc == s.pc || t.pc.Return? || t.pc.Head?)
    decreases |run|
  {
    if run != [] {
      var before := run[..|run| - 1];
      forall k | 0 <= k < |before| ensures !BackAtHead(s, before, k) {
        assert before[..k] == run[..k];
        assert !BackAtHead(s, run, k);
      }
      ForeignTimeoutIgnored(s, id, before);
      assert !BackAtHead(s, run, |before|);
      IgnoringStep(s, Run(s, before), run[|run| - 1]);
    }
  }

  lemma IgnoringStep(s: Sys, t: Sys, a: Action)
    requires s.pc.Handling? && s.pc.e.Timeout? && Foreign(s.state, s.pc.e.id) && s.depth == 0
    requires Untouched(s, t) && (t.pc == s.pc || t.pc.Return?)
    ensures Untouched(s, Next(t, a))
    ensures Next(t, a).pc == s.pc || Next(t, a).pc.Return? || Next(t, a).pc.Head?
  {
  }

  /** Once a SHUTDOWN state is entered no run leaves it or starts a timer, whatever the other
      threads do, and nothing more is posted than the battery being attached or detached. */
  lemma {:induction false} ShutdownIsFinal(s: Sys, run: seq<Action>)
    requires Ctl(s) && s.state.Shut()
    ensures Ctl(Run(s, run)) && SameShutdown(s, Run(s, run))
    decreases |run|
  {
    if run != [] {
      ShutdownIsFinal(s, run[..|run| - 1]);
      match run[|run| - 1]
      case Consume(spawned) => ConsumerInShutdown(Run(s, run[..|run| - 1]), spawned);
      case Other(e) =>
        CtlOthers(Run(s, run[..|run| - 1]), e);
        OthersInShutdown(Run(s, run[..|run| - 1]), e);
    }
  }

  predicate SameShutdown(s: Sys, s': Sys) {
    && s'.state == s.state
    && (forall id :: s'.timers(id).launches == s.timers(id).launches)
    && s'.books == s.books.(log := s'.books.log)
    && Count(s'.books.log, PowerOut) == Count(s.books.log, PowerOut)
    && Count(s'.books.log, MainsBack) == Count(s.books.log, MainsBack)
  }

  lemma ConsumerInShutdown(s: Sys, spawned: bool)
    requires Ctl(s) && s.state.Shut()
    ensures Ctl(Consumer(s, spawned)) && SameShutdown(s, Consumer(s, spawned))
  {
    CtlHandlers(s);
    BattEventsOnly(s.books, BattAttach, Sec(s.now));
    BattEventsOnly(s.books, BattDetach, Sec(s.now));
  }

  lemma OthersInShutdown(s: Sys, e: Env)
    ensures SameShutdown(s, Environment(s, e))
  {
  }

  lemma BattEventsOnly(b: Books, cmd: Cmd, at: int)
    requires cmd.BattAttach? || cmd.BattDetach?
    ensures Count(Post(b, cmd, at).log, PowerOut) == Count(b.log, PowerOut)
    ensures Count(Post(b, cmd, at).log, MainsBack) == Count(b.log, MainsBack)
  {
    assert (b.log + [Posted(cmd, at)])[..|b.log|] == b.log;
  }

  // ---- ChangeState nests at most twice, and every handler ends ----

  lemma NestingAtMostTwo(cfg: Config, now: nat, db: map<Ci, int>, run: seq<Action>)
    ensures var s := Reach(cfg, now, db, run);
            s.depth <= 2 && (s.depth == 2 && !s.pc.Return? ==> s.state.Idle? || s.state.Onbatt?)
            && (s.pc.Head? ==> s.depth == 0)
  {
    ReachCtl(cfg, now, db, run);
  }

  function SwitchRank(to: StateId): nat {
    match to
    case Idle => 25
    case Onbatt => 11
    case SelfTesting => 4
    case _ => 2
  }

  function CallRank(id: TimerId): nat {
    match id
    case OnbattEvent => 9
    case LoadLimit => 7
    case RunLimit => 5
    case LowBattery => 3
    case _ => 2
  }

  /** How many more steps the handler can take. */
  function Rank(pc: Pc): nat {
    match pc
    case Head => 0
    case Stopped => 0
    case Return => 1
    case Handling(_) => 42
    case Depart(to) => SwitchRank(to) + 12
    case StopTimer(id, to) => if id.Selftest? then 40 else SwitchRank(to) + 2 * (5 - ExitIndex(id))
    case JoinTimer(id, to) => if id.Selftest? then 39 else SwitchRank(to) + 2 * (5 - ExitIndex(id)) - 1
    case Switch(to) => SwitchRank(to)
    case EnterIdle => 24
    case EnterOnbatt => 10
    case EnterSelftest => 3
    case Check(id, _) => CallRank(id) + 1
    case StartTimer(id, _) => CallRank(id)
    case LeaveOutage => 38
    case FinishSelftest => 38
    case JudgeSelftest => 39
  }

  /** The consumer waits in `join` for a timer thread to end. */
  predicate Blocked(s: Sys) { s.pc.JoinTimer? && !s.timers(s.pc.id).thread.Off? }

  lemma HandlersProgress(s: Sys)
    requires Ctl(s) && !s.pc.Head? && !s.pc.Stopped?
    requires !s.pc.StopTimer? && !s.pc.JoinTimer? && !s.pc.Check? && !s.pc.StartTimer?
    ensures Rank(Handlers(s).pc) + Handlers(s).depth < Rank(s.pc) + s.depth
  {
  }

  lemma TimerCallsProgress(s: Sys, spawned: bool)
    requires Ctl(s) && !Blocked(s)
    ensures s.pc.StopTimer? || s.pc.JoinTimer? ==>
              Rank(StopCalls(s).pc) + StopCalls(s).depth < Rank(s.pc) + s.depth
    ensures s.pc.Check? || s.pc.StartTimer? ==>
              Rank(StartCalls(s, spawned).pc) + StartCalls(s, spawned).depth < Rank(s.pc) + s.depth
  {
  }

  /** Every step of a handler brings its end nearer, except while it waits in `join`; other threads do
      not put it off. */
  lemma HandlerNearsEnd(s: Sys, a: Action)
    requires Ctl(s) && !s.pc.Head? && !s.pc.Stopped?
    ensures 0 < Rank(s.pc) && Rank(s.pc) + s.depth <= 42
    ensures var t := Next(s, a);
            Rank(t.pc) + t.depth + (if a.Consume? && !Blocked(s) then 1 else 0) <= Rank(s.pc) + s.depth
  {
    if a.Consume? && !Blocked(s) {
      if s.pc.StopTimer? || s.pc.JoinTimer? || s.pc.Check? || s.pc.StartTimer? { TimerCallsProgress(s, a.spawned); }
      else { HandlersProgress(s); }
    }
  }

  /** How many steps of a run the consumer takes without waiting in `join`. */
  function FreeSteps(s: Sys, run: seq<Action>): nat
    decreases |run|
  {
    if run == [] then 0
    else
      var before := run[..|run| - 1];
      FreeSteps(s, before) + if run[|run| - 1].Consume? && !Blocked(Run(s, before)) then 1 else 0
  }

  predicate Done(s: Sys, run: seq<Action>, k: nat)
    requires k <= |run|
  {
    Run(s, run[..k]).pc.Head? || Run(s, run[..k]).pc.Stopped?
  }

  lemma {:induction false} StepsLeft(s: Sys, run: seq<Action>)
    requires Ctl(s) && forall k :: 0 <= k < |run| ==> !Done(s, run, k)
    ensures var t := Run(s, run);
            Ctl(t) && FreeSteps(s, run) + Rank(t.pc) + t.depth <= Rank(s.pc) + s.depth
    decreases |run|
  {
    if run != [] {
      var before, a := run[..|run| - 1], run[|run| - 1];
      forall k | 0 <= k < |before| ensures !Done(s, before, k) {
        assert before[..k] == run[..k];
        assert !Done(s, run, k);
      }
      StepsLeft(s, before);
      assert !Done(s, run, |before|);
      CtlStep(Run(s, before), a);
      HandlerNearsEnd(Run(s, before), a);
    }
  }

  lemma CtlStep(s: Sys, a: Action)
    requires Ctl(s)
    ensures Ctl(Next(s, a))
  {
    match a
    case Consume(spawned) =>
      CtlHandlers(s);
      CtlStops(s);
      CtlStarts(s, spawned);
    case Other(e) => CtlOthers(s, e);
  }

  /** Every event is handled: in any run in which the consumer takes 42 steps without waiting in `join`,
      whatever the other threads do in between, it has come to the head of the loop or stopped. */
  lemma HandlerEnds(s: Sys, run: seq<Action>) returns (k: nat)
    requires Ctl(s) && s.pc.Handling? && FreeSteps(s, run) >= 42
    ensures 0 < k <= |run| && Done(s, run, k)
  {
    if forall j :: 0 <= j < |run| ==> !Done(s, run, j) {
      StepsLeft(s, run);
      HandlingDepth(s);
      k := |run|;
      assert run[..k] == run;
      if !Done(s, run, k) { HandlerNearsEnd(Run(s, run), Consume(true)); }
    } else {
      k :| 0 <= k < |run| && Done(s, run, k);
      assert run[..0] == [];
    }
  }

  lemma HandlingDepth(s: Sys)
    requires Ctl(s) && s.pc.Handling?
    ensures Rank(s.pc) + s.depth == 42
  {
  }
}
