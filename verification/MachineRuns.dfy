/** Runs that show what the machine does not promise: a shutdown condition clears and the machine shuts down
    all the same; ONBATTERY is posted twice in one outage; a timer that was started never fires; CUMONBATT is
    wrong. */
module MachineRuns {
  import opened Machine
  import opened MachineProofs
  import opened MachineTheorems
  import opened MachineReach
  import opened MachineOnbattery
  import Timers

  const C: Action := Consume(true)

  function T(id: TimerId, w: Timers.Wake): Action { Other(Thread(id, w)) }

  /** On battery with a low battery, and no time limit. */
  const CFG := Config(6, 0, 10, 5)
  const LOW: map<Ci, int> := map[Discharging := 1, BattLow := 1]
  const CLEARED: map<Ci, int> := map[Discharging := 1, BattLow := 0]

  const T0 := 1_000_000  // one second

  const START := Init(CFG, T0, LOW)

  /** What matters of a state, besides its timers. */
  predicate At(t: Sys, now: nat, db: map<Ci, int>, queue: seq<Event>, state: StateId, pc: Pc, depth: nat) {
    t.cfg == CFG && t.now == now && t.db == db && t.queue == queue && t.state == state && t.pc == pc && t.depth == depth
  }

  predicate Armed(t: Timers.Timer, deadline: int) {
    t.started && !t.joining && t.thread.Checking? && t.abstime == deadline && t.launches != []
  }

  predicate Quiet(t: Timers.Timer) { !t.started && !t.joining && t.thread.Off? }

  predicate AllQuiet(t: Sys) { forall id :: Quiet(t.timers(id)) }

  predicate OthersQuiet(t: Sys) {
    && Quiet(t.timers(TimeLimit)) && Quiet(t.timers(RunLimit)) && Quiet(t.timers(LoadLimit))
    && Quiet(t.timers(Selftest))
  }

  predicate BothArmed(t: Sys) {
    && OthersQuiet(t)
    && Armed(t.timers(OnbattEvent), T0 + 6_000_000) && Armed(t.timers(LowBattery), T0 + 5_000_000)
  }

  lemma Departs(s: Sys, t: Sys) returns (t': Sys)
    requires CanReach(s, t, false)
    requires t == START
    ensures CanReach(s, t', false)
    ensures At(t', T0, LOW, [], Idle, Switch(Onbatt), 1) && AllQuiet(t')
  {
    t' := Go(s, t, false, [C, C]);
  }

  /** ONBATT is entered, and POWEROUT posted. */
  lemma Enters(s: Sys, t: Sys) returns (t': Sys)
    requires CanReach(s, t, false)
    requires At(t, T0, LOW, [], Idle, Switch(Onbatt), 1) && AllQuiet(t)
    ensures CanReach(s, t', false)
    ensures At(t', T0, LOW, [], Onbatt, StartTimer(OnbattEvent, true), 1) && AllQuiet(t')
  {
    t' := Go(s, t, false, [C, C]);
  }

  lemma StartsEvent(s: Sys, t: Sys) returns (t': Sys)
    requires CanReach(s, t, false)
    requires At(t, T0, LOW, [], Onbatt, StartTimer(OnbattEvent, true), 1) && AllQuiet(t)
    ensures CanReach(s, t', false)
    ensures At(t', T0, LOW, [], Onbatt, Check(LoadLimit, true), 1)
    ensures Armed(t'.timers(OnbattEvent), T0 + 6_000_000) && Quiet(t'.timers(LowBattery)) && OthersQuiet(t')
  {
    t' := Go(s, t, false, [C]);
  }

  lemma ChecksCharge(s: Sys, t: Sys) returns (t': Sys)
    requires CanReach(s, t, false)
    requires At(t, T0, LOW, [], Onbatt, Check(LoadLimit, true), 1)
    requires Armed(t.timers(OnbattEvent), T0 + 6_000_000) && Quiet(t.timers(LowBattery)) && OthersQuiet(t)
    ensures CanReach(s, t', false)
    ensures At(t', T0, LOW, [], Onbatt, Check(RunLimit, true), 1)
    ensures Armed(t'.timers(OnbattEvent), T0 + 6_000_000) && Quiet(t'.timers(LowBattery)) && OthersQuiet(t')
  {
    t' := Go(s, t, false, [C]);
  }

  lemma ChecksTime(s: Sys, t: Sys) returns (t': Sys)
    requires CanReach(s, t, false)
    requires At(t, T0, LOW, [], Onbatt, Check(RunLimit, true), 1)
    requires Armed(t.timers(OnbattEvent), T0 + 6_000_000) && Quiet(t.timers(LowBattery)) && OthersQuiet(t)
    ensures CanReach(s, t', false)
    ensures At(t', T0, LOW, [], Onbatt, Check(LowBattery, true), 1)
    ensures Armed(t'.timers(OnbattEvent), T0 + 6_000_000) && Quiet(t'.timers(LowBattery)) && OthersQuiet(t')
  {
    t' := Go(s, t, false, [C]);
  }

  /** CheckShutdown sees the low battery. */
  lemma SeesLow(s: Sys, t: Sys) returns (t': Sys)
    requires CanReach(s, t, false)
    requires At(t, T0, LOW, [], Onbatt, Check(LowBattery, true), 1)
    requires Armed(t.timers(OnbattEvent), T0 + 6_000_000) && Quiet(t.timers(LowBattery)) && OthersQuiet(t)
    ensures CanReach(s, t', false)
    ensures At(t', T0, LOW, [], Onbatt, StartTimer(LowBattery, true), 1)
    ensures Armed(t'.timers(OnbattEvent), T0 + 6_000_000) && Quiet(t'.timers(LowBattery)) && OthersQuiet(t')
  {
    t' := Go(s, t, false, [C]);
  }

  lemma StartsShutdown(s: Sys, t: Sys) returns (t': Sys)
    requires CanReach(s, t, false)
    requires At(t, T0, LOW, [], Onbatt, StartTimer(LowBattery, true), 1)
    requires Armed(t.timers(OnbattEvent), T0 + 6_000_000) && Quiet(t.timers(LowBattery)) && OthersQuiet(t)
    ensures CanReach(s, t', false)
    ensures At(t', T0, LOW, [], Onbatt, Return, 1) && BothArmed(t')
  {
    t' := Go(s, t, false, [C, C]);
  }

  lemma BackAtHead(s: Sys, t: Sys) returns (t': Sys)
    requires CanReach(s, t, false)
    requires At(t, T0, LOW, [], Onbatt, Return, 1) && BothArmed(t)
    ensures CanReach(s, t', false)
    ensures At(t', T0, LOW, [], Onbatt, Head, 0) && BothArmed(t')
  {
    t' := Go(s, t, false, [C, C]);
  }

  /** The driver reports that the battery is no longer low. */
  lemma Clears(s: Sys, t: Sys) returns (t': Sys)
    requires CanReach(s, t, false)
    requires At(t, T0, LOW, [], Onbatt, Head, 0) && BothArmed(t)
    ensures CanReach(s, t', false)
    ensures At(t', T0, CLEARED, [Datum(BattLow, 0)], Onbatt, Head, 0) && BothArmed(t')
  {
    t' := Go(s, t, false, [Other(Update(BattLow, 0))]);
  }

  lemma Hears(s: Sys, t: Sys) returns (t': Sys)
    requires CanReach(s, t, false)
    requires At(t, T0, CLEARED, [Datum(BattLow, 0)], Onbatt, Head, 0) && BothArmed(t)
    ensures CanReach(s, t', false)
    ensures At(t', T0, CLEARED, [], Onbatt, Check(RunLimit, false), 0) && BothArmed(t')
  {
    t' := Go(s, t, false, [C, C, C]);
  }

  lemma Checks(s: Sys, t: Sys) returns (t': Sys)
    requires CanReach(s, t, false)
    requires At(t, T0, CLEARED, [], Onbatt, Check(RunLimit, false), 0) && BothArmed(t)
    ensures CanReach(s, t', false)
    ensures At(t', T0, CLEARED, [], Onbatt, Check(LowBattery, false), 0) && BothArmed(t')
  {
    t' := Go(s, t, false, [C]);
  }

  /** The machine has handled that, and is still in ONBATT. */
  lemma Heard(s: Sys, t: Sys) returns (t': Sys)
    requires CanReach(s, t, false)
    requires At(t, T0, CLEARED, [], Onbatt, Check(LowBattery, false), 0) && BothArmed(t)
    ensures CanReach(s, t', false)
    ensures At(t', T0, CLEARED, [], Onbatt, Return, 0) && BothArmed(t')
  {
    t' := Go(s, t, false, [C]);
  }

  lemma Returns(s: Sys, t: Sys) returns (t': Sys)
    requires CanReach(s, t, false)
    requires At(t, T0, CLEARED, [], Onbatt, Return, 0) && BothArmed(t)
    ensures CanReach(s, t', false)
    ensures At(t', T0, CLEARED, [], Onbatt, Head, 0) && BothArmed(t')
  {
    t' := Go(s, t, false, [C]);
  }

  /** Five seconds later the timer fires. */
  lemma Fires(s: Sys, t: Sys) returns (t': Sys)
    requires CanReach(s, t, true)
    requires At(t, T0, CLEARED, [], Onbatt, Head, 0) && BothArmed(t)
    ensures CanReach(s, t', true)
    ensures At(t', T0 + 5_000_000, CLEARED, [Timeout(LowBattery)], Onbatt, Head, 0)
    ensures OthersQuiet(t') && Armed(t'.timers(OnbattEvent), T0 + 6_000_000)
    ensures !t'.timers(LowBattery).started && !t'.timers(LowBattery).joining
  {
    var id := LowBattery;
    t' := Go(s, t, true, [Other(Tick(5_000_000)), T(id, Timers.Woken), T(id, Timers.TimedOut), T(id, Timers.Woken)]);
  }

  lemma Leaves(s: Sys, t: Sys) returns (t': Sys)
    requires CanReach(s, t, true)
    requires At(t, T0 + 5_000_000, CLEARED, [Timeout(LowBattery)], Onbatt, Head, 0)
    requires OthersQuiet(t) && Armed(t.timers(OnbattEvent), T0 + 6_000_000)
    requires !t.timers(LowBattery).started && !t.timers(LowBattery).joining
    ensures CanReach(s, t', true)
    ensures At(t', T0 + 5_000_000, CLEARED, [], Onbatt, StopTimer(TimeLimit, ShutBattLow), 1)
    ensures OthersQuiet(t') && Armed(t'.timers(OnbattEvent), T0 + 6_000_000)
    ensures !t'.timers(LowBattery).started && !t'.timers(LowBattery).joining
  {
    t' := Go(s, t, true, [C, C, C]);
  }

  lemma StopsTwo(s: Sys, t: Sys) returns (t': Sys)
    requires CanReach(s, t, true)
    requires At(t, T0 + 5_000_000, CLEARED, [], Onbatt, StopTimer(TimeLimit, ShutBattLow), 1)
    requires OthersQuiet(t) && Armed(t.timers(OnbattEvent), T0 + 6_000_000)
    requires !t.timers(LowBattery).started && !t.timers(LowBattery).joining
    ensures CanReach(s, t', true)
    ensures At(t', T0 + 5_000_000, CLEARED, [], Onbatt, StopTimer(LowBattery, ShutBattLow), 1)
    ensures OthersQuiet(t') && Armed(t'.timers(OnbattEvent), T0 + 6_000_000)
    ensures !t'.timers(LowBattery).started && !t'.timers(LowBattery).joining
  {
    t' := Go(s, t, true, [C, C]);
  }

  lemma StopsLow(s: Sys, t: Sys) returns (t': Sys)
    requires CanReach(s, t, true)
    requires At(t, T0 + 5_000_000, CLEARED, [], Onbatt, StopTimer(LowBattery, ShutBattLow), 1)
    requires OthersQuiet(t) && Armed(t.timers(OnbattEvent), T0 + 6_000_000)
    requires !t.timers(LowBattery).started && !t.timers(LowBattery).joining
    ensures CanReach(s, t', true)
    ensures At(t', T0 + 5_000_000, CLEARED, [], Onbatt, StopTimer(LoadLimit, ShutBattLow), 1)
    ensures OthersQuiet(t') && Armed(t'.timers(OnbattEvent), T0 + 6_000_000)
  {
    t' := Go(s, t, true, [C]);
  }

  lemma StopsEvent(s: Sys, t: Sys) returns (t': Sys)
    requires CanReach(s, t, true)
    requires At(t, T0 + 5_000_000, CLEARED, [], Onbatt, StopTimer(LoadLimit, ShutBattLow), 1)
    requires OthersQuiet(t) && Armed(t.timers(OnbattEvent), T0 + 6_000_000)
    ensures CanReach(s, t', true)
    ensures At(t', T0 + 5_000_000, CLEARED, [], Onbatt, JoinTimer(OnbattEvent, ShutBattLow), 1)
    ensures t'.timers(OnbattEvent).thread.Checking? && !t'.timers(OnbattEvent).started
  {
    t' := Go(s, t, true, [C, C]);
  }

  /** And the machine is in SHUTDOWN. */
  lemma ShutsDown(s: Sys, t: Sys) returns (t': Sys)
    requires CanReach(s, t, true)
    requires At(t, T0 + 5_000_000, CLEARED, [], Onbatt, JoinTimer(OnbattEvent, ShutBattLow), 1)
    requires t.timers(OnbattEvent).thread.Checking? && !t.timers(OnbattEvent).started
    ensures CanReach(s, t', true)
    ensures At(t', T0 + 5_000_000, CLEARED, [], ShutBattLow, Return, 1)
  {
    t' := Go(s, t, true, [T(OnbattEvent, Timers.Woken), T(OnbattEvent, Timers.Woken), C, C]);
  }

  /** A reachable state at the head of the loop in ONBATT, in which the battery is not low, from which the
      machine shuts down for a low battery although no driver reports anything any more. */
  lemma ClearedConditionStillShutsDown() returns (s: Sys, t: Sys)
    ensures CanReach(START, s, false) && s.pc.Head? && s.state.Onbatt? && s.queue == []
    ensures BattLow in s.db && s.db[BattLow] == 0
    ensures CanReach(s, t, true) && t.state.ShutBattLow? && t.db == s.db && t.pc.Return?
  {
    s := UntilCleared();
    Here(s);
    t := Fires(s, s);
    t := Leaves(s, t);
    t := StopsTwo(s, t);
    t := StopsLow(s, t);
    t := StopsEvent(s, t);
    t := ShutsDown(s, t);
  }

  lemma UntilCleared() returns (s: Sys)
    ensures CanReach(START, s, false) && At(s, T0, CLEARED, [], Onbatt, Head, 0) && BothArmed(s)
  {
    Here(START);
    s := Departs(START, START);
    s := Enters(START, s);
    s := StartsEvent(START, s);
    s := ChecksCharge(START, s);
    s := ChecksTime(START, s);
    s := SeesLow(START, s);
    s := StartsShutdown(START, s);
    s := BackAtHead(START, s);
    s := Clears(START, s);
    s := Hears(START, s);
    s := Checks(START, s);
    s := Heard(START, s);
    s := Returns(START, s);
  }

  // ---- ONBATTERY twice in one outage, and a start that is lost ----

  lemma StartReachable(t: Sys, quiet: bool)
    requires CanReach(START, t, quiet)
    ensures Inv(t)
  {
    InitInv(CFG, T0, LOW);
    CanReachKeepsInv(START, t, quiet);
  }

  const FLICKERED: map<Ci, int> := map[Discharging := 1, BattLow := 0]

  /** The mains comes back and fails again before the machine looks. */
  lemma MainsFlickers() returns (u: Sys)
    ensures CanReach(START, u, false) && BothArmed(u)
    ensures At(u, T0, FLICKERED, [Datum(Discharging, 0), Datum(Discharging, 1)], Onbatt, Head, 0)
  {
    var s := UntilCleared();
    u := Go(START, s, false, [Other(Update(Discharging, 0)), Other(Update(Discharging, 1))]);
  }

  lemma Loosen(s: Sys, t: Sys)
    requires CanReach(s, t, true)
    ensures CanReach(s, t, false)
  {
  }

  /** And only then does the ONBATTERY timer of the first outage fire. */
  lemma FiresLate() returns (t: Sys)
    ensures CanReach(START, t, false) && Inv(t)
    ensures t.cfg == CFG && t.db == FLICKERED && t.state.Onbatt? && t.pc.Head? && t.depth == 0
    ensures t.queue == [Datum(Discharging, 0), Datum(Discharging, 1), ONBATTERY_DUE] && Calm(t) && EventOver(t)
  {
    var u := MainsFlickers();
    Here(u);
    t := FireChecking(u, u, OnbattEvent);
    Loosen(u, t);
    Onward(START, u, t, false);
    StartReachable(t, false);
    forall id ensures !t.timers(id).thread.Waiting? && !t.timers(id).thread.Calling? { CalmTimer(u, t, id); }
  }

  /** The timer of ONBATTERY has fired; its thread has yet to find that out. */
  predicate EventOver(t: Sys) {
    var e := t.timers(OnbattEvent);
    !e.started && !e.joining && e.thread.Checking?
  }

  lemma CalmTimer(u: Sys, t: Sys, id: TimerId)
    requires BothArmed(u) && (forall x: TimerId :: !x.OnbattEvent? ==> t.timers(x) == u.timers(x)) && EventOver(t)
    ensures !t.timers(id).thread.Waiting? && !t.timers(id).thread.Calling?
  {
  }

  /** The machine ends the first outage, finds the battery discharging, and begins the second, with the old
      timeout still in the queue. */
  lemma BeginsAgain() returns (t: Sys)
    ensures CanReach(START, t, false) && Inv(t) && t.pc.EnterOnbatt? && t.cfg == CFG
    ensures t.queue == [Datum(Discharging, 1), ONBATTERY_DUE] && EventOver(t)
  {
    var s := FiresLate();
    var u := EndsFirst(s);
    StartReachable(u, false);
    var v := CompletesExit(START, u, Idle, OnbattEvent, false);
    t := GoesOn(v);
  }

  lemma EndsFirst(s: Sys) returns (t: Sys)
    requires CanReach(START, s, false) && Inv(s)
    requires s.cfg == CFG && s.db == FLICKERED && s.state.Onbatt? && s.pc.Head? && s.depth == 0
    requires s.queue == [Datum(Discharging, 0), Datum(Discharging, 1), ONBATTERY_DUE] && Calm(s) && EventOver(s)
    ensures CanReach(START, t, false)
    ensures t.cfg == CFG && t.db == FLICKERED && t.state.Onbatt? && t.pc == Depart(Idle)
    ensures t.queue == [Datum(Discharging, 1), ONBATTERY_DUE] && Calm(t) && EventOver(t)
  {
    var u := TakesFirst(s);
    t := Go(START, u, false, [C]);
  }

  lemma TakesFirst(s: Sys) returns (t: Sys)
    requires CanReach(START, s, false)
    requires s.cfg == CFG && s.db == FLICKERED && s.state.Onbatt? && s.pc.Head? && s.depth == 0
    requires s.queue == [Datum(Discharging, 0), Datum(Discharging, 1), ONBATTERY_DUE] && Calm(s) && EventOver(s)
    ensures CanReach(START, t, false)
    ensures t.cfg == CFG && t.db == FLICKERED && t.state.Onbatt? && t.pc.LeaveOutage?
    ensures t.queue == [Datum(Discharging, 1), ONBATTERY_DUE] && Calm(t) && EventOver(t)
  {
    t := Go(START, s, false, [C, C]);
  }

  lemma GoesOn(s: Sys) returns (t: Sys)
    requires CanReach(START, s, false)
    requires s.cfg == CFG && s.db == FLICKERED && s.state.Onbatt? && s.pc == Switch(Idle)
    requires s.queue == [Datum(Discharging, 1), ONBATTERY_DUE] && EventOver(s)
    ensures CanReach(START, t, false) && Inv(t) && t.pc.EnterOnbatt? && t.cfg == CFG
    ensures t.queue == [Datum(Discharging, 1), ONBATTERY_DUE] && EventOver(t)
  {
    var u := LooksInIdle(s);
    t := Go(START, u, false, [C, C]);
    StartReachable(t, false);
  }

  lemma LooksInIdle(s: Sys) returns (t: Sys)
    requires CanReach(START, s, false)
    requires s.cfg == CFG && s.db == FLICKERED && s.state.Onbatt? && s.pc == Switch(Idle)
    requires s.queue == [Datum(Discharging, 1), ONBATTERY_DUE] && EventOver(s)
    ensures CanReach(START, t, false) && t.cfg == CFG && t.state.Idle? && t.pc == Depart(Onbatt)
    ensures t.queue == [Datum(Discharging, 1), ONBATTERY_DUE] && EventOver(t)
  {
    t := Go(START, s, false, [C, C]);
  }

  /** A run with one POWEROUT at its end's outage and two ONBATTERYs in it. */
  lemma TwoOnbatteriesInOneOutage() returns (s: Sys, run: seq<Action>)
    ensures CanReach(START, s, false) && s.pc.EnterOnbatt? && Outs(s, run) <= 1 && Ons(s, run) >= 2
  {
    s := BeginsAgain();
    OneStale();
    TwoOnbatteriesExactly(s);
    run :| Outs(s, run) <= 1 && Ons(s, run) >= 2;
  }

  lemma OneStale()
    ensures var q := [Datum(Discharging, 1), ONBATTERY_DUE]; Onbatteries(q) == 1 && NoneLeaving(q)
  {
    var q := [Datum(Discharging, 1), ONBATTERY_DUE];
    assert q[1..] == [ONBATTERY_DUE] && [ONBATTERY_DUE][1..] == [];
    assert Onbatteries([ONBATTERY_DUE]) == 1;
  }

  /** Its old thread has left its loop but not ended when the new outage starts the timer again: although a
      thread could be made, ONBATTERY's timer is lost. */
  lemma StartIsLost() returns (s: Sys)
    ensures CanReach(START, s, false) && s.state.Onbatt? && Timers.Lost(s.timers(OnbattEvent))
  {
    var t := BeginsAgain();
    s := Go(START, t, false, [T(OnbattEvent, Timers.Woken), C, C]);
  }

  // ---- CUMONBATT ----

  /** The mains comes back after the machine has shut down: nobody closes the outage, and the report loses the
      time since it began. */
  lemma CumOnBattWrong() returns (s: Sys)
    ensures CanReach(START, s, false)
    ensures var m := MeterOf(s.books.log);
            && m.InOutage? && !Truth(s.db, Discharging)
            && CumOnBatt(s) != m.total + (Sec(s.now) - m.since)
  {
    var u, t := ClearedConditionStillShutsDown();
    Loosen(u, t);
    Onward(START, u, t, false);
    var d := if Sec(t.now) == t.books.lastOnbattTime then 1_000_000 else 0;
    s := MainsReturns(t, d);
    StartReachable(s, false);
    OutageOpen(s);
    var run :| Run(START, run) == s;
    CumOnBattExactly(CFG, T0, LOW, run);
  }

  lemma MainsReturns(t: Sys, d: nat) returns (s: Sys)
    requires CanReach(START, t, false)
    ensures CanReach(START, s, false) && s.state == t.state && s.pc == t.pc && s.books == t.books
    ensures s.now == t.now + d && !Truth(s.db, Discharging)
  {
    s := Go(START, t, false, [Other(Update(Discharging, 0)), Other(Tick(d))]);
  }

  lemma OutageOpen(s: Sys)
    requires Inv(s) && s.pc.Return? && s.state.Shut()
    ensures MeterOf(s.books.log).InOutage? && MeterOf(s.books.log).since == s.books.lastOnbattTime
  {
  }
}
