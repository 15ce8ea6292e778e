/** What the machine does in ONBATT with a reading that may call for a shutdown. */
module MachineChecks {
  import opened Machine
  import opened MachineProofs
  import Timers

  /** `n` steps of the consumer alone. */
  function Own(n: nat): seq<Action> { seq(n, _ => Consume(true)) }

  lemma OwnStep(s: Sys, n: nat)
    ensures Run(s, Own(n + 1)) == Consumer(Run(s, Own(n)), true)
  {
    assert Own(n + 1)[..n] == Own(n);
  }

  /** The consumer has got from `s` to `t` in `n` steps of its own. */
  ghost predicate Came(s: Sys, n: nat, t: Sys) { Run(s, Own(n)) == t }

  /** Started five seconds before its deadline, unless it was started already. */
  predicate Debouncing(was: Timers.Timer, t: Timers.Timer, now: int) {
    if was.started then t == was
    else t.started && t.abstime == now + 5_000_000 && t.launches == was.launches + [Timers.Launch(now, now + 5_000_000)]
  }

  /** Only the consumer's place, its notes and the timer `id` may differ. */
  predicate SameBut(s: Sys, t: Sys, id: TimerId) {
    && t.cfg == s.cfg && t.now == s.now && t.db == s.db && t.queue == s.queue && t.state == s.state
    && t.books == s.books && t.depth == s.depth && forall x :: x != id ==> t.timers(x) == s.timers(x)
  }

  /** The timer is started if the database is at its limit, and left alone if not. */
  predicate Judged(t: Sys, u: Sys, id: TimerId) {
    if Due(t.cfg, t.db, id) then Debouncing(t.timers(id), u.timers(id), t.now) else u.timers(id) == t.timers(id)
  }

  /** One of the three checks: its timer is started if the database says so, and left alone if not. */
  lemma ChecksOne(s: Sys, n: nat, t: Sys, id: TimerId) returns (m: nat, u: Sys)
    requires Came(s, n, t) && t.pc == Check(id, false) && Watched(id)
    ensures Came(s, m, u) && u.pc == AfterCheck(id, false) && SameBut(t, u, id) && Judged(t, u, id)
  {
    DueIsMet(t.cfg, t.db, id);
    OwnStep(s, n);
    m, u := n + 1, Consumer(t, true);
    if Due(t.cfg, t.db, id) {
      OwnStep(s, n + 1);
      m := n + 2;
      u := StartsIt(u, id);
    }
  }

  lemma StartsIt(t: Sys, id: TimerId) returns (u: Sys)
    requires t.pc == StartTimer(id, false) && Watched(id)
    ensures u == Consumer(t, true) && u.pc == AfterCheck(id, false) && SameBut(t, u, id)
    ensures Debouncing(t.timers(id), u.timers(id), t.now)
  {
    u := Consumer(t, true);
  }

  /** The event is taken from the queue and sent to CheckShutdown. */
  lemma TakesReading(s: Sys, ci: Ci, v: int) returns (t: Sys)
    requires Ctl(s) && s.pc.Head? && s.state.Onbatt? && s.queue != [] && s.queue[0] == Datum(ci, v)
    requires ci.BattLevel? || ci.RunTime? || ci.BattLow?
    ensures Came(s, 2, t) && t == s.(pc := Check(LoadLimit, false), queue := s.queue[1..])
  {
    assert Run(s, Own(0)) == s;
    OwnStep(s, 0);
    OwnStep(s, 1);
    t := Consumer(Consumer(s, true), true);
  }

  predicate SameButThree(s: Sys, t: Sys) {
    && t.cfg == s.cfg && t.now == s.now && t.db == s.db && t.queue == s.queue && t.state == s.state
    && t.books == s.books && t.depth == s.depth && forall x :: !Watched(x) ==> t.timers(x) == s.timers(x)
  }

  lemma ChecksThree(s: Sys, n: nat, t: Sys) returns (m: nat, u: Sys)
    requires Came(s, n, t) && t.pc == Check(LoadLimit, false)
    ensures Came(s, m, u) && u.pc.Return? && SameButThree(t, u)
    ensures Judged(t, u, LoadLimit) && Judged(t, u, RunLimit) && Judged(t, u, LowBattery)
  {
    var a, b;
    m, a := ChecksOne(s, n, t, LoadLimit);
    m, b := ChecksOne(s, m, a, RunLimit);
    m, u := ChecksOne(s, m, b, LowBattery);
    assert Judged(t, u, LoadLimit);
    assert Judged(t, u, RunLimit);
  }

  lemma HandlesReading(s: Sys, ci: Ci, v: int) returns (n: nat, t: Sys)
    requires Ctl(s) && s.pc.Head? && s.state.Onbatt? && s.queue != [] && s.queue[0] == Datum(ci, v)
    requires ci.BattLevel? || ci.RunTime? || ci.BattLow?
    ensures Came(s, n, t) && t.pc.Head? && SameButThree(s.(queue := s.queue[1..]), t)
    ensures Judged(s, t, LoadLimit) && Judged(s, t, RunLimit) && Judged(s, t, LowBattery)
  {
    var a := TakesReading(s, ci, v);
    var b;
    n, b := ChecksThree(s, 2, a);
    t := Returns(s, n, b);
    n := n + 1;
    SameJudgement(s, a, b, t);
  }

  lemma Returns(s: Sys, n: nat, b: Sys) returns (t: Sys)
    requires Came(s, n, b) && b.pc.Return? && b.depth == 0
    ensures Came(s, n + 1, t) && t == b.(pc := Head)
  {
    OwnStep(s, n);
    t := Consumer(b, true);
  }

  /** Neither end of the way touches the timers. */
  lemma SameJudgement(s: Sys, a: Sys, b: Sys, t: Sys)
    requires a == s.(pc := Check(LoadLimit, false), queue := a.queue) && t == b.(pc := Head)
    requires SameButThree(a, b) && Judged(a, b, LoadLimit) && Judged(a, b, RunLimit) && Judged(a, b, LowBattery)
    ensures SameButThree(s.(queue := a.queue), t)
    ensures Judged(s, t, LoadLimit) && Judged(s, t, RunLimit) && Judged(s, t, LowBattery)
  {
  }

  /** A charge, run time or low-battery datum handled in ONBATT: by its own steps the consumer comes back to
      the head of the loop, and by then the timer of each limit that the database is at has been started, with
      five seconds to go, and every other timer is as it was. */
  lemma DueTimersStart(s: Sys, ci: Ci, v: int) returns (n: nat, t: Sys)
    requires Ctl(s) && s.pc.Head? && s.state.Onbatt? && s.queue != [] && s.queue[0] == Datum(ci, v)
    requires ci.BattLevel? || ci.RunTime? || ci.BattLow?
    ensures Came(s, n, t) && t.pc.Head? && t.state.Onbatt? && t.books == s.books
    ensures t.queue == s.queue[1..] && t.db == s.db && t.now == s.now
    ensures if BattLevel in s.db && s.db[BattLevel] <= 10 * s.cfg.percent + (if s.cfg.percent >= 0 then 9 else 0)
            then Debouncing(s.timers(LoadLimit), t.timers(LoadLimit), s.now)
            else t.timers(LoadLimit) == s.timers(LoadLimit)
    ensures if RunTime in s.db && s.db[RunTime] <= 60 * s.cfg.runtime + (if s.cfg.runtime >= 0 then 59 else 0)
            then Debouncing(s.timers(RunLimit), t.timers(RunLimit), s.now)
            else t.timers(RunLimit) == s.timers(RunLimit)
    ensures if BattLow in s.db && s.db[BattLow] != 0
            then Debouncing(s.timers(LowBattery), t.timers(LowBattery), s.now)
            else t.timers(LowBattery) == s.timers(LowBattery)
    ensures forall id :: !Watched(id) ==> t.timers(id) == s.timers(id)
  {
    n, t := HandlesReading(s, ci, v);
  }
}
