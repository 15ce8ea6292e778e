/** Getting from one state to another by some run. */
module MachineReach {
  import opened Machine
  import opened MachineProofs
  import opened MachineTheorems
  import Timers

  predicate NoUpdate(run: seq<Action>) { forall i :: 0 <= i < |run| ==> !(run[i].Other? && run[i].env.Update?) }

  /** Some run leads from `s` to `t`; a quiet one has no driver update. */
  ghost predicate CanReach(s: Sys, t: Sys, quiet: bool) {
    exists run :: Run(s, run) == t && (quiet ==> NoUpdate(run))
  }

  lemma Here(s: Sys)
    ensures CanReach(s, s, true) && CanReach(s, s, false)
  {
    assert Run(s, []) == s;
  }

  lemma Step(s: Sys, t: Sys, quiet: bool, a: Action)
    requires CanReach(s, t, quiet) && (quiet ==> !(a.Other? && a.env.Update?))
    ensures CanReach(s, Next(t, a), quiet)
  {
    var run :| Run(s, run) == t && (quiet ==> NoUpdate(run));
    assert (run + [a])[..|run|] == run;
    assert Run(s, run + [a]) == Next(t, a);
  }

  lemma Go(s: Sys, t: Sys, quiet: bool, actions: seq<Action>) returns (t': Sys)
    requires CanReach(s, t, quiet) && (quiet ==> NoUpdate(actions)) && 0 < |actions| <= 4
    ensures CanReach(s, t', quiet)
    ensures var t1 := Next(t, actions[0]);
            if |actions| == 1 then t' == t1
            else
              var t2 := Next(t1, actions[1]);
              if |actions| == 2 then t' == t2
              else
                var t3 := Next(t2, actions[2]);
                if |actions| == 3 then t' == t3 else t' == Next(t3, actions[3])
  {
    t' := t;
    var i := 0;
    Step(s, t', quiet, actions[0]);
    t' := Next(t', actions[0]);
    if |actions| > 1 {
      Step(s, t', quiet, actions[1]);
      t' := Next(t', actions[1]);
    }
    if |actions| > 2 {
      Step(s, t', quiet, actions[2]);
      t' := Next(t', actions[2]);
    }
    if |actions| > 3 {
      Step(s, t', quiet, actions[3]);
      t' := Next(t', actions[3]);
    }
  }

  lemma Onward(s: Sys, t: Sys, u: Sys, quiet: bool)
    requires CanReach(s, t, quiet) && CanReach(t, u, quiet)
    ensures CanReach(s, u, quiet)
  {
    var r1 :| Run(s, r1) == t && (quiet ==> NoUpdate(r1));
    var r2 :| Run(t, r2) == u && (quiet ==> NoUpdate(r2));
    RunConcat(s, r1, r2);
    assert Run(s, r1 + r2) == u;
  }

  lemma {:induction false} RunConcat(s: Sys, r1: seq<Action>, r2: seq<Action>)
    ensures Run(s, r1 + r2) == Run(Run(s, r1), r2)
    decreases |r2|
  {
    if r2 == [] {
      assert r1 + r2 == r1;
    } else {
      assert (r1 + r2)[..|r1 + r2| - 1] == r1 + r2[..|r2| - 1];
      RunConcat(s, r1, r2[..|r2| - 1]);
    }
  }

  lemma CanReachKeepsInv(s: Sys, t: Sys, quiet: bool)
    requires Inv(s) && CanReach(s, t, quiet)
    ensures Inv(t)
  {
    var run :| Run(s, run) == t && (quiet ==> NoUpdate(run));
    RunKeepsInv(s, run);
  }

  // ---- inside an outage ----

  /** Events that end the stay in ONBATT (or the machine). */
  predicate Leaving(e: Event) {
    match e
    case Quit => true
    case Datum(ci, v) => ci.Discharging? && v == 0
    case Timeout(id) => Trigger(id)
  }

  predicate NoneLeaving(q: seq<Event>) { forall i :: 0 <= i < |q| ==> !Leaving(q[i]) }

  const ONBATTERY_DUE := Timeout(OnbattEvent)

  /** How many ONBATTERYs the events post before one of them ends the stay. */
  function Onbatteries(q: seq<Event>): nat {
    if q == [] || Leaving(q[0]) then 0 else (if q[0] == ONBATTERY_DUE then 1 else 0) + Onbatteries(q[1..])
  }

  lemma CountAppend(log: seq<Posted>, p: Posted, cmd: Cmd)
    ensures Count(log + [p], cmd) == Count(log, cmd) + if p.cmd == cmd then 1 else 0
  {
    assert (log + [p])[..|log|] == log;
  }

  predicate Working(pc: Pc) { pc.EnterOnbatt? || pc.Check? || pc.StartTimer? || pc.Return? }

  /** ONBATT's timer of ONBATTERY is about to be started. */
  predicate ToStart(pc: Pc) { pc.EnterOnbatt? || (pc.StartTimer? && pc.id.OnbattEvent?) }

  /** The timer of ONBATTERY when the handler is done. */
  function EventTimer(t: Sys): Timers.Timer {
    if ToStart(t.pc) then Timers.Start(t.timers(OnbattEvent), t.now, Period(t.cfg, OnbattEvent), true)
    else t.timers(OnbattEvent)
  }

  /** What the consumer leaves alone on its way to the head of the loop. */
  predicate SameOutage(t: Sys, u: Sys) {
    && u.cfg == t.cfg && u.now == t.now && u.db == t.db && u.queue == t.queue && u.state == t.state
    && Count(u.books.log, OnBattery) == Count(t.books.log, OnBattery)
    && Count(u.books.log, PowerOut) == Count(t.books.log, PowerOut) + (if t.pc.EnterOnbatt? then 1 else 0)
    && u.timers(OnbattEvent) == EventTimer(t)
  }

  lemma WorkingStep(t: Sys)
    requires Ctl(t) && t.state.Onbatt? && Working(t.pc)
    ensures var u := Consumer(t, true);
            Ctl(u) && (Working(u.pc) || u.pc.Head?) && u.state.Onbatt? && EventTimer(u) == EventTimer(t)
    ensures var u := Consumer(t, true);
            && u.cfg == t.cfg && u.now == t.now && u.db == t.db && u.queue == t.queue
            && u.books.log == (if t.pc.EnterOnbatt? then t.books.log + [Posted(PowerOut, Sec(t.now))] else t.books.log)
            && !u.pc.EnterOnbatt?
  {
  }

  /** From ONBATT's OnEnter, or from the handling of an event that ends nothing, the consumer reaches the
      head of the loop, still in ONBATT, by its own steps. */
  lemma {:induction false} WorksToHead(s: Sys, t: Sys) returns (u: Sys)
    requires CanReach(s, t, true) && Ctl(t) && t.state.Onbatt? && (Working(t.pc) || t.pc.Head?)
    ensures CanReach(s, u, true) && u.pc.Head? && Ctl(u) && SameOutage(t, u)
    decreases Rank(t.pc) + t.depth
  {
    if t.pc.Head? {
      u := t;
    } else {
      var v := Consumer(t, true);
      Step(s, t, true, Consume(true));
      WorkingStep(t);
      HandlerNearsEnd(t, Consume(true));
      u := WorksToHead(s, v);
      CountAppend(t.books.log, Posted(PowerOut, Sec(t.now)), PowerOut);
      CountAppend(t.books.log, Posted(PowerOut, Sec(t.now)), OnBattery);
    }
  }

  /** An event that ends nothing is taken from the queue and handled. */
  lemma HandlesEvent(s: Sys, t: Sys) returns (u: Sys)
    requires CanReach(s, t, true) && Ctl(t) && t.state.Onbatt? && t.pc.Head?
    requires t.queue != [] && !Leaving(t.queue[0])
    ensures CanReach(s, u, true) && u.pc.Head? && u.state.Onbatt? && Ctl(u)
    ensures u.cfg == t.cfg && u.now == t.now && u.db == t.db && u.queue == t.queue[1..]
    ensures u.timers(OnbattEvent) == t.timers(OnbattEvent)
    ensures Count(u.books.log, PowerOut) == Count(t.books.log, PowerOut)
    ensures Count(u.books.log, OnBattery)
            == Count(t.books.log, OnBattery) + (if t.queue[0] == ONBATTERY_DUE then 1 else 0)
  {
    var v := t.(pc := Handling(t.queue[0]), queue := t.queue[1..]);
    var w := Consumer(v, true);
    TwoSteps(s, t, v, w);
    BeginsEvent(v, t.queue[0]);
    u := WorksToHead(s, w);
  }

  lemma TwoSteps(s: Sys, t: Sys, v: Sys, w: Sys)
    requires CanReach(s, t, true) && Ctl(t) && t.pc.Head? && t.queue != []
    requires v == t.(pc := Handling(t.queue[0]), queue := t.queue[1..]) && w == Consumer(v, true)
    ensures CanReach(s, w, true) && Ctl(w)
  {
    Step(s, t, true, Consume(true));
    Step(s, v, true, Consume(true));
    CtlHandlers(v);
  }

  /** What the machine posts at once for an event, and that it then works on inside the outage. */
  lemma BeginsEvent(v: Sys, e: Event)
    requires v.pc == Handling(e) && v.state.Onbatt? && !Leaving(e)
    ensures var w := Consumer(v, true);
            && (w.pc.Check? || w.pc.Return?) && w.state.Onbatt?
            && w.cfg == v.cfg && w.now == v.now && w.db == v.db && w.queue == v.queue && w.timers == v.timers
            && Count(w.books.log, PowerOut) == Count(v.books.log, PowerOut)
            && Count(w.books.log, OnBattery)
               == Count(v.books.log, OnBattery) + (if e == ONBATTERY_DUE then 1 else 0)
  {
    var at := Sec(v.now);
    match e
    case Datum(ci, x) =>
      var p := Posted(if x != 0 then BattAttach else BattDetach, at);
      CountAppend(v.books.log, p, PowerOut);
      CountAppend(v.books.log, p, OnBattery);
    case Timeout(id) =>
      CountAppend(v.books.log, Posted(OnBattery, at), PowerOut);
      CountAppend(v.books.log, Posted(OnBattery, at), OnBattery);
  }

  /** Handling an event that ends nothing moves its ONBATTERY, if it posts one, from the queue to the log. */
  lemma {:induction false} HandlesFirst(s: Sys, t: Sys, n: nat) returns (u: Sys)
    requires CanReach(s, t, true) && Ctl(t) && t.state.Onbatt? && t.pc.Head?
    requires n <= |t.queue| && NoneLeaving(t.queue[..n])
    ensures CanReach(s, u, true) && Ctl(u) && u.state.Onbatt? && u.pc.Head?
    ensures u.cfg == t.cfg && u.now == t.now && u.db == t.db && u.queue == t.queue[n..]
    ensures Count(u.books.log, PowerOut) == Count(t.books.log, PowerOut)
    ensures Count(u.books.log, OnBattery) + Onbatteries(u.queue) == Count(t.books.log, OnBattery) + Onbatteries(t.queue)
    decreases n
  {
    if n == 0 {
      u := t;
    } else {
      assert t.queue[..n][0] == t.queue[0];
      var v := HandlesEvent(s, t);
      assert forall i :: 0 <= i < n - 1 ==> v.queue[i] == t.queue[..n][i + 1];
      u := HandlesFirst(s, v, n - 1);
    }
  }

  /** How many events come before the first one that ends the stay. */
  function FirstLeaving(q: seq<Event>): (n: nat)
    ensures n <= |q| && NoneLeaving(q[..n]) && (n < |q| ==> Leaving(q[n]))
  {
    if q == [] || Leaving(q[0]) then 0
    else
      var n := FirstLeaving(q[1..]);
      assert q[..n + 1] == [q[0]] + q[1..][..n];
      n + 1
  }

  // ---- firing a timer ----

  /** Timer `id` has fired, some time later; `posted` has come to the queue, and nothing else is different. */
  predicate Fired(t: Sys, u: Sys, id: TimerId, posted: seq<Event>) {
    && u.cfg == t.cfg && u.db == t.db && u.state == t.state && u.books == t.books && u.hist == t.hist
    && u.pc == t.pc && u.depth == t.depth && t.now <= u.now && u.queue == t.queue + posted
    && forall x :: x != id ==> u.timers(x) == t.timers(x)
  }

  lemma FireWaiting(s: Sys, t: Sys, id: TimerId) returns (u: Sys)
    requires CanReach(s, t, true) && t.timers(id).started && t.timers(id).thread.Waiting?
    ensures CanReach(s, u, true) && Fired(t, u, id, [Timeout(id)])
    ensures !u.timers(id).started && u.timers(id).joining == t.timers(id).joining && u.timers(id).thread.Checking?
  {
    var until := t.timers(id).thread.until;
    var d: nat := if t.now < until then until - t.now else 0;
    u := Go(s, t, true, [Other(Tick(d)), Other(Thread(id, Timers.TimedOut)), Other(Thread(id, Timers.Woken))]);
  }

  lemma FireChecking(s: Sys, t: Sys, id: TimerId) returns (u: Sys)
    requires CanReach(s, t, true) && t.timers(id).started && t.timers(id).thread.Checking? && t.timers(id).launches != []
    ensures CanReach(s, u, true) && Fired(t, u, id, [Timeout(id)])
    ensures !u.timers(id).started && u.timers(id).joining == t.timers(id).joining && u.timers(id).thread.Checking?
  {
    var v := Go(s, t, true, [Other(Thread(id, Timers.Woken))]);
    u := FireWaiting(s, v, id);
  }

  /** A started timer that is not lost can fire now, behind an earlier firing that is just under way. */
  lemma FireTimer(s: Sys, t: Sys, id: TimerId) returns (u: Sys, posted: seq<Event>)
    requires CanReach(s, t, true) && Timers.Inv(t.timers(id), t.now)
    requires t.timers(id).started && !Timers.Lost(t.timers(id))
    ensures CanReach(s, u, true) && Fired(t, u, id, posted)
    ensures posted == [Timeout(id)] || posted == [Timeout(id), Timeout(id)]
  {
    match t.timers(id).thread
    case Waiting(_, _) =>
      u := FireWaiting(s, t, id);
      posted := [Timeout(id)];
    case Checking =>
      u := FireChecking(s, t, id);
      posted := [Timeout(id)];
    case Calling(_) =>
      var v := Go(s, t, true, [Other(Thread(id, Timers.Woken))]);
      u := FireChecking(s, v, id);
      posted := [Timeout(id), Timeout(id)];
      assert t.queue + [Timeout(id)] + [Timeout(id)] == t.queue + posted;
  }

  // ---- leaving ONBATT ----

  /** No timer thread waits or is about to post. */
  predicate Calm(t: Sys) { forall id :: !t.timers(id).thread.Waiting? && !t.timers(id).thread.Calling? }

  /** What the way out of ONBATT leaves alone: the timer `x`, if it is not started, and, when all is calm,
      the queue. */
  predicate SameExit(t: Sys, u: Sys, x: TimerId) {
    && u.cfg == t.cfg && u.now == t.now && u.db == t.db && u.state == t.state && u.books.log == t.books.log
    && (!t.timers(x).started && !t.timers(x).joining ==> u.timers(x) == t.timers(x))
    && (Calm(t) ==> Calm(u) && u.queue == t.queue)
  }

  /** A consumer that has set out from ONBATT completes its OnExit, by its own steps and those of the threads
      it waits for. */
  lemma {:induction false} CompletesExit(s: Sys, t: Sys, to: StateId, x: TimerId, quiet: bool) returns (u: Sys)
    requires CanReach(s, t, quiet) && Inv(t) && t.state.Onbatt? && HeadingTo(t.pc, to)
    ensures CanReach(s, u, quiet) && Inv(u) && u.pc == Switch(to) && SameExit(t, u, x)
    decreases Rank(t.pc) + t.depth, if t.pc.JoinTimer? then Timers.ThreadRank(t.timers(t.pc.id).thread) else 0
  {
    if t.pc.Switch? {
      u := t;
    } else if Blocked(t) {
      var e := Thread(t.pc.id, Timers.Woken);
      Step(s, t, quiet, Other(e));
      OthersKeepInv(t, e);
      BlockedStep(t, x);
      u := CompletesExit(s, Environment(t, e), to, x, quiet);
    } else {
      Step(s, t, quiet, Consume(true));
      StepKeepsInv(t, Consume(true));
      HandlerNearsEnd(t, Consume(true));
      ExitStep(t, to, x);
      u := CompletesExit(s, Consumer(t, true), to, x, quiet);
    }
  }

  lemma BlockedStep(t: Sys, x: TimerId)
    requires Inv(t) && Blocked(t)
    ensures var u := Environment(t, Thread(t.pc.id, Timers.Woken));
            && SameExit(t, u, x) && u.pc == t.pc && u.depth == t.depth
            && Timers.ThreadRank(u.timers(t.pc.id).thread) < Timers.ThreadRank(t.timers(t.pc.id).thread)
  {
    assert Owned(t, t.pc.id) && Timers.Inv(t.timers(t.pc.id), t.now);
    Timers.StoppedThreadEnds(t.timers(t.pc.id), t.now, Timers.Woken);
  }

  lemma ExitStep(t: Sys, to: StateId, x: TimerId)
    requires Inv(t) && t.state.Onbatt? && HeadingTo(t.pc, to) && !t.pc.Switch? && !Blocked(t)
    ensures SameExit(t, Consumer(t, true), x) && HeadingTo(Consumer(t, true).pc, to)
  {
    if !t.pc.Depart? { StopStep(t, to, x); }
  }

  lemma StopStep(t: Sys, to: StateId, x: TimerId)
    requires Inv(t) && t.state.Onbatt? && !Blocked(t) && HeadingTo(t.pc, to) && (t.pc.StopTimer? || t.pc.JoinTimer?)
    ensures SameExit(t, StopCalls(t), x) && HeadingTo(StopCalls(t).pc, to)
  {
    assert Owned(t, x);
  }
}
