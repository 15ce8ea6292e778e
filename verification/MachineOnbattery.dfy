/** How often ONBATTERY is posted in one outage, and which shutdowns can come.

    A timeout that was queued in an earlier visit to ONBATT still counts in a later one, because the ids of
    timeouts tell states apart but not visits.  So ONBATTERY can be posted more than once in an outage. */
module MachineOnbattery {
  import opened Machine
  import opened MachineProofs
  import opened MachineTheorems
  import opened MachineReach
  import Timers

  // ---- what is still to come ----

  function Calling(t: Sys): seq<Event> {
    if t.timers(OnbattEvent).thread.Calling? then [ONBATTERY_DUE] else []
  }

  function ToCome(t: Sys): seq<Event> {
    if ToStart(t.pc) || t.timers(OnbattEvent).started then [ONBATTERY_DUE] else []
  }

  function InHand(t: Sys): seq<Event> { if t.pc.Handling? then [t.pc.e] else [] }

  /** The events in hand and in the queue, and behind them the timeouts under way and to come. */
  function Future(t: Sys): seq<Event> { InHand(t) + t.queue + (Calling(t) + ToCome(t)) }

  /** The most ONBATTERYs that can be posted in the outage that is about to begin: those the queue posts
      before an event ends the stay, and if none does, those of a call under way and of the timer about to
      be started. */
  function MostOnbatteries(s: Sys): nat { Onbatteries(s.queue + Calling(s) + [ONBATTERY_DUE]) }

  lemma {:induction false} OnbatteriesInsert(a: seq<Event>, e: Event, b: seq<Event>)
    requires e != ONBATTERY_DUE
    ensures Onbatteries(a + [e] + b) <= Onbatteries(a + b)
  {
    if a == [] {
      assert a + [e] + b == [e] + b && a + b == b && ([e] + b)[1..] == b;
    } else {
      assert (a + [e] + b)[1..] == a[1..] + [e] + b && (a + b)[1..] == a[1..] + b;
      OnbatteriesInsert(a[1..], e, b);
    }
  }

  lemma {:induction false} OnbatteriesPrefix(a: seq<Event>, b: seq<Event>)
    ensures Onbatteries(a) <= Onbatteries(a + b)
  {
    if a != [] {
      assert (a + b)[1..] == a[1..] + b;
      OnbatteriesPrefix(a[1..], b);
    }
  }

  // ---- the bound ----

  /** Inside the outage, past its POWEROUT. */
  predicate Inside(t: Sys) {
    t.state.Onbatt? && (t.pc.Head? || t.pc.Handling? || t.pc.Check? || t.pc.StartTimer? || t.pc.Return?)
  }

  /** Other threads do not add to what is to come. */
  lemma FutureOthers(t: Sys, e: Env)
    requires Inv(t) && (Inside(t) || t.pc.EnterOnbatt?)
    ensures Onbatteries(Future(Environment(t, e))) <= Onbatteries(Future(t))
  {
    var u := Environment(t, e);
    var a, b := InHand(t) + t.queue, Calling(t) + ToCome(t);
    match e
    case Update(ci, v) => FutureAppended(t, u, Datum(ci, v));
    case AskQuit => FutureAppended(t, u, Quit);
    case Thread(id, w) =>
      if id.OnbattEvent? { FutureEvent(t, w); } else { FutureAppended(t, u, Timeout(id)); }
    case _ =>
  }

  lemma FutureAppended(t: Sys, u: Sys, e: Event)
    requires e != ONBATTERY_DUE && u.pc == t.pc && u.timers(OnbattEvent) == t.timers(OnbattEvent)
    requires u.queue == t.queue || u.queue == t.queue + [e]
    ensures Onbatteries(Future(u)) <= Onbatteries(Future(t))
  {
    var a, b := InHand(t) + t.queue, Calling(t) + ToCome(t);
    if u.queue == t.queue + [e] {
      assert InHand(t) + (t.queue + [e]) == a + [e];
      OnbatteriesInsert(a, e, b);
    }
  }

  /** The timer's own thread moves its timeouts on, or drops the last one. */
  lemma FutureEvent(t: Sys, w: Timers.Wake)
    requires Inv(t) && (Inside(t) || t.pc.EnterOnbatt?)
    ensures Onbatteries(Future(Environment(t, Thread(OnbattEvent, w)))) <= Onbatteries(Future(t))
  {
    var u := Environment(t, Thread(OnbattEvent, w));
    var th := t.timers(OnbattEvent).thread;
    assert Owned(t, OnbattEvent) && Timers.Inv(t.timers(OnbattEvent), t.now);
    var a := InHand(t) + t.queue;
    if th.Calling? {
      assert InHand(t) + (t.queue + [ONBATTERY_DUE]) + ToCome(t) == a + ([ONBATTERY_DUE] + ToCome(t));
      assert Calling(u) + ToCome(u) == ToCome(t);
    } else if th.Waiting? && !ToStart(t.pc) {
      EventWaiting(t, w);
    } else {
      assert Calling(u) + ToCome(u) == Calling(t) + ToCome(t);
    }
  }

  lemma EventWaiting(t: Sys, w: Timers.Wake)
    requires Inv(t) && Inside(t) && t.timers(OnbattEvent).thread.Waiting? && !ToStart(t.pc)
    ensures Onbatteries(Future(Environment(t, Thread(OnbattEvent, w)))) <= Onbatteries(Future(t))
  {
    var u := Environment(t, Thread(OnbattEvent, w));
    var a := InHand(t) + t.queue;
    var before, after := Calling(t) + ToCome(t), Calling(u) + ToCome(u);
    assert Owned(t, OnbattEvent) && Timers.Inv(t.timers(OnbattEvent), t.now);
    if after != before {
      assert after == [];
      OnbatteriesPrefix(a, before);
      assert a + [] == a;
    }
  }

  /** How much the consumer's step adds to a count of the log. */
  lemma Counts(t: Sys, spawned: bool)
    requires Ctl(t)
    ensures var u := Consumer(t, spawned);
            && Count(u.books.log, PowerOut) == Count(t.books.log, PowerOut) + (if t.pc.EnterOnbatt? then 1 else 0)
            && Count(u.books.log, OnBattery)
               == Count(t.books.log, OnBattery)
                  + (if t.pc == Handling(ONBATTERY_DUE) && t.state.Onbatt? then 1 else 0)
  {
    if t.pc.LeaveOutage? { EndCounts(t.books, Sec(t.now)); }
    else if t.books.log != Consumer(t, spawned).books.log {
      var p := Consumer(t, spawned).books.log[|t.books.log|];
      OnePost(t, spawned);
      CountAppend(t.books.log, p, PowerOut);
      CountAppend(t.books.log, p, OnBattery);
    }
  }

  lemma OnePost(t: Sys, spawned: bool)
    requires Ctl(t) && !t.pc.LeaveOutage? && t.books.log != Consumer(t, spawned).books.log
    ensures var log, log' := t.books.log, Consumer(t, spawned).books.log;
            && |log'| == |log| + 1 && log' == log + [log'[|log|]]
            && (log'[|log|].cmd.PowerOut? <==> t.pc.EnterOnbatt?)
            && (log'[|log|].cmd.OnBattery? <==> t.pc == Handling(ONBATTERY_DUE) && t.state.Onbatt?)
  {
  }

  lemma EndCounts(b: Books, at: int)
    ensures Count(EndOutage(b, at).log, PowerOut) == Count(b.log, PowerOut)
    ensures Count(EndOutage(b, at).log, OnBattery) == Count(b.log, OnBattery)
  {
    var off, main := Posted(OffBattery, at), Posted(MainsBack, at);
    var mid := if b.onbatteryPosted then b.log + [off] else b.log;
    CountAppend(b.log, off, PowerOut);
    CountAppend(b.log, off, OnBattery);
    CountAppend(mid, main, PowerOut);
    CountAppend(mid, main, OnBattery);
  }

  /** Inside the outage the consumer takes from what is to come exactly what it posts. */
  lemma FutureConsumed(t: Sys, spawned: bool)
    requires Inv(t) && (Inside(t) || t.pc.EnterOnbatt?)
    ensures var u := Consumer(t, spawned);
            Inside(u) ==>
              Onbatteries(Future(u)) + (if t.pc == Handling(ONBATTERY_DUE) then 1 else 0) <= Onbatteries(Future(t))
  {
    match t.pc
    case Head => FutureTaken(t, spawned);
    case Handling(e) => FutureHandled(t, spawned);
    case _ => SamePending(t, spawned);
  }

  lemma FutureTaken(t: Sys, spawned: bool)
    requires t.pc.Head?
    ensures Future(Consumer(t, spawned)) == Future(t)
  {
    if t.queue != [] { assert [t.queue[0]] + t.queue[1..] == [] + t.queue; }
  }

  lemma FutureHandled(t: Sys, spawned: bool)
    requires t.pc.Handling? && t.state.Onbatt?
    ensures var u := Consumer(t, spawned);
            Inside(u) ==>
              Onbatteries(Future(u)) + (if t.pc.e == ONBATTERY_DUE then 1 else 0) <= Onbatteries(Future(t))
  {
    var u := Consumer(t, spawned);
    FirstInHand(t);
    FirstEvent(t.pc.e, Behind(t));
    if Inside(u) {
      HandledInside(t, spawned);
      NothingInHand(u);
    }
  }

  function Behind(t: Sys): seq<Event> { t.queue + (Calling(t) + ToCome(t)) }

  lemma FirstInHand(t: Sys)
    requires t.pc.Handling?
    ensures Future(t) == [t.pc.e] + Behind(t)
  {
  }

  lemma NothingInHand(t: Sys)
    requires !t.pc.Handling?
    ensures Future(t) == Behind(t)
  {
    assert [] + t.queue == t.queue;
  }

  lemma FirstEvent(e: Event, later: seq<Event>)
    ensures !Leaving(e) ==>
              Onbatteries([e] + later) == (if e == ONBATTERY_DUE then 1 else 0) + Onbatteries(later)
  {
    assert ([e] + later)[1..] == later;
  }

  lemma HandledInside(t: Sys, spawned: bool)
    requires t.pc.Handling? && t.state.Onbatt? && Inside(Consumer(t, spawned))
    ensures var u := Consumer(t, spawned);
            !Leaving(t.pc.e) && !u.pc.Handling? && Behind(u) == Behind(t)
  {
  }

  lemma SamePending(t: Sys, spawned: bool)
    requires Inv(t) && (Inside(t) || t.pc.EnterOnbatt?) && !t.pc.Head? && !t.pc.Handling?
    ensures var u := Consumer(t, spawned);
            Inside(u) ==> InHand(u) == InHand(t) && u.queue == t.queue && Calling(u) + ToCome(u) == Calling(t) + ToCome(t)
  {
    assert Owned(t, OnbattEvent);
    if t.pc.StartTimer? || t.pc.Check? { PendingInCalls(t, spawned); }
  }

  lemma PendingInCalls(t: Sys, spawned: bool)
    requires Ctl(t) && (t.pc.StartTimer? || t.pc.Check?)
    ensures var u := StartCalls(t, spawned);
            u.queue == t.queue && Calling(u) == Calling(t) && ToCome(u) == ToCome(t) && !u.pc.Handling?
  {
  }

  /** Only ONBATT's OnEnter leads into an outage, and it posts POWEROUT. */
  lemma EnteredByOnEnter(t: Sys, spawned: bool)
    requires Ctl(t) && Inside(Consumer(t, spawned))
    ensures Inside(t) || t.pc.EnterOnbatt?
  {
  }

  /** An outage that began at `s` has posted no more than it can, by `t`. */
  ghost predicate Bounded(s: Sys, t: Sys) {
    var outs := Count(t.books.log, PowerOut) - Count(s.books.log, PowerOut);
    var ons := Count(t.books.log, OnBattery) - Count(s.books.log, OnBattery);
    && 0 <= outs
    && (outs == 0 ==> t.pc.EnterOnbatt? && ons == 0 && Onbatteries(Future(t)) <= MostOnbatteries(s))
    && (outs == 1 ==> ons <= MostOnbatteries(s)
                      && (Inside(t) ==> ons + Onbatteries(Future(t)) <= MostOnbatteries(s)))
  }

  lemma BoundedConsumed(s: Sys, t: Sys, spawned: bool)
    requires Inv(t) && Bounded(s, t)
    ensures Bounded(s, Consumer(t, spawned))
  {
    Counts(t, spawned);
    var u := Consumer(t, spawned);
    if Inside(t) || t.pc.EnterOnbatt? {
      FutureConsumed(t, spawned);
      if t.pc == Handling(ONBATTERY_DUE) { DueStaysInside(t, spawned); }
    } else if Inside(u) {
      EnteredByOnEnter(t, spawned);
    }
  }

  lemma DueStaysInside(t: Sys, spawned: bool)
    requires t.pc == Handling(ONBATTERY_DUE) && t.state.Onbatt?
    ensures Inside(Consumer(t, spawned))
  {
  }

  lemma BoundedOthers(s: Sys, t: Sys, e: Env)
    requires Inv(t) && Bounded(s, t)
    ensures Bounded(s, Environment(t, e))
  {
    if Inside(t) || t.pc.EnterOnbatt? { FutureOthers(t, e); }
  }

  lemma {:induction false} BoundedRun(s: Sys, run: seq<Action>)
    requires Inv(s) && s.pc.EnterOnbatt?
    ensures Bounded(s, Run(s, run))
    decreases |run|
  {
    if run == [] {
      assert Owned(s, OnbattEvent);
      assert Future(s) == s.queue + Calling(s) + [ONBATTERY_DUE];
    } else {
      var before := run[..|run| - 1];
      BoundedRun(s, before);
      RunKeepsInv(s, before);
      match run[|run| - 1]
      case Consume(spawned) => BoundedConsumed(s, Run(s, before), spawned);
      case Other(e) => BoundedOthers(s, Run(s, before), e);
    }
  }

  // ---- and that it is reached ----

  lemma {:induction false} OnbatteriesConcat(a: seq<Event>, b: seq<Event>)
    ensures Onbatteries(a + b) == Onbatteries(a) + if NoneLeaving(a) then Onbatteries(b) else 0
  {
    if a == [] {
      assert a + b == b;
    } else {
      assert (a + b)[1..] == a[1..] + b;
      assert NoneLeaving(a) <==> !Leaving(a[0]) && NoneLeaving(a[1..]) by {
        assert forall i :: 0 <= i < |a| - 1 ==> a[1..][i] == a[i + 1];
        assert forall i :: 0 < i < |a| ==> a[i] == a[1..][i - 1];
      }
      OnbatteriesConcat(a[1..], b);
    }
  }

  /** The timer's old thread gets its last timeout into the queue, and out of the way of a new start. */
  lemma Settles(s: Sys) returns (t: Sys)
    requires Inv(s) && s.pc.EnterOnbatt?
    ensures CanReach(s, t, true) && Ctl(t) && t.pc == s.pc && t.state == s.state && t.depth == s.depth
    ensures t.queue == s.queue + Calling(s) && t.books == s.books
    ensures var e := t.timers(OnbattEvent); !e.started && (e.thread.Off? || e.thread.Checking?)
  {
    assert Owned(s, OnbattEvent) && Timers.Inv(s.timers(OnbattEvent), s.now);
    Here(s);
    if s.timers(OnbattEvent).thread.Calling? || s.timers(OnbattEvent).thread.Ending? {
      t := Go(s, s, true, [Other(Thread(OnbattEvent, Timers.Woken))]);
    } else {
      t := s;
      assert s.queue + [] == s.queue;
    }
  }

  /** Then the outage begins, the new timer fires at once, and the queue is handled as far as it goes. */
  lemma PostsMost(s: Sys) returns (u: Sys)
    requires Inv(s) && s.pc.EnterOnbatt?
    ensures CanReach(s, u, true)
    ensures Count(u.books.log, PowerOut) == Count(s.books.log, PowerOut) + 1
    ensures Count(u.books.log, OnBattery) == Count(s.books.log, OnBattery) + MostOnbatteries(s)
  {
    var t := Settles(s);
    var v := WorksToHead(s, t);
    var w := FireChecking(s, v, OnbattEvent);
    assert w.queue == s.queue + Calling(s) + [ONBATTERY_DUE];
    u := HandlesFirst(s, w, FirstLeaving(w.queue));
    assert Onbatteries(u.queue) == 0;
  }

  function Outs(s: Sys, run: seq<Action>): int {
    Count(Run(s, run).books.log, PowerOut) - Count(s.books.log, PowerOut)
  }

  function Ons(s: Sys, run: seq<Action>): int {
    Count(Run(s, run).books.log, OnBattery) - Count(s.books.log, OnBattery)
  }

  /** The most ONBATTERYs that the outage beginning at `s` can have, over every run up to the next POWEROUT,
      are exactly so many: never more, and in some run just that. */
  lemma MostOnbatteriesExactly(s: Sys)
    requires Inv(s) && s.pc.EnterOnbatt?
    ensures forall run :: Outs(s, run) <= 1 ==> Ons(s, run) <= MostOnbatteries(s)
    ensures exists run :: Outs(s, run) == 1 && Ons(s, run) == MostOnbatteries(s)
  {
    forall run | Outs(s, run) <= 1 ensures Ons(s, run) <= MostOnbatteries(s) { BoundedRun(s, run); }
    var u := PostsMost(s);
    var run :| Run(s, run) == u;
    assert Outs(s, run) == 1 && Ons(s, run) == MostOnbatteries(s);
  }

  /** Timeouts of earlier visits that this visit can handle: two of them, or one, queued or just being
      posted, with the new one behind it. */
  predicate StalePending(s: Sys) {
    || Onbatteries(s.queue) >= 2
    || (NoneLeaving(s.queue) && (Onbatteries(s.queue) >= 1 || s.timers(OnbattEvent).thread.Calling?))
  }

  /** An outage can have two ONBATTERYs exactly if such a timeout is pending when it begins. */
  lemma TwoOnbatteriesExactly(s: Sys)
    requires Inv(s) && s.pc.EnterOnbatt?
    ensures (exists run :: Outs(s, run) <= 1 && Ons(s, run) >= 2) <==> StalePending(s)
  {
    MostOnbatteriesExactly(s);
    var q, c := s.queue, Calling(s);
    assert q + c + [ONBATTERY_DUE] == q + (c + [ONBATTERY_DUE]);
    OnbatteriesConcat(q, c + [ONBATTERY_DUE]);
    OnbatteriesConcat(c, [ONBATTERY_DUE]);
    if StalePending(s) {
      var run :| Outs(s, run) == 1 && Ons(s, run) == MostOnbatteries(s);
      assert Ons(s, run) >= 2;
    }
  }

  // ---- shutdowns that can come ----

  /** At any head of the loop in ONBATT with no event queued that ends the stay, a shutdown timer that is
      started and not lost can bring about its shutdown without any further update. */
  lemma ShutdownCanCome(s: Sys, id: TimerId) returns (u: Sys)
    requires Inv(s) && s.pc.Head? && s.state.Onbatt? && NoneLeaving(s.queue)
    requires Trigger(id) && s.timers(id).started && !Timers.Lost(s.timers(id))
    ensures CanReach(s, u, true) && Leads(id, u.state)
  {
    Here(s);
    assert Timers.Inv(s.timers(id), s.now);
    var t, posted := FireTimer(s, s, id);
    CanReachKeepsInv(s, t, true);
    assert t.queue[..|s.queue|] == s.queue && t.queue[|s.queue|..] == posted;
    var v := HandlesFirst(s, t, |s.queue|);
    CanReachKeepsInv(s, v, true);
    u := TimeoutShutsDown(s, v, id);
  }

  lemma TimeoutShutsDown(s: Sys, v: Sys, id: TimerId) returns (u: Sys)
    requires CanReach(s, v, true) && Inv(v) && v.pc.Head? && v.state.Onbatt? && Trigger(id)
    requires v.queue != [] && v.queue[0] == Timeout(id)
    ensures CanReach(s, u, true) && Leads(id, u.state)
  {
    var x, to := TimeoutTaken(s, v, id);
    var y := CompletesExit(s, x, to, OnbattEvent, true);
    Step(s, y, true, Consume(true));
    u := Consumer(y, true);
  }

  lemma TimeoutTaken(s: Sys, v: Sys, id: TimerId) returns (x: Sys, to: StateId)
    requires CanReach(s, v, true) && Inv(v) && v.pc.Head? && v.state.Onbatt? && Trigger(id)
    requires v.queue != [] && v.queue[0] == Timeout(id)
    ensures CanReach(s, x, true) && Inv(x) && x.state.Onbatt? && x.pc == Depart(to) && Leads(id, to)
  {
    var w := v.(pc := Handling(Timeout(id)), queue := v.queue[1..]);
    x := Consumer(w, true);
    TwoSteps(s, v, w, x);
    StepKeepsInv(v, Consume(true));
    StepKeepsInv(w, Consume(true));
    to := x.pc.to;
  }
}
