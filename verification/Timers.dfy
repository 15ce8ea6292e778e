/** One `atimer`: the controller's calls and the steps of the timer thread.

    All times are in microseconds.  `launches` and `firings` record the history: every effective
    `start` appends a launch, every call of `HandleTimeout` appends a firing that names its launch. */
module Timers {

  datatype Launch = Launch(at: int, deadline: int)
  datatype Firing = Firing(gen: nat, at: int)

  /** Where the timer thread stands; `Off` means `_running` is false. */
  datatype Thread =
    | Off
    | Checking                       // about to test `_started` at the top of the loop
    | Waiting(gen: nat, until: int)  // inside pthread_cond_timedwait
    | Calling(gen: nat)              // mutex released, about to call HandleTimeout
    | Ending                         // body has returned, `_running` is not yet cleared

  /** Why pthread_cond_timedwait returned. */
  datatype Wake = TimedOut | Woken | Failed

  /** `joining` holds while the controller is blocked in the `join` of a `stop`. */
  datatype Timer = Timer(
    started: bool,
    abstime: int,
    joining: bool,
    thread: Thread,
    launches: seq<Launch>,
    firings: seq<Firing>)

  const FRESH := Timer(false, 0, false, Off, [], [])

  /** `atimer::start`; `spawned` says whether pthread_create succeeds, if it is called. */
  function Start(t: Timer, now: int, msec: int, spawned: bool): Timer {
    if t.started then t
    else
      var deadline := now + msec * 1000;
      t.(started := true,
         abstime := deadline,
         thread := if t.thread.Off? && spawned then Checking else t.thread,
         launches := t.launches + [Launch(now, deadline)])
  }

  /** `atimer::stop` up to the call of `join`. */
  function Stop(t: Timer): Timer {
    if t.started then t.(started := false, joining := true) else t
  }

  /** `join` returns once the thread has ended; until then it leaves everything as it is. */
  function Join(t: Timer): Timer {
    if t.thread.Off? then t.(joining := false) else t
  }

  /** One step of the timer thread (`atimer::body` inside `athread::springboard`). */
  function ThreadStep(t: Timer, now: int, w: Wake): Timer {
    match t.thread
    case Off => t
    case Checking =>
      if t.started && |t.launches| > 0
      then t.(thread := Waiting(|t.launches| - 1, t.abstime))
      else t.(thread := Ending)
    case Waiting(gen, until) =>
      (match w
       case TimedOut => if now < until then t else t.(started := false, thread := Calling(gen))
       case Woken => t.(thread := Checking)
       case Failed => t.(started := false, thread := Ending))
    case Calling(gen) => t.(firings := t.firings + [Firing(gen, now)], thread := Checking)
    case Ending => t.(thread := Off)
  }

  /** What every step keeps, for a controller that calls `start` and `stop` one at a time. */
  ghost predicate Inv(t: Timer, now: int) {
    var last := |t.launches| - 1;
    && (t.started ==> 0 <= last && t.abstime == t.launches[last].deadline && !t.joining)
    && (forall i, j :: 0 <= i < j < |t.firings| ==> t.firings[i].gen < t.firings[j].gen)
    && (forall i :: 0 <= i < |t.firings| ==> FiredInTime(t, t.firings[i], now))
    && (t.started ==> forall i :: 0 <= i < |t.firings| ==> t.firings[i].gen < last)
    && (match t.thread
        case Waiting(gen, until) =>
          && gen == last && until == t.launches[last].deadline
          && (t.started || t.joining)
          && (forall i :: 0 <= i < |t.firings| ==> t.firings[i].gen < gen)
        case Calling(gen) =>
          && gen <= last && t.launches[gen].deadline <= now
          && (t.started ==> gen < last)
          && (forall i :: 0 <= i < |t.firings| ==> t.firings[i].gen < gen)
        case _ => true)
  }

  ghost predicate FiredInTime(t: Timer, f: Firing, now: int) {
    f.gen < |t.launches| && t.launches[f.gen].deadline <= f.at <= now
  }

  lemma StartKeepsInv(t: Timer, now: int, msec: int, spawned: bool)
    requires Inv(t, now) && !t.joining
    ensures Inv(Start(t, now, msec, spawned), now)
  {
    var t' := Start(t, now, msec, spawned);
    forall i | 0 <= i < |t'.firings| ensures FiredInTime(t', t'.firings[i], now) {
      assert FiredInTime(t, t.firings[i], now);
    }
  }

  lemma ThreadKeepsInv(t: Timer, now: int, w: Wake)
    requires Inv(t, now)
    ensures Inv(ThreadStep(t, now, w), now)
  {
    var t' := ThreadStep(t, now, w);
    forall i | 0 <= i < |t'.firings| ensures FiredInTime(t', t'.firings[i], now) {
      if i < |t.firings| { assert FiredInTime(t, t.firings[i], now); }
    }
  }

  lemma StopJoinKeepInv(t: Timer, now: int)
    requires Inv(t, now)
    ensures Inv(Stop(t), now) && Inv(Join(t), now)
  {
    forall i | 0 <= i < |t.firings|
      ensures FiredInTime(Stop(t), t.firings[i], now) && FiredInTime(Join(t), t.firings[i], now)
    {
      assert FiredInTime(t, t.firings[i], now);
    }
  }

  lemma TickKeepsInv(t: Timer, now: int, later: int)
    requires Inv(t, now) && now <= later
    ensures Inv(t, later)
  {
    forall i | 0 <= i < |t.firings| ensures FiredInTime(t, t.firings[i], later) {
      assert FiredInTime(t, t.firings[i], now);
    }
  }

  /** A spurious wakeup costs nothing: the thread goes back to wait for the same deadline. */
  lemma SpuriousWakeup(t: Timer, now: int, later: int, w: Wake)
    requires Inv(t, now) && t.started && t.thread.Waiting?
    ensures ThreadStep(ThreadStep(t, now, Woken), later, w) == t
  {
    assert t.thread == Waiting(|t.launches| - 1, t.abstime);
  }

  // ---- every interleaving of one controller, the timer thread and the clock ----

  datatype Action =
    | CallStart(msec: int, spawned: bool)
    | CallStop
    | JoinReturns
    | ThreadRuns(w: Wake)
    | Tick(d: nat)

  datatype World = World(now: int, t: Timer)

  /** A controller blocked in `join` makes no calls. */
  function Next(x: World, a: Action): World {
    match a
    case CallStart(msec, spawned) => if x.t.joining then x else x.(t := Start(x.t, x.now, msec, spawned))
    case CallStop => if x.t.joining then x else x.(t := Stop(x.t))
    case JoinReturns => x.(t := Join(x.t))
    case ThreadRuns(w) => x.(t := ThreadStep(x.t, x.now, w))
    case Tick(d) => x.(now := x.now + d)
  }

  function Run(x: World, run: seq<Action>): World
    decreases |run|
  {
    if run == [] then x else Run(Next(x, run[0]), run[1..])
  }

  lemma {:induction false} RunKeepsInv(x: World, run: seq<Action>)
    requires Inv(x.t, x.now)
    ensures Inv(Run(x, run).t, Run(x, run).now)
    decreases |run|
  {
    if run != [] {
      match run[0] {
        case CallStart(msec, spawned) => if !x.t.joining { StartKeepsInv(x.t, x.now, msec, spawned); }
        case CallStop => StopJoinKeepInv(x.t, x.now);
        case JoinReturns => StopJoinKeepInv(x.t, x.now);
        case ThreadRuns(w) => ThreadKeepsInv(x.t, x.now, w);
        case Tick(d) => TickKeepsInv(x.t, x.now, x.now + d);
      }
      RunKeepsInv(Next(x, run[0]), run[1..]);
    }
  }

  /** Over every interleaving each effective `start` gives at most one `HandleTimeout`,
      in the order of the starts, and never before the deadline of that start. */
  lemma FiresAtMostOnceAndNotEarly(now: int, run: seq<Action>)
    ensures var t := Run(World(now, FRESH), run).t;
            && (forall i, j :: 0 <= i < j < |t.firings| ==> t.firings[i].gen < t.firings[j].gen)
            && (forall i :: 0 <= i < |t.firings| ==>
                  && t.firings[i].gen < |t.launches|
                  && t.launches[t.firings[i].gen].deadline <= t.firings[i].at)
  {
    RunKeepsInv(World(now, FRESH), run);
    var x := Run(World(now, FRESH), run);
    forall i | 0 <= i < |x.t.firings|
      ensures x.t.firings[i].gen < |x.t.launches|
      ensures x.t.launches[x.t.firings[i].gen].deadline <= x.t.firings[i].at
    {
      assert FiredInTime(x.t, x.t.firings[i], x.now);
    }
  }

  /** The timer is at rest: not started and without a thread. */
  predicate AtRest(t: Timer) { !t.started && t.thread.Off? && !t.joining }

  /** The controller is inside the `join` of a `stop` that found the timer started. */
  predicate BeingStopped(t: Timer) { !t.started && t.joining }

  lemma {:induction false} LaunchesOnlyGrow(x: World, run: seq<Action>)
    ensures |x.t.launches| <= |Run(x, run).t.launches|
    decreases |run|
  {
    if run != [] { LaunchesOnlyGrow(Next(x, run[0]), run[1..]); }
  }

  /** Without another effective `start` a timer at rest does not move at all. */
  lemma {:induction false} QuietUntilRestarted(x: World, run: seq<Action>)
    requires AtRest(x.t) && |Run(x, run).t.launches| == |x.t.launches|
    ensures Run(x, run).t == x.t
    decreases |run|
  {
    if run != [] {
      LaunchesOnlyGrow(Next(x, run[0]), run[1..]);
      QuietUntilRestarted(Next(x, run[0]), run[1..]);
    }
  }

  /** The `join` returns only when the thread has ended. */
  lemma {:induction false} StoppingEndsAtRest(x: World, run: seq<Action>)
    requires BeingStopped(x.t) && |Run(x, run).t.launches| == |x.t.launches|
    ensures BeingStopped(Run(x, run).t) || AtRest(Run(x, run).t)
    decreases |run|
  {
    if run != [] {
      var x' := Next(x, run[0]);
      LaunchesOnlyGrow(x', run[1..]);
      if x'.t.joining { StoppingEndsAtRest(x', run[1..]); } else { QuietUntilRestarted(x', run[1..]); }
    }
  }

  /** Once a `stop` that found the timer started has returned (after `mid`), no `HandleTimeout`
      begins on any continuation `post` until the timer is started again. */
  lemma NoneBeginsAfterStop(now: int, pre: seq<Action>, mid: seq<Action>, post: seq<Action>)
    requires var x := Run(World(now, FRESH), pre);
             var y := Run(Next(x, CallStop), mid);
             && x.t.started && !y.t.joining
             && |Run(y, post).t.launches| == |x.t.launches|
    ensures var y := Run(Next(Run(World(now, FRESH), pre), CallStop), mid);
            Run(y, post).t.firings == y.t.firings
  {
    var x := Run(World(now, FRESH), pre);
    RunKeepsInv(World(now, FRESH), pre);
    var x' := Next(x, CallStop);
    var y := Run(x', mid);
    LaunchesOnlyGrow(x', mid);
    LaunchesOnlyGrow(y, post);
    StoppingEndsAtRest(x', mid);
    QuietUntilRestarted(y, post);
  }

  /** Steps the thread of a stopped timer still takes at most. */
  function ThreadRank(th: Thread): nat {
    match th
    case Off => 0
    case Ending => 1
    case Checking => 2
    case Calling(_) => 3
    case Waiting(_, _) => 4
  }

  /** The `join` of a `stop` ends: while the timer is being stopped, every step of its thread brings
      the end nearer (a wait returns at the signal at the latest). */
  lemma StoppedThreadEnds(t: Timer, now: int, w: Wake)
    requires BeingStopped(t) && !t.thread.Off?
    requires t.thread.Waiting? && w.TimedOut? ==> t.thread.until <= now
    ensures BeingStopped(ThreadStep(t, now, w))
    ensures ThreadRank(ThreadStep(t, now, w).thread) < ThreadRank(t.thread)
  {
  }

  // ---- which started timers fire ----

  /** Started, but without a thread that will wait: the old one was about to end when `run` found it, or
      none could be made. */
  predicate Lost(t: Timer) { t.started && !t.joining && (t.thread.Off? || t.thread.Ending?) }

  predicate HasFired(t: Timer, gen: int) { exists i :: 0 <= i < |t.firings| && t.firings[i].gen == gen }

  predicate NoStop(run: seq<Action>) { forall i :: 0 <= i < |run| ==> !run[i].CallStop? }

  /** An effective `start` is lost exactly if the thread had left its loop but not yet ended, or there was
      none and none could be made. */
  lemma LostExactly(t: Timer, now: int, msec: int, spawned: bool)
    requires Inv(t, now) && !t.started && !t.joining
    ensures Lost(Start(t, now, msec, spawned)) <==> t.thread.Ending? || (t.thread.Off? && !spawned)
  {
  }

  /** A lost timer fires never, and ignores every later `start`, until it is stopped. */
  lemma {:induction false} LostUntilStopped(x: World, run: seq<Action>)
    requires Lost(x.t) && NoStop(run)
    ensures var t := Run(x, run).t;
            Lost(t) && t.launches == x.t.launches && t.firings == x.t.firings
    decreases |run|
  {
    if run != [] {
      assert forall i :: 0 <= i < |run[1..]| ==> run[1..][i] == run[i + 1];
      LostUntilStopped(Next(x, run[0]), run[1..]);
    }
  }

  /** From any started timer that is not lost there is a run without `stop` in which the start fires. */
  lemma FiresUnlessLost(x: World) returns (run: seq<Action>)
    requires Inv(x.t, x.now) && x.t.started && !Lost(x.t)
    ensures NoStop(run) && HasFired(Run(x, run).t, |x.t.launches| - 1)
  {
    var last := |x.t.launches| - 1;
    match x.t.thread
    case Waiting(gen, until) => run := WaitOut(x);
    case Checking =>
      var y := Next(x, ThreadRuns(Woken));
      run := WaitOut(y);
      run := [ThreadRuns(Woken)] + run;
    case Calling(gen) =>
      var y := Next(x, ThreadRuns(Woken));
      var z := Next(y, ThreadRuns(Woken));
      run := WaitOut(z);
      assert Run(y, [ThreadRuns(Woken)] + run) == Run(z, run);
      run := [ThreadRuns(Woken)] + ([ThreadRuns(Woken)] + run);
  }

  lemma WaitOut(x: World) returns (run: seq<Action>)
    requires x.t.started && x.t.thread.Waiting?
    ensures NoStop(run) && HasFired(Run(x, run).t, x.t.thread.gen)
  {
    var until := x.t.thread.until;
    var a := Tick(if x.now < until then until - x.now else 0);
    var b, c := ThreadRuns(TimedOut), ThreadRuns(Woken);
    run := [a, b, c];
    assert run[1..] == [b, c] && [b, c][1..] == [c] && [c][1..] == [];
    var y := Next(Next(Next(x, a), b), c);
    assert Run(Next(Next(x, a), b), [c]) == y;
    assert Run(Next(x, a), [b, c]) == y;
    assert y.t.firings[|x.t.firings|].gen == x.t.thread.gen;
  }

  /** So a started timer can still fire before it is stopped exactly if it is not lost. */
  lemma FiresExactlyIfNotLost(x: World)
    requires Inv(x.t, x.now) && x.t.started
    ensures !Lost(x.t) <==> exists run :: NoStop(run) && HasFired(Run(x, run).t, |x.t.launches| - 1)
  {
    if Lost(x.t) {
      forall run | NoStop(run) ensures !HasFired(Run(x, run).t, |x.t.launches| - 1) { LostUntilStopped(x, run); }
    } else {
      var run := FiresUnlessLost(x);
    }
  }

  // ---- calc_abstimeout ----

  /** C's `/` and `%` on `int`: the quotient is truncated toward zero. */
  function CDiv(a: int, b: int): int requires b > 0 { if a >= 0 then a / b else -((-a) / b) }
  function CMod(a: int, b: int): int requires b > 0 { a - b * CDiv(a, b) }

  /** The deadline is always exactly `now + msec`; its nanosecond part is normal
      exactly when the milliseconds left over do not reach below the current second. */
  method CalcAbsTimeout(sec: int, usec: int, msec: int) returns (tvSec: int, tvNsec: int)
    requires 0 <= usec < 1_000_000
    ensures tvSec * 1_000_000_000 + tvNsec == sec * 1_000_000_000 + usec * 1000 + msec * 1_000_000
    ensures (0 <= tvNsec < 1_000_000_000) <==> 0 <= usec + CMod(msec, 1000) * 1000
    ensures msec >= 0 || CMod(msec, 1000) == 0 ==> 0 <= tvNsec < 1_000_000_000
  {
    tvSec := sec + CDiv(msec, 1000);
    tvNsec := usec * 1000 + CMod(msec, 1000) * 1_000_000;
    if tvNsec >= 1_000_000_000 {
      tvSec := tvSec + 1;
      tvNsec := tvNsec - 1_000_000_000;
    }
  }

  // ---- the class ----

  /** `atimer` with its own fields; `launches` and `firings` are kept for the proofs only. */
  class ATimer {
    var started: bool
    var abstime: int
    var joining: bool
    var thread: Thread
    var launches: seq<Launch>
    var firings: seq<Firing>

    ghost function View(): Timer
      reads this
    {
      Timer(started, abstime, joining, thread, launches, firings)
    }

    constructor ()
      ensures View() == FRESH
    {
      started, abstime, joining, thread, launches, firings := false, 0, false, Off, [], [];
    }

    method StartTimer(sec: int, usec: int, msec: int, spawned: bool)
      requires 0 <= usec < 1_000_000
      requires !joining
      modifies this
      ensures View() == Start(old(View()), sec * 1_000_000 + usec, msec, spawned)
      ensures old(started) ==> View() == old(View())
      ensures !old(started) ==>
                var now := sec * 1_000_000 + usec;
                && started && abstime == now + msec * 1000 && launches == old(launches) + [Launch(now, abstime)]
                && (thread == if old(thread).Off? && spawned then Checking else old(thread))
      ensures joining == old(joining) && firings == old(firings)
    {
      if !started {
        var tvSec, tvNsec := CalcAbsTimeout(sec, usec, msec);
        abstime := tvSec * 1_000_000 + tvNsec / 1000;
        started := true;
        launches := launches + [Launch(sec * 1_000_000 + usec, abstime)];
        RunThread(spawned);
      }
    }

    /** `athread::run`: a thread that has not ended yet is not replaced. */
    method RunThread(spawned: bool)
      modifies this`thread
      ensures thread == if old(thread).Off? && spawned then Checking else old(thread)
    {
      if !thread.Off? { return; }
      if spawned { thread := Checking; }
    }

    method StopTimer()
      modifies this`started, this`joining
      ensures View() == Stop(old(View()))
      ensures !started && joining == (old(joining) || old(started))
    {
      if started {
        started := false;
        joining := true;
      }
    }

    /** One pass through the loop of `body`, ended by `springboard`. */
    method Body(now: int, w: Wake) returns (fired: bool)
      modifies this
      ensures View() == ThreadStep(old(View()), now, w)
      ensures fired <==> old(thread).Calling?
      ensures firings == old(firings) + if fired then [Firing(old(thread).gen, now)] else []
      ensures thread.Calling? <==> old(thread).Waiting? && w.TimedOut? && old(thread).until <= now
      ensures thread.Calling? ==> thread.gen == old(thread).gen
      ensures thread.Waiting? <==> (old(thread).Waiting? && w.TimedOut? && now < old(thread).until)
                                   || (old(thread).Checking? && started && launches != [])
      ensures old(thread).Checking? && thread.Waiting? ==> thread == Waiting(|launches| - 1, abstime)
      ensures started == (old(started) && !thread.Calling? && !(old(thread).Waiting? && w.Failed?))
      ensures abstime == old(abstime) && launches == old(launches) && joining == old(joining)
    {
      fired := false;
      match thread {
        case Off =>
        case Checking =>
          thread := if started && |launches| > 0 then Waiting(|launches| - 1, abstime) else Ending;
        case Waiting(gen, until) =>
          if w == TimedOut {
            if until <= now {
              started := false;
              thread := Calling(gen);
            }
          } else if w == Failed {
            started := false;
            thread := Ending;
          } else {
            thread := Checking;
          }
        case Calling(gen) =>
          firings := firings + [Firing(gen, now)];
          fired := true;
          assert |firings| == |old(firings)| + 1;
          thread := Checking;
        case Ending =>
          thread := Off;
      }
    }
  }
}
