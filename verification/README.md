# apcupsd: a model and its proofs

This project models the parts of apcupsd where several threads, processes or machines have to agree,
and proves what they agree on. `dafny verify dfyconfig.toml` checks all of it.

* **The UPS state machine** (`Timers`, `Machine`, `MachineProofs`, `MachineTheorems`, `MachineReach`,
  `MachineChecks`, `MachineOnbattery`, `MachineRuns`, `MachineClass`).
  The consumer thread, its six timers with a thread each, the drivers that report readings and the
  clock take turns in any order; every shared access of the consumer is a step of its own. `Machine`
  is the step system, `MachineProofs` keeps one invariant per question (control, lost power failures,
  timers, accounts, causes), `MachineTheorems` states the results for all runs. `MachineClass` is the
  machine as an object with the program's own fields and handlers, executed under an arbitrary
  schedule; its `Valid()` says that the object stands where a run of the step system has led.
  `MachineReach`, `MachineChecks` and `MachineOnbattery` say what happens or can happen from a given state on,
  and `MachineRuns` holds runs that show what the machine does not promise.
* **Containers and readings** (`Lists`, `Maps`, `Queues`, `Readings`): `alist` on the heap refines a
  sequence, `amap` refines a finite map, `aqueue` is a step system of any number of producers and
  consumers, and `UpsInfo`, built on `amap` and `alist`, is the shared readings with their notifications.
* **The lock file** (`LockFiles`): the functions run alone, and the system calls of any number of
  processes interleaved.
* **The network information server** (`Wire`, `CText`, `Scanning`, `Files`, `Status`, `EventLog`): framing over partial
  transfers, the status report and the event list from server to client, and the trimming of the event
  file.
* **Parsers** (`FieldLines`, `Eeprom`, `Config`, `ConfigKeys`, `ConfigFile`): `ConfigFile` goes from the bytes of
  apcupsd.conf to the daemon's settings.

Where a tempting claim fails, the project says when it holds. A message survives framing exactly if it
is neither empty nor too long (`Wire.FrameRoundTrip`). A deadline has a normal nanosecond part exactly
if the microseconds plus the truncated remainder are not negative (`Timers.CalcAbsTimeout`). A body reaches the client whole
exactly if it ends in a newline (`CText.LinesConcat`). Chunks read from a file are its lines exactly
if no line is too long and the last is complete (`Files.ChunksAreLines`). CUMONBATT is exact at any
moment exactly if the log and the database agree on whether there is an outage, or no time has passed in
it (`MachineTheorems.CumOnBattExactly`, with a state where it is wrong in `MachineRuns.CumOnBattWrong`). A
shutdown condition that clears does not disarm its timer: `MachineTheorems.OnlyExitDisarms` says exactly
which steps do, and `MachineRuns.ClearedConditionStillShutsDown` is a run.

ONBATTERY is not posted at most once in an outage, since the ids of timeouts tell states apart but not
visits. `MachineOnbattery.MostOnbatteriesExactly` gives the exact maximum for the outage about to begin,
`MachineOnbattery.TwoOnbatteriesExactly` the exact condition for two, and
`MachineRuns.TwoOnbatteriesInOneOutage` a run. Not every started timer fires, since a thread that has left
its loop but not ended makes `run` do nothing. `Timers.LostExactly` says exactly which starts are lost,
`Timers.FiresExactlyIfNotLost` that just the others can fire before a `stop`, and
`MachineRuns.StartIsLost` is a run.

The lock file does not always exclude. `LockFiles.ExcludesExactlyIfSafe` gives the exact condition, for
live processes outside the calls, any file there may be at the start, and any set of amounts that a write
may store: fewer than two live processes, or no text that is in the file or may be written to it names
something dead or can be taken for their own by two processes, or the file does no harm and nobody can ever
remove it. So with whole writes and no file the lock excludes exactly if no process is the parent of
another, with a stale file exactly if fewer than two live processes find it, and a write cut short after
`n` digits is safe exactly under the condition of `LockFiles.ShortWritesExclude`.

The comment above `net_recv` (src/lib/apclibnis.c:157-159) promises -1 and -2 where the code returns 0 or
a negated error number; the model follows the code.

## Model

| member | source | states |
|---|---|---|
| Timers.StartKeepsInv | src/lib/atimer.cpp:21-33 | `start` of any timer, whatever its thread is doing and whether or not a thread can be made, keeps the timer invariant: an armed timer waits for the deadline of its latest launch, firings have strictly growing launches, none before its deadline |
| Timers.StopJoinKeepInv | src/lib/atimer.cpp:35-47 | `stop` and the `join` inside it keep the same invariant |
| Timers.ThreadKeepsInv | src/lib/atimer.cpp:49-83 | every step of the timer thread keeps it: waiting, a timeout, a spurious or signalled wakeup, an error, the callback, a restart during the callback, and the end in `springboard` |
| Timers.SpuriousWakeup | src/lib/atimer.cpp:55-79 | a wakeup that is neither a timeout nor a stop costs nothing: two steps later the thread waits for the same deadline again |
| Timers.RunKeepsInv | src/lib/atimer.cpp:21-83 | the invariant holds after every interleaving of controller calls, thread steps and clock ticks |
| Timers.FiresAtMostOnceAndNotEarly | src/lib/atimer.cpp:21-83 | over every interleaving each effective `start` gives at most one `HandleTimeout`, never before its deadline |
| Timers.QuietUntilRestarted | src/lib/atimer.cpp:21-83 | a timer that is not started and has no thread does not move in any run without an effective `start` |
| Timers.StoppingEndsAtRest | src/lib/atimer.cpp:35-47 | a `stop` that found the timer started comes back only when the thread has ended |
| Timers.NoneBeginsAfterStop | src/lib/atimer.cpp:35-83 | once a `stop` that found the timer started has returned, no `HandleTimeout` begins until the next effective `start`, whatever happens meanwhile |
| Timers.StoppedThreadEnds | src/lib/athread.cpp:31-42 | while a timer is being stopped every step of its thread brings the thread's end nearer, so the `join` ends |
| Timers.LostExactly | src/lib/athread.cpp:5-37 | an effective `start` is lost if and only if the thread had left its loop but not ended, or there was none and none could be made |
| Timers.LostUntilStopped | src/lib/atimer.cpp:21-33 | over every run without `stop` a lost timer fires never and ignores every later `start` |
| Timers.FiresUnlessLost | src/lib/atimer.cpp:49-83 | from every started timer that is not lost there is a run without `stop` in which that very start fires |
| Timers.FiresExactlyIfNotLost | src/lib/atimer.cpp:21-83 | a started timer can still fire before it is stopped if and only if it is not lost |
| Timers.CalcAbsTimeout | src/lib/autil.cpp:29-42 | the deadline is exactly now + msec, for every int; its nanosecond part is within [0, 10^9) if and only if the microseconds plus the truncated remainder do not go below zero, in particular for msec >= 0 |
| Timers.ATimer.StartTimer | src/lib/atimer.cpp:21-33 | a started timer is left alone; any other is armed for now plus the milliseconds, with one more launch, and a thread is made if there is none and one can be made; this is the step of the theorems |
| Timers.ATimer.StopTimer | src/lib/atimer.cpp:35-47 | the timer is not started any more, and the caller waits if it was; this is the step of the theorems |
| Timers.ATimer.Body | src/lib/atimer.cpp:49-83 | one pass of the thread loop: a wait ends in the callback exactly if it timed out at or after its deadline, a timer that ran out or failed is no longer started, and the callback is recorded once, with its launch |
| MachineProofs.LastQueuedIsLast | src/action.c:753-757 | `LastQueued` is the value of the last CI_Discharging datum in the queue, and empty exactly if there is none |
| MachineProofs.LastQueuedAppend | src/action.c:753-757 | a CI_Discharging datum put in the queue is the last one; anything else leaves the last one as it was |
| MachineProofs.LosslessHandlers | src/action.c:761-1029 | every step of every handler keeps: the last queued CI_Discharging datum equals the database; with none queued the consumer's belief about it, wherever it stands, is right |
| MachineProofs.LosslessOthers | include/UpsValue.h:139-148 | a driver's update, a timer thread, a quit request and the clock keep it too, since an update changes the database and posts the datum in one step |
| MachineProofs.OwnedStops | src/action.c:910-918 | the five `stop` calls of OnExit, one by one and with their joins, leave no ONBATT timer started behind them |
| MachineProofs.MeterBalances | src/action.c:855-901 | in a well-formed log the POWEROUTs exceed the MAINSBACKs by one inside an outage and are equal outside |
| MachineProofs.BooksAfterEvent | src/action.c:761-811 | what an event posts at once (ONBATTERY, battery attach and detach) keeps counters and log in agreement |
| MachineProofs.PostKeeps | src/action.c:855-901 | each posting handler keeps them in agreement and moves between inside and outside an outage as it should: POWEROUT opens, OFFBATTERY (exactly if ONBATTERY was posted) and MAINSBACK close, self tests do neither |
| MachineProofs.CausesHandlers | src/action.c:717-1029 | every step keeps: each launched timer, each queued timeout and each pending or made entry to SHUTDOWN has a cause in the history, at least the delay earlier |
| MachineProofs.CausesCheck | src/action.c:943-971 | a timer CheckShutdown is about to start has the reading it saw as its cause |
| MachineTheorems.StepKeepsInv | src/action.c:702-1049 | one step of any thread keeps all invariants together |
| MachineTheorems.Reachable | src/action.c:702-1049 | they hold after every run from `Start` |
| MachineTheorems.NoPowerFailureLost | src/action.c:702-726 | at every head of the event loop: a queued CI_Discharging datum equals the database if it is the last; with none queued IDLE means not discharging and ONBATT means discharging, even if the power failed during SELFTEST |
| MachineTheorems.ShutdownsAreJustified | src/action.c:855-971 | every entry to a SHUTDOWN state has a note leading to that very state: at least 5000000 us earlier CheckShutdown saw in ONBATT a charge of at most 10 percent + 9 tenths, a run time of at most 60 runtime + 59 seconds, or the low-battery signal; or, for RUNLIMIT, ONBATT was entered at least maxtime seconds earlier with maxtime > 0 |
| MachineTheorems.NoteTells | src/action.c:955-970 | a note of a reading is written in the state and at the time it says, with the value the database then holds for the charge, the run time or the low-battery signal |
| MachineTheorems.ShutdownsHaveReadings | src/action.c:855-971 | for every shutdown of every run there is an earlier moment of that run, by the delay, at which the machine was in ONBATT and its database held the very reading at its limit, or ONBATT was being entered |
| MachineTheorems.LaterShutdownsHaveLaterCauses | src/action.c:855-971 | if no shutdown timeout is queued or being posted when ONBATT is entered, every later shutdown has such a reason at or after that entry |
| MachineTheorems.OutagesAccounted | src/action.c:855-908 | at every head of the loop: num_xfers is the number of POWEROUTs; POWEROUT minus MAINSBACK is 1 exactly in ONBATT or SHUTDOWN; OFFBATTERY precedes a MAINSBACK exactly if ONBATTERY was posted in that outage; cum_time_on_batt is the sum of the completed outages, as told by the log alone |
| MachineTheorems.LogNeverGarbled | src/action.c:855-901 | the log is a sequence of well-formed outages at every moment of every run |
| MachineTheorems.OutageBeganAfterStart | src/action.c:855-862 | an open outage began at or after the start |
| MachineTheorems.CumOnBattExactly | src/lib/apcstatus.c:360-365 | at every moment of every run CUMONBATT is the sum of the completed outages plus the one in progress, if and only if log and database agree on whether there is one, or no time has passed since the last one began |
| MachineTheorems.CumOnBattIsExact | src/lib/apcstatus.c:360-365 | at a head of the loop with no CI_Discharging datum queued in IDLE or ONBATT, CUMONBATT is that sum |
| MachineTheorems.OnbattTimersOnlyInOnbatt | src/action.c:910-918 | in every reachable state the five ONBATT timers are started only in ONBATT |
| MachineTheorems.MachineTimersFireOnce | src/lib/atimer.cpp:21-83 | every timer inside the running machine keeps the promises proved for one controller and one timer |
| MachineTheorems.OnlyExitDisarms | src/action.c:943-971 | a step disarms a started timer if and only if it is the consumer's `stop` of it, or the end of its own thread's wait by a due timeout or an error; the `stop` of an ONBATT timer comes only in leaving ONBATT |
| MachineTheorems.LostTimerNeverFires | src/lib/athread.cpp:5-37 | a lost timer of the machine stays lost, with no firing and no launch, over every run in which the consumer does not stop it |
| MachineTheorems.ForeignTimeoutIgnored | include/statemachine.h:103-114 | over every interleaving from a foreign timeout's being taken off the queue to the next head of the loop: state, counters, log, history and launches are as before |
| MachineRuns.ClearedConditionStillShutsDown | src/action.c:943-971 | a reachable head of the loop in ONBATT where the battery is no longer low, from which the machine shuts down for a low battery without any further update |
| MachineRuns.TwoOnbatteriesInOneOutage | src/action.c:816-941 | a reachable entry to ONBATT and a run from it with one POWEROUT and two ONBATTERYs |
| MachineRuns.StartIsLost | src/lib/athread.cpp:5-37 | a reachable state in ONBATT where ONBATTERY's timer was started, a thread could be made, and the start is lost |
| MachineRuns.CumOnBattWrong | src/lib/apcstatus.c:360-365 | a reachable state, the mains being back after a shutdown, where CUMONBATT is not what the log tells |
| MachineReach.WorksToHead | src/action.c:855-882 | from ONBATT's OnEnter or CheckShutdown the consumer comes to the head of the loop by its own steps, still in ONBATT |
| MachineReach.HandlesFirst | src/action.c:761-941 | events that end nothing are handled one after another, each moving its ONBATTERY from the queue to the log |
| MachineReach.FireTimer | src/lib/atimer.cpp:49-83 | a started timer of the machine that is not lost can fire, with nothing else changed but the clock |
| MachineReach.CompletesExit | src/action.c:910-918 | a consumer that has set out from ONBATT completes its OnExit, joins included, by its own steps and those of the threads it waits for |
| Machine.DueIsMet | src/action.c:955-970 | C's truncating divisions compare as whole numbers: tenths / 10 <= percent means tenths <= 10 percent + 9, or 10 percent if that is negative, and likewise for the run time |
| MachineChecks.ChecksOne | src/action.c:955-970 | one check by the consumer alone starts its timer if the database is at the limit, unless it was started, and leaves it alone if not |
| MachineChecks.DueTimersStart | src/action.c:884-908 | from a head of the loop in ONBATT with CI_BATTLEV, CI_RUNTIM or CI_BattLow first in the queue, the consumer's own steps lead to a head by which each of the three timers has been started with 5000000 us to go exactly if the database is at its limit, unless it was started, and no other timer is touched |
| MachineOnbattery.FutureOthers | src/action.c:744-757 | no step of another thread adds to the ONBATTERYs still to come in an outage |
| MachineOnbattery.FutureConsumed | src/action.c:761-941 | the consumer takes from those to come exactly what it posts |
| MachineOnbattery.BoundedRun | src/action.c:855-941 | over every run from an entry to ONBATT the outage stays within its maximum |
| MachineOnbattery.PostsMost | src/action.c:855-941 | and some run reaches the maximum |
| MachineOnbattery.MostOnbatteriesExactly | src/action.c:855-941 | the maximum of ONBATTERYs up to the next POWEROUT is exactly: those the queue posts before an event ends the stay, and, if none ends it, the one being posted and the one of the new start |
| MachineOnbattery.TwoOnbatteriesExactly | include/statemachine.h:103-114 | an outage can have two ONBATTERYs if and only if timeouts of an earlier visit are pending at its entry that it can handle: two, or one with no event queued that ends the stay |
| MachineOnbattery.ShutdownCanCome | src/action.c:920-941 | from every head of the loop in ONBATT with no event queued that ends the stay, a shutdown timer that is started and not lost can bring about its own SHUTDOWN state without any further update |
| MachineTheorems.ShutdownIsFinal | src/action.c:1031-1049 | once a SHUTDOWN state is entered no run leaves it, launches a timer, or posts POWEROUT or MAINSBACK |
| MachineTheorems.NestingAtMostTwo | src/action.c:717-726 | ChangeState is nested at most twice in every reachable state |
| MachineTheorems.HandlerNearsEnd | src/action.c:717-1029 | every step of a handler brings its end nearer, except while it waits in `join`; other threads do not put it off |
| MachineTheorems.HandlerEnds | src/action.c:761-800 | in any run from the handling of an event in which the consumer takes 42 steps without waiting in `join`, whatever other threads do in between, it comes to the head of the loop or stops |
| MachineClass.PathIsRun | src/action.c:702-1049 | the states an object has passed through are those the step system reaches |
| MachineClass.UpsStateMachine.Update | include/UpsValue.h:139-148 | an update changes the database and posts the datum together, and only if the value is new |
| MachineClass.UpsStateMachine.ChangeState | src/action.c:717-726 | the new state is the one asked for; IDLE gives way to ONBATT exactly if the battery was discharging at the moment IDLE's OnEnter looked; just what entering the resulting state posts is posted; entering ONBATT starts exactly the timers it should |
| MachineClass.UpsStateMachine.LeaveState | src/action.c:723-723 | OnExit of the present state: after ONBATT none of its five timers is started |
| MachineClass.UpsStateMachine.EnterState | src/action.c:724-725 | switches and enters, with the same result, and ends back at the caller's nesting depth |
| MachineClass.UpsStateMachine.IdleOnEnter | src/action.c:816-822 | ends in ONBATT if the battery was discharging when it looked, and in IDLE if not |
| MachineClass.UpsStateMachine.OnbattOnEnter | src/action.c:855-882 | POWEROUT is posted once, stamped with the outage's begin, the transfers are counted, and exactly these timers are started: ONBATTERY's, those of the readings at their limits when the database was looked at, and the time limit's if there is one |
| MachineClass.UpsStateMachine.OnbattOnExit | src/action.c:910-918 | afterwards none of the five timers is started, and no timer has been |
| MachineClass.UpsStateMachine.CheckShutdown | src/action.c:943-971 | looks at charge, run time and signal at three moments in this order, and starts exactly the timers of the readings that were at their limits then, each with five seconds to go, none twice |
| MachineClass.UpsStateMachine.JudgeOne | src/action.c:955-970 | LOADLIMIT is started exactly if the charge is in the database and at most 10 percent + 9 tenths, RUNLIMIT exactly if the run time is there and at most 60 runtime + 59, BATTLOW exactly if the signal is there and not zero (10 percent and 60 runtime for negative limits) |
| MachineClass.UpsStateMachine.EndOutage | src/action.c:889-898 | adds the outage's length, and posts OFFBATTERY exactly if ONBATTERY was posted, then MAINSBACK |
| MachineClass.UpsStateMachine.SelftestOnEnter | src/action.c:976-986 | posts the start of the test and starts its timer, and no other |
| MachineClass.UpsStateMachine.FinishTest | src/action.c:994-998 | posts the end of the test, and goes to IDLE, or on to ONBATT if the battery is discharging then |
| MachineClass.UpsStateMachine.OnDatum | src/action.c:824-1000 | each state's answer to a datum: the resulting state, exactly what is posted, and the timers started; anything else changes nothing |
| MachineClass.UpsStateMachine.IdleOnDatum | src/action.c:824-842 | CI_Discharging non-zero goes to ONBATT with POWEROUT and its timers, a self test in progress goes to SELFTEST, anything else changes nothing |
| MachineClass.UpsStateMachine.OnbattOnDatum | src/action.c:884-908 | CI_BATTLEV, CI_RUNTIM and CI_BattLow each have the database looked at for all three conditions, and each one at its limit has its timer launched on return unless it was started; CI_Discharging zero ends the outage; anything else changes nothing |
| MachineClass.UpsStateMachine.SelftestOnDatum | src/action.c:988-1000 | any test status but in progress posts the end of the test and leaves SELFTEST; anything else changes nothing |
| MachineClass.UpsStateMachine.MainsReturned | src/action.c:888-900 | ends the outage, and goes to IDLE, or on to ONBATT with a new POWEROUT if the battery is discharging then |
| MachineClass.UpsStateMachine.OnTimeout | src/action.c:848-1049 | in ONBATT each shutdown timer leads to its own SHUTDOWN state with nothing posted, and ONBATTERY's posts ONBATTERY and stays; in SELFTEST the test is judged; any other id changes nothing |
| MachineClass.UpsStateMachine.SelftestTimeout | src/action.c:1012-1028 | ends in ONBATT if the battery was discharging when it looked; if not, the end of the test is posted first, and the state is what IDLE's OnEnter then makes of it |
| MachineClass.UpsStateMachine.StartTimer | src/lib/atimer.cpp:21-33 | the consumer's call of `start`, with the period each state asks for: this timer is launched once unless it was started, and no other is |
| MachineClass.UpsStateMachine.StopTimer | src/lib/atimer.cpp:35-47 | the consumer's call of `stop`, which blocks in `join` while the other threads run; afterwards the timer is not started |
| MachineClass.UpsStateMachine.Dequeue | src/action.c:768-769 | takes the first event and leaves the rest |
| MachineClass.UpsStateMachine.HandleEvent | src/action.c:771-811 | handles one event as told for its datum or timeout, the attached or detached battery first, and comes back to the head of the loop; only a quit stops, and it changes nothing |
| MachineClass.UpsStateMachine.Body | src/action.c:702-800 | after `Start` and any number of turns of the loop under any schedule: a queued last CI_Discharging datum equals the database, with none queued the state agrees with it, and the counters, log and cumulated time agree |
| Lists.Node.InsertNext | include/alist.h:45-48 | links a node in behind another and mends the links of its neighbours |
| Lists.Node.InsertPrev | include/alist.h:49-52 | links a node in before another and mends the links of its neighbours |
| Lists.Node.Unlink | include/alist.h:40-41 | a deleted node's neighbours are linked to each other |
| Lists.AList.Append | include/alist.h:83-93 | the sequence grows by one at the end, with head, tail, size and both directions of links in order |
| Lists.AList.Prepend | include/alist.h:95-105 | the sequence grows by one at the front, likewise |
| Lists.AList.AppendAll | include/alist.h:107-119 | appends another list's elements and leaves that list alone; a list appended to itself stays as it is |
| Lists.AList.Remove | include/alist.h:174-181 | takes exactly that element out and returns its successor |
| Lists.AList.RemoveFirst | include/alist.h:137-137 | drops the first element, if any |
| Lists.AList.RemoveLast | include/alist.h:138-138 | drops the last element, if any |
| Lists.AList.Clear | include/alist.h:139-139 | ends, and ends empty |
| Lists.AList.Find | include/alist.h:183-195 | the first element equal to the needle under the element type's own equality, or the end if there is none |
| Maps.MapOfPairs | include/amap.h:36-56 | a list of pairs with distinct keys is a finite map of the same size: every pair counts, and every key has a pair |
| Maps.MapOfAppend | include/amap.h:50-54 | a pair with a new key extends the map by it |
| Maps.MapOfUpdate | include/amap.h:50-54 | writing through the returned reference updates the map at that key only |
| Maps.AMap.Slot | include/amap.h:50-54 | `operator[]` finds the key's place, adding it with the default value if it is missing; keys stay distinct |
| Maps.AMap.Contains | include/amap.h:56-56 | true exactly for the keys of the map |
| Maps.AMap.Put | include/amap.h:50-54 | assignment through `operator[]` is the update of the finite map |
| Readings.DeliverCopies | include/UpsValue.h:187-198 | a notification reaches each client as often as it is registered |
| Readings.RegistrationStays | include/UpsValue.h:123-137 | other clients coming and going do not change how often a client is registered |
| Readings.FollowUpdate | include/UpsValue.h:139-148 | an update keeps a registered client's replayed readings up to date, however often it is registered |
| Readings.NewsUpdate | include/UpsValue.h:139-148 | and tells a client registered once only what is new to it |
| Readings.ReplayTracks | include/UpsValue.h:123-198 | over every run after a client's registration, once or more often: what it received, replayed over the readings at that moment, gives the present ones, up to signed zeros added by `get(int)`; registered once, every datum said something new |
| Readings.ReplayKeeps | include/UpsValue.h:139-148 | between two data of one reading the replay shows the first |
| Readings.ConsecutiveDiffer | include/UpsValue.h:139-148 | consecutive notifications of one reading never carry equal values |
| Readings.HearsChanges | include/UpsValue.h:123-198 | over every run without calls about a client it hears of every update that changed a reading, in order, as often as it is registered, and of nothing else |
| Readings.HearsWhileRegistered | include/UpsValue.h:123-198 | a client that registers and later unregisters receives exactly the changes in between, once each and in order, and nothing afterwards, whatever else is called |
| Readings.UpsInfo.UpdateValue | include/UpsValue.h:139-148 | the reading holds the value; each client gets one copy for each registration exactly when the reading was missing or differed in type or value |
| Readings.UpsInfo.Notify | include/UpsValue.h:187-198 | the walk along the list of clients delivers the datum to each in turn |
| Readings.UpsInfo.RegClient | include/UpsValue.h:123-128 | the client is put at the end of the list |
| Readings.UpsInfo.UnregClient | include/UpsValue.h:130-137 | the client's first registration goes, so its count drops by one if it was positive; every other count, and the order, stay |
| Readings.UpsInfo.Get | include/UpsValue.h:158-166 | on the map as a list of pairs: found exactly if the reading is there, with its value, and nothing is inserted |
| Readings.UpsInfo.GetRef | include/UpsValue.h:168-174 | adds a signed zero if the reading is missing, without telling anyone |
| Readings.UpsInfo.GetBool | include/UpsValue.h:176-183 | true exactly for a non-zero number; a string aborts |
| Queues.ExclusiveStep | include/aqueue.h:26-58 | every step keeps the mutex with at most one holder |
| Queues.WakeupProducer | include/aqueue.h:26-32 | every producer step keeps: while a consumer sleeps, each queued element is covered by a producer yet to signal or a consumer already awake |
| Queues.WakeupConsumer | include/aqueue.h:34-58 | so does every consumer step, spurious wakeups and timeouts included |
| Queues.NothingLostOrReordered | include/aqueue.h:26-58 | in every reachable state the elements enqueued are those dequeued followed by those queued, in order |
| Queues.MutualExclusion | include/aqueue.h:26-58 | never two threads in the critical section |
| Queues.SleepersAccountedFor | include/aqueue.h:26-58 | with any number of consumers, while one sleeps there are no more queued elements than producers yet to signal and consumers awake |
| Queues.SleepsOnlyWhileOwed | include/aqueue.h:26-58 | a single consumer sleeps on a non-empty queue only while some producer has appended and not yet signalled |
| Queues.AQueue.Enqueue | include/aqueue.h:26-32 | between lock and unlock, the element goes to the end |
| Queues.AQueue.TakeFirst | include/aqueue.h:54-57 | the first element comes out |
| LockFiles.PidRoundTrip | src/lib/apclock.c:88-201 | a process id is written as ten digits and a terminator and read back |
| LockFiles.PrefixNames | src/lib/apclock.c:201-209 | a write cut short names the number of the first digits; one that stores nothing cannot be read |
| LockFiles.LockPath.CheckStale | src/lib/apclock.c:41-146 | run alone, whichever system calls fail: which of the four results comes out, and that the file is removed exactly on success |
| LockFiles.LockPath.Create | src/lib/apclock.c:154-229 | run alone, whichever system calls fail and however much a write stores: succeeds exactly if no lock is needed, or the file names it or its parent, or the file is absent or names a dead process and its own text is stored whole; and what the file then is |
| LockFiles.LockPath.Delete | src/lib/apclock.c:231-252 | run alone: removes the file exactly if it names the process, its parent or a dead process and the calls succeed |
| LockFiles.StepKeepsInv | src/lib/apclock.c:41-252 | every system call of every process keeps: a holder, and one about to remove the file, claims the file at the path, and whatever is read does no harm |
| LockFiles.RunKeepsInv | src/lib/apclock.c:41-252 | so does every interleaving, for any amounts that a write may store without harm |
| LockFiles.HolderClaims | src/lib/apclock.c:154-229 | a holder is the only one, and the file names it or its parent |
| LockFiles.OnlyClaimantRemoves | src/lib/apclock.c:231-252 | over those runs the file disappears only in the `delete_lockfile` of the one process that claims it |
| LockFiles.StuckRun | src/lib/apclock.c:88-141 | a file nobody claims that is unreadable or names something alive stays, and nobody ever gets in |
| LockFiles.TakeClaimed | src/lib/apclock.c:102-110 | a process that finds itself or its parent named gets the lock without a write |
| LockFiles.JudgeStale | src/lib/apclock.c:65-121 | a process alone recognises a dead owner's file |
| LockFiles.ReplaceWins | src/lib/apclock.c:121-218 | a process that has judged the file stale replaces whatever is there by then by its own |
| LockFiles.ClaimantsCollide | src/lib/apclock.c:102-110 | two processes that claim the same file, as an owner and its child or two children of one parent, both get the lock |
| LockFiles.RecoverersCollide | src/lib/apclock.c:102-218 | so do any two live processes that find a stale file, by claiming or by recovering it |
| LockFiles.HarmfulWriteCollides | src/lib/apclock.c:190-218 | without a file, a write that does harm lets two live processes in |
| LockFiles.ExcludesExactlyIfSafe | src/lib/apclock.c:41-252 | for live processes outside the calls, any file and any set of amounts that writes may store: no interleaving ever has two holders if and only if the start is safe |
| LockFiles.StrangersExclude | src/lib/apclock.c:154-229 | without a file and with whole writes: no interleaving ever has two holders if and only if no live process is the parent of another |
| LockFiles.StaleFileExcludes | src/lib/apclock.c:116-218 | with a stale file: if and only if fewer than two live processes are there |
| LockFiles.UnreadableFileExcludes | src/lib/apclock.c:88-99 | with a file that cannot be read: always, since nobody gets in |
| LockFiles.ShortWritesExclude | src/lib/apclock.c:208-214 | with writes that may also be cut short after n digits, among two or more strangers: if and only if the first n digits of every live process's id name something that exists and at most one live process goes by that number or has that parent |
| LockFiles.HolderClearsTheWay | src/lib/apclock.c:231-252 | a sole holder can give the lock back and so let harm be written |
| LockFiles.RecoversAlone | src/lib/apclock.c:154-229 | after the owner has died, a process running alone always gets the lock, and from then on no interleaving ever has two holders if and only if fewer than two processes are live or no write does harm |
| Wire.HeaderRoundTrip | src/lib/apclibnis.c:174-202 | the two length bytes give back the length as a signed short |
| Wire.FrameRoundTrip | src/lib/apclibnis.c:161-217 | a message is received as sent if and only if it is neither empty nor longer than the limit or 32767; an empty one ends the session |
| Wire.SessionRoundTrip | src/lib/apclibnis.c:161-217 | any sequence of such messages, ended by an empty one, is received exactly, in order, and then the end |
| Wire.FramesAppend | src/lib/apclibnis.c:196-217 | one more message sent is one more frame on the wire |
| Wire.WriteNBytes | src/lib/apclibnis.c:112-150 | whatever the partial sends: all bytes in order or a failure, and never anything but a prefix; the loop ends |
| Wire.ReadNBytes | src/lib/apclibnis.c:64-106 | whatever the partial receives: exactly the bytes asked for or none reported; bytes beyond them in the buffer are untouched; the loop ends |
| Wire.NetSend | src/lib/apclibnis.c:196-217 | success puts the length on the wire, high byte first, and the message behind it; a connection that works always succeeds |
| Wire.NetRecv | src/lib/apclibnis.c:161-187 | a result above zero is 256 times the first byte plus the second, and the buffer holds the bytes behind them; on a connection that works the two bytes decide: the message if it is within the limit, an error if it is longer, the end if they are zero or negative as a short |
| CText.CStrIs | src/cgi/upsfetch.c:177-178 | a buffer holding a plain text and a terminator holds that string |
| CText.Memmove | src/lib/memmove.c:24-38 | overlapping or not, the target ends as the source began, and nothing else changes |
| CText.DecRoundTrip | src/apcnis.c:67-68 | printed digits give back the number |
| CText.DecDigitAt | src/apcnis.c:67-68 | the k-th character from the end is the k-th digit, and there are no leading zeros beyond the width |
| CText.LinesAppend | src/apcnis.c:76-86 | the lines of a text that continues after a newline are the lines of both parts |
| CText.LinesConcat | src/apcnis.c:76-86 | sending only complete lines sends a prefix, and the whole text if and only if it is empty or ends in a newline |
| Files.ChunksConcat | src/lib/apcevents.c:136-136 | reading by `fgets` loses nothing |
| Files.ChunksAreLines | src/lib/apcevents.c:136-136 | the records read are the file's lines if and only if all are under 256 characters and the last one is complete |
| Files.ChunksAppend | src/lib/apcconfig.c:656-657 | the chunks of a text that goes on behind a newline are those of both parts |
| Files.LineIsChunk | src/lib/apcconfig.c:656-657 | a complete line under 256 characters is read as one record, wherever it stands |
| Status.BodyIsAccepted | src/apcnis.c:102-119 | the report's body is the concatenation of the accepted writes, their number is counted, and it stays under 4095 characters |
| Status.AllAccepted | src/apcnis.c:102-119 | texts that stay under 4095 characters in all, each cut at 255, are all accepted |
| Status.LinesOfBody | src/apcnis.c:76-86 | if every write ends in a newline, the lines sent make up the whole body, each short and plain |
| Status.HeaderTells | src/apcnis.c:66-69 | the header is one short line that reads APC, revision 001, and carries the number of accepted writes and the length of the body |
| Status.ScanIsLines | src/apcnis.c:76-86 | scanning with two pointers finds exactly the complete lines |
| Status.StatusServer.WriteText | src/apcnis.c:102-119 | a write is cut at 255 characters and dropped, uncounted, if it would fill the buffer |
| Status.StatusServer.Close | src/apcnis.c:59-94 | on a connection that works, header, complete lines and end marker go out in this order |
| Status.StatusClient.FillBuffer | src/cgi/upsfetch.c:263-284 | whatever the connection does, the buffer ends with the first 4095 characters of some of the session's first messages; for any session that ends cleanly on a connection that works, of all of them |
| Status.ReportArrives | src/apcnis.c:59-94 | everything a report puts on the wire reaches a receiver with a buffer of 999 bytes |
| Status.Exchange | src/apcnis.c:44-119 | a whole exchange, whatever the partial transfers: the client holds the first 4095 characters of header followed by the accepted writes, which are all of them if they stay under 4095 characters |
| EventLog.RingPush | src/lib/apcevents.c:136-141 | storing a record in its slot keeps the last 50 records in the ring, for any number of records |
| EventLog.FillRing | src/lib/apcevents.c:135-141 | after the file is read the ring holds its last 50 records |
| EventLog.SendRing | src/lib/apcevents.c:150-156 | the records go out oldest first |
| EventLog.OutputEvents | src/lib/apcevents.c:120-171 | the session sent is the last min(n, 50) records in file order |
| EventLog.MessageInFront | src/cgi/upsfetch.c:175-190 | putting each message in front and cutting keeps the same prefix as cutting once |
| EventLog.Shifted | src/cgi/upsfetch.c:180-190 | the shifted and re-terminated buffer holds the message followed by the old text, cut at 4095 |
| EventLog.EventClient.Insert | src/cgi/upsfetch.c:182-184 | the overlapping move and the copy leave the message followed by the old bytes |
| EventLog.EventClient.FetchEvents | src/cgi/upsfetch.c:151-203 | whatever the connection does, the buffer ends with the first 4095 characters of some of the session's first messages in reverse order; for any session that ends cleanly on a connection that works, of all of them |
| EventLog.ReversedAt | src/cgi/upsfetch.c:170-174 | the k-th message from the front is the k-th from the end |
| EventLog.EventsArrive | src/lib/apcevents.c:150-162 | the records of a file without terminators all reach a receiver with a buffer of 499 bytes |
| EventLog.Exchange | src/lib/apcevents.c:120-171 | a whole exchange, whatever the partial transfers: the client holds the first 4095 characters of the last 50 records, newest first |
| EventLog.TrimmedIsLongest | src/lib/apcevents.c:79-86 | the trimmed file is the longest end of the old one, shorter than the limit, that starts just after a newline; empty if there is none |
| EventLog.TrimmedKeepsLines | src/lib/apcevents.c:79-86 | only whole lines are dropped, and the others stay as they are |
| EventLog.ReadAll | src/lib/apcevents.c:67-77 | whatever the partial reads, the buffer fills from the file's end |
| EventLog.SkipToFirstNewline | src/lib/apcevents.c:79-86 | one past the first newline, or all of the buffer |
| EventLog.WriteAll | src/lib/apcevents.c:90-100 | whatever the partial writes, the rest of the buffer becomes the file |
| EventLog.TrimEventFile | src/lib/apcevents.c:39-110 | a file within the limit is untouched; a larger one, read and written without errors, becomes its trimmed self, at 80% of the limit |
| FieldLines.ScanIsReads | src/cgi/multimon.c:467-496 | the scan accepts a line with exactly the strings ss if and only if there are at most two and the line is made of them, quoted, with anything but quotes between |
| FieldLines.EscapeSpells | src/cgi/multimon.c:485-495 | escaping quotes and backslashes spells the string |
| FieldLines.EscapeConcat | src/cgi/multimon.c:485-495 | escaping goes character by character |
| FieldLines.EscapeOne | src/cgi/multimon.c:485-495 | a quote and a backslash get a backslash, and no other character changes |
| FieldLines.QuotedRoundTrip | src/cgi/multimon.c:467-496 | scanning undoes quoting for any two strings |
| FieldLines.FieldRoundTrip | src/cgi/multimon.c:450-511 | for every variable name without spaces and any two strings the line that quotes them parses to exactly those three |
| FieldLines.FirstWord | src/cgi/multimon.c:460-460 | strtok's two loops find where the first word by spaces begins and ends, and cut it off in place |
| FieldLines.ScanStrings | src/cgi/multimon.c:467-503 | the loop over the buffer computes the scan, errors included, and never writes past the scratch buffer of strlen + 1 |
| FieldLines.ParseField | src/cgi/multimon.c:450-511 | the parse in place gives the variable and the strings of the line, or the error the program exits with |
| Eeprom.ItemsOfEncoded | src/apctest.c:2177-2202 | every list of records and separators is read back from its encoding |
| Eeprom.EncodedItems | src/apctest.c:2169-2202 | a string that can be read is the encoding of what was read |
| Eeprom.RecordText | src/apctest.c:2177-2202 | a record is its command, its locale, the digits of number and size, and number times size characters |
| Eeprom.SelectedConcat | src/apctest.c:2190-2193 | exactly the records of the wanted locale and those of locale '4' are selected, in order |
| Eeprom.CommandTable.ParseItem | src/apctest.c:2179-2201 | one turn of the loop: a wanted record is stored in the next entry, any other item is skipped whole, and only the end of the string ends the loop |
| Eeprom.CommandTable.ParseEepromCmds | src/apctest.c:2169-2202 | on every well-formed string whose selection fits, the table holds exactly the selected records, in order, and the loop ends at the end of the string |
| Config.ReadsDirective | src/lib/apcconfig.c:490-520 | indentation, the gap after the key and the case of the key do not change what a line says |
| Config.NoDirective | src/lib/apcconfig.c:490-499 | blank lines and comments say nothing, however indented |
| Config.LastLineWins | src/lib/apcconfig.c:656-665 | a field ends as the last line that sets it says, whatever other lines do |
| Config.UnsetStays | src/lib/apcconfig.c:656-665 | a field no line sets stays as it was |
| Config.OnlyDirectivesCount | src/lib/apcconfig.c:656-665 | files with the same directives in the same order give the same settings and the same number of errors |
| Scanning.NumberReadsBack | src/lib/apcconfig.c:289-298 | a printed number is read back whatever follows it |
| Scanning.NegativeReadsBack | src/lib/apcconfig.c:289-298 | so is a negative one |
| Config.TextReadsBack | src/lib/apcconfig.c:387-406 | a string value loses a comment and trailing white space, and nothing else |
| Config.FindName | src/lib/apcconfig.c:300-385 | the first name equal in whatever case, or none |
| Config.UpsConfig.MatchInt | src/lib/apcconfig.c:289-298 | a value that begins with a printed number, positive or negative, stores that number and changes no other field; one that begins with something else fails and changes nothing; an empty one touches no other field |
| Config.UpsConfig.MatchName | src/lib/apcconfig.c:300-385 | the position of the first name equal to the value's first word in whatever case is stored, and no other field changes; an unknown name fails and changes nothing |
| Config.UpsConfig.MatchStr | src/lib/apcconfig.c:387-406 | the text up to a comment, without white space behind it and cut to the field's size, is stored, and no other field changes |
| Config.RaiseKey | src/lib/apcconfig.c:504-506 | the key is raised in place, and nothing behind it changes |
| Config.CutKey | src/lib/apcconfig.c:512-514 | terminators replace the white space behind the key |
| Config.CutStrings | src/lib/apcconfig.c:490-526 | the strings that then stand in the buffer are the key and the value of the directive |
| Config.UpsConfig.ParseConfig | src/lib/apcconfig.c:465-555 | a line cut in place has exactly the effect its directive has: set, ignored or rejected |
| Config.UpsConfig.CheckForConfig | src/lib/apcconfig.c:626-665 | a file of any length ends in the settings and the error count its lines give, one after another; a field whose last line left it uninitialised is not known |
| ConfigKeys.Alone | src/lib/apcconfig.c:135-215 | in the daemon's table an entry is the only one with its key and the only one that sets its field, but for the two keys of the poll time |
| ConfigFile.NumberSticks | src/lib/apcconfig.c:289-298 | after apcupsd.conf is read, the field of a key with a number (among them BATTERYLEVEL, MINUTES, TIMEOUT, ONBATTERYDELAY, EVENTSFILEMAX, KILLDELAY) holds the number on the last line with that key, however the line is laid out and whatever the rest of the file holds |
| ConfigFile.TextSticks | src/lib/apcconfig.c:387-406 | likewise the field of a key with a text holds the text on that line up to a comment, cut to the field's size |
| ConfigFile.ChoiceSticks | src/lib/apcconfig.c:300-385 | likewise the field of a key with a name holds the position of the first equal name |

## Left out

- Machine: readings are whole numbers; a string as a reading would end the program through `lval`.
- Machine: `Start` is taken as registered from its first step on, so no update falls between `OnEnter` and `regclient`.
- Machine: time is in microseconds and does not run backwards; `time()` is read once per handler step.
- Machine: `last_offbatt_time`, `LastSelfTest`, the DTR call for simple cables, scripts run by events, and log texts.
- MachineClass.UpsStateMachine.Body: takes the number of turns of the loop as a parameter, because the loop itself ends only on a quit event.
- MachineClass.UpsStateMachine: its destruction, including the teardown of timers and queued events.
- Timers.NoneBeginsAfterStop: says nothing about timeouts already posted when `stop` is called; those stay queued.
- Queues: `clear` and `empty`, and aborted waits other than timeouts.
- Readings: the mutex of `UpsInfo`, taken as making each call one step.
- LockFiles.ExcludesExactlyIfSafe: speaks of runs in which nobody dies; a death is the start of another run, with the file the dead process left.
- LockFiles: in the interleaved part, hibernate and shutdown modes, failing system calls other than short writes, and an unset lock path. A text without terminator is read as if no digit followed it in the buffer, and numbers beyond an int as they are.
- Wire.NetRecv: a `select()` interrupted by a signal, where the program tests a stale count, and byte order other than the network's.
- Wire.SessionRoundTrip: excludes messages longer than 32767 bytes, whose length does not fit the frame.
- Status.StatusClient.FillBuffer: starts after the request has been sent; opening connections, the request dispatch and the caching of hosts are not modelled.
- Status: the formatting of the single status lines, which is a long list of prints; texts are taken as formatted.
- EventLog.OutputEvents: promises nothing for files with terminators inside; a record that starts with one ends the session early.
- EventLog.TrimEventFile: promises the new contents only without I/O errors; file locks and the logging of errors are left out.
- FieldLines.ParseField: requires a line that is not a single word, because the program then scans behind the terminator; the field list is a plain append.
- Eeprom.CommandTable.ParseEepromCmds: requires at most 15 selected records with at most 50 characters of values; the program does not check.
- Config: a directive read by `sscanf` with an empty value, where the program uses an uninitialised variable; its field is not known then, nor whether the line counts as an error, until a later line sets the field.
- Config.UpsConfig.MatchName: stores the position of the name in its directive's list, where the program copies the entry's type, name and long name.
- Config: the check of the version line (a warning only), the defaults, the post-processing after the file is read, numbers outside the range of an int, and the value of FILENAME_MAX (taken as 4096).
- Real threads, sockets, files, signals, syslog and child processes: replaced by steps in any order, by partial transfers and by an event log.
- The `#if 0` code, the drivers, SNMP and USB, the CGI pages, gapcmon, powerflute and the menus of apctest: they repeat simpler versions of the above or are not compiled.
