/** `aqueue`: a FIFO shared by any number of producers and consumers under one mutex and one
    condition variable, as a step system over all interleavings. */
module Queues {
  import opened Lists

  /** A thread inside `enqueue`. */
  datatype Producer<T> =
    | Outside
    | Locked(elem: T)   // holds the mutex, has not appended
    | Appended          // holds the mutex, has appended
    | Unlocked          // has released the mutex, has not signalled

  /** A thread inside `dequeue`. */
  datatype Consumer =
    | Away
    | Testing           // holds the mutex, about to test for an empty queue
    | Waiting           // inside pthread_cond_wait or pthread_cond_timedwait
    | Woken             // woken, wants the mutex back
    | Expired           // its time is up, wants the mutex back to return false

  datatype Holder = Nobody | ProducerHolds(i: nat) | ConsumerHolds(j: nat)

  /** `entered` and `taken` are the elements appended and dequeued so far, in order. */
  datatype State<T> = State(
    mutex: Holder,
    items: seq<T>,
    producers: seq<Producer<T>>,
    consumers: seq<Consumer>,
    entered: seq<T>,
    taken: seq<T>)

  datatype Action<T> =
    | Lock(i: nat, elem: T)
    | Append(i: nat)
    | Unlock(i: nat)
    | Signal(i: nat, j: nat)  // wakes consumer j if it waits
    | Enter(j: nat)
    | Test(j: nat)            // takes the first element, or goes to sleep
    | WakeUp(j: nat)          // a spurious wake-up
    | Expire(j: nat)
    | Reacquire(j: nat)

  predicate Sleeps(c: Consumer) { c.Waiting? }
  predicate Awake(c: Consumer) { c.Testing? || c.Woken? }
  predicate Owes<T>(p: Producer<T>) { p.Appended? || p.Unlocked? }

  function Count<X>(s: seq<X>, f: X -> bool): nat {
    if s == [] then 0 else Count(s[..|s| - 1], f) + (if f(s[|s| - 1]) then 1 else 0)
  }

  /** pthread_cond_signal wakes a waiting thread, if there is one. */
  predicate MayWake(cs: seq<Consumer>, j: nat) {
    (j < |cs| && cs[j].Waiting?) || Count(cs, Sleeps) == 0
  }

  predicate Enabled<T>(s: State<T>, a: Action<T>) {
    match a
    case Lock(i, _) => i < |s.producers| && s.producers[i].Outside? && s.mutex.Nobody?
    case Append(i) => i < |s.producers| && s.producers[i].Locked?
    case Unlock(i) => i < |s.producers| && s.producers[i].Appended?
    case Signal(i, j) => i < |s.producers| && s.producers[i].Unlocked? && MayWake(s.consumers, j)
    case Enter(j) => j < |s.consumers| && s.consumers[j].Away? && s.mutex.Nobody?
    case Test(j) => j < |s.consumers| && s.consumers[j].Testing?
    case WakeUp(j) => j < |s.consumers| && s.consumers[j].Waiting?
    case Expire(j) => j < |s.consumers| && s.consumers[j].Waiting?
    case Reacquire(j) =>
      j < |s.consumers| && (s.consumers[j].Woken? || s.consumers[j].Expired?) && s.mutex.Nobody?
  }

  function Step<T>(s: State<T>, a: Action<T>): State<T>
    requires Enabled(s, a)
  {
    match a
    case Lock(i, elem) =>
      s.(mutex := ProducerHolds(i), producers := s.producers[i := Locked(elem)])
    case Append(i) =>
      var e := s.producers[i].elem;
      s.(items := s.items + [e], entered := s.entered + [e], producers := s.producers[i := Appended])
    case Unlock(i) => s.(mutex := Nobody, producers := s.producers[i := Unlocked])
    case Signal(i, j) =>
      s.(producers := s.producers[i := Outside],
         consumers := if j < |s.consumers| && s.consumers[j].Waiting?
                      then s.consumers[j := Woken] else s.consumers)
    case Enter(j) => s.(mutex := ConsumerHolds(j), consumers := s.consumers[j := Testing])
    case Test(j) =>
      if s.items == [] then s.(mutex := Nobody, consumers := s.consumers[j := Waiting])
      else s.(mutex := Nobody, items := s.items[1..], taken := s.taken + [s.items[0]],
              consumers := s.consumers[j := Away])
    case WakeUp(j) => s.(consumers := s.consumers[j := Woken])
    case Expire(j) => s.(consumers := s.consumers[j := Expired])
    case Reacquire(j) =>
      if s.consumers[j].Woken? then s.(mutex := ConsumerHolds(j), consumers := s.consumers[j := Testing])
      else s.(consumers := s.consumers[j := Away])
  }

  function Next<T>(s: State<T>, a: Action<T>): State<T> { if Enabled(s, a) then Step(s, a) else s }

  function Run<T>(s: State<T>, run: seq<Action<T>>): State<T>
    decreases |run|
  {
    if run == [] then s else Next(Run(s, run[..|run| - 1]), run[|run| - 1])
  }

  function Init<T>(producers: nat, consumers: nat): State<T> {
    State(Nobody, [], seq(producers, _ => Outside), seq(consumers, _ => Away), [], [])
  }

  lemma {:induction false} CountUpdate<X>(s: seq<X>, i: nat, x: X, f: X -> bool)
    requires i < |s|
    ensures Count(s[i := x], f) == Count(s, f) - (if f(s[i]) then 1 else 0) + (if f(x) then 1 else 0)
  {
    var n := |s| - 1;
    if i < n {
      CountUpdate(s[..n], i, x, f);
      assert s[i := x][..n] == s[..n][i := x];
    } else {
      assert s[i := x][..n] == s[..n];
    }
  }

  lemma {:induction false} CountSome<X>(s: seq<X>, f: X -> bool)
    requires Count(s, f) > 0
    ensures exists i :: 0 <= i < |s| && f(s[i])
  {
    if !f(s[|s| - 1]) {
      CountSome(s[..|s| - 1], f);
      var i :| 0 <= i < |s| - 1 && f(s[..|s| - 1][i]);
      assert f(s[i]);
    }
  }

  lemma {:induction false} CountNone<X>(s: seq<X>, f: X -> bool)
    requires forall i :: 0 <= i < |s| ==> !f(s[i])
    ensures Count(s, f) == 0
  {
    if s != [] { CountNone(s[..|s| - 1], f); }
  }

  /** The mutex has one holder, and says who. */
  predicate Exclusive<T>(s: State<T>) {
    && (forall i :: 0 <= i < |s.producers| ==>
          (s.producers[i].Locked? || s.producers[i].Appended? <==> s.mutex == ProducerHolds(i)))
    && (forall j :: 0 <= j < |s.consumers| ==>
          (s.consumers[j].Testing? <==> s.mutex == ConsumerHolds(j)))
  }

  /** While anyone sleeps, every element in the queue is accounted for by a producer that has yet to
      signal or by a consumer that is awake. */
  predicate NoLostWakeup<T>(s: State<T>) {
    Count(s.consumers, Sleeps) > 0 ==>
      |s.items| <= Count(s.producers, Owes) + Count(s.consumers, Awake)
  }

  ghost predicate Conserved<T>(s: State<T>) { s.entered == s.taken + s.items }

  lemma ExclusiveStep<T>(s: State<T>, a: Action<T>)
    requires Exclusive(s)
    ensures Exclusive(Next(s, a))
  {
  }

  lemma WakeupProducer<T>(s: State<T>, a: Action<T>)
    requires NoLostWakeup(s) && Enabled(s, a)
    requires a.Lock? || a.Append? || a.Unlock? || a.Signal?
    ensures NoLostWakeup(Step(s, a))
  {
    CountUpdate(s.producers, a.i, Step(s, a).producers[a.i], Owes);
    if a.Signal? && a.j < |s.consumers| && s.consumers[a.j].Waiting? {
      CountUpdate(s.consumers, a.j, Woken, Sleeps);
      CountUpdate(s.consumers, a.j, Woken, Awake);
    }
  }

  lemma WakeupConsumer<T>(s: State<T>, a: Action<T>)
    requires NoLostWakeup(s) && Enabled(s, a)
    requires a.Enter? || a.Test? || a.WakeUp? || a.Expire? || a.Reacquire?
    ensures NoLostWakeup(Step(s, a))
  {
    var c := Step(s, a).consumers[a.j];
    CountUpdate(s.consumers, a.j, c, Sleeps);
    CountUpdate(s.consumers, a.j, c, Awake);
  }

  ghost predicate Inv<T>(s: State<T>) { Exclusive(s) && NoLostWakeup(s) && Conserved(s) }

  lemma {:induction false} Reachable<T>(producers: nat, consumers: nat, run: seq<Action<T>>)
    ensures var s := Run(Init<T>(producers, consumers), run);
            Inv(s) && |s.producers| == producers && |s.consumers| == consumers
    decreases |run|
  {
    if run == [] {
      CountNone(Init<T>(producers, consumers).consumers, Sleeps);
    } else {
      var s, a := Run(Init<T>(producers, consumers), run[..|run| - 1]), run[|run| - 1];
      Reachable(producers, consumers, run[..|run| - 1]);
      ExclusiveStep(s, a);
      if Enabled(s, a) {
        if a.Lock? || a.Append? || a.Unlock? || a.Signal? { WakeupProducer(s, a); } else { WakeupConsumer(s, a); }
      }
    }
  }

  /** In every reachable state the elements enqueued are those dequeued followed by those queued. */
  lemma NothingLostOrReordered<T>(producers: nat, consumers: nat, run: seq<Action<T>>)
    ensures var s := Run(Init<T>(producers, consumers), run); s.entered == s.taken + s.items
  {
    Reachable(producers, consumers, run);
  }

  /** Never two threads in the critical section. */
  lemma MutualExclusion<T>(producers: nat, consumers: nat, run: seq<Action<T>>)
    ensures var s := Run(Init<T>(producers, consumers), run);
            && (forall i, i' :: 0 <= i < i' < |s.producers| ==>
                  !(s.producers[i].Locked? || s.producers[i].Appended?)
                  || !(s.producers[i'].Locked? || s.producers[i'].Appended?))
            && (forall j, j' :: 0 <= j < j' < |s.consumers| ==>
                  !s.consumers[j].Testing? || !s.consumers[j'].Testing?)
  {
    Reachable(producers, consumers, run);
  }

  /** With any number of consumers: while one sleeps, there are no more elements queued than producers
      that have yet to signal and consumers that are awake. */
  lemma SleepersAccountedFor<T>(producers: nat, consumers: nat, run: seq<Action<T>>, j: nat)
    requires var s := Run(Init<T>(producers, consumers), run);
             j < |s.consumers| && s.consumers[j].Waiting?
    ensures var s := Run(Init<T>(producers, consumers), run);
            |s.items| <= Count(s.producers, Owes) + Count(s.consumers, Awake)
  {
    Reachable(producers, consumers, run);
    var s := Run(Init<T>(producers, consumers), run);
    CountUpdate(s.consumers, j, Away, Sleeps);
  }

  /** A single consumer sleeps on a non-empty queue only while some producer has appended and not
      yet signalled. */
  lemma SleepsOnlyWhileOwed<T>(producers: nat, run: seq<Action<T>>) returns (i: nat)
    requires var s := Run(Init<T>(producers, 1), run);
             s.consumers == [Waiting] && s.items != []
    ensures var s := Run(Init<T>(producers, 1), run);
            i < |s.producers| && (s.producers[i].Appended? || s.producers[i].Unlocked?)
  {
    Reachable(producers, 1, run);
    var s := Run(Init<T>(producers, 1), run);
    assert s.consumers[..0] == [];
    assert Count(s.consumers, Sleeps) == 1 && Count(s.consumers, Awake) == 0;
    CountSome(s.producers, Owes);
    i :| 0 <= i < |s.producers| && Owes(s.producers[i]);
  }

  /** The queue between lock and unlock: an `alist` used first in, first out. */
  class AQueue<T> {
    const queue: AList<T>

    ghost predicate Valid()
      reads this, queue, queue.nodes
    {
      queue.Valid()
    }

    constructor ()
      ensures Valid() && queue.Contents() == [] && fresh(queue)
    {
      queue := new AList();
    }

    method Enqueue(elem: T)
      requires Valid()
      modifies queue, queue.nodes
      ensures Valid() && queue.Contents() == old(queue.Contents()) + [elem]
    {
      var _ := queue.Append(elem);
    }

    /** The body of `dequeue` once the wait loop has ended with rc == 0. */
    method TakeFirst() returns (elem: T)
      requires Valid() && !queue.Empty()
      modifies queue, queue.nodes
      ensures Valid() && old(queue.Contents()) == [elem] + queue.Contents()
    {
      elem := queue.head.elem;
      queue.RemoveFirst();
    }
  }
}
