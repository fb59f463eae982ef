/** base/CountDownLatch.cpp: threads that wait, and threads that count down, under one mutex. Each
    critical section is one step; any number of threads take part. */
module CountDownLatches {
  /** Where a thread stands in wait(): waiting on the condition variable, or returned. A thread not in
      the map has not called wait(). */
  datatype Waiter = Parked(signalled: bool) | Returned

  datatype Latch = Latch(count: int, waiters: map<nat, Waiter>, downs: nat)

  /** CallWait: lock and test the count for the first time. WakeUp: a waiting thread gets the lock
      back, signalled or spuriously, and tests again. */
  datatype Step = CallWait(thread: nat) | WakeUp(thread: nat) | CountDown

  function Start(count: int): Latch {
    Latch(count, map[], 0)
  }

  /** The loop of wait(), with the lock held. */
  function Test(l: Latch, thread: nat): Latch {
    l.(waiters := l.waiters[thread := if l.count > 0 then Parked(false) else Returned])
  }

  function NotifyAll(l: Latch): Latch {
    l.(waiters := map t | t in l.waiters :: if l.waiters[t].Parked? then Parked(true) else Returned)
  }

  function Next(l: Latch, s: Step): Latch {
    match s
    case CallWait(t) => if t in l.waiters && l.waiters[t].Parked? then l else Test(l, t)
    case WakeUp(t) => if t in l.waiters && l.waiters[t].Parked? then Test(l, t) else l
    case CountDown =>
      var d := l.(count := l.count - 1, downs := l.downs + 1);
      if d.count == 0 then NotifyAll(d) else d
  }

  function Run(count: int, steps: seq<Step>): Latch {
    if steps == [] then Start(count)
    else Next(Run(count, steps[..|steps| - 1]), steps[|steps| - 1])
  }

  function CountDowns(steps: seq<Step>): nat {
    if steps == [] then 0
    else CountDowns(steps[..|steps| - 1]) + if steps[|steps| - 1].CountDown? then 1 else 0
  }

  /** A waiting thread has been signalled exactly if the count is used up; one has returned only if it is. */
  ghost predicate Sound(initial: int, l: Latch) {
    && l.count == initial - l.downs
    && (forall t :: t in l.waiters && l.waiters[t].Parked? ==> (l.waiters[t].signalled <==> l.count <= 0))
    && (forall t :: t in l.waiters && l.waiters[t].Returned? ==> l.count <= 0)
  }

  lemma {:induction false} RunIsSound(initial: int, steps: seq<Step>)
    ensures Sound(initial, Run(initial, steps))
    ensures Run(initial, steps).downs == CountDowns(steps)
  {
    if steps != [] {
      RunIsSound(initial, steps[..|steps| - 1]);
    }
  }

  /** In every run, from any initial count: a waiting thread has been signalled exactly when there have been
      as many countDown calls as the count, so no wake-up is lost and none comes early; and signalled, or
      awake by itself, it returns at its next step exactly then. */
  lemma NoLostWakeup(initial: int, steps: seq<Step>, t: nat)
    requires t in Run(initial, steps).waiters && Run(initial, steps).waiters[t].Parked?
    ensures var l := Run(initial, steps);
      && (l.waiters[t].signalled <==> CountDowns(steps) >= initial)
      && (Next(l, WakeUp(t)).waiters[t].Returned? <==> CountDowns(steps) >= initial)
  {
    RunIsSound(initial, steps);
  }

  /** A call of wait() returns at once exactly when the count has been used up; otherwise the thread waits,
      unsignalled. */
  lemma WaitReturnsAtOnceIff(initial: int, steps: seq<Step>, t: nat)
    requires t in Run(initial, steps).waiters ==> Run(initial, steps).waiters[t].Returned?
    ensures Next(Run(initial, steps), CallWait(t)).waiters[t]
         == if CountDowns(steps) >= initial then Returned else Parked(false)
  {
    RunIsSound(initial, steps);
  }

  /** Nobody else is affected: a thread that has returned stays returned until it calls wait() again, one that
      waits stays in wait() until it wakes, and a step that is not possible changes nothing. */
  lemma OthersUnaffected(l: Latch, t: nat, s: Step)
    ensures t !in l.waiters && s != CallWait(t) ==> t !in Next(l, s).waiters
    ensures t in l.waiters && l.waiters[t].Returned? && s != CallWait(t) ==>
              t in Next(l, s).waiters && Next(l, s).waiters[t].Returned?
    ensures t in l.waiters && l.waiters[t].Parked? && s != WakeUp(t) ==>
              t in Next(l, s).waiters && Next(l, s).waiters[t].Parked?
    ensures t in l.waiters && l.waiters[t].Parked? ==> Next(l, CallWait(t)) == l
    ensures t !in l.waiters || l.waiters[t].Returned? ==> Next(l, WakeUp(t)) == l
  {
  }

  /** The threads that have called wait() are those that wait or have returned. */
  lemma {:induction false} CallersKnown(initial: int, steps: seq<Step>, t: nat)
    ensures t in Run(initial, steps).waiters <==> CallWait(t) in steps
  {
    if steps != [] {
      var front := steps[..|steps| - 1];
      CallersKnown(initial, front, t);
      assert steps == front + [steps[|steps| - 1]];
    }
  }

  /** wait() has returned to a thread only after as many countDown calls as the initial count. */
  lemma ReturnsOnlyAfterCount(initial: int, steps: seq<Step>, t: nat)
    requires t in Run(initial, steps).waiters && Run(initial, steps).waiters[t].Returned?
    ensures CountDowns(steps) >= initial
  {
    RunIsSound(initial, steps);
  }

  /** The mutable object. wait() blocks, so only its test and countDown's section appear here. */
  class CountDownLatch {
    var count: int
    ghost var downs: nat

    constructor (count: int)
      ensures View(map[]) == Start(count)
    {
      this.count := count;
      downs := 0;
    }

    ghost function View(waiters: map<nat, Waiter>): Latch
      reads this
    {
      Latch(count, waiters, downs)
    }

    /** Whether a thread that holds the lock goes on waiting. */
    predicate MustWait()
      reads this
      ensures MustWait() <==> Test(View(map[]), 0).waiters[0].Parked?
    {
      count > 0
    }

    /** notifyAll says whether every waiting thread is signalled. */
    method CountDown(ghost waiters: map<nat, Waiter>) returns (notifyAll: bool)
      modifies this
      ensures count == old(count) - 1 && downs == old(downs) + 1 && (notifyAll <==> count == 0)
      ensures var l := View(waiters); (if notifyAll then NotifyAll(l) else l) == Next(old(View(waiters)), Step.CountDown)
    {
      count := count - 1;
      downs := downs + 1;
      notifyAll := count == 0;
    }
  }
}
