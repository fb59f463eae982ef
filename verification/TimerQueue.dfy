/** The objects of XNet/Timer.h, XNet/Timer.cpp, XNet/TimerQueue.h and XNet/TimerQueue.cpp. The
    queue's methods run on the loop's thread; callbacks are assumed not to re-enter the queue. */
module TimerQueues {
  import TM = TimerModel
  import TR = TimerRuns

  class Timer {
    const address: nat          // where the object lives; orders entries with equal keys
    const interval: int         // m_interval
    var expiration: int         // m_expiration
    var repeatCount: int        // m_repeatCount
    var canceled: bool          // m_canceled

    constructor (address: nat, when: int, interval: int, repeatCount: int := -1)
      ensures View() == TR.NewTimer(address, TR.Birth(when, interval, repeatCount))
    {
      this.address := address;
      this.interval := interval;
      this.expiration := when;
      this.repeatCount := repeatCount;
      this.canceled := false;
    }

    ghost function View(): TM.Timer
      reads this
    {
      TM.Timer(address, expiration, interval, repeatCount, canceled)
    }

    /** called says whether the callback ran. */
    method Run() returns (called: bool)
      modifies this`expiration, this`repeatCount
      ensures View() == TM.Run(old(View()))
      ensures called == !old(canceled)
    {
      if canceled {
        return false;
      }
      called := true;
      if repeatCount != -1 {
        repeatCount := repeatCount - 1;
        if repeatCount == 0 {
          return;
        }
      }
      expiration := expiration + interval;
    }

    method Cancel(off: bool)
      modifies this`canceled
      ensures canceled == off
    {
      canceled := off;
    }
  }

  /** std::pair<Timestamp, Timer*>. */
  datatype Entry = Entry(key: int, timer: Timer)

  class TimerQueue {
    var timers: seq<Entry>           // m_timers, in the set's order
    ghost var log: seq<TR.Firing>    // the callbacks run so far

    constructor ()
      ensures Valid() && View() == [] && log == []
    {
      timers := [];
      log := [];
    }

    /** A timer object has one entry. */
    ghost predicate Valid()
      reads this
    {
      OneEach(timers)
    }

    static ghost predicate OneEach(entries: seq<Entry>) {
      forall i, j :: 0 <= i < j < |entries| ==> entries[i].timer != entries[j].timer
    }

    ghost function Objects(): set<Timer>
      reads this
    {
      set e | e in timers :: e.timer
    }

    ghost function View(): seq<TM.Slot>
      reads this, Objects()
    {
      SlotsOf(timers)
    }

    static ghost function SlotsOf(entries: seq<Entry>): (r: seq<TM.Slot>)
      reads set e | e in entries :: e.timer
      ensures |r| == |entries|
      ensures forall i :: 0 <= i < |r| ==> r[i] == TM.Slot(entries[i].key, entries[i].timer.View())
    {
      seq(|entries|, i requires 0 <= i < |entries| reads set e | e in entries :: e.timer =>
        TM.Slot(entries[i].key, entries[i].timer.View()))
    }

    /** m_timers.erase(iterator). */
    method EraseAt(p: nat)
      requires Valid() && p < |timers|
      modifies this`timers
      ensures Valid() && Objects() == old(Objects()) - {old(timers[p].timer)}
      ensures View() == old(View())[..p] + old(View())[p + 1..]
    {
      ghost var was := timers;
      timers := timers[..p] + timers[p + 1..];
      assert was == was[..p] + [was[p]] + was[p + 1..];
    }

    /** The body of doTimer's loop on a due entry; next is where the iterator stands afterwards. */
    method RunAt(iter: nat, now: int) returns (next: nat)
      requires Valid() && iter < |timers|
      modifies this`timers, this`log, timers[iter].timer
      ensures Valid() && Objects() <= old(Objects())
      ensures Snapshot() == TR.Visit(old(Snapshot()), iter, now)
      ensures next == iter + |TM.KeptOf(old(View())[iter])|
    {
      ghost var slots := View();
      var timer := timers[iter].timer;
      var called := timer.Run();
      if called {
        log := log + [TR.Firing(timer.address, now)];
      }
      assert View() == slots[iter := TM.After(slots[iter])];
      if timer.repeatCount == 0 {
        EraseAt(iter);
        next := iter;
      } else {
        next := iter + 1;
      }
    }

    /** One turn of the loop leaves the rest of the walk to do. */
    method StepAt(iter: nat, now: int) returns (next: nat)
      requires Valid() && iter < |timers| && timers[iter].timer.expiration < now
      modifies this`timers, this`log, timers[iter].timer
      ensures Valid() && Objects() <= old(Objects())
      ensures next <= |timers| && |timers| - next < old(|timers|) - iter
      ensures TR.Walk(Snapshot(), next, now) == TR.Walk(old(Snapshot()), iter, now)
    {
      ghost var q := Snapshot();
      assert TM.Due(q.slots[iter], now);
      ghost var v, k := TR.WalkTurn(q, iter, now);
      next := RunAt(iter, now);
      assert Snapshot() == v && next == k && |timers| == |v.slots|;
    }

    /** The part of TimerRuns' state that doTimer touches. */
    ghost function Snapshot(): TR.Queue
      reads this, Objects()
    {
      TR.Queue(View(), log, map[], {})
    }

    /** The walk of doTimer, erasing while it iterates. */
    method DoTimer(now: int)
      requires Valid()
      modifies this, Objects()
      ensures Valid() && Objects() <= old(Objects())
      ensures var p := TM.DoTimer(old(View()), now);
              View() == p.kept && log == old(log) + TR.Stamp(p.fired, now)
    {
      ghost var q := Snapshot();
      TR.WalkIsTick(q, now);
      var iter := 0;
      while iter < |timers|
        invariant 0 <= iter <= |timers|
        invariant Valid() && Objects() <= old(Objects())
        invariant TR.Walk(Snapshot(), iter, now) == TR.Walk(q, 0, now)
        decreases |timers| - iter
      {
        if timers[iter].timer.expiration < now {
          iter := StepAt(iter, now);
        } else {
          break;
        }
      }
      TR.WalkEnds(Snapshot(), iter, now);
    }

    /** insert: the entry goes where the set's order puts it. The timer is a new object. */
    method AddTimerInLoop(timer: Timer)
      requires Valid() && timer !in Objects()
      modifies this`timers
      ensures Valid() && Objects() == old(Objects()) + {timer}
      ensures View() == TM.Insert(old(View()), TM.Slot(timer.expiration, timer.View()))
    {
      var p := FindPlace(timer);
      InsertAt(p, timer);
    }

    method InsertAt(p: nat, timer: Timer)
      requires Valid() && timer !in Objects() && p <= |timers|
      modifies this`timers
      ensures Valid() && Objects() == old(Objects()) + {timer}
      ensures View() == old(View())[..p] + [TM.Slot(timer.expiration, timer.View())] + old(View())[p..]
    {
      ghost var e := Entry(timer.expiration, timer);
      assert timers == timers[..p] + timers[p..];
      OneEachInsert(timers, p, e);
      SlotsInsert(timers, p, e);
      timers := timers[..p] + [Entry(timer.expiration, timer)] + timers[p..];
    }

    static lemma OneEachInsert(entries: seq<Entry>, p: nat, e: Entry)
      requires OneEach(entries) && p <= |entries|
      requires forall o :: o in entries ==> o.timer != e.timer
      ensures OneEach(entries[..p] + [e] + entries[p..])
    {
      var all := entries[..p] + [e] + entries[p..];
      forall i, j | 0 <= i < j < |all|
        ensures all[i].timer != all[j].timer
      {
        if j < p {
          assert all[i] == entries[i] && all[j] == entries[j];
        } else if j == p {
          assert all[i] == entries[i];
        } else if i == p {
          assert all[j] == entries[j - 1];
        } else if i < p {
          assert all[i] == entries[i] && all[j] == entries[j - 1];
        } else {
          assert all[i] == entries[i - 1] && all[j] == entries[j - 1];
        }
      }
    }

    static lemma SlotsConcat(a: seq<Entry>, b: seq<Entry>)
      ensures SlotsOf(a + b) == SlotsOf(a) + SlotsOf(b)
    {
    }

    static lemma SlotsInsert(entries: seq<Entry>, p: nat, e: Entry)
      requires p <= |entries|
      ensures SlotsOf(entries[..p] + [e] + entries[p..])
           == SlotsOf(entries)[..p] + [TM.Slot(e.key, e.timer.View())] + SlotsOf(entries)[p..]
    {
      SlotsConcat(entries[..p] + [e], entries[p..]);
      SlotsConcat(entries[..p], [e]);
      assert SlotsOf(entries[..p]) == SlotsOf(entries)[..p];
      assert SlotsOf(entries[p..]) == SlotsOf(entries)[p..];
    }

    /** The order std::set keeps: by key, then by address. */
    method FindPlace(timer: Timer) returns (p: nat)
      ensures p == TM.Place(View(), TM.Slot(timer.expiration, timer.View()))
    {
      ghost var s := TM.Slot(timer.expiration, timer.View());
      ghost var slots := View();
      p := 0;
      while p < |timers| &&
            (timers[p].key < timer.expiration
             || (timers[p].key == timer.expiration && timers[p].timer.address < timer.address))
        invariant p <= |timers|
        invariant TM.Place(slots, s) == p + TM.Place(slots[p..], s)
      {
        assert slots[p..][1..] == slots[p + 1..];
        p := p + 1;
      }
    }

    method RemoveTimerInLoop(timer: Timer)
      requires Valid() && AddressesIdentify(timer)
      modifies this`timers
      ensures Valid() && Objects() == old(Objects()) - {timer}
      ensures View() == TM.Remove(old(View()), timer.address)
    {
      ghost var slots := View();
      var iter := 0;
      while iter < |timers|
        invariant 0 <= iter <= |timers| && timers == old(timers)
        invariant forall i :: 0 <= i < iter ==> timers[i].timer != timer
      {
        if timers[iter].timer == timer {
          FoundAt(timer, iter);
          EraseAt(iter);
          return;
        }
        iter := iter + 1;
      }
      FoundAt(timer, |timers|);
    }

    method CancelTimerInLoop(timer: Timer, off: bool)
      requires Valid() && AddressesIdentify(timer)
      modifies Objects()
      ensures View() == TM.Cancel(old(View()), timer.address, off)
    {
      ghost var slots := View();
      var iter := 0;
      while iter < |timers|
        invariant 0 <= iter <= |timers| && View() == slots
        invariant forall i :: 0 <= i < iter ==> timers[i].timer != timer
      {
        if timers[iter].timer == timer {
          FoundAt(timer, iter);
          timer.Cancel(off);
          assert View() == slots[iter := slots[iter].(timer := slots[iter].timer.(canceled := off))];
          return;
        }
        iter := iter + 1;
      }
      FoundAt(timer, |timers|);
    }

    /** Different objects live at different addresses. */
    ghost predicate AddressesIdentify(timer: Timer)
      reads this
    {
      forall e :: e in timers && e.timer.address == timer.address ==> e.timer == timer
    }

    lemma FoundAt(timer: Timer, p: nat)
      requires Valid() && AddressesIdentify(timer) && p <= |timers|
      requires forall i :: 0 <= i < p ==> timers[i].timer != timer
      requires p < |timers| ==> timers[p].timer == timer
      ensures TM.Find(View(), timer.address) == p
    {
      var f := TM.Find(View(), timer.address);
      assert p < |timers| ==> View()[p].timer.id == timer.address;
      assert f < |timers| ==> timers[f] in timers;
    }
  }
}
