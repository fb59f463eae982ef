/** XNet/Timer.cpp and XNet/TimerQueue.cpp on values. Times are microseconds. The queue is a
    std::set of (insertion time, pointer) pairs; a timer's expiration moves on when it repeats,
    its key does not. */
module TimerModel {
  /** id is the timer's address, which breaks ties between equal keys. */
  datatype Timer = Timer(id: nat, expiration: int, interval: int, repeat: int, canceled: bool)

  datatype Slot = Slot(key: int, timer: Timer)

  /** Timer::run; the callback runs exactly when the timer is not canceled. */
  function Run(t: Timer): Timer {
    if t.canceled then t
    else if t.repeat != -1 then
      if t.repeat - 1 == 0 then t.(repeat := 0)
      else t.(repeat := t.repeat - 1, expiration := t.expiration + t.interval)
    else t.(expiration := t.expiration + t.interval)
  }

  predicate Due(s: Slot, now: int) {
    s.timer.expiration < now
  }

  // ----- the set -----

  /** std::pair's order on (key, pointer). */
  predicate Before(a: Slot, b: Slot) {
    a.key < b.key || (a.key == b.key && a.timer.id < b.timer.id)
  }

  predicate Sorted(slots: seq<Slot>) {
    forall i, j :: 0 <= i < j < |slots| ==> Before(slots[i], slots[j])
  }

  function Ids(slots: seq<Slot>): (r: seq<nat>)
    ensures |r| == |slots|
    ensures forall i :: 0 <= i < |slots| ==> r[i] == slots[i].timer.id
  {
    seq(|slots|, i requires 0 <= i < |slots| => slots[i].timer.id)
  }

  predicate Distinct(slots: seq<Slot>) {
    forall i, j :: 0 <= i < j < |slots| ==> slots[i].timer.id != slots[j].timer.id
  }

  /** Where std::set puts the entry. */
  function Place(slots: seq<Slot>, s: Slot): (p: nat)
    ensures p <= |slots|
    ensures forall i :: 0 <= i < p ==> Before(slots[i], s)
    ensures p < |slots| ==> !Before(slots[p], s)
  {
    if slots == [] || !Before(slots[0], s) then 0 else 1 + Place(slots[1..], s)
  }

  function Insert(slots: seq<Slot>, s: Slot): seq<Slot> {
    var p := Place(slots, s);
    slots[..p] + [s] + slots[p..]
  }

  /** The first entry with that pointer, or the end. */
  function Find(slots: seq<Slot>, id: nat): (p: nat)
    ensures p <= |slots|
    ensures forall i :: 0 <= i < p ==> slots[i].timer.id != id
    ensures p < |slots| ==> slots[p].timer.id == id
  {
    if slots == [] || slots[0].timer.id == id then 0 else 1 + Find(slots[1..], id)
  }

  function Remove(slots: seq<Slot>, id: nat): seq<Slot> {
    var p := Find(slots, id);
    if p < |slots| then slots[..p] + slots[p + 1..] else slots
  }

  function Cancel(slots: seq<Slot>, id: nat, off: bool): seq<Slot> {
    var p := Find(slots, id);
    if p < |slots| then slots[p := slots[p].(timer := slots[p].timer.(canceled := off))] else slots
  }

  /** The order is a strict total one on pairs: by key, and by address between equal keys. */
  lemma OrderOfPairs(a: Slot, b: Slot, c: Slot)
    ensures !Before(a, a)
    ensures Before(a, b) && Before(b, c) ==> Before(a, c)
    ensures a.key < b.key ==> Before(a, b) && !Before(b, a)
    ensures a.key == b.key && a.timer.id != b.timer.id ==> (Before(a, b) <==> a.timer.id < b.timer.id)
  {
  }

  lemma Rejoined(slots: seq<Slot>, p: nat, s: Slot)
    requires p <= |slots|
    ensures var all := slots[..p] + [s] + slots[p..];
      |all| == |slots| + 1 && all[p] == s && all[..p] + all[p + 1..] == slots
  {
  }

  lemma FindInserted(slots: seq<Slot>, p: nat, s: Slot)
    requires p <= |slots| && s.timer.id !in Ids(slots)
    ensures Find(slots[..p] + [s] + slots[p..], s.timer.id) == p
  {
    var all := slots[..p] + [s] + slots[p..];
    assert forall i :: 0 <= i < p ==> all[i] == slots[i] && slots[i].timer.id == Ids(slots)[i];
    assert all[p] == s;
  }

  /** Removing a timer that has just been added restores the set. */
  lemma AddThenRemove(slots: seq<Slot>, s: Slot)
    requires s.timer.id !in Ids(slots)
    ensures Remove(Insert(slots, s), s.timer.id) == slots
  {
    FindInserted(slots, Place(slots, s), s);
    Rejoined(slots, Place(slots, s), s);
  }

  /** Removing takes one entry, the timer's; a timer that is not in the set is not missed. */
  lemma RemovesOne(slots: seq<Slot>, id: nat)
    ensures id !in Ids(slots) ==> Remove(slots, id) == slots
    ensures id in Ids(slots) ==>
              exists p :: 0 <= p < |slots| && slots[p].timer.id == id && Remove(slots, id) == slots[..p] + slots[p + 1..]
  {
    var p := Find(slots, id);
    assert p < |slots| ==> Ids(slots)[p] == id;
  }

  /** Canceling sets the flag of the timer's entry, on or off, and changes nothing else. */
  lemma CancelSetsOne(slots: seq<Slot>, id: nat, off: bool)
    requires Distinct(slots)
    ensures |Cancel(slots, id, off)| == |slots|
    ensures forall i :: 0 <= i < |slots| ==>
              Cancel(slots, id, off)[i]
              == if slots[i].timer.id == id then slots[i].(timer := slots[i].timer.(canceled := off)) else slots[i]
  {
  }

  // ----- a timer by itself -----

  function RunTimes(t: Timer, n: nat): Timer {
    if n == 0 then t else Run(RunTimes(t, n - 1))
  }

  /** A timer with count c >= 1 is due c times, at its first expiration and then one interval apart; the last
      run leaves the expiration where it is. One with count -1 goes on for ever, and a canceled one never
      changes. */
  lemma {:induction false} RunsInTurn(t: Timer, n: nat)
    requires !t.canceled && (t.repeat == -1 || n <= t.repeat)
    ensures var r := RunTimes(t, n);
      && r.repeat == (if t.repeat == -1 then -1 else t.repeat - n)
      && r.expiration == t.expiration + t.interval * (if n > 0 && n == t.repeat then n - 1 else n)
      && r.id == t.id && r.interval == t.interval && !r.canceled
    ensures RunTimes(t.(canceled := true), n) == t.(canceled := true)
  {
    if n > 0 {
      RunsInTurn(t, n - 1);
      NextInterval(t.interval, n - 1);
    }
  }

  lemma NextInterval(interval: int, n: int)
    ensures interval * (n + 1) == interval * n + interval
  {
  }

  // ----- one pass of doTimer -----

  /** What is left in the set, and the timers whose callback ran, in order. */
  datatype Pass = Pass(kept: seq<Slot>, fired: seq<nat>)

  function After(s: Slot): Slot {
    s.(timer := Run(s.timer))
  }

  /** What the pass leaves of an entry it visits, and the callback it makes. */
  function KeptOf(s: Slot): seq<Slot> {
    if After(s).timer.repeat == 0 then [] else [After(s)]
  }

  function FiredBy(s: Slot): seq<nat> {
    if s.timer.canceled then [] else [s.timer.id]
  }

  function DoTimer(slots: seq<Slot>, now: int): Pass {
    if slots == [] || !Due(slots[0], now) then Pass(slots, [])
    else
      var rest := DoTimer(slots[1..], now);
      Pass(KeptOf(slots[0]) + rest.kept, FiredBy(slots[0]) + rest.fired)
  }

  /** k is the length of the longest prefix of due entries. */
  predicate DuePrefix(slots: seq<Slot>, now: int, k: nat) {
    && k <= |slots|
    && (forall i :: 0 <= i < k ==> Due(slots[i], now))
    && (k < |slots| ==> !Due(slots[k], now))
  }

  function DueCount(slots: seq<Slot>, now: int): (k: nat)
    ensures DuePrefix(slots, now, k)
  {
    if slots == [] || !Due(slots[0], now) then 0 else 1 + DueCount(slots[1..], now)
  }

  /** The entries whose count has not reached 0 after a run each, in order. */
  function Survivors(visited: seq<Slot>): seq<Slot> {
    if visited == [] then []
    else KeptOf(visited[0]) + Survivors(visited[1..])
  }

  /** The timers whose callback runs when each is run once, in order. */
  function Callers(visited: seq<Slot>): seq<nat> {
    if visited == [] then []
    else FiredBy(visited[0]) + Callers(visited[1..])
  }

  lemma Assoc<T>(a: seq<T>, b: seq<T>, c: seq<T>)
    ensures (a + b) + c == a + (b + c)
  {
  }

  /** A pass visits exactly the longest prefix of due entries, runs each once, erases exactly those
      whose count reached 0, and leaves the rest as they were. */
  lemma {:induction false} OnePass(slots: seq<Slot>, now: int)
    ensures var k := DueCount(slots, now);
      DoTimer(slots, now) == Pass(Survivors(slots[..k]) + slots[k..], Callers(slots[..k]))
  {
    if slots == [] || !Due(slots[0], now) {
      assert slots[..0] == [] && [] + slots[0..] == slots;
    } else {
      OnePass(slots[1..], now);
      OneMoreVisited(slots, DueCount(slots[1..], now));
    }
  }

  lemma OneMoreVisited(slots: seq<Slot>, k: nat)
    requires k < |slots|
    ensures Survivors(slots[..k + 1]) + slots[k + 1..]
         == KeptOf(slots[0]) + (Survivors(slots[1..][..k]) + slots[1..][k..])
    ensures Callers(slots[..k + 1]) == FiredBy(slots[0]) + Callers(slots[1..][..k])
  {
    assert slots[..k + 1][1..] == slots[1..][..k];
    assert slots[k + 1..] == slots[1..][k..];
    Assoc(KeptOf(slots[0]), Survivors(slots[1..][..k]), slots[1..][k..]);
  }

  /** What Survivors and Callers hold, entry by entry. */
  lemma {:induction false} VisitedEntries(visited: seq<Slot>)
    ensures forall s :: s in Survivors(visited) <==> exists v :: v in visited && s == After(v) && s.timer.repeat != 0
    ensures forall id :: id in Callers(visited) <==> exists v :: v in visited && id == v.timer.id && !v.timer.canceled
  {
    if visited != [] {
      VisitedEntries(visited[1..]);
      assert visited == [visited[0]] + visited[1..];
    }
  }

  // ----- what the pass keeps -----

  predicate SamePlace(a: Slot, b: Slot) {
    a.key == b.key && a.timer.id == b.timer.id
  }

  /** Every entry left was there before, untouched or run once. */
  lemma {:induction false} KeptOrigin(slots: seq<Slot>, now: int, s: Slot)
    requires s in DoTimer(slots, now).kept
    ensures exists o :: o in slots && SamePlace(s, o) && (s == o || (s == After(o) && s.timer.repeat != 0 && Due(o, now)))
  {
    if slots != [] && Due(slots[0], now) && s in DoTimer(slots[1..], now).kept {
      KeptOrigin(slots[1..], now, s);
    }
  }

  lemma {:induction false} PassKeepsOrder(slots: seq<Slot>, now: int)
    requires Sorted(slots)
    ensures Sorted(DoTimer(slots, now).kept)
  {
    if slots != [] && Due(slots[0], now) {
      PassKeepsOrder(slots[1..], now);
      var rest := DoTimer(slots[1..], now).kept;
      forall i | 0 <= i < |rest|
        ensures Before(After(slots[0]), rest[i])
      {
        KeptOrigin(slots[1..], now, rest[i]);
      }
    }
  }

  lemma {:induction false} PassKeepsDistinct(slots: seq<Slot>, now: int)
    requires Distinct(slots)
    ensures Distinct(DoTimer(slots, now).kept)
  {
    if slots != [] && Due(slots[0], now) {
      PassKeepsDistinct(slots[1..], now);
      var rest := DoTimer(slots[1..], now).kept;
      forall i | 0 <= i < |rest|
        ensures rest[i].timer.id != slots[0].timer.id
      {
        KeptOrigin(slots[1..], now, rest[i]);
      }
    }
  }

  lemma InsertKeepsOrder(slots: seq<Slot>, s: Slot)
    requires Sorted(slots) && s.timer.id !in Ids(slots)
    ensures Sorted(Insert(slots, s))
  {
    var p := Place(slots, s);
    forall i | p <= i < |slots|
      ensures Before(s, slots[i])
    {
      assert slots[i].timer.id == Ids(slots)[i];
      assert p < i ==> Before(slots[p], slots[i]);
      assert slots[p].timer.id == Ids(slots)[p];
    }
  }

  // ----- when a pass is complete -----

  /** Every due timer is visited. */
  predicate Complete(slots: seq<Slot>, now: int) {
    forall i :: 0 <= i < |slots| && Due(slots[i], now) ==> i < DueCount(slots, now)
  }

  /** Timers wait behind one that is not due exactly when the pass misses some. */
  lemma CompleteIff(slots: seq<Slot>, now: int)
    ensures Complete(slots, now) <==> forall i, j :: 0 <= i < j < |slots| && Due(slots[j], now) ==> Due(slots[i], now)
  {
    var k := DueCount(slots, now);
    if !Complete(slots, now) {
      var j :| 0 <= j < |slots| && Due(slots[j], now) && j >= k;
      assert !Due(slots[k], now);
    }
  }

  /** One-shot timers: count 1, never canceled, so the key is still the expiration. */
  predicate OneShot(slots: seq<Slot>) {
    forall s :: s in slots ==> s.key == s.timer.expiration && s.timer.repeat == 1 && !s.timer.canceled
  }

  lemma {:induction false} OneShotVisited(visited: seq<Slot>)
    requires OneShot(visited)
    ensures Survivors(visited) == [] && Callers(visited) == Ids(visited)
  {
    if visited != [] {
      OneShotVisited(visited[1..]);
      assert Ids(visited) == [visited[0].timer.id] + Ids(visited[1..]);
    }
  }

  lemma OneShotOrder(slots: seq<Slot>)
    requires Sorted(slots) && OneShot(slots)
    ensures forall i, j :: 0 <= i < j < |slots| ==> slots[i].timer.expiration <= slots[j].timer.expiration
  {
    forall i, j | 0 <= i < j < |slots|
      ensures slots[i].timer.expiration <= slots[j].timer.expiration
    {
      assert Before(slots[i], slots[j]) && slots[i] in slots && slots[j] in slots;
    }
  }

  /** Among one-shot timers the due ones come first. */
  lemma OneShotDue(slots: seq<Slot>, now: int, i: nat)
    requires Sorted(slots) && OneShot(slots) && i < |slots|
    ensures Due(slots[i], now) <==> i < DueCount(slots, now)
  {
    var k := DueCount(slots, now);
    OneShotOrder(slots);
    if i >= k {
      assert slots[k].timer.expiration <= slots[i].timer.expiration;
    }
  }

  /** A pass over one-shot timers fires exactly the due ones, in order of expiration, and leaves
      exactly the others. */
  lemma OneShotPass(slots: seq<Slot>, now: int)
    requires Sorted(slots) && OneShot(slots)
    ensures var k := DueCount(slots, now);
      && DoTimer(slots, now) == Pass(slots[k..], Ids(slots[..k]))
      && (forall i :: 0 <= i < |slots| ==> (Due(slots[i], now) <==> i < k))
      && (forall i, j :: 0 <= i < j < k ==> slots[i].timer.expiration <= slots[j].timer.expiration)
  {
    var k := DueCount(slots, now);
    OnePass(slots, now);
    OneShotVisited(slots[..k]);
    assert [] + slots[k..] == slots[k..];
    OneShotOrder(slots);
    forall i | 0 <= i < |slots|
      ensures Due(slots[i], now) <==> i < k
    {
      OneShotDue(slots, now, i);
    }
  }
}
