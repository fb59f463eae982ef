/** Whole runs of the timer queue: timers are added, canceled, un-canceled and removed, and doTimer
    is called at arbitrary times. */
module TimerRuns {
  import opened TimerModel

  /** How a timer was made: when it was first due, its interval, and its repeat count (-1: forever). */
  datatype Birth = Birth(when: int, interval: int, count: int)

  /** One callback: which timer, and the time doTimer read. */
  datatype Firing = Firing(id: nat, at: int)

  datatype Queue = Queue(slots: seq<Slot>, log: seq<Firing>, born: map<nat, Birth>, removed: set<nat>)

  datatype Op =
    | AddTimer(id: nat, birth: Birth)
    | Tick(now: int)
    | CancelTimer(id: nat, off: bool)
    | RemoveTimer(id: nat)

  function Stamp(fired: seq<nat>, at: int): (r: seq<Firing>)
    ensures |r| == |fired|
    ensures forall i :: 0 <= i < |r| ==> r[i] == Firing(fired[i], at)
  {
    seq(|fired|, i requires 0 <= i < |fired| => Firing(fired[i], at))
  }

  function NewTimer(id: nat, b: Birth): Timer {
    Timer(id, b.when, b.interval, b.count, false)
  }

  function Next(q: Queue, op: Op): Queue {
    match op
    case AddTimer(id, b) =>
      q.(slots := Insert(q.slots, Slot(b.when, NewTimer(id, b))), born := q.born[id := b])
    case Tick(now) =>
      var p := DoTimer(q.slots, now);
      q.(slots := p.kept, log := q.log + Stamp(p.fired, now))
    case CancelTimer(id, off) => q.(slots := Cancel(q.slots, id, off))
    case RemoveTimer(id) =>
      q.(slots := Remove(q.slots, id), removed := if Present(q.slots, id) then q.removed + {id} else q.removed)
  }

  function Start(): Queue {
    Queue([], [], map[], {})
  }

  function RunOps(ops: seq<Op>): Queue {
    if ops == [] then Start() else Next(RunOps(ops[..|ops| - 1]), ops[|ops| - 1])
  }

  /** Every new timer has an address of its own. Nothing else is asked of the caller. */
  ghost predicate Proper(q: Queue, op: Op) {
    op.AddTimer? ==> op.id !in q.born
  }

  ghost predicate ProperRun(ops: seq<Op>) {
    ops == [] || (ProperRun(ops[..|ops| - 1]) && Proper(RunOps(ops[..|ops| - 1]), ops[|ops| - 1]))
  }

  /** How often timer id has fired. */
  function Firings(log: seq<Firing>, id: nat): nat {
    if log == [] then 0
    else Firings(log[..|log| - 1], id) + if log[|log| - 1].id == id then 1 else 0
  }

  // ----- the accounts -----

  /** m_repeatCount of a timer made with count c after f firings. A count of 0 turns into -1, forever,
      at the first firing; one below -1 goes on falling and never reaches 0 either. */
  function Remaining(c: int, f: nat): int {
    if c == -1 then -1
    else if c == 0 then if f == 0 then 0 else -1
    else c - f
  }

  /** A timer in the set: its firings and what remains of its count add up, and its expiration has
      moved by one interval per firing. */
  predicate SlotAccounted(q: Queue, s: Slot) {
    s.timer.id in q.born && s.timer.id !in q.removed &&
    var b := q.born[s.timer.id];
    var f := Firings(q.log, s.timer.id);
    && s.key == b.when
    && s.timer.interval == b.interval
    && s.timer.expiration == b.when + b.interval * f
    && s.timer.repeat == Remaining(b.count, f)
    && (b.count >= 1 ==> f < b.count)
  }

  predicate Present(slots: seq<Slot>, id: nat) {
    exists s :: s in slots && s.timer.id == id
  }

  /** A timer no longer in the set was removed by the user while some of its count was left,
      or has fired its whole count. The one exception is a count of 0: canceled before its first firing,
      it is erased when it comes due. */
  predicate GoneAccounted(q: Queue, id: nat)
    requires id in q.born
  {
    var b, f := q.born[id], Firings(q.log, id);
    if id in q.removed then b.count >= 1 ==> f < b.count else b.count >= 0 && f == b.count
  }

  predicate Accounted(q: Queue) {
    && Sorted(q.slots)
    && Distinct(q.slots)
    && (forall s :: s in q.slots ==> SlotAccounted(q, s))
    && (forall id :: id in q.born && !Present(q.slots, id) ==> GoneAccounted(q, id))
    && (forall i :: 0 <= i < |q.log| ==> q.log[i].id in q.born)
    && q.removed <= q.born.Keys
  }

  /** Firing number k of a timer came after the expiration it then had. */
  predicate Timely(born: map<nat, Birth>, log: seq<Firing>) {
    log == [] ||
    var front, last := log[..|log| - 1], log[|log| - 1];
    && Timely(born, front)
    && (last.id in born ==> born[last.id].when + born[last.id].interval * Firings(front, last.id) < last.at)
  }

  // ----- doTimer, one visited entry at a time -----

  /** The loop body of doTimer on entry i: run the timer, then erase or keep its entry. */
  function Visit(q: Queue, i: nat, now: int): (v: Queue)
    requires i < |q.slots|
    ensures i + |KeptOf(q.slots[i])| <= |v.slots|
    ensures |v.slots| - (i + |KeptOf(q.slots[i])|) < |q.slots| - i
  {
    var s := q.slots[i];
    q.(slots := if After(s).timer.repeat == 0 then q.slots[..i] + q.slots[i + 1..] else q.slots[i := After(s)],
       log := if s.timer.canceled then q.log else q.log + [Firing(s.timer.id, now)])
  }

  /** The loop of doTimer from entry i on: after an erasure the iterator stays, otherwise it moves on. */
  function Walk(q: Queue, i: nat, now: int): Queue
    requires i <= |q.slots|
    decreases |q.slots| - i
  {
    if i == |q.slots| || !Due(q.slots[i], now) then q
    else Walk(Visit(q, i, now), i + |KeptOf(q.slots[i])|, now)
  }

  /** The loop computes the pass of TimerModel. */
  lemma {:induction false} WalkIsPass(q: Queue, i: nat, now: int)
    requires i <= |q.slots|
    ensures var p := DoTimer(q.slots[i..], now);
      Walk(q, i, now) == q.(slots := q.slots[..i] + p.kept, log := q.log + Stamp(p.fired, now))
    decreases |q.slots| - i
  {
    var rest := q.slots[i..];
    if i == |q.slots| || !Due(q.slots[i], now) {
      assert q.slots[..i] + rest == q.slots;
      assert q.log + Stamp([], now) == q.log;
    } else {
      var v := Visit(q, i, now);
      var more := DoTimer(rest[1..], now);
      var kept, fired := KeptOf(rest[0]), FiredBy(rest[0]);
      VisitSplits(q, i, now);
      WalkIsPass(v, i + |kept|, now);
      PassOfHead(rest, now);
      Glue(q.slots[..i], kept, more.kept, q.log, fired, more.fired, now);
    }
  }

  lemma PassOfHead(rest: seq<Slot>, now: int)
    requires rest != [] && Due(rest[0], now)
    ensures var more := DoTimer(rest[1..], now);
      DoTimer(rest, now) == Pass(KeptOf(rest[0]) + more.kept, FiredBy(rest[0]) + more.fired)
  {
  }

  lemma Glue(a: seq<Slot>, kept: seq<Slot>, more: seq<Slot>, log: seq<Firing>, fired: seq<nat>, later: seq<nat>, now: int)
    ensures (a + kept) + more == a + (kept + more)
    ensures (log + Stamp(fired, now)) + Stamp(later, now) == log + Stamp(fired + later, now)
  {
    assert Stamp(fired, now) + Stamp(later, now) == Stamp(fired + later, now);
    Assoc(log, Stamp(fired, now), Stamp(later, now));
  }

  lemma VisitSplits(q: Queue, i: nat, now: int)
    requires i < |q.slots|
    ensures var v, n := Visit(q, i, now), i + |KeptOf(q.slots[i])|;
      && n <= |v.slots|
      && v.slots[n..] == q.slots[i..][1..]
      && v.slots[..n] == q.slots[..i] + KeptOf(q.slots[i])
      && v.log == q.log + Stamp(FiredBy(q.slots[i]), now)
  {
    assert Stamp([], now) == [];
    assert Stamp([q.slots[i].timer.id], now) == [Firing(q.slots[i].timer.id, now)];
  }

  lemma WalkIsTick(q: Queue, now: int)
    ensures var p := DoTimer(q.slots, now);
      Walk(q, 0, now) == q.(slots := p.kept, log := q.log + Stamp(p.fired, now))
  {
    WalkIsPass(q, 0, now);
    assert q.slots[0..] == q.slots;
    assert q.slots[..0] + DoTimer(q.slots, now).kept == DoTimer(q.slots, now).kept;
  }

  lemma WalkEnds(q: Queue, i: nat, now: int)
    requires i <= |q.slots| && (i < |q.slots| ==> !Due(q.slots[i], now))
    ensures Walk(q, i, now) == q
  {
  }

  lemma FiringsOneMore(log: seq<Firing>, f: Firing, id: nat)
    ensures Firings(log + [f], id) == Firings(log, id) + if f.id == id then 1 else 0
  {
    assert (log + [f])[..|log|] == log;
  }

  lemma TimelyOneMore(born: map<nat, Birth>, log: seq<Firing>, f: Firing)
    requires Timely(born, log)
    requires f.id in born ==> born[f.id].when + born[f.id].interval * Firings(log, f.id) < f.at
    ensures Timely(born, log + [f])
  {
    assert (log + [f])[..|log|] == log;
  }

  lemma EraseKeepsSet(slots: seq<Slot>, i: nat)
    requires Sorted(slots) && Distinct(slots) && i < |slots|
    ensures var after := slots[..i] + slots[i + 1..];
      && Sorted(after) && Distinct(after) && |after| == |slots| - 1
      && (forall s :: s in after ==> s in slots && s.timer.id != slots[i].timer.id)
      && (forall id :: Present(after, id) <==> Present(slots, id) && id != slots[i].timer.id)
  {
    var after := slots[..i] + slots[i + 1..];
    assert slots == slots[..i] + [slots[i]] + slots[i + 1..];
    forall j, k | 0 <= j < k < |after|
      ensures Before(after[j], after[k]) && after[j].timer.id != after[k].timer.id
    {
      var j', k' := if j < i then j else j + 1, if k < i then k else k + 1;
      assert Before(slots[j'], slots[k']);
    }
    forall s | s in after
      ensures s.timer.id != slots[i].timer.id
    {
      var j :| 0 <= j < |slots| && j != i && slots[j] == s;
    }
  }

  lemma UpdateKeepsSet(slots: seq<Slot>, i: nat, s: Slot)
    requires Sorted(slots) && Distinct(slots) && i < |slots| && SamePlace(s, slots[i])
    ensures var after := slots[i := s];
      && Sorted(after) && Distinct(after)
      && (forall o :: o in after ==> o == s || (o in slots && o.timer.id != s.timer.id))
      && (forall id :: Present(after, id) <==> Present(slots, id))
  {
    var after := slots[i := s];
    forall j, k | 0 <= j < k < |after|
      ensures Before(after[j], after[k]) && after[j].timer.id != after[k].timer.id
    {
      assert Before(slots[j], slots[k]);
    }
    forall o | o in after && o != s
      ensures o in slots && o.timer.id != s.timer.id
    {
      var j :| 0 <= j < |after| && after[j] == o;
      assert slots[j] == o;
    }
    forall o | o in slots && o != slots[i]
      ensures o in after
    {
      var j :| 0 <= j < |slots| && slots[j] == o;
      assert after[j] == o;
    }
    assert after[i] == s && slots[i] in slots;
  }

  /** Everything that must hold of a reachable queue. */
  predicate Good(q: Queue) {
    Accounted(q) && Timely(q.born, q.log)
  }

  /** The account of the visited timer itself. */
  lemma VisitKeepsAccount(q: Queue, i: nat, now: int)
    requires i < |q.slots| && SlotAccounted(q, q.slots[i])
    ensures var v, s := Visit(q, i, now), q.slots[i];
      if After(s).timer.repeat == 0 then GoneAccounted(v, s.timer.id) else SlotAccounted(v, After(s))
  {
    var v, s := Visit(q, i, now), q.slots[i];
    var b, f := q.born[s.timer.id], Firings(q.log, s.timer.id);
    if !s.timer.canceled {
      FiringsOneMore(q.log, Firing(s.timer.id, now), s.timer.id);
      assert Firings(v.log, s.timer.id) == f + 1;
      assert After(s).timer.repeat == Remaining(b.count, f + 1);
      NextInterval(b.interval, f);
    }
  }

  lemma VisitKeepsGood(q: Queue, i: nat, now: int)
    requires Good(q) && i < |q.slots| && Due(q.slots[i], now)
    ensures Good(Visit(q, i, now))
  {
    var s := q.slots[i];
    var v := Visit(q, i, now);
    assert SlotAccounted(q, s);
    if After(s).timer.repeat == 0 {
      EraseKeepsSet(q.slots, i);
    } else {
      UpdateKeepsSet(q.slots, i, After(s));
    }
    var f := Firing(s.timer.id, now);
    if !s.timer.canceled {
      TimelyOneMore(q.born, q.log, f);
    }
    VisitKeepsAccount(q, i, now);
    forall o | o in v.slots
      ensures SlotAccounted(v, o)
    {
      if o.timer.id != s.timer.id {
        assert SlotAccounted(q, o);
        FiringsOneMore(q.log, f, o.timer.id);
      }
    }
    forall id | id in v.born && !Present(v.slots, id)
      ensures GoneAccounted(v, id)
    {
      FiringsOneMore(q.log, f, id);
      if id != s.timer.id {
        assert !Present(q.slots, id);
      }
    }
  }

  /** One turn of the loop: what is left to walk. */
  lemma Turn(q: Queue, i: nat, now: int) returns (v: Queue, k: nat)
    requires Good(q) && i < |q.slots| && Due(q.slots[i], now)
    ensures Good(v) && k <= |v.slots| && |v.slots| - k < |q.slots| - i
    ensures Walk(v, k, now) == Walk(q, i, now)
  {
    v, k := WalkTurn(q, i, now);
    VisitKeepsGood(q, i, now);
  }

  lemma WalkTurn(q: Queue, i: nat, now: int) returns (v: Queue, k: nat)
    requires i < |q.slots| && Due(q.slots[i], now)
    ensures v == Visit(q, i, now) && k == i + |KeptOf(q.slots[i])|
    ensures k <= |v.slots| && |v.slots| - k < |q.slots| - i
    ensures Walk(v, k, now) == Walk(q, i, now)
  {
    v, k := Visit(q, i, now), i + |KeptOf(q.slots[i])|;
  }

  lemma {:induction false} WalkKeepsGood(q: Queue, i: nat, now: int)
    requires Good(q) && i <= |q.slots|
    ensures Good(Walk(q, i, now))
    decreases |q.slots| - i
  {
    if i < |q.slots| && Due(q.slots[i], now) {
      var v, k := Turn(q, i, now);
      WalkKeepsGood(v, k, now);
    }
  }

  lemma TickKeepsGood(q: Queue, now: int)
    requires Good(q)
    ensures Good(Next(q, Tick(now)))
  {
    WalkIsTick(q, now);
    WalkKeepsGood(q, 0, now);
  }

  lemma InsertMember(slots: seq<Slot>, s: Slot, o: Slot)
    ensures o in Insert(slots, s) <==> o in slots || o == s
  {
    var p := Place(slots, s);
    assert slots == slots[..p] + slots[p..];
  }

  lemma InsertDistinct(slots: seq<Slot>, s: Slot)
    requires Distinct(slots) && !Present(slots, s.timer.id)
    ensures Distinct(Insert(slots, s))
  {
    var p, after := Place(slots, s), Insert(slots, s);
    forall j, k | 0 <= j < k < |after|
      ensures after[j].timer.id != after[k].timer.id
    {
      assert j < p ==> after[j] == slots[j];
      assert j > p ==> after[j] == slots[j - 1];
      assert k < p ==> after[k] == slots[k];
      assert k > p ==> after[k] == slots[k - 1];
      assert forall i :: 0 <= i < |slots| ==> slots[i] in slots;
    }
  }

  lemma InsertPresent(slots: seq<Slot>, s: Slot, id: nat)
    ensures Present(Insert(slots, s), id) <==> Present(slots, id) || id == s.timer.id
  {
    forall o
      ensures o in Insert(slots, s) <==> o in slots || o == s
    {
      InsertMember(slots, s, o);
    }
    assert s in Insert(slots, s);
  }

  lemma AddKeepsSet(q: Queue, id: nat, b: Birth)
    requires Good(q) && Proper(q, AddTimer(id, b))
    ensures var n := Next(q, AddTimer(id, b)); Sorted(n.slots) && Distinct(n.slots) && !Present(q.slots, id)
  {
    var s := Slot(b.when, NewTimer(id, b));
    forall o | o in q.slots
      ensures o.timer.id != id
    {
      assert SlotAccounted(q, o);
    }
    InsertKeepsOrder(q.slots, s);
    InsertDistinct(q.slots, s);
  }

  lemma AddKeepsAccounts(q: Queue, id: nat, b: Birth)
    requires Good(q) && Proper(q, AddTimer(id, b))
    ensures var n := Next(q, AddTimer(id, b));
      && (forall o :: o in n.slots ==> SlotAccounted(n, o))
      && (forall other :: other in n.born && !Present(n.slots, other) ==> GoneAccounted(n, other))
  {
    var s := Slot(b.when, NewTimer(id, b));
    var n := Next(q, AddTimer(id, b));
    NeverFired(q.log, q.born, id);
    forall o | o in n.slots
      ensures SlotAccounted(n, o)
    {
      InsertMember(q.slots, s, o);
      if o != s {
        assert SlotAccounted(q, o);
      }
    }
    forall other | other in n.born && !Present(n.slots, other)
      ensures GoneAccounted(n, other)
    {
      InsertPresent(q.slots, s, other);
      assert GoneAccounted(q, other);
    }
  }

  lemma AddKeepsGood(q: Queue, id: nat, b: Birth)
    requires Good(q) && Proper(q, AddTimer(id, b))
    ensures Good(Next(q, AddTimer(id, b)))
  {
    AddKeepsSet(q, id, b);
    AddKeepsAccounts(q, id, b);
    BornLater(q.born, Next(q, AddTimer(id, b)).born, q.log);
  }

  lemma {:induction false} NeverFired(log: seq<Firing>, born: map<nat, Birth>, id: nat)
    requires forall i :: 0 <= i < |log| ==> log[i].id in born
    requires id !in born
    ensures Firings(log, id) == 0
  {
    if log != [] {
      NeverFired(log[..|log| - 1], born, id);
    }
  }

  lemma {:induction false} BornLater(born: map<nat, Birth>, more: map<nat, Birth>, log: seq<Firing>)
    requires Timely(born, log) && born.Keys <= more.Keys && forall id :: id in born ==> more[id] == born[id]
    requires forall i :: 0 <= i < |log| ==> log[i].id in born
    ensures Timely(more, log)
  {
    if log != [] {
      BornLater(born, more, log[..|log| - 1]);
    }
  }

  lemma CancelKeepsGood(q: Queue, id: nat, off: bool)
    requires Good(q)
    ensures Good(Next(q, CancelTimer(id, off)))
  {
    var p := Find(q.slots, id);
    if p < |q.slots| {
      var s := q.slots[p].(timer := q.slots[p].timer.(canceled := off));
      var n := Next(q, CancelTimer(id, off));
      UpdateKeepsSet(q.slots, p, s);
      assert SlotAccounted(q, q.slots[p]);
      forall o | o in n.slots
        ensures SlotAccounted(n, o)
      {
        if o != s {
          assert SlotAccounted(q, o);
        }
      }
      forall other | other in n.born && !Present(n.slots, other)
        ensures GoneAccounted(n, other)
      {
        assert GoneAccounted(q, other);
      }
    }
  }

  lemma RemoveKeepsGood(q: Queue, id: nat)
    requires Good(q)
    ensures Good(Next(q, RemoveTimer(id)))
  {
    var p := Find(q.slots, id);
    var n := Next(q, RemoveTimer(id));
    if p < |q.slots| {
      EraseKeepsSet(q.slots, p);
      assert q.slots[p] in q.slots;
      assert SlotAccounted(q, q.slots[p]);
      forall o | o in n.slots
        ensures SlotAccounted(n, o)
      {
        assert SlotAccounted(q, o);
      }
      forall other | other in n.born && !Present(n.slots, other)
        ensures GoneAccounted(n, other)
      {
        assert other != id ==> !Present(q.slots, other) && GoneAccounted(q, other);
      }
    } else {
      assert !Present(q.slots, id);
      assert n == q;
    }
  }

  // ----- whole runs -----

  lemma NextKeepsGood(q: Queue, op: Op)
    requires Good(q) && Proper(q, op)
    ensures Good(Next(q, op))
  {
    match op
    case AddTimer(id, b) => AddKeepsGood(q, id, b);
    case Tick(now) => TickKeepsGood(q, now);
    case CancelTimer(id, off) => CancelKeepsGood(q, id, off);
    case RemoveTimer(id) => RemoveKeepsGood(q, id);
  }

  lemma {:induction false} RunIsGood(ops: seq<Op>)
    requires ProperRun(ops)
    ensures Good(RunOps(ops))
  {
    if ops != [] {
      RunIsGood(ops[..|ops| - 1]);
      NextKeepsGood(RunOps(ops[..|ops| - 1]), ops[|ops| - 1]);
    }
  }

  /** In every run, of every timer ever made: with a count n >= 1 it fires at most n times, fewer if the
      user removed it, and is in the set exactly until its n-th firing if not; with a negative count it
      never leaves unless removed. While it is there, its remaining count and its expiration follow from
      its firings. */
  lemma TimerAccounting(ops: seq<Op>, id: nat)
    requires ProperRun(ops) && id in RunOps(ops).born
    ensures var q := RunOps(ops); var b := q.born[id]; var f := Firings(q.log, id);
      && (b.count >= 1 ==> f <= b.count)
      && (b.count >= 1 && id in q.removed ==> f < b.count)
      && (id !in q.removed && b.count >= 1 ==> (Present(q.slots, id) <==> f < b.count))
      && (id !in q.removed && b.count < 0 ==> Present(q.slots, id))
      && (id !in q.removed && b.count == 0 && f > 0 ==> Present(q.slots, id))
      && (id in q.removed ==> !Present(q.slots, id))
      && (forall s :: s in q.slots && s.timer.id == id ==>
            s.key == b.when && s.timer.expiration == b.when + b.interval * f && s.timer.repeat == Remaining(b.count, f))
  {
    var q := RunOps(ops);
    RunIsGood(ops);
    if Present(q.slots, id) {
      var s :| s in q.slots && s.timer.id == id;
      assert SlotAccounted(q, s);
    } else {
      assert GoneAccounted(q, id);
    }
    forall s | s in q.slots && s.timer.id == id
      ensures SlotAccounted(q, s)
    {
    }
  }

  /** The key a timer was inserted with stays a lower bound of its expiration, and the set stays
      ordered by it, exactly one entry for each timer. */
  lemma KeysStayBelow(ops: seq<Op>, s: Slot)
    requires ProperRun(ops) && s in RunOps(ops).slots
    ensures var slots := RunOps(ops).slots;
      forall i, j :: 0 <= i < j < |slots| ==>
        slots[i].timer.id != slots[j].timer.id
        && (slots[i].key < slots[j].key || (slots[i].key == slots[j].key && slots[i].timer.id < slots[j].timer.id))
    ensures s.timer.interval >= 0 ==> s.key <= s.timer.expiration
  {
    RunIsGood(ops);
    var slots := RunOps(ops).slots;
    assert forall i, j :: 0 <= i < j < |slots| ==> Before(slots[i], slots[j]);
    BelowByIntervals(RunOps(ops), s);
  }

  lemma BelowByIntervals(q: Queue, s: Slot)
    requires SlotAccounted(q, s)
    ensures s.timer.interval >= 0 ==> s.key <= s.timer.expiration
  {
    NonNegativeProduct(s.timer.interval, Firings(q.log, s.timer.id));
  }

  lemma NonNegativeProduct(a: int, b: nat)
    ensures a >= 0 ==> a * b >= 0
  {
  }

  lemma {:induction false} TimelyAt(born: map<nat, Birth>, log: seq<Firing>, j: nat)
    requires Timely(born, log) && j < |log| && log[j].id in born
    ensures var b := born[log[j].id];
      b.when + b.interval * Firings(log[..j], log[j].id) < log[j].at
  {
    if j < |log| - 1 {
      TimelyAt(born, log[..|log| - 1], j);
      assert log[..|log| - 1][..j] == log[..j];
    }
  }

  /** Firing number k of a timer with a positive interval, at time `at`, satisfies
      k <= ceil((at - when) / interval). */
  lemma FiringRate(ops: seq<Op>, j: nat)
    requires ProperRun(ops) && j < |RunOps(ops).log|
    ensures var q := RunOps(ops); q.log[j].id in q.born
    ensures var q := RunOps(ops);
      WithinRate(q.born[q.log[j].id], Firings(q.log[..j], q.log[j].id) + 1, q.log[j].at)
  {
    RunIsGood(ops);
    var q := RunOps(ops);
    TimelyAt(q.born, q.log, j);
    RateOf(q.born[q.log[j].id], Firings(q.log[..j], q.log[j].id) + 1, q.log[j].at);
  }

  predicate WithinRate(b: Birth, k: int, at: int) {
    b.interval > 0 ==> k <= (at - b.when + b.interval - 1) / b.interval
  }

  lemma RateOf(b: Birth, k: int, at: int)
    requires b.when + b.interval * (k - 1) < at
    ensures WithinRate(b, k, at)
  {
    if b.interval > 0 {
      CeilBound(k, b.interval, at - b.when);
    }
  }

  lemma CeilBound(k: int, interval: int, d: int)
    requires interval > 0 && interval * (k - 1) < d
    ensures k <= (d + interval - 1) / interval
  {
    var n := d + interval - 1;
    assert interval * k <= n;
    QuotientAtLeast(n, interval, k);
  }

  lemma QuotientAtLeast(n: int, d: int, k: int)
    requires d > 0 && d * k <= n
    ensures k <= n / d
  {
    var q := n / d;
    assert n == d * q + n % d;
    assert d * (k - q) < d;
    assert k - q >= 1 ==> d * (k - q) >= d;
  }

  // ----- cancellation -----

  lemma {:induction false} FiringsOfOthers(log: seq<Firing>, fired: seq<nat>, at: int, id: nat)
    requires id !in fired
    ensures Firings(log + Stamp(fired, at), id) == Firings(log, id)
  {
    if fired == [] {
      assert log + Stamp(fired, at) == log;
    } else {
      var front, all := fired[..|fired| - 1], log + Stamp(fired, at);
      FiringsOfOthers(log, front, at, id);
      assert all[..|all| - 1] == log + Stamp(front, at);
    }
  }

  /** doTimer calls back no timer that is canceled, or absent. */
  lemma SilentTick(q: Queue, now: int, id: nat)
    requires forall s :: s in q.slots && s.timer.id == id ==> s.timer.canceled
    ensures Firings(Next(q, Tick(now)).log, id) == Firings(q.log, id)
  {
    OnePass(q.slots, now);
    VisitedEntries(q.slots[..DueCount(q.slots, now)]);
    FiringsOfOthers(q.log, DoTimer(q.slots, now).fired, now, id);
  }

  /** Timer id is made, its entries in q are canceled and among those of `since`, and it has fired no more. */
  predicate Silenced(q: Queue, since: Queue, id: nat) {
    && id in q.born
    && (forall s :: s in q.slots && s.timer.id == id ==> s.timer.canceled && s in since.slots)
    && Firings(q.log, id) == Firings(since.log, id)
  }

  lemma CancelStarts(q: Queue, id: nat)
    requires Good(q) && id in q.born
    ensures var c := Next(q, CancelTimer(id, true)); Silenced(c, c, id) && c.log == q.log
  {
    var c := Next(q, CancelTimer(id, true));
    var p := Find(q.slots, id);
    if p < |q.slots| {
      UpdateKeepsSet(q.slots, p, c.slots[p]);
    }
  }

  lemma TickKeepsSilence(q: Queue, since: Queue, id: nat, now: int)
    requires Silenced(q, since, id)
    ensures Silenced(Next(q, Tick(now)), since, id)
  {
    SilentTick(q, now, id);
    var n := Next(q, Tick(now));
    forall s | s in n.slots && s.timer.id == id
      ensures s.timer.canceled && s in since.slots
    {
      KeptOrigin(q.slots, now, s);
    }
  }

  lemma CancelKeepsSilence(q: Queue, since: Queue, id: nat, other: nat, off: bool)
    requires Good(q) && Silenced(q, since, id) && (other == id ==> off)
    ensures Silenced(Next(q, CancelTimer(other, off)), since, id)
  {
    var n := Next(q, CancelTimer(other, off));
    var p := Find(q.slots, other);
    if p < |q.slots| {
      assert q.slots[p] in q.slots;
      UpdateKeepsSet(q.slots, p, n.slots[p]);
    }
  }

  lemma NextKeepsSilence(q: Queue, since: Queue, id: nat, op: Op)
    requires Good(q) && Proper(q, op) && Silenced(q, since, id) && op != CancelTimer(id, false)
    ensures Silenced(Next(q, op), since, id)
  {
    match op
    case AddTimer(other, b) =>
      forall s | s in Next(q, op).slots && s.timer.id == id
        ensures s in q.slots
      {
        InsertMember(q.slots, Slot(b.when, NewTimer(other, b)), s);
      }
    case Tick(now) => TickKeepsSilence(q, since, id, now);
    case CancelTimer(other, off) => CancelKeepsSilence(q, since, id, other, off);
    case RemoveTimer(other) =>
      if Find(q.slots, other) < |q.slots| {
        EraseKeepsSet(q.slots, Find(q.slots, other));
      }
  }

  /** After cancel(id, true) and until a cancel(id, false), however the run goes on, the timer does not
      fire, and its entry, while it is there, stays what the cancel made it. */
  lemma {:induction false} CancelSilences(ops: seq<Op>, id: nat, more: seq<Op>)
    requires ProperRun(ops + [CancelTimer(id, true)] + more) && id in RunOps(ops).born
    requires forall i :: 0 <= i < |more| ==> more[i] != CancelTimer(id, false)
    ensures var q, canceled := RunOps(ops + [CancelTimer(id, true)] + more), RunOps(ops + [CancelTimer(id, true)]);
      && Firings(q.log, id) == Firings(RunOps(ops).log, id)
      && Silenced(q, canceled, id)
    decreases |more|
  {
    var all := ops + [CancelTimer(id, true)];
    if more == [] {
      assert all + more == all && all[..|ops|] == ops;
      RunIsGood(ops);
      CancelStarts(RunOps(ops), id);
    } else {
      var front := more[..|more| - 1];
      assert (all + more)[..|all + more| - 1] == all + front;
      CancelSilences(ops, id, front);
      RunIsGood(all + front);
      NextKeepsSilence(RunOps(all + front), RunOps(all), id, more[|more| - 1]);
    }
  }

  /** cancel(id, false) undoes cancel(id, true): the set is as it was, if the timer was not canceled. */
  lemma CancelUndone(slots: seq<Slot>, id: nat)
    requires forall s :: s in slots && s.timer.id == id ==> !s.timer.canceled
    ensures Cancel(Cancel(slots, id, true), id, false) == slots
  {
    var p := Find(slots, id);
    if p < |slots| {
      var c := Cancel(slots, id, true);
      assert slots[p] in slots;
      FindAgain(slots, c, id);
    }
  }

  lemma FindAgain(slots: seq<Slot>, other: seq<Slot>, id: nat)
    requires |slots| == |other| && forall i :: 0 <= i < |slots| ==> slots[i].timer.id == other[i].timer.id
    ensures Find(slots, id) == Find(other, id)
  {
    var p, r := Find(slots, id), Find(other, id);
    assert p < |slots| ==> other[p].timer.id == id;
    assert r < |slots| ==> slots[r].timer.id == id;
  }

  // ----- removal -----

  lemma RemoveTakesOut(q: Queue, id: nat)
    requires Good(q)
    ensures !Present(Next(q, RemoveTimer(id)).slots, id)
  {
    var p := Find(q.slots, id);
    if p < |q.slots| {
      EraseKeepsSet(q.slots, p);
    }
  }

  lemma TickKeepsAbsent(q: Queue, id: nat, now: int)
    requires !Present(q.slots, id)
    ensures !Present(Next(q, Tick(now)).slots, id) && Firings(Next(q, Tick(now)).log, id) == Firings(q.log, id)
  {
    SilentTick(q, now, id);
    forall s | s in Next(q, Tick(now)).slots
      ensures s.timer.id != id
    {
      KeptOrigin(q.slots, now, s);
    }
  }

  lemma CancelKeepsAbsent(q: Queue, id: nat, other: nat, off: bool)
    requires Good(q) && !Present(q.slots, id)
    ensures !Present(Next(q, CancelTimer(other, off)).slots, id)
  {
    var p := Find(q.slots, other);
    if p < |q.slots| {
      UpdateKeepsSet(q.slots, p, Next(q, CancelTimer(other, off)).slots[p]);
    }
  }

  lemma NextKeepsAbsent(q: Queue, op: Op, id: nat)
    requires Good(q) && Proper(q, op) && id in q.born && !Present(q.slots, id)
    ensures var n := Next(q, op); id in n.born && !Present(n.slots, id) && Firings(n.log, id) == Firings(q.log, id)
  {
    match op
    case AddTimer(other, b) => InsertPresent(q.slots, Slot(b.when, NewTimer(other, b)), id);
    case Tick(now) => TickKeepsAbsent(q, id, now);
    case CancelTimer(other, off) => CancelKeepsAbsent(q, id, other, off);
    case RemoveTimer(other) =>
      if Find(q.slots, other) < |q.slots| {
        EraseKeepsSet(q.slots, Find(q.slots, other));
      }
  }

  /** Once removed, a timer is out of the set and never fires again, however the run goes on. */
  lemma {:induction false} RemoveSilences(ops: seq<Op>, id: nat, more: seq<Op>)
    requires ProperRun(ops + [RemoveTimer(id)] + more) && id in RunOps(ops).born
    ensures var q := RunOps(ops + [RemoveTimer(id)] + more);
      id in q.born && !Present(q.slots, id) && Firings(q.log, id) == Firings(RunOps(ops).log, id)
    decreases |more|
  {
    var all := ops + [RemoveTimer(id)];
    if more == [] {
      assert all + more == all && all[..|ops|] == ops;
      RunIsGood(ops);
      RemoveTakesOut(RunOps(ops), id);
    } else {
      var front := more[..|more| - 1];
      assert (all + more)[..|all + more| - 1] == all + front;
      RemoveSilences(ops, id, front);
      RunIsGood(all + front);
      NextKeepsAbsent(RunOps(all + front), more[|more| - 1], id);
    }
  }

  // ----- runs of one-shot timers -----

  /** Every timer repeats once, and none is canceled. */
  predicate OneShotOps(ops: seq<Op>) {
    forall i :: 0 <= i < |ops| ==>
      (ops[i].AddTimer? ==> ops[i].birth.count == 1) && (ops[i].CancelTimer? ==> !ops[i].off)
  }

  lemma NextKeepsOneShot(q: Queue, op: Op)
    requires Sorted(q.slots) && OneShot(q.slots)
    requires (op.AddTimer? ==> op.birth.count == 1) && (op.CancelTimer? ==> !op.off)
    ensures OneShot(Next(q, op).slots)
  {
    match op
    case AddTimer(id, b) =>
      forall s | s in Next(q, op).slots
        ensures s in q.slots || s == Slot(b.when, NewTimer(id, b))
      {
        InsertMember(q.slots, Slot(b.when, NewTimer(id, b)), s);
      }
    case Tick(now) => OneShotPass(q.slots, now);
    case CancelTimer(id, off) =>
      var p := Find(q.slots, id);
      if p < |q.slots| {
        assert q.slots[p] in q.slots;
        assert Cancel(q.slots, id, off) == q.slots;
      }
    case RemoveTimer(id) =>
  }

  /** In such a run every key is still its timer's expiration. */
  lemma {:induction false} OneShotRun(ops: seq<Op>)
    requires ProperRun(ops) && OneShotOps(ops)
    ensures OneShot(RunOps(ops).slots) && forall id :: id in RunOps(ops).born ==> RunOps(ops).born[id].count == 1
  {
    if ops != [] {
      var front := ops[..|ops| - 1];
      OneShotRun(front);
      RunIsGood(front);
      NextKeepsOneShot(RunOps(front), ops[|ops| - 1]);
    }
  }

  /** In a run of one-shot timers, every doTimer fires all the due ones, in order of expiration, leaves
      only timers that are not due, and no timer ever fires twice. */
  lemma OneShotComplete(ops: seq<Op>, now: int)
    requires ProperRun(ops) && OneShotOps(ops)
    ensures var q, n := RunOps(ops), Next(RunOps(ops), Tick(now)); var k := DueCount(q.slots, now);
      && n.log == q.log + Stamp(Ids(q.slots[..k]), now)
      && (forall i, j :: 0 <= i < j < k ==> q.slots[i].timer.expiration <= q.slots[j].timer.expiration)
      && (forall i :: 0 <= i < |q.slots| ==> (Due(q.slots[i], now) <==> i < k))
      && (forall s :: s in n.slots ==> s.timer.expiration >= now && s in q.slots)
      && (forall id :: id in q.born ==> Firings(n.log, id) <= 1)
  {
    var q, n := RunOps(ops), Next(RunOps(ops), Tick(now));
    OneShotRun(ops);
    RunIsGood(ops);
    OneShotPass(q.slots, now);
    TickKeepsGood(q, now);
    forall s | s in n.slots
      ensures s.timer.expiration >= now && s in q.slots
    {
      var i :| DueCount(q.slots, now) <= i < |q.slots| && q.slots[i] == s;
    }
    forall id | id in q.born
      ensures Firings(n.log, id) <= 1
    {
      assert q.born[id].count == 1;
      if Present(n.slots, id) {
        var s :| s in n.slots && s.timer.id == id;
        assert SlotAccounted(n, s);
      } else {
        assert GoneAccounted(n, id);
      }
    }
  }

  // ----- what a repeating timer does to the others -----

  /** A repeating timer is added first and fires once; a timer due later, at 50, is then passed over at
      60, because the repeating one keeps its old key and is not due again until 100. */
  function BlockedOps(): seq<Op> {
    [AddTimer(1, Birth(0, 100, -1)), Tick(1), AddTimer(2, Birth(50, 0, 1)), Tick(60)]
  }

  lemma RepeatingTimerBlocksOthers()
    ensures ProperRun(BlockedOps())
    ensures var q := RunOps(BlockedOps());
      Firings(q.log, 2) == 0 && exists s :: s in q.slots && s.timer.id == 2 && Due(s, 60)
  {
    var ops := BlockedOps();
    var n := 0;
    while n < 4
      invariant n <= 4 && ProperRun(ops[..n]) && RunOps(ops[..n]) == Blocked(n)
    {
      BlockedNext(n);
      n := n + 1;
      RunUpTo(ops, n);
    }
    assert ops[..4] == ops;
    var q := Blocked(4);
    FiringsOneMore([], Firing(1, 1), 2);
    assert q.log == [] + [Firing(1, 1)];
    assert q.slots[1] in q.slots && Due(q.slots[1], 60);
  }

  const REPEATING: Birth := Birth(0, 100, -1)
  const SINGLE: Birth := Birth(50, 0, 1)

  /** The queue after n of those calls. */
  function Blocked(n: nat): Queue
    requires n <= 4
  {
    if n == 0 then Start()
    else if n == 1 then Queue([Slot(0, NewTimer(1, REPEATING))], [], map[1 := REPEATING], {})
    else
      var fired := Slot(0, Timer(1, 100, 100, -1, false));
      if n == 2 then Queue([fired], [Firing(1, 1)], map[1 := REPEATING], {})
      else Queue([fired, Slot(50, NewTimer(2, SINGLE))], [Firing(1, 1)], map[1 := REPEATING, 2 := SINGLE], {})
  }

  lemma BlockedNext(n: nat)
    requires n < 4
    ensures Next(Blocked(n), BlockedOps()[n]) == Blocked(n + 1) && Proper(Blocked(n), BlockedOps()[n])
  {
    match n
    case 0 => BlockedFirst();
    case 1 => BlockedTick();
    case 2 => BlockedAdd();
    case 3 => BlockedIdle();
  }

  lemma BlockedFirst()
    ensures Next(Blocked(0), AddTimer(1, REPEATING)) == Blocked(1)
  {
    var q, s := Blocked(0), Slot(0, NewTimer(1, REPEATING));
    assert Place(q.slots, s) == 0;
    assert q.slots[..0] + [s] + q.slots[0..] == [s];
  }

  /** The repeating timer in front is not due at 60. */
  lemma BlockedIdle()
    ensures Next(Blocked(3), Tick(60)) == Blocked(4)
  {
    var q := Blocked(3);
    assert DoTimer(q.slots, 60) == Pass(q.slots, []);
    assert q.log + Stamp([], 60) == q.log;
  }

  lemma BlockedTick()
    ensures Next(Blocked(1), Tick(1)) == Blocked(2)
  {
    var q := Blocked(1);
    OnePass(q.slots, 1);
    assert q.slots[1..] == [];
    assert DueCount(q.slots, 1) == 1;
    assert q.slots[..1] == q.slots;
    assert Stamp([1], 1) == [Firing(1, 1)];
  }

  lemma BlockedAdd()
    ensures Next(Blocked(2), AddTimer(2, SINGLE)) == Blocked(3)
  {
    var q, s := Blocked(2), Slot(50, NewTimer(2, SINGLE));
    assert q.slots[1..] == [];
    assert Place(q.slots, s) == 1;
    assert q.slots[..1] + [s] + q.slots[1..] == Blocked(3).slots;
  }

  lemma RunUpTo(ops: seq<Op>, n: nat)
    requires 0 < n <= |ops|
    ensures RunOps(ops[..n]) == Next(RunOps(ops[..n - 1]), ops[n - 1])
    ensures ProperRun(ops[..n]) <==> ProperRun(ops[..n - 1]) && Proper(RunOps(ops[..n - 1]), ops[n - 1])
  {
    assert ops[..n][..n - 1] == ops[..n - 1];
  }
}
