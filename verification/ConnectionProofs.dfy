/** What holds in every run of ConnectionModel. */
module ConnectionProofs {
  import opened Endian
  import opened PollerModel
  import opened ConnectionModel

  // ----- what sending leaves alone -----

  /** q is p, perhaps with a functor behind it that only runs a user callback. */
  predicate Notes(p: seq<Functor>, q: seq<Functor>) {
    q == p || (|q| == |p| + 1 && q[..|p|] == p && (q[|p|].WriteCompleteF? || q[|p|].HighWaterF?))
  }

  /** The effects of the life cycle, and the half-close. */
  predicate SameCounts(a: Trace, b: Trace) {
    && Count(a, Up) == Count(b, Up) && Count(a, Down) == Count(b, Down) && Count(a, Closed) == Count(b, Closed)
    && Count(a, HalfClosed) == Count(b, HalfClosed)
  }

  /** b goes on from a without a half-close. */
  predicate Speaks(a: Trace, b: Trace) {
    && SameCounts(a, b)
    && (Silent(b) ==> Silent(a))
    && (Count(a, HalfClosed) == 0 && Silent(a) ==> Silent(b))
  }

  /** Only the output, write interest, a callback in the queue and the trace may differ. */
  predicate Carries(c: Conn, d: Conn) {
    d.state == c.state && Notes(c.pending, d.pending) && Speaks(c.trace, d.trace)
  }

  lemma PushCarries(c: Conn, bytes: seq<Byte>)
    ensures var d := Push(c, bytes); Carries(c, d) && d.pending == c.pending
  {
  }

  lemma TailCarries(cfg: Config, c: Conn, tail: seq<Byte>)
    ensures Carries(c, QueueTail(cfg, c, tail))
  {
  }

  lemma CompleteCarries(cfg: Config, c: Conn)
    ensures Carries(c, QueueComplete(cfg, c))
  {
  }

  lemma SendCarries(cfg: Config, c: Conn, msg: seq<Byte>, w: WriteResult)
    ensures Carries(c, SendInLoop(cfg, c, msg, w))
  {
    var n := Taken(w, |msg|);
    var c1 := Push(c, msg[..n]);
    TailCarries(cfg, c, msg);
    PushCarries(c, msg[..n]);
    CompleteCarries(cfg, c1);
    TailCarries(cfg, c1, msg[n..]);
  }

  // ----- stream conservation -----

  function Stream(c: Conn): seq<Byte> {
    Wire(c.trace) + c.output
  }

  lemma MoveAcross(a: seq<Byte>, b: seq<Byte>, n: nat)
    requires n <= |b|
    ensures (a + b[..n]) + b[n..] == a + b
  {
  }

  lemma PushStream(c: Conn, bytes: seq<Byte>)
    ensures Wire(Push(c, bytes).trace) == Wire(c.trace) + bytes
    ensures Push(c, bytes).output == c.output
  {
  }

  lemma TailStream(cfg: Config, c: Conn, tail: seq<Byte>)
    ensures Stream(QueueTail(cfg, c, tail)) == Stream(c) + tail
  {
  }

  lemma CompleteStream(cfg: Config, c: Conn)
    ensures Wire(QueueComplete(cfg, c).trace) == Wire(c.trace) && QueueComplete(cfg, c).output == c.output
  {
  }

  lemma NothingAdded(a: seq<Byte>)
    ensures a + [] == a
  {
  }

  /** Lines 246-253 on an idle connection, and the tail if there is one. */
  lemma DirectStream(cfg: Config, c: Conn, msg: seq<Byte>, n: nat)
    requires c.output == [] && n <= |msg|
    ensures var c1 := Push(c, msg[..n]);
      && Stream(QueueTail(cfg, c1, msg[n..])) == Stream(c) + msg
      && (n == |msg| ==> Stream(QueueComplete(cfg, c1)) == Stream(c) + msg)
  {
    var wire, c1 := Wire(c.trace), Push(c, msg[..n]);
    PushStream(c, msg[..n]);
    CompleteStream(cfg, c1);
    TailStream(cfg, c1, msg[n..]);
    MoveAcross(wire, msg, n);
    NothingAdded(wire);
    NothingAdded(Wire(c1.trace));
    assert msg[..|msg|] == msg;
  }

  lemma SendConserves(cfg: Config, c: Conn, msg: seq<Byte>, w: WriteResult)
    ensures Stream(SendInLoop(cfg, c, msg, w)) == Stream(c) + TakenInLoop(c, msg, w)
  {
    NothingAdded(Stream(c));
    if c.Idle() && w.Accepts? {
      DirectStream(cfg, c, msg, Taken(w, |msg|));
    } else {
      TailStream(cfg, c, msg);
    }
  }

  lemma WriteConserves(cfg: Config, c: Conn, w: WriteResult)
    ensures Stream(HandleWrite(cfg, c, w)) == Stream(c)
  {
    MoveAcross(Wire(c.trace), c.output, Taken(w, |c.output|));
  }

  lemma NextConserves(cfg: Config, c: Conn, s: Step)
    ensures Stream(Next(cfg, c, s)) == Stream(c) + TakenBy(c, s)
  {
    match s
    case CallSend(msg, w) => SendConserves(cfg, c, msg, w);
    case Writable(w) => WriteConserves(cfg, c, w);
    case RunNext(w) =>
      if c.pending != [] && c.pending[0].SendF? {
        SendConserves(cfg, c.(pending := c.pending[1..]), c.pending[0].message, w);
      }
    case _ =>
  }

  /** Whatever the kernel answers, the bytes on the wire followed by the output buffer are all the
      messages taken so far, in order. */
  lemma {:induction false} StreamConserved(cfg: Config, steps: seq<Step>)
    ensures Wire(Run(cfg, steps).trace) + Run(cfg, steps).output == TakenStream(cfg, steps)
  {
    if steps != [] {
      var front := steps[..|steps| - 1];
      StreamConserved(cfg, front);
      NextConserves(cfg, Run(cfg, front), steps[|steps| - 1]);
    }
  }

  // ----- write interest -----

  /** Write interest is on exactly while bytes are pending; read interest exactly while the connection
      is open; a closed connection has neither. */
  predicate InterestMatches(c: Conn) {
    match c.state
    case Connecting => c.events == NONE_EVENT && c.output == [] && c.pending == []
    case Disconnected => c.events == NONE_EVENT
    case _ => In in c.events && Pri in c.events && (c.Writing() <==> c.output != [])
  }

  lemma SendKeepsInterest(cfg: Config, c: Conn, msg: seq<Byte>, w: WriteResult)
    requires InterestMatches(c) && !c.state.Connecting?
    ensures InterestMatches(SendInLoop(cfg, c, msg, w))
  {
  }

  lemma WriteKeepsInterest(cfg: Config, c: Conn, w: WriteResult)
    requires InterestMatches(c)
    ensures InterestMatches(HandleWrite(cfg, c, w))
  {
  }

  lemma NextKeepsInterest(cfg: Config, c: Conn, s: Step)
    requires InterestMatches(c)
    ensures InterestMatches(Next(cfg, c, s))
  {
    match s
    case CallSend(msg, w) =>
      if c.state.Connected? {
        SendKeepsInterest(cfg, c, msg, w);
      }
    case Writable(w) => WriteKeepsInterest(cfg, c, w);
    case RunNext(w) =>
      if c.pending != [] && c.pending[0].SendF? {
        SendKeepsInterest(cfg, c.(pending := c.pending[1..]), c.pending[0].message, w);
      }
    case _ =>
  }

  lemma {:induction false} InterestMirrorsPending(cfg: Config, steps: seq<Step>)
    ensures InterestMatches(Run(cfg, steps))
  {
    if steps != [] {
      InterestMirrorsPending(cfg, steps[..|steps| - 1]);
      NextKeepsInterest(cfg, Run(cfg, steps[..|steps| - 1]), steps[|steps| - 1]);
    }
  }

  /** Sending the connection's own output buffer does no harm exactly while it is empty; otherwise bytes
      already taken leave the output, and write interest stays on for nothing. */
  lemma SendOwnOutputSafeIff(cfg: Config, steps: seq<Step>, inLoop: bool, w: WriteResult)
    requires Run(cfg, steps).state.Connected?
    ensures var c := Run(cfg, steps); var d := SendOwnOutput(cfg, c, inLoop, w);
      && (Wire(d.trace) + d.output == TakenStream(cfg, steps) <==> c.output == [])
      && (InterestMatches(d) <==> c.output == [])
  {
    var c := Run(cfg, steps);
    InterestMirrorsPending(cfg, steps);
    StreamConserved(cfg, steps);
    var d := SendOwnOutput(cfg, c, inLoop, w);
    assert Wire(d.trace) == Wire(c.trace) && d.Writing() == c.Writing();
    assert |Wire(d.trace) + d.output| == |Wire(c.trace)|;
    assert |TakenStream(cfg, steps)| == |Wire(c.trace)| + |c.output|;
  }

  /** What becomes of the pending bytes then: sent on the loop's thread they are gone, though they counted
      twice against the mark; sent elsewhere they wait in the queue, behind everything else. An empty output
      is sent like any empty message, and nothing happens unless the connection is up. */
  lemma WhereOwnOutputGoes(cfg: Config, c: Conn, inLoop: bool, w: WriteResult)
    requires InterestMatches(c)
    ensures var d := SendOwnOutput(cfg, c, inLoop, w);
      && (!c.state.Connected? ==> d == c)
      && (c.state.Connected? ==> d.output == [])
      && (c.state.Connected? && !inLoop ==> d.pending == c.pending + [SendF(c.output)] && d.trace == c.trace)
      && (c.state.Connected? && inLoop && c.output == [] ==> d == Send(cfg, c, [], w))
      && (c.state.Connected? && inLoop && c.output != [] ==>
            if cfg.onHighWater && |c.output| < cfg.mark <= 2 * |c.output|
            then d.pending == c.pending + [HighWaterF(2 * |c.output|)] && d.trace == Then(c.trace, QueuedHighWater)
            else d.pending == c.pending && d.trace == c.trace)
  {
    if c.state.Connected? && inLoop && c.output == [] {
      EmptySend(cfg, c, w);
    }
  }

  lemma EmptySend(cfg: Config, c: Conn, w: WriteResult)
    requires c.output == [] && !c.Writing()
    ensures SendInLoop(cfg, c, [], w).output == []
  {
  }

  // ----- write completion -----

  /** A write-complete callback is queued only when everything taken is on the wire, and then it is the
      last in the loop's queue; a step that puts bytes on the wire queues one exactly when nothing is left
      pending. */
  lemma CompletionMeansDrained(cfg: Config, steps: seq<Step>, s: Step)
    ensures var pending := Run(cfg, steps + [s]).pending;
      Count(Run(cfg, steps + [s]).trace, QueuedComplete) != Count(Run(cfg, steps).trace, QueuedComplete) ==>
        pending != [] && pending[|pending| - 1] == WriteCompleteF
    ensures var c, d := Run(cfg, steps).trace, Run(cfg, steps + [s]).trace;
      && Count(d, QueuedComplete) <= Count(c, QueuedComplete) + 1
      && (Count(d, QueuedComplete) != Count(c, QueuedComplete) ==> Wire(d) == TakenStream(cfg, steps + [s]))
      && (cfg.onComplete && |Wire(d)| > |Wire(c)| ==>
            (Count(d, QueuedComplete) != Count(c, QueuedComplete) <==> Wire(d) == TakenStream(cfg, steps + [s])))
  {
    var c := Run(cfg, steps);
    RunOneMore(cfg, steps, s);
    StreamConserved(cfg, steps + [s]);
    StepCompletes(cfg, c, s);
    var d := Run(cfg, steps + [s]);
    assert Wire(d.trace) == TakenStream(cfg, steps + [s]) <==> d.output == [] by {
      assert |Wire(d.trace) + d.output| == |TakenStream(cfg, steps + [s])|;
    }
  }

  /** d follows c, and a completion is queued in between as it should be. */
  predicate Completes(cfg: Config, c: Conn, d: Conn) {
    var before, after := Count(c.trace, QueuedComplete), Count(d.trace, QueuedComplete);
    && before <= after <= before + 1
    && (after > before ==> d.output == [] && d.pending != [] && d.pending[|d.pending| - 1] == WriteCompleteF)
    && (cfg.onComplete && |Wire(d.trace)| > |Wire(c.trace)| ==> (after > before <==> d.output == []))
  }

  lemma SendCompletes(cfg: Config, c: Conn, msg: seq<Byte>, w: WriteResult)
    ensures Completes(cfg, c, SendInLoop(cfg, c, msg, w))
  {
    var n := Taken(w, |msg|);
    TailCompletesNothing(cfg, c, msg);
    if c.Idle() && w.Accepts? {
      DirectCompletes(cfg, c, msg, n);
    }
  }

  lemma TailCompletesNothing(cfg: Config, c: Conn, tail: seq<Byte>)
    ensures var d := QueueTail(cfg, c, tail);
      && Count(d.trace, QueuedComplete) == Count(c.trace, QueuedComplete) && Wire(d.trace) == Wire(c.trace)
      && d.output == c.output + tail
  {
  }

  lemma DirectCompletes(cfg: Config, c: Conn, msg: seq<Byte>, n: nat)
    requires c.output == [] && n <= |msg|
    ensures var c1 := Push(c, msg[..n]);
      if n == |msg| then Completes(cfg, c, QueueComplete(cfg, c1)) else Completes(cfg, c, QueueTail(cfg, c1, msg[n..]))
  {
    var c1 := Push(c, msg[..n]);
    assert Count(c1.trace, QueuedComplete) == Count(c.trace, QueuedComplete) && c1.output == [];
    TailCompletesNothing(cfg, c1, msg[n..]);
  }

  lemma WriteCompletes(cfg: Config, c: Conn, w: WriteResult)
    ensures Completes(cfg, c, HandleWrite(cfg, c, w))
  {
  }

  lemma StepCompletes(cfg: Config, c: Conn, s: Step)
    ensures Completes(cfg, c, Next(cfg, c, s))
  {
    match s
    case CallSend(msg, w) => SendCompletes(cfg, c, msg, w);
    case Writable(w) => WriteCompletes(cfg, c, w);
    case RunNext(w) =>
      if c.pending != [] && c.pending[0].SendF? {
        SendCompletes(cfg, c.(pending := c.pending[1..]), c.pending[0].message, w);
      }
    case _ =>
  }

  // ----- high-water mark -----

  /** A drain that takes the pending bytes from at or above the mark to below it. */
  predicate CrossesDown(cfg: Config, c: Conn, s: Step) {
    s.Writable? && |c.output| >= cfg.mark > |Next(cfg, c, s).output|
  }

  function Crossings(cfg: Config, steps: seq<Step>): nat {
    if steps == [] then 0
    else
      var front, last := steps[..|steps| - 1], steps[|steps| - 1];
      Crossings(cfg, front) + if CrossesDown(cfg, Run(cfg, front), last) then 1 else 0
  }

  function AboveMark(cfg: Config, c: Conn): nat {
    if |c.output| >= cfg.mark then 1 else 0
  }

  /** d has `crossings` more drains below the mark than c. */
  predicate WaterMoves(cfg: Config, c: Conn, d: Conn, crossings: nat) {
    Count(d.trace, QueuedHighWater) + AboveMark(cfg, c)
    == Count(c.trace, QueuedHighWater) + AboveMark(cfg, d) + crossings
  }

  lemma TailMovesWater(cfg: Config, c: Conn, tail: seq<Byte>)
    requires cfg.onHighWater && cfg.mark > 0
    ensures WaterMoves(cfg, c, QueueTail(cfg, c, tail), 0)
  {
  }

  /** Only QueueTail changes the number of notifications. */
  lemma PushKeepsWater(cfg: Config, c: Conn, bytes: seq<Byte>)
    ensures var d := Push(c, bytes);
      Count(d.trace, QueuedHighWater) == Count(c.trace, QueuedHighWater) && d.output == c.output
  {
  }

  lemma CompleteKeepsWater(cfg: Config, c: Conn)
    ensures var d := QueueComplete(cfg, c);
      Count(d.trace, QueuedHighWater) == Count(c.trace, QueuedHighWater) && d.output == c.output
  {
  }

  lemma SendMovesWater(cfg: Config, c: Conn, msg: seq<Byte>, w: WriteResult)
    requires cfg.onHighWater && cfg.mark > 0
    ensures WaterMoves(cfg, c, SendInLoop(cfg, c, msg, w), 0)
  {
    var n := Taken(w, |msg|);
    var c1 := Push(c, msg[..n]);
    TailMovesWater(cfg, c, msg);
    PushKeepsWater(cfg, c, msg[..n]);
    CompleteKeepsWater(cfg, c1);
    TailMovesWater(cfg, c1, msg[n..]);
  }

  lemma WriteMovesWater(cfg: Config, c: Conn, w: WriteResult)
    requires cfg.onHighWater && cfg.mark > 0
    ensures WaterMoves(cfg, c, HandleWrite(cfg, c, w), if CrossesDown(cfg, c, Writable(w)) then 1 else 0)
  {
  }

  lemma NextKeepsWater(cfg: Config, c: Conn, s: Step)
    requires cfg.onHighWater && cfg.mark > 0
    ensures WaterMoves(cfg, c, Next(cfg, c, s), if CrossesDown(cfg, c, s) then 1 else 0)
  {
    match s
    case CallSend(msg, w) => SendMovesWater(cfg, c, msg, w);
    case Writable(w) => WriteMovesWater(cfg, c, w);
    case RunNext(w) =>
      if c.pending != [] && c.pending[0].SendF? {
        SendMovesWater(cfg, c.(pending := c.pending[1..]), c.pending[0].message, w);
      }
    case _ =>
  }

  /** If d has one notification more than c, it carries the bytes pending then. */
  predicate ReportsSize(c: Conn, d: Conn) {
    Count(d.trace, QueuedHighWater) != Count(c.trace, QueuedHighWater) ==>
      d.pending != [] && d.pending[|d.pending| - 1] == HighWaterF(|d.output|)
  }

  lemma TailReportsSize(cfg: Config, c: Conn, tail: seq<Byte>)
    ensures ReportsSize(c, QueueTail(cfg, c, tail))
  {
  }

  lemma SendReportsSize(cfg: Config, c: Conn, msg: seq<Byte>, w: WriteResult)
    ensures ReportsSize(c, SendInLoop(cfg, c, msg, w))
  {
    var n := Taken(w, |msg|);
    var c1 := Push(c, msg[..n]);
    TailReportsSize(cfg, c, msg);
    PushKeepsWater(cfg, c, msg[..n]);
    CompleteKeepsWater(cfg, c1);
    TailReportsSize(cfg, c1, msg[n..]);
  }

  lemma WriteReportsNothing(cfg: Config, c: Conn, w: WriteResult)
    ensures Count(HandleWrite(cfg, c, w).trace, QueuedHighWater) == Count(c.trace, QueuedHighWater)
  {
  }

  /** The notification carries the number of pending bytes at that moment. */
  lemma WaterReportsSize(cfg: Config, c: Conn, s: Step)
    ensures ReportsSize(c, Next(cfg, c, s))
  {
    match s
    case CallSend(msg, w) => SendReportsSize(cfg, c, msg, w);
    case Writable(w) => WriteReportsNothing(cfg, c, w);
    case RunNext(w) =>
      if c.pending != [] && c.pending[0].SendF? {
        SendReportsSize(cfg, c.(pending := c.pending[1..]), c.pending[0].message, w);
      }
    case _ =>
  }

  lemma TailNeverNotifies(cfg: Config, c: Conn, tail: seq<Byte>)
    requires !cfg.onHighWater || cfg.mark == 0
    ensures Count(QueueTail(cfg, c, tail).trace, QueuedHighWater) == Count(c.trace, QueuedHighWater)
  {
  }

  lemma SendNeverNotifies(cfg: Config, c: Conn, msg: seq<Byte>, w: WriteResult)
    requires !cfg.onHighWater || cfg.mark == 0
    ensures Count(SendInLoop(cfg, c, msg, w).trace, QueuedHighWater) == Count(c.trace, QueuedHighWater)
  {
    var n := Taken(w, |msg|);
    var c1 := Push(c, msg[..n]);
    TailNeverNotifies(cfg, c, msg);
    PushKeepsWater(cfg, c, msg[..n]);
    CompleteKeepsWater(cfg, c1);
    TailNeverNotifies(cfg, c1, msg[n..]);
  }

  lemma NeverNotifies(cfg: Config, c: Conn, s: Step)
    requires !cfg.onHighWater || cfg.mark == 0
    ensures Count(Next(cfg, c, s).trace, QueuedHighWater) == Count(c.trace, QueuedHighWater)
  {
    match s
    case CallSend(msg, w) => SendNeverNotifies(cfg, c, msg, w);
    case Writable(w) => WriteReportsNothing(cfg, c, w);
    case RunNext(w) =>
      if c.pending != [] && c.pending[0].SendF? {
        SendNeverNotifies(cfg, c.(pending := c.pending[1..]), c.pending[0].message, w);
      }
    case _ =>
  }

  /** With a callback and a positive mark, the notifications exceed the drains below the mark by one
      exactly while the pending bytes are at or above it. Otherwise, a mark of 0 included, there are none. */
  lemma {:induction false} HighWaterAccounting(cfg: Config, steps: seq<Step>)
    ensures var c := Run(cfg, steps);
      Count(c.trace, QueuedHighWater)
      == if cfg.onHighWater && cfg.mark > 0 then Crossings(cfg, steps) + AboveMark(cfg, c) else 0
  {
    if steps != [] {
      var front, last := steps[..|steps| - 1], steps[|steps| - 1];
      HighWaterAccounting(cfg, front);
      if cfg.onHighWater && cfg.mark > 0 {
        NextKeepsWater(cfg, Run(cfg, front), last);
      } else {
        NeverNotifies(cfg, Run(cfg, front), last);
      }
    }
  }

  // ----- life cycle -----

  /** The state, and how often each of the connection's callbacks has run. */
  datatype Life = Life(state: State, ups: nat, downs: nat, closes: nat)

  function LifeOf(c: Conn): Life {
    Life(c.state, Count(c.trace, Up), Count(c.trace, Down), Count(c.trace, Closed))
  }

  /** The callbacks each state has seen. */
  predicate CallbacksMatch(l: Life) {
    match l.state
    case Connecting => l.ups == 0 && l.downs == 0 && l.closes == 0
    case Disconnected => l.ups <= 1 && l.downs == 1 && l.closes <= 1
    case _ => l.ups == 1 && l.downs == 0 && l.closes == 0
  }

  /** The only ways a life can go on; only connectDestroyed ends it without the close callback. */
  predicate LivesOn(a: Life, b: Life, destroy: bool) {
    || b == a
    || (a.state.Connecting? && b == a.(state := Connected, ups := a.ups + 1))
    || (a.state.Connected? && b == a.(state := DisConnecting))
    || (!a.state.Disconnected? && !destroy && b == a.(state := Disconnected, downs := a.downs + 1, closes := a.closes + 1))
    || (a.state.Connected? && destroy && b == a.(state := Disconnected, downs := a.downs + 1))
  }

  /** connectDestroyed, not handleClose, ended the connection. */
  predicate Destroyed(cfg: Config, steps: seq<Step>) {
    steps != [] &&
    var front, last := steps[..|steps| - 1], steps[|steps| - 1];
    Destroyed(cfg, front) || (last.Destroy? && Run(cfg, front).state.Connected?)
  }

  lemma SendKeepsLife(cfg: Config, c: Conn, msg: seq<Byte>, w: WriteResult)
    ensures LifeOf(SendInLoop(cfg, c, msg, w)) == LifeOf(c)
  {
    SendCarries(cfg, c, msg, w);
  }

  lemma WriteLivesOn(cfg: Config, c: Conn, w: WriteResult)
    ensures LivesOn(LifeOf(c), LifeOf(HandleWrite(cfg, c, w)), false)
  {
  }

  lemma NextLivesOn(cfg: Config, c: Conn, s: Step)
    ensures LivesOn(LifeOf(c), LifeOf(Next(cfg, c, s)), s.Destroy?)
  {
    match s
    case CallSend(msg, w) => SendKeepsLife(cfg, c, msg, w);
    case Writable(w) => WriteLivesOn(cfg, c, w);
    case RunNext(w) =>
      if c.pending != [] && c.pending[0].SendF? {
        SendKeepsLife(cfg, c.(pending := c.pending[1..]), c.pending[0].message, w);
      }
    case _ =>
  }

  /** The connection callback runs at most twice, at most once as "down" and only when the
      connection goes down; the close callback at most once, and then exactly unless the connection
      was up when connectDestroyed ended it. */
  lemma {:induction false} LifeCycle(cfg: Config, steps: seq<Step>)
    ensures var c := Run(cfg, steps);
      && CallbacksMatch(LifeOf(c))
      && (c.state.Disconnected? ==> (Count(c.trace, Closed) == 0 <==> Destroyed(cfg, steps)))
      && (!c.state.Disconnected? ==> !Destroyed(cfg, steps))
  {
    if steps != [] {
      var front, last := steps[..|steps| - 1], steps[|steps| - 1];
      LifeCycle(cfg, front);
      NextLivesOn(cfg, Run(cfg, front), last);
      DestroyEnds(cfg, Run(cfg, front), last);
    }
  }

  lemma DestroyEnds(cfg: Config, c: Conn, s: Step)
    ensures s.Destroy? && c.state.Connected? ==> Next(cfg, c, s).state.Disconnected?
    ensures c.state.Disconnected? ==> LifeOf(Next(cfg, c, s)) == LifeOf(c)
  {
    NextLivesOn(cfg, c, s);
  }

  /** The state never moves back, however the run continues: each of kConnected, kDisConnecting and
      kDisconnected is left for a later one or not at all. */
  lemma {:induction false} RankNeverDecreases(cfg: Config, steps: seq<Step>, more: seq<Step>)
    ensures var c, d := Run(cfg, steps).state, Run(cfg, steps + more).state;
      && (c.Disconnected? ==> d.Disconnected?)
      && (c.DisConnecting? ==> d.DisConnecting? || d.Disconnected?)
      && (c.Connected? ==> !d.Connecting?)
    ensures Rank(Run(cfg, steps).state) <= Rank(Run(cfg, steps + more).state)
    decreases |more|
  {
    if more == [] {
      assert steps + more == steps;
    } else {
      var front, last := more[..|more| - 1], more[|more| - 1];
      RankNeverDecreases(cfg, steps, front);
      NextLivesOn(cfg, Run(cfg, steps + front), last);
      assert steps + more == (steps + front) + [last];
      RunOneMore(cfg, steps + front, last);
    }
  }

  lemma TakenOneMore(cfg: Config, steps: seq<Step>, s: Step)
    ensures TakenStream(cfg, steps + [s]) == TakenStream(cfg, steps) + TakenBy(Run(cfg, steps), s)
  {
    assert (steps + [s])[..|steps|] == steps;
  }

  lemma DisconnectedStays(cfg: Config, c: Conn, s: Step)
    requires c.state.Disconnected? && InterestMatches(c)
    ensures var d := Next(cfg, c, s);
      LifeOf(d) == LifeOf(c) && d.output == c.output && Wire(d.trace) == Wire(c.trace) && TakenBy(c, s) == []
  {
  }

  /** Once disconnected, nothing more is taken, nothing more is written, and no callback but the
      message callback runs, however the run continues. */
  lemma {:induction false} NothingAfterDisconnect(cfg: Config, steps: seq<Step>, more: seq<Step>)
    requires Run(cfg, steps).state.Disconnected?
    ensures var c, d := Run(cfg, steps), Run(cfg, steps + more);
      && LifeOf(d) == LifeOf(c) && d.output == c.output && Wire(d.trace) == Wire(c.trace)
      && TakenStream(cfg, steps + more) == TakenStream(cfg, steps)
    decreases |more|
  {
    if more == [] {
      assert steps + more == steps;
    } else {
      var front, last := more[..|more| - 1], more[|more| - 1];
      NothingAfterDisconnect(cfg, steps, front);
      InterestMirrorsPending(cfg, steps + front);
      DisconnectedStays(cfg, Run(cfg, steps + front), last);
      assert steps + more == (steps + front) + [last];
      RunOneMore(cfg, steps + front, last);
      TakenOneMore(cfg, steps + front, last);
    }
  }

  // ----- forceClose -----

  /** forceClose has been called on an open connection. */
  predicate ForceRequested(cfg: Config, steps: seq<Step>) {
    steps != [] &&
    var front, last := steps[..|steps| - 1], steps[|steps| - 1];
    ForceRequested(cfg, front)
    || (last.CallForceClose? && (Run(cfg, front).state.Connected? || Run(cfg, front).state.DisConnecting?))
  }

  lemma PendingStays(cfg: Config, c: Conn, s: Step, f: Functor)
    requires f in c.pending && !(s.RunNext? && c.pending[0] == f)
    ensures f in Next(cfg, c, s).pending
  {
    match s
    case RunNext(w) =>
      assert c.pending == [c.pending[0]] + c.pending[1..];
    case _ =>
  }

  /** A forced close is not forgotten: until the connection is down, it waits in the queue. */
  lemma {:induction false} ForceCloseWaits(cfg: Config, steps: seq<Step>)
    requires ForceRequested(cfg, steps)
    ensures Run(cfg, steps).state.Disconnected? || ForceCloseF in Run(cfg, steps).pending
  {
    var front, last := steps[..|steps| - 1], steps[|steps| - 1];
    var c := Run(cfg, front);
    NextLivesOn(cfg, c, last);
    LifeCycle(cfg, front);
    if ForceRequested(cfg, front) {
      ForceCloseWaits(cfg, front);
      ForceRequestedIsOpen(cfg, front);
      if !c.state.Disconnected? && !(last.RunNext? && c.pending[0] == ForceCloseF) {
        PendingStays(cfg, c, last, ForceCloseF);
      }
    }
  }

  lemma {:induction false} ForceRequestedIsOpen(cfg: Config, steps: seq<Step>)
    requires ForceRequested(cfg, steps)
    ensures Rank(Run(cfg, steps).state) >= 2
  {
    var front, last := steps[..|steps| - 1], steps[|steps| - 1];
    NextLivesOn(cfg, Run(cfg, front), last);
    if ForceRequested(cfg, front) {
      ForceRequestedIsOpen(cfg, front);
    }
  }

  /** On a connection that is not open, both halves of forceClose do nothing. */
  lemma ForceCloseNeedsOpen(c: Conn)
    ensures c.state.Connecting? || c.state.Disconnected? <==> ForceClose(c) == c
    ensures c.state.Connecting? || c.state.Disconnected? <==> ForceCloseInLoop(c) == c
  {
    assert |c.pending + [ForceCloseF]| == |c.pending| + 1;
  }

  /** The loop takes n functors in turn. */
  function RunMany(cfg: Config, c: Conn, ws: seq<WriteResult>): Conn
    decreases |ws|
  {
    if ws == [] then c else RunMany(cfg, Next(cfg, c, RunNext(ws[0])), ws[1..])
  }

  lemma RunNextAppends(cfg: Config, c: Conn, w: WriteResult)
    requires c.pending != []
    ensures c.pending[1..] <= Next(cfg, c, RunNext(w)).pending
  {
  }

  /** When the loop has taken the functors ahead of it and then the forced close itself, an open
      connection is down, whatever those functors do. */
  lemma {:induction false} ForceCloseTakesEffect(cfg: Config, c: Conn, k: nat, ws: seq<WriteResult>)
    requires !c.state.Connecting? && k < |c.pending| && c.pending[k] == ForceCloseF && |ws| == k + 1
    ensures RunMany(cfg, c, ws).state.Disconnected?
    decreases k
  {
    var d := Next(cfg, c, RunNext(ws[0]));
    NextLivesOn(cfg, c, RunNext(ws[0]));
    if k > 0 {
      RunNextAppends(cfg, c, ws[0]);
      assert d.pending[k - 1] == c.pending[1..][k - 1];
      ForceCloseTakesEffect(cfg, d, k - 1, ws[1..]);
    }
  }

  // ----- messages from other threads -----

  function Sends(pending: seq<Functor>): seq<seq<Byte>> {
    if pending == [] then []
    else Sends(pending[..|pending| - 1]) +
         var f := pending[|pending| - 1]; if f.SendF? then [f.message] else []
  }

  /** Messages that send() accepted on another thread, and those of them the loop has taken up. */
  function Offered(cfg: Config, steps: seq<Step>): seq<seq<Byte>> {
    if steps == [] then []
    else
      var front := steps[..|steps| - 1];
      Offered(cfg, front) + Accepted(Run(cfg, front), steps[|steps| - 1])
  }

  function TakenUp(cfg: Config, steps: seq<Step>): seq<seq<Byte>> {
    if steps == [] then []
    else
      var front := steps[..|steps| - 1];
      TakenUp(cfg, front) + TakesUp(Run(cfg, front), steps[|steps| - 1])
  }

  lemma SendsAppend(pending: seq<Functor>, f: Functor)
    ensures Sends(pending + [f]) == Sends(pending) + if f.SendF? then [f.message] else []
  {
    assert (pending + [f])[..|pending|] == pending;
  }

  lemma Regroup<T>(a: seq<T>, b: seq<T>, c: seq<T>)
    ensures (a + b) + c == a + (b + c)
  {
  }

  lemma {:induction false} SendsConcat(a: seq<Functor>, b: seq<Functor>)
    ensures Sends(a + b) == Sends(a) + Sends(b)
  {
    if b == [] {
      assert a + b == a;
    } else {
      var front, last := b[..|b| - 1], b[|b| - 1];
      SendsConcat(a, front);
      assert a + b == (a + front) + [last];
      SendsAppend(a + front, last);
      Regroup(Sends(a), Sends(front), if last.SendF? then [last.message] else []);
    }
  }

  lemma SendsFront(pending: seq<Functor>)
    requires pending != []
    ensures Sends(pending) == (if pending[0].SendF? then [pending[0].message] else []) + Sends(pending[1..])
  {
    assert pending == [pending[0]] + pending[1..];
    SendsConcat([pending[0]], pending[1..]);
    assert [pending[0]] == [] + [pending[0]];
    SendsAppend([], pending[0]);
  }

  /** q is p, perhaps with a functor behind it that is not a message. */
  predicate Extends(p: seq<Functor>, q: seq<Functor>) {
    q == p || (|q| == |p| + 1 && q[..|p|] == p && !q[|p|].SendF?)
  }

  lemma ExtendsKeepsSends(p: seq<Functor>, q: seq<Functor>)
    requires Extends(p, q)
    ensures Sends(q) == Sends(p)
  {
  }

  lemma SendExtends(cfg: Config, c: Conn, msg: seq<Byte>, w: WriteResult)
    ensures Extends(c.pending, SendInLoop(cfg, c, msg, w).pending)
  {
    SendCarries(cfg, c, msg, w);
  }

  lemma WriteExtends(cfg: Config, c: Conn, w: WriteResult)
    ensures Extends(c.pending, HandleWrite(cfg, c, w).pending)
  {
  }

  /** Apart from taking up the front of the queue and from a message sent elsewhere, a step at most
      adds a functor that is not a message. */
  lemma NextExtends(cfg: Config, c: Conn, s: Step)
    ensures !s.RunNext? && !s.CallSendRemote? ==> Extends(c.pending, Next(cfg, c, s).pending)
    ensures s.RunNext? && c.pending != [] ==> Extends(c.pending[1..], Next(cfg, c, s).pending)
  {
    match s
    case CallSend(msg, w) => SendExtends(cfg, c, msg, w);
    case Writable(w) => WriteExtends(cfg, c, w);
    case RunNext(w) =>
      if c.pending != [] && c.pending[0].SendF? {
        SendExtends(cfg, c.(pending := c.pending[1..]), c.pending[0].message, w);
      }
    case _ =>
  }

  /** The message a step takes up, and the one it accepts from another thread. */
  function TakesUp(c: Conn, s: Step): seq<seq<Byte>> {
    if s.RunNext? && c.pending != [] && c.pending[0].SendF? then [c.pending[0].message] else []
  }

  function Accepted(c: Conn, s: Step): seq<seq<Byte>> {
    if s.CallSendRemote? && c.state.Connected? then [s.message] else []
  }

  lemma NextSends(cfg: Config, c: Conn, s: Step)
    ensures TakesUp(c, s) + Sends(Next(cfg, c, s).pending) == Sends(c.pending) + Accepted(c, s)
  {
    NextExtends(cfg, c, s);
    if s.CallSendRemote? {
      SendsAppend(c.pending, SendF(s.message));
    } else if s.RunNext? && c.pending != [] {
      ExtendsKeepsSends(c.pending[1..], Next(cfg, c, s).pending);
      SendsFront(c.pending);
    } else if !s.RunNext? {
      ExtendsKeepsSends(c.pending, Next(cfg, c, s).pending);
    }
  }

  /** Messages sent from other threads are taken up in the order they were accepted, none twice and
      none left out: those taken up and those still queued are all there were. */
  lemma {:induction false} RemoteSendsInOrder(cfg: Config, steps: seq<Step>)
    ensures TakenUp(cfg, steps) + Sends(Run(cfg, steps).pending) == Offered(cfg, steps)
  {
    if steps != [] {
      var front, last := steps[..|steps| - 1], steps[|steps| - 1];
      var c := Run(cfg, front);
      RemoteSendsInOrder(cfg, front);
      NextSends(cfg, c, last);
      Weave(TakenUp(cfg, front), Sends(c.pending), TakesUp(c, last), Sends(Next(cfg, c, last).pending), Accepted(c, last));
    }
  }

  lemma Weave<T>(done: seq<T>, waiting: seq<T>, taken: seq<T>, left: seq<T>, more: seq<T>)
    requires taken + left == waiting + more
    ensures (done + taken) + left == (done + waiting) + more
  {
    Regroup(done, taken, left);
    Regroup(done, waiting, more);
  }

  // ----- half-close -----

  /** send and shutdown are called on the loop thread; forceClose may come from anywhere. */
  predicate OnLoopThread(steps: seq<Step>) {
    forall i :: 0 <= i < |steps| ==> !steps[i].CallSendRemote? && !steps[i].CallShutdownRemote?
  }

  /** forceClose, not shutdown, ended the connected state. */
  predicate Forced(cfg: Config, steps: seq<Step>) {
    steps != [] &&
    var front, last := steps[..|steps| - 1], steps[|steps| - 1];
    Forced(cfg, front) || (last.CallForceClose? && Run(cfg, front).state.Connected?)
  }

  predicate HalfCloseOnce(t: Trace) {
    Count(t, HalfClosed) <= 1 && Silent(t)
  }

  predicate NoQueuedSends(c: Conn) {
    forall i :: 0 <= i < |c.pending| ==> !c.pending[i].SendF? && !c.pending[i].ShutdownF?
  }

  predicate HalfCloseInv(c: Conn, forced: bool) {
    && NoQueuedSends(c)
    && HalfCloseOnce(c.trace)
    && (c.state.Connecting? || c.state.Connected? ==> Count(c.trace, HalfClosed) == 0 && !forced)
    && (Count(c.trace, HalfClosed) == 1 ==> c.output == [])
    && (c.state.DisConnecting? && !forced && c.output == [] ==> Count(c.trace, HalfClosed) == 1)
  }

  lemma SendKeepsHalfClose(cfg: Config, c: Conn, msg: seq<Byte>, w: WriteResult)
    requires c.state.Connected? && HalfCloseInv(c, false)
    ensures HalfCloseInv(SendInLoop(cfg, c, msg, w), false)
  {
    SendCarries(cfg, c, msg, w);
    CarriedKeepsHalfClose(c, SendInLoop(cfg, c, msg, w));
  }

  lemma CarriedKeepsHalfClose(c: Conn, d: Conn)
    requires c.state.Connected? && HalfCloseInv(c, false) && Carries(c, d)
    ensures HalfCloseInv(d, false)
  {
  }

  lemma WriteKeepsHalfClose(cfg: Config, c: Conn, w: WriteResult, forced: bool)
    requires InterestMatches(c) && HalfCloseInv(c, forced)
    ensures HalfCloseInv(HandleWrite(cfg, c, w), forced)
  {
  }

  lemma NextKeepsHalfClose(cfg: Config, c: Conn, s: Step, forced: bool)
    requires InterestMatches(c) && HalfCloseInv(c, forced)
    requires !s.CallSendRemote? && !s.CallShutdownRemote?
    ensures HalfCloseInv(Next(cfg, c, s), forced || (s.CallForceClose? && c.state.Connected?))
  {
    match s
    case CallSend(msg, w) =>
      if c.state.Connected? {
        SendKeepsHalfClose(cfg, c, msg, w);
      }
    case Writable(w) => WriteKeepsHalfClose(cfg, c, w, forced);
    case RunNext(w) =>
      if c.pending != [] {
        FunctorKeepsHalfClose(cfg, c, w, forced);
      }
    case _ =>
  }

  lemma FunctorKeepsHalfClose(cfg: Config, c: Conn, w: WriteResult, forced: bool)
    requires HalfCloseInv(c, forced) && c.pending != []
    ensures HalfCloseInv(Next(cfg, c, RunNext(w)), forced)
  {
    assert !c.pending[0].SendF? && !c.pending[0].ShutdownF?;
    assert HalfCloseInv(c.(pending := c.pending[1..]), forced);
  }

  lemma {:induction false} HalfCloseRun(cfg: Config, steps: seq<Step>)
    requires OnLoopThread(steps)
    ensures HalfCloseInv(Run(cfg, steps), Forced(cfg, steps))
  {
    if steps != [] {
      var front, last := steps[..|steps| - 1], steps[|steps| - 1];
      HalfCloseRun(cfg, front);
      InterestMirrorsPending(cfg, front);
      NextKeepsHalfClose(cfg, Run(cfg, front), last, Forced(cfg, front));
    }
  }

  lemma {:induction false} SilentKeepsWire(t: Trace)
    requires Silent(t) && Count(t, HalfClosed) >= 1
    ensures WireAtHalfClose(t) == Wire(t)
  {
    if Count(t.before, HalfClosed) >= 1 {
      SilentKeepsWire(t.before);
    }
  }

  /** With send and shutdown called on the loop thread, the write side is shut down at most once,
      only after every byte ever taken, and no byte follows. After shutdown, while the connection is
      disconnecting, it has been shut down exactly when nothing is pending. (RFC 9293, section 3.6) */
  lemma HalfCloseAfterDrain(cfg: Config, steps: seq<Step>)
    requires OnLoopThread(steps)
    ensures var c := Run(cfg, steps);
      && HalfCloseOnce(c.trace)
      && (Count(c.trace, HalfClosed) == 1 ==> WireAtHalfClose(c.trace) == TakenStream(cfg, steps))
      && (c.state.DisConnecting? && !Forced(cfg, steps) ==> (Count(c.trace, HalfClosed) == 1 <==> c.output == []))
  {
    var c := Run(cfg, steps);
    HalfCloseRun(cfg, steps);
    StreamConserved(cfg, steps);
    if Count(c.trace, HalfClosed) == 1 {
      SilentKeepsWire(c.trace);
      assert Wire(c.trace) + [] == Wire(c.trace);
    }
  }

  // ----- half-close with calls from other threads -----

  /** In any run, a half-close and a queued shutdownInLoop belong to a connection past kConnected. */
  predicate ShutsLate(c: Conn) {
    && (Count(c.trace, HalfClosed) > 0 ==> Rank(c.state) >= 2)
    && (forall i :: 0 <= i < |c.pending| && c.pending[i].ShutdownF? ==> Rank(c.state) >= 2)
  }

  lemma SendShutsLate(cfg: Config, c: Conn, msg: seq<Byte>, w: WriteResult)
    requires ShutsLate(c)
    ensures ShutsLate(SendInLoop(cfg, c, msg, w))
  {
    SendCarries(cfg, c, msg, w);
    CarriedShutsLate(c, SendInLoop(cfg, c, msg, w));
  }

  lemma CarriedShutsLate(c: Conn, d: Conn)
    requires ShutsLate(c) && Carries(c, d)
    ensures ShutsLate(d)
  {
  }

  lemma NextShutsLate(cfg: Config, c: Conn, s: Step)
    requires ShutsLate(c)
    ensures ShutsLate(Next(cfg, c, s))
  {
    match s
    case CallSend(msg, w) => SendShutsLate(cfg, c, msg, w);
    case Writable(w) => WriteShutsLate(cfg, c, w);
    case RunNext(w) =>
      if c.pending != [] {
        FunctorShutsLate(cfg, c, w);
      }
    case _ =>
  }

  lemma WriteShutsLate(cfg: Config, c: Conn, w: WriteResult)
    requires ShutsLate(c)
    ensures ShutsLate(HandleWrite(cfg, c, w))
  {
  }

  lemma FunctorShutsLate(cfg: Config, c: Conn, w: WriteResult)
    requires ShutsLate(c) && c.pending != []
    ensures ShutsLate(Next(cfg, c, RunNext(w)))
  {
    var popped := c.(pending := c.pending[1..]);
    assert ShutsLate(popped);
    match c.pending[0]
    case SendF(msg) => SendShutsLate(cfg, popped, msg, w);
    case _ =>
  }

  lemma {:induction false} RunShutsLate(cfg: Config, steps: seq<Step>)
    ensures ShutsLate(Run(cfg, steps))
  {
    if steps != [] {
      RunShutsLate(cfg, steps[..|steps| - 1]);
      NextShutsLate(cfg, Run(cfg, steps[..|steps| - 1]), steps[|steps| - 1]);
    }
  }

  /** The steps that break a half-close already made, seen before they are taken: a queued
      shutdownInLoop while nothing is pending; a queued message that would go straight to the socket;
      a writable event that would drain a message queued since. */
  predicate LateStep(c: Conn, s: Step) {
    Count(c.trace, HalfClosed) == 1 &&
    match s
    case Writable(w) => c.Writing() && Taken(w, |c.output|) > 0
    case RunNext(w) =>
      c.pending != [] && (
        (c.pending[0].ShutdownF? && !c.Writing())
        || (c.pending[0].SendF? && !c.state.Disconnected? && c.Idle() && Taken(w, |c.pending[0].message|) > 0))
    case _ => false
  }

  /** In every run with calls from any thread, a step keeps the half-close single and final exactly
      when it is not one of those. */
  lemma StepKeepsHalfCloseIff(cfg: Config, steps: seq<Step>, s: Step)
    requires HalfCloseOnce(Run(cfg, steps).trace)
    ensures HalfCloseOnce(Run(cfg, steps + [s]).trace) <==> !LateStep(Run(cfg, steps), s)
  {
    RunOneMore(cfg, steps, s);
    RunShutsLate(cfg, steps);
    var c := Run(cfg, steps);
    match s
    case Writable(w) => LateWrite(cfg, c, w);
    case RunNext(w) =>
      if c.pending != [] && c.pending[0].SendF? {
        LateSend(cfg, c.(pending := c.pending[1..]), c.pending[0].message, w);
      }
    case CallSend(msg, w) => LateSend(cfg, c, msg, w);
    case _ =>
  }

  lemma LateSend(cfg: Config, c: Conn, msg: seq<Byte>, w: WriteResult)
    requires HalfCloseOnce(c.trace)
    ensures HalfCloseOnce(SendInLoop(cfg, c, msg, w).trace)
       <==> !(Count(c.trace, HalfClosed) == 1 && !c.state.Disconnected? && c.Idle() && Taken(w, |msg|) > 0)
  {
  }

  lemma LateWrite(cfg: Config, c: Conn, w: WriteResult)
    requires HalfCloseOnce(c.trace)
    ensures HalfCloseOnce(HandleWrite(cfg, c, w).trace)
       <==> !(Count(c.trace, HalfClosed) == 1 && c.Writing() && Taken(w, |c.output|) > 0)
  {
  }

  /** A half-close once broken stays broken. */
  lemma BrokenStaysBroken(cfg: Config, c: Conn, s: Step)
    requires HalfCloseOnce(Next(cfg, c, s).trace)
    ensures HalfCloseOnce(c.trace)
  {
    match s
    case CallSend(msg, w) =>
      if c.state.Connected? {
        BrokenBySend(cfg, c, msg, w);
      }
    case Writable(w) => BrokenByWrite(cfg, c, w);
    case RunNext(w) =>
      if c.pending != [] && c.pending[0].SendF? {
        BrokenBySend(cfg, c.(pending := c.pending[1..]), c.pending[0].message, w);
      }
    case _ =>
  }

  lemma BrokenBySend(cfg: Config, c: Conn, msg: seq<Byte>, w: WriteResult)
    requires HalfCloseOnce(SendInLoop(cfg, c, msg, w).trace)
    ensures HalfCloseOnce(c.trace)
  {
    SendCarries(cfg, c, msg, w);
  }

  lemma BrokenByWrite(cfg: Config, c: Conn, w: WriteResult)
    requires HalfCloseOnce(HandleWrite(cfg, c, w).trace)
    ensures HalfCloseOnce(c.trace)
  {
  }

  lemma OneMoreStepSafeIff(cfg: Config, steps: seq<Step>, s: Step)
    ensures HalfCloseOnce(Run(cfg, steps + [s]).trace)
       <==> HalfCloseOnce(Run(cfg, steps).trace) && !LateStep(Run(cfg, steps), s)
  {
    if HalfCloseOnce(Run(cfg, steps).trace) {
      StepKeepsHalfCloseIff(cfg, steps, s);
    } else if HalfCloseOnce(Run(cfg, steps + [s]).trace) {
      RunOneMore(cfg, steps, s);
      BrokenStaysBroken(cfg, Run(cfg, steps), s);
    }
  }

  /** No step of the run is one of those. */
  predicate NeverLate(cfg: Config, steps: seq<Step>) {
    forall i :: 0 <= i < |steps| ==> !LateStep(Run(cfg, steps[..i]), steps[i])
  }

  lemma NeverLateOneMore(cfg: Config, steps: seq<Step>, s: Step)
    ensures NeverLate(cfg, steps + [s]) <==> NeverLate(cfg, steps) && !LateStep(Run(cfg, steps), s)
  {
    var all := steps + [s];
    assert forall i :: 0 <= i <= |steps| ==> all[..i] == steps[..i];
    assert all[..|steps|] == steps && all[|steps|] == s;
    assert forall i :: 0 <= i < |steps| ==> all[i] == steps[i];
  }

  /** With calls from any thread, a run half-closes at most once and writes nothing after it exactly
      when none of its steps is late. */
  lemma {:induction false} HalfCloseSafeIff(cfg: Config, steps: seq<Step>)
    ensures HalfCloseOnce(Run(cfg, steps).trace) <==> NeverLate(cfg, steps)
  {
    if steps != [] {
      var front, last := steps[..|steps| - 1], steps[|steps| - 1];
      HalfCloseSafeIff(cfg, front);
      OneMoreStepSafeIff(cfg, front, last);
      NeverLateOneMore(cfg, front, last);
      assert steps == front + [last];
    }
  }

  /** Such a run: another thread sends and shuts down while the loop thread still has bytes pending;
      the drain half-closes, and the queued message is written after it. */
  lemma RemoteSendAfterHalfClose()
    ensures var cfg := Config(1, false, false);
      !HalfCloseOnce(Run(cfg, RacingSteps()).trace)
  {
    var cfg := Config(1, false, false);
    var steps := RacingSteps();
    var c5 := Racing(5);
    RacingRun(cfg, steps);
    assert Count(c5.trace, HalfClosed) == 1 && c5.pending[0] == SendF([2]);
    assert steps == steps[..5] + [RunNext(Accepts(1))];
    StepKeepsHalfCloseIff(cfg, steps[..5], RunNext(Accepts(1)));
  }

  const BOTH_EVENTS: set<Event> := READ_EVENT + WRITE_EVENT

  function Racing(n: nat): Conn
    requires n <= 5
  {
    match n
    case 0 => Unconnected()
    case 1 => Conn(Connected, READ_EVENT, [], [], Then(Start, Up))
    case 2 => Conn(Connected, BOTH_EVENTS, [1], [], Then(Start, Up))
    case 3 => Conn(Connected, BOTH_EVENTS, [1], [SendF([2])], Then(Start, Up))
    case 4 => Conn(DisConnecting, BOTH_EVENTS, [1], [SendF([2]), ShutdownF], Then(Start, Up))
    case 5 => Conn(DisConnecting, READ_EVENT, [], [SendF([2]), ShutdownF],
                   Then(Then(Then(Start, Up), Wrote([1])), HalfClosed))
  }

  lemma RacingNext(cfg: Config, n: nat)
    requires cfg == Config(1, false, false) && n < 5
    ensures Next(cfg, Racing(n), RacingSteps()[n]) == Racing(n + 1)
  {
    assert BOTH_EVENTS - WRITE_EVENT == READ_EVENT && NONE_EVENT + READ_EVENT == READ_EVENT;
    match n
    case 0 =>
    case 1 =>
    case 2 =>
    case 3 =>
    case 4 =>
  }

  lemma RacingRun(cfg: Config, steps: seq<Step>)
    requires cfg == Config(1, false, false) && steps == RacingSteps()
    ensures Run(cfg, steps[..5]) == Racing(5)
  {
    var n := 0;
    while n < 5
      invariant n <= 5 && Run(cfg, steps[..n]) == Racing(n)
    {
      RacingNext(cfg, n);
      n := n + 1;
      RunPrefix(cfg, steps, n);
    }
  }

  function RacingSteps(): (steps: seq<Step>)
    ensures |steps| == 6
  {
    [Establish(true), CallSend([1], Fails(WouldBlock)), CallSendRemote([2]), CallShutdownRemote,
     Writable(Accepts(1)), RunNext(Accepts(1))]
  }

  lemma RunPrefix(cfg: Config, steps: seq<Step>, n: nat)
    requires 0 < n <= |steps|
    ensures Run(cfg, steps[..n]) == Next(cfg, Run(cfg, steps[..n - 1]), steps[n - 1])
  {
    assert steps[..n][..n - 1] == steps[..n - 1];
  }

  /** shutdownInLoop is defined a second time with the opposite test (XNet/TcpConnection.cpp:289). */
  function SecondShutdownInLoop(c: Conn): Conn {
    if c.Writing() then Emit(c, HalfClosed) else c
  }

  /** Under the second definition every half-close on an open connection would come while bytes are
      still pending, so the first is the one meant. */
  lemma SecondDefinitionCutsTheStream(cfg: Config, steps: seq<Step>)
    ensures var c := Run(cfg, steps); !c.state.Disconnected? ==>
      && (SecondShutdownInLoop(c) != c <==> Wire(c.trace) != TakenStream(cfg, steps))
      && (ShutdownInLoop(c) != c <==> Wire(c.trace) == TakenStream(cfg, steps))
  {
    var c := Run(cfg, steps);
    InterestMirrorsPending(cfg, steps);
    StreamConserved(cfg, steps);
    assert |Wire(c.trace) + c.output| == |TakenStream(cfg, steps)|;
    assert c.output == [] ==> Wire(c.trace) + c.output == Wire(c.trace);
    assert c.trace != Then(c.trace, HalfClosed);
  }
}
