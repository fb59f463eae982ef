/** What a run of ConnectionModel amounts to, told from its steps alone: which state the connection is
    in, which callbacks ran and in what order, what the loop's queue has carried, and what is on the
    wire. */
module ConnectionHistory {
  import opened Endian
  import opened PollerModel
  import opened ConnectionModel
  import opened ConnectionProofs

  // ----- the state -----

  /** The step ends the connection: a failed registration, connectDestroyed while up, end of stream or an
      error on reading, a write of pending bytes of which the kernel takes none, a hang-up, a socket error,
      or a forced close whose turn has come. */
  predicate Ends(c: Conn, s: Step) {
    match s
    case Establish(registered) => c.state.Connecting? && !registered
    case Destroy => c.state.Connected?
    case Readable(r) => r.EndOfStream? || r.ReadError?
    case Writable(w) => c.output != [] && (w.Fails? || w.limit == 0)
    case Hangup => true
    case SocketError => true
    case RunNext(_) => c.pending != [] && c.pending[0] == ForceCloseF
    case _ => false
  }

  predicate Ended(cfg: Config, steps: seq<Step>) {
    steps != [] &&
    var front, last := steps[..|steps| - 1], steps[|steps| - 1];
    Ended(cfg, front) || Ends(Run(cfg, front), last)
  }

  predicate Opened(steps: seq<Step>) {
    steps != [] && (Opened(steps[..|steps| - 1]) || steps[|steps| - 1].Establish?)
  }

  /** shutdown, from either thread, or forceClose. */
  predicate Leaves(s: Step) {
    s.CallShutdown? || s.CallShutdownRemote? || s.CallForceClose?
  }

  /** One of those came after the connection was established. */
  predicate Left(steps: seq<Step>) {
    steps != [] &&
    var front, last := steps[..|steps| - 1], steps[|steps| - 1];
    Left(front) || (Opened(front) && Leaves(last))
  }

  /** In every run the state follows from the calls and the events: disconnected once something ended the
      connection, otherwise connecting until it is established, and disconnecting once it was asked to
      leave. */
  lemma {:induction false} StateHistory(cfg: Config, steps: seq<Step>)
    ensures var state := Run(cfg, steps).state;
      && (state.Disconnected? <==> Ended(cfg, steps))
      && (state.Connecting? <==> !Ended(cfg, steps) && !Opened(steps))
      && (state.Connected? <==> !Ended(cfg, steps) && Opened(steps) && !Left(steps))
      && (state.DisConnecting? <==> !Ended(cfg, steps) && Left(steps))
  {
    if steps != [] {
      var front, last := steps[..|steps| - 1], steps[|steps| - 1];
      StateHistory(cfg, front);
      InterestMirrorsPending(cfg, front);
      NextState(cfg, Run(cfg, front), last);
      LeftIsOpened(front);
    }
  }

  lemma {:induction false} LeftIsOpened(steps: seq<Step>)
    ensures Left(steps) ==> Opened(steps)
  {
    if steps != [] {
      LeftIsOpened(steps[..|steps| - 1]);
    }
  }

  lemma NextState(cfg: Config, c: Conn, s: Step)
    requires InterestMatches(c)
    ensures var d := Next(cfg, c, s).state;
      if c.state.Disconnected? || Ends(c, s) then d.Disconnected?
      else if c.state.Connecting? then d == if s.Establish? then Connected else Connecting
      else if c.state.Connected? && Leaves(s) then d.DisConnecting?
      else d == c.state
  {
    match s
    case CallSend(msg, w) => SendKeepsLife(cfg, c, msg, w);
    case Writable(w) => WriteState(cfg, c, w);
    case RunNext(w) =>
      if c.pending != [] && c.pending[0].SendF? {
        SendKeepsLife(cfg, c.(pending := c.pending[1..]), c.pending[0].message, w);
      }
    case _ =>
  }

  lemma WriteState(cfg: Config, c: Conn, w: WriteResult)
    requires InterestMatches(c)
    ensures HandleWrite(cfg, c, w).state
         == if c.output != [] && (w.Fails? || w.limit == 0) then Disconnected else c.state
  {
  }

  // ----- messages -----

  /** How often data were read. */
  function Reads(steps: seq<Step>): nat {
    if steps == [] then 0
    else Reads(steps[..|steps| - 1]) + if steps[|steps| - 1] == Readable(Data) then 1 else 0
  }

  lemma SendBringsNoMessage(cfg: Config, c: Conn, msg: seq<Byte>, w: WriteResult)
    ensures Count(SendInLoop(cfg, c, msg, w).trace, Message) == Count(c.trace, Message)
  {
    var c1 := Push(c, msg[..Taken(w, |msg|)]);
    assert Count(c1.trace, Message) == Count(c.trace, Message);
  }

  lemma WriteBringsNoMessage(cfg: Config, c: Conn, w: WriteResult)
    ensures Count(HandleWrite(cfg, c, w).trace, Message) == Count(c.trace, Message)
  {
  }

  lemma NextMessages(cfg: Config, c: Conn, s: Step)
    ensures Count(Next(cfg, c, s).trace, Message) == Count(c.trace, Message) + if s == Readable(Data) then 1 else 0
  {
    match s
    case CallSend(msg, w) => SendBringsNoMessage(cfg, c, msg, w);
    case Writable(w) => WriteBringsNoMessage(cfg, c, w);
    case RunNext(w) =>
      if c.pending != [] && c.pending[0].SendF? {
        SendBringsNoMessage(cfg, c.(pending := c.pending[1..]), c.pending[0].message, w);
      }
    case _ =>
  }

  /** A readable socket either brings data, and the message callback runs once and nothing else happens,
      or the connection is down. */
  lemma ReadOutcomes(cfg: Config, c: Conn, r: ReadResult)
    ensures var d := Next(cfg, c, Readable(r));
      && (r.Data? <==> Count(d.trace, Message) > Count(c.trace, Message))
      && (r.Data? ==> d == c.(trace := Then(c.trace, Message)))
      && (!r.Data? ==> d.state.Disconnected?)
  {
    NextMessages(cfg, c, Readable(r));
  }

  /** In every run, the message callback has run once for every time data were read. */
  lemma {:induction false} MessagesCounted(cfg: Config, steps: seq<Step>)
    ensures Count(Run(cfg, steps).trace, Message) == Reads(steps)
  {
    if steps != [] {
      MessagesCounted(cfg, steps[..|steps| - 1]);
      NextMessages(cfg, Run(cfg, steps[..|steps| - 1]), steps[|steps| - 1]);
    }
  }

  // ----- the order of callbacks -----

  /** "Up" comes first and "down" after it, if "up" came at all; the close callback directly follows "down";
      bytes are written only between "up" and "down". */
  predicate InOrder(t: Trace) {
    match t
    case Start => true
    case Then(b, e) =>
      InOrder(b) &&
      match e
      case Up => Count(b, Up) == 0 && Count(b, Down) == 0
      case Down => Count(b, Down) == 0
      case Closed => b.Then? && b.last == Down
      case Wrote(_) => Count(b, Up) == 1 && Count(b, Down) == 0
      case _ => true
  }

  lemma SendKeepsOrder(cfg: Config, c: Conn, msg: seq<Byte>, w: WriteResult)
    requires InOrder(c.trace) && Count(c.trace, Up) == 1 && Count(c.trace, Down) == 0
    ensures InOrder(SendInLoop(cfg, c, msg, w).trace)
  {
    var c1 := Push(c, msg[..Taken(w, |msg|)]);
    assert InOrder(c1.trace);
  }

  lemma WriteKeepsOrder(cfg: Config, c: Conn, w: WriteResult)
    requires InOrder(c.trace) && CallbacksMatch(LifeOf(c)) && InterestMatches(c)
    ensures InOrder(HandleWrite(cfg, c, w).trace)
  {
  }

  lemma NextKeepsOrder(cfg: Config, c: Conn, s: Step)
    requires InOrder(c.trace) && CallbacksMatch(LifeOf(c)) && InterestMatches(c)
    ensures InOrder(Next(cfg, c, s).trace)
  {
    match s
    case CallSend(msg, w) =>
      if c.state.Connected? {
        SendKeepsOrder(cfg, c, msg, w);
      }
    case Writable(w) => WriteKeepsOrder(cfg, c, w);
    case RunNext(w) =>
      if c.pending != [] && c.pending[0].SendF? && !c.state.Disconnected? {
        SendKeepsOrder(cfg, c.(pending := c.pending[1..]), c.pending[0].message, w);
      }
    case _ =>
  }

  lemma {:induction false} CallbacksInOrder(cfg: Config, steps: seq<Step>)
    ensures InOrder(Run(cfg, steps).trace)
  {
    if steps != [] {
      var front := steps[..|steps| - 1];
      CallbacksInOrder(cfg, front);
      LifeCycle(cfg, front);
      InterestMirrorsPending(cfg, front);
      NextKeepsOrder(cfg, Run(cfg, front), steps[|steps| - 1]);
    }
  }

  // ----- the loop's queue -----

  /** The functors the loop has taken so far. */
  function Ran(cfg: Config, steps: seq<Step>): seq<Functor> {
    if steps == [] then []
    else
      var front := steps[..|steps| - 1];
      Ran(cfg, front) + Takes(Run(cfg, front), steps[|steps| - 1])
  }

  function Takes(c: Conn, s: Step): seq<Functor> {
    if s.RunNext? && c.pending != [] then [c.pending[0]] else []
  }

  /** Every functor ever queued: those taken, then those waiting. */
  function Queued(cfg: Config, steps: seq<Step>): seq<Functor> {
    Ran(cfg, steps) + Run(cfg, steps).pending
  }

  /** What is left of the queue when a step has taken its functor. */
  function LeftOver(c: Conn, s: Step): seq<Functor> {
    if s.RunNext? && c.pending != [] then c.pending[1..] else c.pending
  }

  lemma SendAppends(cfg: Config, c: Conn, msg: seq<Byte>, w: WriteResult)
    ensures c.pending <= SendInLoop(cfg, c, msg, w).pending
  {
    SendCarries(cfg, c, msg, w);
  }

  lemma WriteAppends(cfg: Config, c: Conn, w: WriteResult)
    ensures c.pending <= HandleWrite(cfg, c, w).pending
  {
  }

  lemma NextAppends(cfg: Config, c: Conn, s: Step)
    ensures LeftOver(c, s) <= Next(cfg, c, s).pending
  {
    match s
    case CallSend(msg, w) => SendAppends(cfg, c, msg, w);
    case Writable(w) => WriteAppends(cfg, c, w);
    case RunNext(w) =>
      if c.pending != [] {
        RunNextAppends(cfg, c, w);
      }
    case _ =>
  }

  /** What the step put on the queue. */
  function Added(cfg: Config, c: Conn, s: Step): seq<Functor> {
    NextAppends(cfg, c, s);
    Next(cfg, c, s).pending[|LeftOver(c, s)|..]
  }

  lemma RanOneMore(cfg: Config, steps: seq<Step>, s: Step)
    ensures Ran(cfg, steps + [s]) == Ran(cfg, steps) + Takes(Run(cfg, steps), s)
  {
    assert (steps + [s])[..|steps|] == steps;
  }

  lemma NextQueue(cfg: Config, c: Conn, s: Step)
    ensures Takes(c, s) + LeftOver(c, s) == c.pending
    ensures LeftOver(c, s) + Added(cfg, c, s) == Next(cfg, c, s).pending
  {
    NextAppends(cfg, c, s);
  }

  lemma QueuedOneMore(cfg: Config, steps: seq<Step>, s: Step)
    ensures Queued(cfg, steps + [s]) == Queued(cfg, steps) + Added(cfg, Run(cfg, steps), s)
  {
    var c := Run(cfg, steps);
    RunOneMore(cfg, steps, s);
    RanOneMore(cfg, steps, s);
    NextQueue(cfg, c, s);
    Shift(Ran(cfg, steps), Takes(c, s), LeftOver(c, s), Added(cfg, c, s));
  }

  lemma Shift<T>(a: seq<T>, b: seq<T>, c: seq<T>, d: seq<T>)
    ensures (a + b) + (c + d) == (a + (b + c)) + d
  {
  }

  lemma QueueGrows(cfg: Config, steps: seq<Step>, s: Step)
    ensures Queued(cfg, steps) <= Queued(cfg, steps + [s])
  {
    QueuedOneMore(cfg, steps, s);
  }

  /** The queue is first in, first out: however the run goes on, the functors taken and those waiting
      begin with the ones there were, in the same order. */
  lemma {:induction false} QueueIsFifo(cfg: Config, steps: seq<Step>, more: seq<Step>)
    ensures Queued(cfg, steps) <= Queued(cfg, steps + more)
    decreases |more|
  {
    if more == [] {
      assert steps + more == steps;
    } else {
      var front, last := more[..|more| - 1], more[|more| - 1];
      QueueIsFifo(cfg, steps, front);
      assert steps + more == (steps + front) + [last];
      QueueGrows(cfg, steps + front, last);
    }
  }

  // ----- what each functor in the queue stands for -----

  datatype Kind = KSend | KShutdown | KForceClose | KComplete | KHighWater

  function KindOf(f: Functor): Kind {
    match f
    case SendF(_) => KSend
    case ShutdownF => KShutdown
    case ForceCloseF => KForceClose
    case WriteCompleteF => KComplete
    case HighWaterF(_) => KHighWater
  }

  function Number(fs: seq<Functor>, k: Kind): nat {
    if fs == [] then 0
    else Number(fs[..|fs| - 1], k) + if KindOf(fs[|fs| - 1]) == k then 1 else 0
  }

  lemma NumberAppend(fs: seq<Functor>, f: Functor, k: Kind)
    ensures Number(fs + [f], k) == Number(fs, k) + if KindOf(f) == k then 1 else 0
  {
    assert (fs + [f])[..|fs|] == fs;
  }

  lemma {:induction false} NumberConcat(a: seq<Functor>, b: seq<Functor>, k: Kind)
    ensures Number(a + b, k) == Number(a, k) + Number(b, k)
  {
    if b == [] {
      assert a + b == a;
    } else {
      var front, last := b[..|b| - 1], b[|b| - 1];
      NumberConcat(a, front, k);
      assert a + b == (a + front) + [last];
      NumberAppend(a + front, last, k);
    }
  }

  /** The call asks for a functor of that kind; on a connection in another state it is ignored. */
  predicate Requests(c: Conn, s: Step, k: Kind) {
    match k
    case KSend => s.CallSendRemote? && c.state.Connected?
    case KShutdown => s.CallShutdownRemote? && c.state.Connected?
    case KForceClose => s.CallForceClose? && (c.state.Connected? || c.state.DisConnecting?)
    case _ => false
  }

  function Requested(cfg: Config, steps: seq<Step>, k: Kind): nat {
    if steps == [] then 0
    else
      var front := steps[..|steps| - 1];
      Requested(cfg, front, k) + if Requests(Run(cfg, front), steps[|steps| - 1], k) then 1 else 0
  }

  function Notices(t: Trace, k: Kind): nat {
    match k
    case KComplete => Count(t, QueuedComplete)
    case KHighWater => Count(t, QueuedHighWater)
    case _ => 0
  }

  /** d has one more functor of kind k than c for every notice of that kind. */
  predicate Notifies(c: Conn, d: Conn, k: Kind) {
    Number(d.pending, k) + Notices(c.trace, k) == Number(c.pending, k) + Notices(d.trace, k)
  }

  lemma PushNotifies(c: Conn, bytes: seq<Byte>, k: Kind)
    ensures Notifies(c, Push(c, bytes), k)
  {
  }

  /** A notice and its functor go together. */
  lemma NoticeNotifies(c: Conn, f: Functor, e: Effect, k: Kind)
    requires if e.QueuedComplete? then f.WriteCompleteF? else e.QueuedHighWater? && f.HighWaterF?
    ensures Notifies(c, Emit(Enqueue(c, f), e), k)
  {
    NumberAppend(c.pending, f, k);
  }

  lemma CompleteNotifies(cfg: Config, c: Conn, k: Kind)
    ensures Notifies(c, QueueComplete(cfg, c), k)
  {
    NoticeNotifies(c, WriteCompleteF, QueuedComplete, k);
  }

  lemma HighWaterNotifies(cfg: Config, c: Conn, added: nat, k: Kind)
    ensures Notifies(c, NoticeHighWater(cfg, c, added), k)
  {
    NoticeNotifies(c, HighWaterF(|c.output| + added), QueuedHighWater, k);
  }

  lemma TailNotifies(cfg: Config, c: Conn, tail: seq<Byte>, k: Kind)
    ensures Notifies(c, QueueTail(cfg, c, tail), k)
  {
    HighWaterNotifies(cfg, c, |tail|, k);
  }

  lemma SendNotifies(cfg: Config, c: Conn, msg: seq<Byte>, w: WriteResult, k: Kind)
    ensures Notifies(c, SendInLoop(cfg, c, msg, w), k)
  {
    var n := Taken(w, |msg|);
    var c1 := Push(c, msg[..n]);
    TailNotifies(cfg, c, msg, k);
    PushNotifies(c, msg[..n], k);
    CompleteNotifies(cfg, c1, k);
    TailNotifies(cfg, c1, msg[n..], k);
  }

  lemma CloseNotifies(c: Conn, k: Kind)
    ensures Notifies(c, HandleClose(c), k) && Notifies(c, ShutdownInLoop(c), k)
  {
  }

  lemma DrainNotifies(cfg: Config, c: Conn, k: Kind)
    ensures var d := QueueComplete(cfg, c.(events := c.events - WRITE_EVENT));
      Notifies(c, d, k) && Notifies(c, ShutdownInLoop(d), k)
  {
    var c1 := c.(events := c.events - WRITE_EVENT);
    CompleteNotifies(cfg, c1, k);
    CloseNotifies(QueueComplete(cfg, c1), k);
  }

  lemma PartNotifies(cfg: Config, c: Conn, n: nat, k: Kind)
    requires n <= |c.output|
    ensures var d := Push(c, c.output[..n]).(output := c.output[n..]);
      var e := QueueComplete(cfg, d.(events := d.events - WRITE_EVENT));
      Notifies(c, d, k) && Notifies(c, e, k) && Notifies(c, ShutdownInLoop(e), k)
  {
    PushNotifies(c, c.output[..n], k);
    DrainNotifies(cfg, Push(c, c.output[..n]).(output := c.output[n..]), k);
  }

  lemma WriteNotifies(cfg: Config, c: Conn, w: WriteResult, k: Kind)
    ensures Notifies(c, HandleWrite(cfg, c, w), k)
  {
    if c.Writing() {
      PartNotifies(cfg, c, Taken(w, |c.output|), k);
      CloseNotifies(c, k);
    }
  }

  /** d has one more functor of kind k than `queue` for every notice since c and every call for one. */
  predicate Answers(queue: seq<Functor>, c: Conn, d: Conn, called: bool, k: Kind) {
    Number(d.pending, k) + Notices(c.trace, k) == Number(queue, k) + Notices(d.trace, k) + if called then 1 else 0
  }

  lemma EnqueueAnswers(c: Conn, state: State, f: Functor, k: Kind)
    ensures Answers(c.pending, c, Enqueue(c.(state := state), f), KindOf(f) == k, k)
  {
    NumberAppend(c.pending, f, k);
  }

  lemma NothingAnswers(c: Conn, k: Kind)
    ensures Answers(c.pending, c, c, false, k)
  {
  }

  lemma SendRemoteAnswers(c: Conn, msg: seq<Byte>, k: Kind)
    ensures Answers(c.pending, c, SendRemote(c, msg), Requests(c, CallSendRemote(msg), k), k)
  {
    NothingAnswers(c, k);
    EnqueueAnswers(c, c.state, SendF(msg), k);
  }

  lemma ShutdownRemoteAnswers(c: Conn, k: Kind)
    ensures Answers(c.pending, c, ShutdownRemote(c), Requests(c, CallShutdownRemote, k), k)
  {
    NothingAnswers(c, k);
    EnqueueAnswers(c, DisConnecting, ShutdownF, k);
  }

  lemma ForceCloseAnswers(c: Conn, k: Kind)
    ensures Answers(c.pending, c, ForceClose(c), Requests(c, CallForceClose, k), k)
  {
    NothingAnswers(c, k);
    EnqueueAnswers(c, DisConnecting, ForceCloseF, k);
  }

  lemma FunctorNotifies(cfg: Config, c: Conn, f: Functor, w: WriteResult, k: Kind)
    ensures Notifies(c, RunFunctor(cfg, c, f, w), k)
  {
    match f
    case SendF(msg) => SendNotifies(cfg, c, msg, w, k);
    case _ => CloseNotifies(c, k);
  }

  lemma FunctorAnswers(cfg: Config, c: Conn, w: WriteResult, k: Kind)
    requires c.pending != []
    ensures Answers(c.pending[1..], c, Next(cfg, c, RunNext(w)), false, k)
  {
    FunctorNotifies(cfg, c.(pending := c.pending[1..]), c.pending[0], w, k);
  }

  lemma EventAnswers(cfg: Config, c: Conn, s: Step, k: Kind)
    requires s.Establish? || s.Destroy? || s.CallShutdown? || s.Readable? || s.Hangup? || s.SocketError?
    ensures Answers(c.pending, c, Next(cfg, c, s), false, k)
  {
  }

  lemma NextAnswers(cfg: Config, c: Conn, s: Step, k: Kind)
    ensures Answers(LeftOver(c, s), c, Next(cfg, c, s), Requests(c, s, k), k)
  {
    match s
    case CallSend(msg, w) => SendNotifies(cfg, c, msg, w, k);
    case Writable(w) => WriteNotifies(cfg, c, w, k);
    case RunNext(w) =>
      if c.pending != [] {
        FunctorAnswers(cfg, c, w, k);
      }
    case CallSendRemote(msg) => SendRemoteAnswers(c, msg, k);
    case CallShutdownRemote => ShutdownRemoteAnswers(c, k);
    case CallForceClose => ForceCloseAnswers(c, k);
    case _ => EventAnswers(cfg, c, s, k);
  }

  /** In every run, the functors of each kind that the loop has taken and those still waiting are as many
      as there were calls for them, and, for the two notices, as many as were announced. */
  lemma {:induction false} FunctorsAccounted(cfg: Config, steps: seq<Step>, k: Kind)
    ensures var c := Run(cfg, steps);
      Number(Ran(cfg, steps), k) + Number(c.pending, k) == Requested(cfg, steps, k) + Notices(c.trace, k)
  {
    if steps != [] {
      var front, last := steps[..|steps| - 1], steps[|steps| - 1];
      FunctorsAccounted(cfg, front, k);
      assert steps == front + [last];
      OneMoreAccounted(cfg, front, last, k);
    }
  }

  lemma OneMoreAccounted(cfg: Config, steps: seq<Step>, s: Step, k: Kind)
    ensures var c, all := Run(cfg, steps), steps + [s];
      Number(Ran(cfg, all), k) + Number(Run(cfg, all).pending, k)
      == Number(Ran(cfg, steps), k) + Number(c.pending, k)
         + Notices(Run(cfg, all).trace, k) - Notices(c.trace, k) + if Requests(c, s, k) then 1 else 0
  {
    var c := Run(cfg, steps);
    RunOneMore(cfg, steps, s);
    RanOneMore(cfg, steps, s);
    NextAnswers(cfg, c, s, k);
    NumberConcat(Ran(cfg, steps), Takes(c, s), k);
    NumberConcat(Takes(c, s), LeftOver(c, s), k);
    NextQueue(cfg, c, s);
  }

  /** The write-complete callbacks run or about to run are as many as were announced, and so are the
      high-water ones. */
  lemma NoticesReachTheQueue(cfg: Config, steps: seq<Step>)
    ensures var c := Run(cfg, steps);
      && Number(Ran(cfg, steps), KComplete) + Number(c.pending, KComplete) == Count(c.trace, QueuedComplete)
      && Number(Ran(cfg, steps), KHighWater) + Number(c.pending, KHighWater) == Count(c.trace, QueuedHighWater)
  {
    FunctorsAccounted(cfg, steps, KComplete);
    FunctorsAccounted(cfg, steps, KHighWater);
    RequestedByCallsOnly(cfg, steps);
  }

  lemma {:induction false} RequestedByCallsOnly(cfg: Config, steps: seq<Step>)
    ensures Requested(cfg, steps, KComplete) == 0 && Requested(cfg, steps, KHighWater) == 0
  {
    if steps != [] {
      RequestedByCallsOnly(cfg, steps[..|steps| - 1]);
    }
  }

  // ----- what the kernel takes -----

  /** The bytes the step hands to write(). */
  function Offer(c: Conn, s: Step): seq<Byte> {
    match s
    case CallSend(msg, _) => if c.state.Connected? && c.output == [] then msg else []
    case Writable(_) => if c.state.Disconnected? then [] else c.output
    case RunNext(_) =>
      if c.pending != [] && c.pending[0].SendF? && !c.state.Disconnected? && c.output == []
      then c.pending[0].message else []
    case _ => []
  }

  /** How many of them the kernel takes. */
  function Grant(c: Conn, s: Step): nat {
    match s
    case CallSend(_, w) => Taken(w, |Offer(c, s)|)
    case Writable(w) => Taken(w, |Offer(c, s)|)
    case RunNext(w) => Taken(w, |Offer(c, s)|)
    case _ => 0
  }

  function Granted(cfg: Config, steps: seq<Step>): nat {
    if steps == [] then 0
    else Granted(cfg, steps[..|steps| - 1]) + Grant(Run(cfg, steps[..|steps| - 1]), steps[|steps| - 1])
  }

  lemma SendGrows(cfg: Config, c: Conn, msg: seq<Byte>, w: WriteResult)
    requires InterestMatches(c) && !c.state.Connecting?
    ensures |Wire(SendInLoop(cfg, c, msg, w).trace)|
         == |Wire(c.trace)| + if c.state.Disconnected? || c.output != [] then 0 else Taken(w, |msg|)
  {
    var n := Taken(w, |msg|);
    var c1 := Push(c, msg[..n]);
    PushStream(c, msg[..n]);
    CompleteStream(cfg, c1);
    TailCompletesNothing(cfg, c, msg);
    TailCompletesNothing(cfg, c1, msg[n..]);
  }

  lemma WriteGrows(cfg: Config, c: Conn, w: WriteResult)
    requires InterestMatches(c)
    ensures |Wire(HandleWrite(cfg, c, w).trace)|
         == |Wire(c.trace)| + if c.state.Disconnected? then 0 else Taken(w, |c.output|)
  {
  }

  lemma NextGrows(cfg: Config, c: Conn, s: Step)
    requires InterestMatches(c)
    ensures |Wire(Next(cfg, c, s).trace)| == |Wire(c.trace)| + Grant(c, s)
  {
    match s
    case CallSend(msg, w) =>
      if c.state.Connected? {
        SendGrows(cfg, c, msg, w);
      }
    case Writable(w) => WriteGrows(cfg, c, w);
    case RunNext(w) =>
      if c.pending != [] && c.pending[0].SendF? {
        SendGrows(cfg, c.(pending := c.pending[1..]), c.pending[0].message, w);
      }
    case _ =>
  }

  lemma {:induction false} WireGrows(cfg: Config, steps: seq<Step>)
    ensures |Wire(Run(cfg, steps).trace)| == Granted(cfg, steps)
  {
    if steps != [] {
      var front := steps[..|steps| - 1];
      WireGrows(cfg, front);
      InterestMirrorsPending(cfg, front);
      NextGrows(cfg, Run(cfg, front), steps[|steps| - 1]);
    }
  }

  /** In every run the wire carries exactly as many of the bytes taken, in order, as the kernel has granted:
      nothing is offered to it twice, and nothing it took is kept. */
  lemma WireIsWhatWasGranted(cfg: Config, steps: seq<Step>)
    ensures Granted(cfg, steps) <= |TakenStream(cfg, steps)|
    ensures Wire(Run(cfg, steps).trace) == TakenStream(cfg, steps)[..Granted(cfg, steps)]
    ensures Run(cfg, steps).output == TakenStream(cfg, steps)[Granted(cfg, steps)..]
  {
    WireGrows(cfg, steps);
    StreamConserved(cfg, steps);
  }

  // ----- shutdown from any thread -----

  /** A disconnecting connection with nothing pending has been half-closed, or the half-close waits in the
      queue; unless forceClose got there first. */
  predicate ShutdownUnderWay(c: Conn, forced: bool) {
    && (c.state.Connecting? || c.state.Connected? ==> !forced)
    && (c.state.DisConnecting? && !forced && c.output == [] ==>
          Count(c.trace, HalfClosed) > 0 || ShutdownF in c.pending)
  }

  lemma SendKeepsShutdown(cfg: Config, c: Conn, msg: seq<Byte>, w: WriteResult, forced: bool)
    requires ShutdownUnderWay(c, forced) && InterestMatches(c)
    ensures ShutdownUnderWay(SendInLoop(cfg, c, msg, w), forced)
  {
    SendCarries(cfg, c, msg, w);
    SendAppends(cfg, c, msg, w);
    SendConserves(cfg, c, msg, w);
    if c.output != [] {
      SendGrows0(cfg, c, msg, w);
    }
  }

  lemma SendGrows0(cfg: Config, c: Conn, msg: seq<Byte>, w: WriteResult)
    requires c.output != []
    ensures SendInLoop(cfg, c, msg, w).output != []
  {
  }

  lemma WriteKeepsShutdown(cfg: Config, c: Conn, w: WriteResult, forced: bool)
    requires ShutdownUnderWay(c, forced) && InterestMatches(c)
    ensures ShutdownUnderWay(HandleWrite(cfg, c, w), forced)
  {
    WriteAppends(cfg, c, w);
  }

  lemma FunctorKeepsShutdown(cfg: Config, c: Conn, w: WriteResult, forced: bool)
    requires ShutdownUnderWay(c, forced) && InterestMatches(c) && c.pending != []
    ensures ShutdownUnderWay(Next(cfg, c, RunNext(w)), forced)
  {
    var popped := c.(pending := c.pending[1..]);
    assert c.pending == [c.pending[0]] + c.pending[1..];
    if !c.pending[0].ShutdownF? {
      assert ShutdownUnderWay(popped, forced);
      if c.pending[0].SendF? {
        SendKeepsShutdown(cfg, popped, c.pending[0].message, w, forced);
      }
    }
  }

  lemma NextKeepsShutdown(cfg: Config, c: Conn, s: Step, forced: bool)
    requires ShutdownUnderWay(c, forced) && InterestMatches(c)
    ensures ShutdownUnderWay(Next(cfg, c, s), forced || (s.CallForceClose? && c.state.Connected?))
  {
    match s
    case CallSend(msg, w) => SendKeepsShutdown(cfg, c, msg, w, forced);
    case Writable(w) => WriteKeepsShutdown(cfg, c, w, forced);
    case RunNext(w) =>
      if c.pending != [] {
        FunctorKeepsShutdown(cfg, c, w, forced);
      }
    case _ =>
  }

  lemma {:induction false} ShutdownRun(cfg: Config, steps: seq<Step>)
    ensures ShutdownUnderWay(Run(cfg, steps), Forced(cfg, steps))
  {
    if steps != [] {
      var front := steps[..|steps| - 1];
      ShutdownRun(cfg, front);
      InterestMirrorsPending(cfg, front);
      NextKeepsShutdown(cfg, Run(cfg, front), steps[|steps| - 1], Forced(cfg, front));
    }
  }

  /** A shutdown from any thread is not forgotten: in every run, a connection that shutdown left
      disconnecting still has bytes to write, or has been half-closed, or will be when the loop takes the
      functor that waits. */
  lemma ShutdownNotForgotten(cfg: Config, steps: seq<Step>)
    requires Run(cfg, steps).state.DisConnecting? && !Forced(cfg, steps)
    ensures var c := Run(cfg, steps);
      c.output != [] || Count(c.trace, HalfClosed) > 0 || ShutdownF in c.pending
  {
    ShutdownRun(cfg, steps);
  }
}
