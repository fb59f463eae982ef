/** XNet/TcpConnection.cpp as a state machine. A step is one API call, one kernel event or one
    functor taken from the event loop's queue; whatever the kernel answers is a parameter of the
    step. User callbacks are recorded as effects; what they call in turn is a later step. */
module ConnectionModel {
  import opened Endian
  import opened PollerModel

  datatype State = Connecting | Connected | DisConnecting | Disconnected

  function Rank(s: State): nat {
    match s
    case Connecting => 0
    case Connected => 1
    case DisConnecting => 2
    case Disconnected => 3
  }

  datatype Errno = WouldBlock | BrokenPipe | ConnReset | OtherError

  /** Answer of write(): the kernel takes up to `limit` bytes of what it is given, or fails. */
  datatype WriteResult = Accepts(limit: nat) | Fails(errno: Errno)

  /** Answer of readFd. */
  datatype ReadResult = Data | EndOfStream | ReadError

  /** What the connection puts on the loop's queue. */
  datatype Functor = SendF(message: seq<Byte>) | ShutdownF | ForceCloseF | WriteCompleteF | HighWaterF(size: nat)

  /** What the outside sees: bytes given to the kernel, shutdownWrite, callbacks invoked or queued. */
  datatype Effect = Wrote(bytes: seq<Byte>) | HalfClosed | Up | Down | Closed | Message
                  | QueuedComplete | QueuedHighWater

  datatype Trace = Start | Then(before: Trace, last: Effect)

  /** Callbacks set by the user; `mark` is m_highWaterMark. They stay fixed during a run. */
  datatype Config = Config(mark: nat, onComplete: bool, onHighWater: bool)

  datatype Conn = Conn(state: State, events: set<Event>, output: seq<Byte>, pending: seq<Functor>, trace: Trace) {
    predicate Writing() {
      Out in events
    }

    /** Nothing waits to be written, so sendInLoop may try the socket directly. */
    predicate Idle() {
      !Writing() && output == []
    }
  }

  function Unconnected(): Conn {
    Conn(Connecting, NONE_EVENT, [], [], Start)
  }

  // ----- what a trace says -----

  /** All bytes the kernel has taken, in order. */
  function Wire(t: Trace): seq<Byte> {
    match t
    case Start => []
    case Then(b, e) => if e.Wrote? then Wire(b) + e.bytes else Wire(b)
  }

  function Count(t: Trace, e: Effect): nat {
    match t
    case Start => 0
    case Then(b, last) => Count(b, e) + if last == e then 1 else 0
  }

  /** No byte was written after a half-close. */
  predicate Silent(t: Trace) {
    match t
    case Start => true
    case Then(b, e) => Silent(b) && (e.Wrote? ==> Count(b, HalfClosed) == 0)
  }

  /** The bytes that were on the wire when the write side was first shut down. */
  function WireAtHalfClose(t: Trace): seq<Byte> {
    match t
    case Start => []
    case Then(b, e) =>
      if Count(b, HalfClosed) > 0 then WireAtHalfClose(b) else Wire(b)
  }

  // ----- the operations -----

  function Emit(c: Conn, e: Effect): (d: Conn)
    ensures forall x :: Count(d.trace, x) == Count(c.trace, x) + if x == e then 1 else 0
    ensures Wire(d.trace) == if e.Wrote? then Wire(c.trace) + e.bytes else Wire(c.trace)
    ensures Silent(d.trace) == (Silent(c.trace) && (e.Wrote? ==> Count(c.trace, HalfClosed) == 0))
  {
    c.(trace := Then(c.trace, e))
  }

  /** write() took these bytes. */
  function Push(c: Conn, bytes: seq<Byte>): Conn {
    if bytes == [] then c else Emit(c, Wrote(bytes))
  }

  function Enqueue(c: Conn, f: Functor): Conn {
    c.(pending := c.pending + [f])
  }

  /** How many of len bytes write() reports as taken. */
  function Taken(r: WriteResult, len: nat): (n: nat)
    ensures r.Accepts? ==> n <= len && n <= r.limit && (n == len || n == r.limit)
    ensures r.Fails? ==> n == 0
  {
    if r.Fails? then 0 else if r.limit < len then r.limit else len
  }

  function QueueComplete(cfg: Config, c: Conn): Conn {
    if cfg.onComplete then Emit(Enqueue(c, WriteCompleteF), QueuedComplete) else c
  }

  predicate Fatal(r: WriteResult) {
    r.Fails? && (r.errno.BrokenPipe? || r.errno.ConnReset?)
  }

  /** Lines 276-281: the notice that pending bytes reach the mark, when `added` more make them do so. */
  function NoticeHighWater(cfg: Config, c: Conn, added: nat): Conn {
    var size := |c.output| + added;
    if size >= cfg.mark && |c.output| < cfg.mark && cfg.onHighWater
    then Emit(Enqueue(c, HighWaterF(size)), QueuedHighWater) else c
  }

  /** Lines 274-287: append what was not written and ask for writability. */
  function QueueTail(cfg: Config, c: Conn, tail: seq<Byte>): Conn {
    NoticeHighWater(cfg, c, |tail|).(output := c.output + tail, events := c.events + WRITE_EVENT)
  }

  function SendInLoop(cfg: Config, c: Conn, msg: seq<Byte>, r: WriteResult): Conn {
    if c.state.Disconnected? then c
    else if !c.Idle() then
      if msg == [] then c else QueueTail(cfg, c, msg)
    else if r.Fails? then
      if Fatal(r) || msg == [] then c else QueueTail(cfg, c, msg)
    else
      var n := Taken(r, |msg|);
      var c1 := Push(c, msg[..n]);
      if n == |msg| then QueueComplete(cfg, c1) else QueueTail(cfg, c1, msg[n..])
  }

  /** Lines 246-267: the direct write, and the completion if it took everything. */
  function WriteDirect(cfg: Config, c: Conn, msg: seq<Byte>, r: WriteResult): Conn {
    var n := Taken(r, |msg|);
    var c1 := Push(c, msg[..n]);
    if r.Accepts? && n == |msg| then QueueComplete(cfg, c1) else c1
  }

  /** sendInLoop in the two parts of the source: an attempt to write, and the tail. */
  lemma SendInTwoParts(cfg: Config, c: Conn, msg: seq<Byte>, r: WriteResult, n: nat)
    requires !c.state.Disconnected? && n == if c.Idle() then Taken(r, |msg|) else 0
    ensures var c1 := if c.Idle() then WriteDirect(cfg, c, msg, r) else c;
      SendInLoop(cfg, c, msg, r)
      == if n < |msg| && !(c.Idle() && Fatal(r)) then QueueTail(cfg, c1, msg[n..]) else c1
  {
    assert msg[0..] == msg;
  }

  function ShutdownInLoop(c: Conn): Conn {
    if c.Writing() then c else Emit(c, HalfClosed)
  }

  function HandleClose(c: Conn): Conn {
    if c.state.Disconnected? then c
    else Emit(Emit(c.(state := Disconnected, events := NONE_EVENT), Down), Closed)
  }

  function HandleWrite(cfg: Config, c: Conn, r: WriteResult): Conn {
    if !c.Writing() then c
    else
      var n := Taken(r, |c.output|);
      if n == 0 then HandleClose(c)
      else
        var c1 := Push(c, c.output[..n]).(output := c.output[n..]);
        if c1.output != [] then c1
        else
          var c2 := QueueComplete(cfg, c1.(events := c1.events - WRITE_EVENT));
          if c2.state.DisConnecting? then ShutdownInLoop(c2) else c2
  }

  function HandleRead(c: Conn, r: ReadResult): Conn {
    if r.Data? then Emit(c, Message) else HandleClose(c)
  }

  function Send(cfg: Config, c: Conn, msg: seq<Byte>, r: WriteResult): Conn {
    if c.state.Connected? then SendInLoop(cfg, c, msg, r) else c
  }

  function SendRemote(c: Conn, msg: seq<Byte>): Conn {
    if c.state.Connected? then Enqueue(c, SendF(msg)) else c
  }

  /** send(ByteBuffer*) given what outputBuffer() hands out: the connection's own output is sent, and
      then emptied as any buffer is. */
  function SendOwnOutput(cfg: Config, c: Conn, inLoop: bool, r: WriteResult): Conn {
    if !c.state.Connected? then c
    else if inLoop then SendInLoop(cfg, c, c.output, r).(output := [])
    else Enqueue(c.(output := []), SendF(c.output))
  }

  function Shutdown(c: Conn): Conn {
    if c.state.Connected? then ShutdownInLoop(c.(state := DisConnecting)) else c
  }

  function ShutdownRemote(c: Conn): Conn {
    if c.state.Connected? then Enqueue(c.(state := DisConnecting), ShutdownF) else c
  }

  function ForceClose(c: Conn): Conn {
    if c.state.Connected? || c.state.DisConnecting? then Enqueue(c.(state := DisConnecting), ForceCloseF) else c
  }

  function ForceCloseInLoop(c: Conn): Conn {
    if c.state.Connected? || c.state.DisConnecting? then HandleClose(c) else c
  }

  /** `registered` is the answer of enableReading. */
  function ConnectEstablished(c: Conn, registered: bool): Conn {
    if !c.state.Connecting? then c
    else
      var c1 := c.(state := Connected, events := c.events + READ_EVENT);
      if registered then Emit(c1, Up) else HandleClose(c1)
  }

  /** connectDestroyed up to the channel's removal from the poller. */
  function ConnectDestroyed(c: Conn): Conn {
    if c.state.Connected? then Emit(c.(state := Disconnected, events := NONE_EVENT), Down) else c
  }

  // ----- steps and runs -----

  datatype Step =
    | Establish(registered: bool)
    | Destroy
    | CallSend(message: seq<Byte>, w: WriteResult)
    | CallSendRemote(message: seq<Byte>)
    | CallShutdown
    | CallShutdownRemote
    | CallForceClose
    | Readable(r: ReadResult)
    | Writable(w: WriteResult)
    | Hangup
    | SocketError
    | RunNext(w: WriteResult)

  function RunFunctor(cfg: Config, c: Conn, f: Functor, w: WriteResult): Conn {
    match f
    case SendF(msg) => SendInLoop(cfg, c, msg, w)
    case ShutdownF => ShutdownInLoop(c)
    case ForceCloseF => ForceCloseInLoop(c)
    case WriteCompleteF => c
    case HighWaterF(_) => c
  }

  function Next(cfg: Config, c: Conn, s: Step): Conn {
    match s
    case Establish(ok) => ConnectEstablished(c, ok)
    case Destroy => ConnectDestroyed(c)
    case CallSend(msg, w) => Send(cfg, c, msg, w)
    case CallSendRemote(msg) => SendRemote(c, msg)
    case CallShutdown => Shutdown(c)
    case CallShutdownRemote => ShutdownRemote(c)
    case CallForceClose => ForceClose(c)
    case Readable(r) => HandleRead(c, r)
    case Writable(w) => HandleWrite(cfg, c, w)
    case Hangup => HandleClose(c)
    case SocketError => HandleClose(c)
    case RunNext(w) =>
      if c.pending == [] then c
      else RunFunctor(cfg, c.(pending := c.pending[1..]), c.pending[0], w)
  }

  function Run(cfg: Config, steps: seq<Step>): Conn {
    if steps == [] then Unconnected()
    else Next(cfg, Run(cfg, steps[..|steps| - 1]), steps[|steps| - 1])
  }

  lemma RunOneMore(cfg: Config, steps: seq<Step>, s: Step)
    ensures Run(cfg, steps + [s]) == Next(cfg, Run(cfg, steps), s)
  {
    assert (steps + [s])[..|steps|] == steps;
  }

  // ----- the messages that were taken -----

  /** sendInLoop takes the message whole, unless the connection is down or the kernel reports that
      the peer is gone, by EPIPE or ECONNRESET, while nothing is pending. */
  function TakenInLoop(c: Conn, msg: seq<Byte>, w: WriteResult): seq<Byte> {
    var gone := w == Fails(BrokenPipe) || w == Fails(ConnReset);
    if c.state.Disconnected? || (c.Idle() && gone) then [] else msg
  }

  function TakenBy(c: Conn, s: Step): seq<Byte> {
    match s
    case CallSend(msg, w) => if c.state.Connected? then TakenInLoop(c, msg, w) else []
    case RunNext(w) =>
      if c.pending != [] && c.pending[0].SendF? then TakenInLoop(c, c.pending[0].message, w) else []
    case _ => []
  }

  /** The concatenation, in order, of every message taken during the run. */
  function TakenStream(cfg: Config, steps: seq<Step>): seq<Byte> {
    if steps == [] then []
    else
      var front := steps[..|steps| - 1];
      TakenStream(cfg, front) + TakenBy(Run(cfg, front), steps[|steps| - 1])
  }
}
