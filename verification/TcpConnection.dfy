/** The object of XNet/TcpConnection.h and XNet/TcpConnection.cpp over its channel, its poller and
    its two buffers. Every method is proved to be the step of ConnectionModel it stands for, so the
    theorems of ConnectionProofs speak about every sequence of calls. */
module TcpConnections {
  import opened Endian
  import opened BufferModel
  import opened ByteBuffers
  import opened PollerModel
  import opened EPollPollers
  import CM = ConnectionModel

  class TcpConnection {
    const cfg: CM.Config            // the callbacks that are set, and m_highWaterMark
    const channel: Channel          // m_channel
    const input: ByteBuffer         // m_inputBuffer
    const output: ByteBuffer        // m_outputBuffer
    var state: CM.State             // m_state
    var pending: seq<CM.Functor>    // this connection's functors in the loop's queue
    ghost var trace: CM.Trace       // what the outside has seen

    ghost predicate Valid()
      reads this, input, output, channel.poller
    {
      && channel in channel.poller.all
      && input.Valid() && output.Valid() && input != output && input.buffer != output.buffer
    }

    ghost function View(): CM.Conn
      requires Valid()
      reads this, channel, channel.poller, input, output, output.buffer
    {
      CM.Conn(state, channel.events, output.View().content, pending, trace)
    }

    constructor (cfg: CM.Config, poller: EPollPoller, sockfd: int)
      modifies poller`all
      ensures Valid() && View() == CM.Unconnected()
      ensures input.View().content == []
      ensures channel.poller == poller && channel.fd == sockfd && channel.index == New
      ensures {OnRead, OnWrite, OnClose, OnError} <= channel.callbacks
      ensures fresh(channel) && fresh(input) && fresh(input.buffer) && fresh(output) && fresh(output.buffer)
      ensures old(poller.Agrees()) ==> poller.Agrees()
    {
      this.cfg := cfg;
      state := CM.Connecting;
      input := new ByteBuffer();
      output := new ByteBuffer();
      pending := [];
      trace := CM.Start;
      channel := new Channel(poller, sockfd);
      new;
      assert View() == CM.Unconnected();
      BindCallbacks();
    }

    /** The channel calls this connection's handlers. */
    method BindCallbacks()
      modifies channel`callbacks
      ensures {OnRead, OnWrite, OnClose, OnError} <= channel.callbacks
      ensures channel.View() == old(channel.View())
      ensures old(channel.poller.Agrees()) ==> channel.poller.Agrees()
    {
      ghost var world := channel.poller.World();
      channel.SetCallback(OnRead);
      channel.SetCallback(OnWrite);
      channel.SetCallback(OnClose);
      channel.SetCallback(OnError);
      assert channel.poller.World() == world;
    }

    /** sockets::write: how many bytes the kernel took, or -1. */
    method Write(data: seq<Byte>, w: CM.WriteResult) returns (n: int)
      modifies this`trace
      ensures n == if w.Fails? then -1 else CM.Taken(w, |data|)
      ensures trace == if n <= 0 then old(trace) else CM.Then(old(trace), CM.Wrote(data[..n]))
    {
      if w.Fails? {
        return -1;
      }
      n := if w.limit < |data| then w.limit else |data|;
      if n > 0 {
        trace := CM.Then(trace, CM.Wrote(data[..n]));
      }
    }

    method QueueInLoop(f: CM.Functor)
      modifies this`pending
      ensures pending == old(pending) + [f]
    {
      pending := pending + [f];
    }

    method SendInLoop(message: seq<Byte>, w: CM.WriteResult)
      requires Valid()
      modifies this`pending, this`trace, channel, channel.poller, output, output.buffer
      ensures Valid() && (output.buffer == old(output.buffer) || fresh(output.buffer))
      ensures View() == CM.SendInLoop(cfg, old(View()), message, w)
      ensures old(channel.poller.Agrees()) ==> channel.poller.Agrees()
    {
      var nwrote := 0;
      var remaining := |message|;
      var faultError := false;
      if state == CM.Disconnected {
        return;
      }
      ghost var c := View();
      if !channel.IsWriting() && output.ReadableBytes() == 0 {
        nwrote, remaining, faultError := WriteDirect(message, w);
      }
      if remaining > |message| {
        return;
      }
      CM.SendInTwoParts(cfg, c, message, w, nwrote);
      if !faultError && remaining > 0 {
        SendTail(message[nwrote..]);
      }
    }

    /** Lines 246-267 of sendInLoop. */
    method WriteDirect(message: seq<Byte>, w: CM.WriteResult) returns (nwrote: int, remaining: int, faultError: bool)
      requires Valid()
      modifies this`pending, this`trace
      ensures nwrote == CM.Taken(w, |message|) && remaining == |message| - nwrote && faultError == CM.Fatal(w)
      ensures Valid()
      ensures View() == CM.WriteDirect(cfg, old(View()), message, w)
    {
      remaining := |message|;
      faultError := false;
      nwrote := Write(message, w);
      if nwrote >= 0 {
        remaining := |message| - nwrote;
        if remaining == 0 {
          NoticeComplete();
        }
      } else {
        nwrote := 0;
        if w.errno != CM.WouldBlock {
          if w.errno == CM.BrokenPipe || w.errno == CM.ConnReset {
            faultError := true;
          }
        }
      }
    }

    /** The write-complete callback is queued if it is set. */
    method NoticeComplete()
      requires Valid()
      modifies this`pending, this`trace
      ensures Valid() && View() == CM.QueueComplete(cfg, old(View()))
    {
      if cfg.onComplete {
        QueueInLoop(CM.WriteCompleteF);
        trace := CM.Then(trace, CM.QueuedComplete);
      }
    }

    /** Lines 276-281 of sendInLoop. */
    method NoticeHighWater(added: nat)
      requires Valid()
      modifies this`pending, this`trace
      ensures Valid() && View() == CM.NoticeHighWater(cfg, old(View()), added)
    {
      var oldlen := output.ReadableBytes();
      if oldlen + added >= cfg.mark && oldlen < cfg.mark && cfg.onHighWater {
        QueueInLoop(CM.HighWaterF(oldlen + added));
        trace := CM.Then(trace, CM.QueuedHighWater);
      }
    }

    /** Lines 283-286 of sendInLoop. */
    method WantWriting()
      requires Valid()
      modifies channel, channel.poller
      ensures Valid() && View() == old(View()).(events := old(View()).events + WRITE_EVENT)
      ensures old(channel.poller.Agrees()) ==> channel.poller.Agrees()
    {
      if !channel.IsWriting() {
        var _ := channel.EnableWriting();
      }
    }

    /** Lines 276-286 of sendInLoop. */
    method SendTail(tail: seq<Byte>)
      requires Valid()
      modifies this`pending, this`trace, channel, channel.poller, output, output.buffer
      ensures Valid() && (output.buffer == old(output.buffer) || fresh(output.buffer))
      ensures View() == CM.QueueTail(cfg, old(View()), tail)
      ensures old(channel.poller.Agrees()) ==> channel.poller.Agrees()
    {
      NoticeHighWater(|tail|);
      output.Append(tail);
      WantWriting();
    }

    method ShutdownInLoop()
      requires Valid()
      modifies this`trace
      ensures Valid() && View() == CM.ShutdownInLoop(old(View()))
    {
      if !channel.IsWriting() {
        trace := CM.Then(trace, CM.HalfClosed);
      }
    }

    method HandleClose()
      requires Valid()
      modifies this`state, this`trace, channel, channel.poller
      ensures Valid() && View() == CM.HandleClose(old(View()))
      ensures old(channel.poller.Agrees()) ==> channel.poller.Agrees()
    {
      if state == CM.Disconnected {
        return;
      }
      state := CM.Disconnected;
      var _ := channel.DisableAll();
      trace := CM.Then(trace, CM.Down);
      trace := CM.Then(trace, CM.Closed);
    }

    method HandleWrite(w: CM.WriteResult)
      requires Valid()
      modifies this`state, this`pending, this`trace, channel, channel.poller, output
      ensures Valid() && output.buffer == old(output.buffer)
      ensures View() == CM.HandleWrite(cfg, old(View()), w)
      ensures old(channel.poller.Agrees()) ==> channel.poller.Agrees()
    {
      if channel.IsWriting() {
        var n := WriteOutput(w);
        if n > 0 {
          if output.ReadableBytes() == 0 {
            Drained();
          }
        } else {
          HandleClose();
        }
      }
    }

    /** Lines 174-177 of handleWrite: offer the output to the kernel and drop what it took. */
    method WriteOutput(w: CM.WriteResult) returns (n: int)
      requires Valid()
      modifies this`trace, output`readerIndex, output`writerIndex
      ensures Valid()
      ensures n > 0 <==> CM.Taken(w, |old(View()).output|) > 0
      ensures var c, k := old(View()), CM.Taken(w, |old(View()).output|);
              View() == CM.Push(c, c.output[..k]).(output := c.output[k..])
    {
      var bytes := output.Peek();
      n := Write(bytes, w);
      if n > 0 {
        var _ := output.Retrieve(n);
      }
    }

    /** Lines 180-187 of handleWrite. */
    method Drained()
      requires Valid()
      modifies this`pending, this`trace, channel, channel.poller
      ensures Valid()
      ensures var c := CM.QueueComplete(cfg, old(View()).(events := old(View()).events - WRITE_EVENT));
              View() == if c.state.DisConnecting? then CM.ShutdownInLoop(c) else c
      ensures old(channel.poller.Agrees()) ==> channel.poller.Agrees()
    {
      var _ := channel.DisableWriting();
      NoticeComplete();
      if state == CM.DisConnecting {
        ShutdownInLoop();
      }
    }

    /** readFd on the input buffer; every byte received ends up there. */
    method HandleRead(src: Source)
      requires Valid()
      modifies this`state, this`trace, channel, channel.poller, input, input.buffer
      ensures Valid() && input.View() == ReadFd(old(input.View()), src)
      ensures input.buffer == old(input.buffer) || fresh(input.buffer)
      ensures View() == CM.HandleRead(old(View()), ReadOutcome(old(input.View()), src))
      ensures src.Ready? && src.bytes != [] ==> state == old(state) && trace == CM.Then(old(trace), CM.Message)
      ensures src.ReadFault? || src.bytes == [] ==> state.Disconnected? && input.View() == old(input.View())
      ensures old(channel.poller.Agrees()) ==> channel.poller.Agrees()
    {
      var n := ReadInput(src);
      AfterRead(n, ReadOutcome(old(input.View()), src));
    }

    /** Lines 155-167 of handleRead. */
    method AfterRead(n: int, ghost r: CM.ReadResult)
      requires Valid() && (n > 0 <==> r.Data?)
      modifies this`state, this`trace, channel, channel.poller
      ensures Valid() && View() == CM.HandleRead(old(View()), r)
      ensures old(channel.poller.Agrees()) ==> channel.poller.Agrees()
    {
      if n > 0 {
        trace := CM.Then(trace, CM.Message);
      } else if n == 0 {
        HandleClose();
      } else {
        HandleError();
      }
    }

    method ReadInput(src: Source) returns (n: int)
      requires Valid()
      modifies input, input.buffer
      ensures Valid() && input.View() == ReadFd(old(input.View()), src) && View() == old(View())
      ensures input.buffer == old(input.buffer) || fresh(input.buffer)
      ensures var r := ReadOutcome(old(input.View()), src);
              (n > 0 <==> r.Data?) && (n == 0 <==> r.EndOfStream?)
      ensures old(channel.poller.Agrees()) ==> channel.poller.Agrees()
    {
      n := input.ReadFd(src);
    }

    static function ReadOutcome(l: Layout, src: Source): CM.ReadResult
      requires l.Valid()
    {
      if src.ReadFault? then CM.ReadError else if Delivered(l, src) == [] then CM.EndOfStream else CM.Data
    }

    method HandleError()
      requires Valid()
      modifies this`state, this`trace, channel, channel.poller
      ensures Valid() && View() == CM.HandleClose(old(View()))
      ensures old(channel.poller.Agrees()) ==> channel.poller.Agrees()
    {
      HandleClose();
    }

    // ----- the interface; inLoop says whether the caller is on the loop's thread -----

    method Send(message: seq<Byte>, inLoop: bool, w: CM.WriteResult)
      requires Valid()
      modifies this, channel, channel.poller, output, output.buffer
      ensures Valid() && (output.buffer == old(output.buffer) || fresh(output.buffer))
      ensures View() == if inLoop then CM.Send(cfg, old(View()), message, w) else CM.SendRemote(old(View()), message)
      ensures old(channel.poller.Agrees()) ==> channel.poller.Agrees()
    {
      if state == CM.Connected {
        if inLoop {
          SendInLoop(message, w);
        } else {
          QueueInLoop(CM.SendF(message));
        }
      }
    }

    /** send(ByteBuffer*): the buffer is emptied exactly when its bytes were handed over. It may be
        the connection's own input buffer, or its output buffer. */
    method SendBuffer(buf: ByteBuffer, inLoop: bool, w: CM.WriteResult)
      requires Valid() && buf.Valid() && (buf == output || buf.buffer != output.buffer)
      modifies this, channel, channel.poller, output, output.buffer, buf
      ensures Valid() && buf.Valid() && (output.buffer == old(output.buffer) || fresh(output.buffer))
      ensures var message := old(buf.View().content);
              View() == if buf == output then CM.SendOwnOutput(cfg, old(View()), inLoop, w)
                        else if inLoop then CM.Send(cfg, old(View()), message, w)
                        else CM.SendRemote(old(View()), message)
      ensures buf.View().content == if old(state).Connected? then [] else old(buf.View().content)
      ensures old(channel.poller.Agrees()) ==> channel.poller.Agrees()
    {
      if state == CM.Connected {
        if inLoop {
          SendThenEmpty(buf, w);
        } else {
          var bytes := buf.RetrieveAllAsString();
          QueueInLoop(CM.SendF(bytes));
        }
      }
    }

    /** Lines 76-77. */
    method SendThenEmpty(buf: ByteBuffer, w: CM.WriteResult)
      requires Valid() && buf.Valid() && (buf == output || buf.buffer != output.buffer)
      modifies this`pending, this`trace, channel, channel.poller, output, output.buffer, buf
      ensures Valid() && buf.Valid() && (output.buffer == old(output.buffer) || fresh(output.buffer))
      ensures var c := CM.SendInLoop(cfg, old(View()), old(buf.View().content), w);
              View() == if buf == output then c.(output := []) else c
      ensures buf.View().content == []
      ensures old(channel.poller.Agrees()) ==> channel.poller.Agrees()
    {
      var bytes := buf.Peek();
      SendInLoop(bytes, w);
      buf.RetrieveAll();
    }

    method Shutdown(inLoop: bool)
      requires Valid()
      modifies this`state, this`pending, this`trace
      ensures Valid()
      ensures View() == if inLoop then CM.Shutdown(old(View())) else CM.ShutdownRemote(old(View()))
    {
      if state == CM.Connected {
        state := CM.DisConnecting;
        if inLoop {
          ShutdownInLoop();
        } else {
          QueueInLoop(CM.ShutdownF);
        }
      }
    }

    method ForceClose()
      requires Valid()
      modifies this`state, this`pending
      ensures Valid() && View() == CM.ForceClose(old(View()))
    {
      if state == CM.Connected || state == CM.DisConnecting {
        state := CM.DisConnecting;
        QueueInLoop(CM.ForceCloseF);
      }
    }

    method ForceCloseInLoop()
      requires Valid()
      modifies this`state, this`trace, channel, channel.poller
      ensures Valid() && View() == CM.ForceCloseInLoop(old(View()))
      ensures old(channel.poller.Agrees()) ==> channel.poller.Agrees()
    {
      if state == CM.Connected || state == CM.DisConnecting {
        HandleClose();
      }
    }

    method ConnectEstablished()
      requires Valid()
      modifies this`state, this`trace, channel, channel.poller
      ensures Valid()
      ensures View() == CM.ConnectEstablished(old(View()), old(WouldRegister()))
      ensures old(channel.poller.Agrees()) ==> channel.poller.Agrees()
    {
      if state != CM.Connecting {
        return;
      }
      state := CM.Connected;
      var ok := channel.EnableReading();
      if !ok {
        HandleClose();
        return;
      }
      trace := CM.Then(trace, CM.Up);
    }

    /** What enableReading would answer now. */
    ghost predicate WouldRegister()
      reads channel, channel.poller
    {
      Call(channel.poller.View(), channel, channel.View(), EnableReading(channel)).ok
    }

    /** disableAll when the connection was up, then remove. */
    static function Destroyed(r: Registry<Channel>, id: Channel, c: Chan, up: bool): Outcome<Channel> {
      var o := if up then Call(r, id, c, DisableAll(id)) else Outcome(r, c, true);
      Call(o.registry, id, o.chan, RemoveChannel(id))
    }

    /** The channel leaves the poller unless it still has events: neither the map nor the kernel points to
        it any more, and its descriptor is free for another. */
    method ConnectDestroyed()
      requires Valid()
      modifies this`state, this`trace, channel, channel.poller
      ensures Valid() && View() == CM.ConnectDestroyed(old(View()))
      ensures old(channel.poller.Agrees() && (state.Connected? || channel.events == NONE_EVENT)) ==>
                && channel.index.New?
                && (forall fd :: fd in channel.poller.channels ==> channel.poller.channels[fd] != channel)
                && (forall fd :: fd in channel.poller.kernel ==> channel.poller.kernel[fd].data != channel)
      ensures !old(state).Connected? && old(channel.events) != NONE_EVENT ==>
                channel.poller.View() == old(channel.poller.View()) && channel.View() == old(channel.View())
      ensures var o := Destroyed(old(channel.poller.View()), channel, old(channel.View()), old(state).Connected?);
              channel.poller.View() == o.registry && channel.View() == o.chan
      ensures old(channel.poller.Agrees()) ==> channel.poller.Agrees()
    {
      if state == CM.Connected {
        TakeDown();
      }
      ghost var world := channel.poller.World();
      if Agreement(world) && channel.events == NONE_EVENT {
        RemoveForgets(world, channel);
      }
      channel.Remove();
    }

    /** Lines 141-145. */
    method TakeDown()
      requires Valid() && state == CM.Connected
      modifies this`state, this`trace, channel, channel.poller
      ensures Valid() && View() == CM.ConnectDestroyed(old(View()))
      ensures exists ok :: channel.Did(old(channel.poller.View()), old(channel.View()), DisableAll(channel), ok)
      ensures old(channel.poller.Agrees()) ==> channel.poller.Agrees()
    {
      state := CM.Disconnected;
      var ok := channel.DisableAll();
      trace := CM.Then(trace, CM.Down);
      assert channel.Did(old(channel.poller.View()), old(channel.View()), DisableAll(channel), ok);
    }

    /** What each functor in the loop's queue was bound to. */
    method RunFunctor(f: CM.Functor, w: CM.WriteResult)
      requires Valid()
      modifies this, channel, channel.poller, output, output.buffer
      ensures Valid() && (output.buffer == old(output.buffer) || fresh(output.buffer))
      ensures View() == CM.RunFunctor(cfg, old(View()), f, w)
      ensures old(channel.poller.Agrees()) ==> channel.poller.Agrees()
    {
      match f
      case SendF(message) => SendInLoop(message, w);
      case ShutdownF => ShutdownInLoop();
      case ForceCloseF => ForceCloseInLoop();
      case WriteCompleteF =>
      case HighWaterF(_) =>
    }

    /** The loop takes the oldest functor from its queue and runs it. */
    method RunNext(w: CM.WriteResult)
      requires Valid()
      modifies this, channel, channel.poller, output, output.buffer
      ensures Valid() && (output.buffer == old(output.buffer) || fresh(output.buffer))
      ensures View() == CM.Next(cfg, old(View()), CM.RunNext(w))
      ensures old(channel.poller.Agrees()) ==> channel.poller.Agrees()
    {
      if pending != [] {
        var f := pending[0];
        pending := pending[1..];
        RunFunctor(f, w);
      }
    }
  }
}
