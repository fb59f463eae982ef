# A verified model of the sthForNet reactor library

This project models the stateful core of the library in Dafny and proves what it is for: that a
connection delivers exactly the bytes it took, that its write side is shut only after they are out,
that channels, poller and kernel never disagree, that buffers behave like byte sequences in bounded
space, that timers fire as often and as late as they should, that the asynchronous log loses no line,
and that no waiting thread misses its wake-up.

Each component comes in two layers.

- A *model* of functions on values: one function for each operation, a step function over them, and
  runs, which are arbitrary sequences of steps. Whatever the outside answers (how many bytes `write`
  takes or which error it gives, what `readv` delivers, the time `doTimer` reads, what `fopen` and
  `fwrite` return, which thread moves next) is a parameter of the step, so a theorem about all runs
  covers every answer. The theorems are lemmas about all runs.
- *Classes* in the form of the source, with its fields and its control flow. Every method's
  postcondition equates the object's new abstract state with the model's function of its old one, so
  the theorems speak about every sequence of calls on these objects.

| files | components |
|---|---|
| `Endian.dfy`, `LiteralPeek.dfy` | byte order and fixed-width integers |
| `BufferModel.dfy`, `TypedStream.dfy`, `ByteBuffer.dfy` | `ByteBuffer` |
| `PollerModel.dfy`, `EPollPoller.dfy` | `Channel`, `EPollPoller` and the kernel's interest set |
| `ConnectionModel.dfy`, `ConnectionProofs.dfy`, `ConnectionHistory.dfy`, `TcpConnection.dfy` | `TcpConnection` over its channel, poller and buffers |
| `TimerModel.dfy`, `TimerRuns.dfy`, `TimerQueue.dfy` | `Timer`, `TimerQueue` |
| `LogModel.dfy`, `LogProgress.dfy`, `AsyncLog.dfy` | `CAsyncLog`'s queue, writer thread and files |
| `CountDownLatch.dfy` | `CountDownLatch` |

The layers stack: `TcpConnection` is an object over a `Channel`, an `EPollPoller` and two `ByteBuffer`s,
and its methods are proved to keep the poller's agreement as well.

The interfaces to the outside are modelled by what they can answer. The event loop is a FIFO queue of
functors, with `runInLoop` running at once on the loop's thread (its bodies are not part of the
repository). `epoll_ctl` refuses exactly an ADD of a present descriptor and a MOD or DEL of an absent one.
User callbacks are recorded; what a callback calls in turn is a later step. Event masks are sets of
flags. Integers are unbounded; `int64_t` times and `size_t` sizes are assumed not to wrap.

## Where the code departs from its intent

Some lines contradict the code around them. The model follows the intent, and for each line whose
difference can be observed a lemma says exactly when the literal line agrees.

- `XNet/EPollPoller.cpp:63`: the guard `index==kNew || kDeleted` is always true. The literal update is
  right exactly for channels that are not `kAdded` (`PollerModel.LiteralUpdateCorrectIff`).
- `XNet/EPollPoller.cpp:145`: `removeChannel` ends with `kAdded` where `kNew` is meant. The literal line
  keeps the agreement exactly when the removal is refused (`PollerModel.LiteralRemoveCorrectIff`).
- `XNet/Channel.h:42-43`: `set_revents` and `add_revents` write `m_events`. Unless the channel is not
  registered, the literal lines keep the agreement exactly when the report equals the mask
  (`PollerModel.LiteralSetReventsCorrectIff`), or is contained in it for the second
  (`PollerModel.LiteralAddReventsCorrectIff`).
- `XNet/ByteBuffer.h:299` and `XNet/ByteBuffer.h:309`: the 32- and 16-bit peeks use the 64-bit
  conversion. On a little-endian host they return what was appended exactly for 0 and -1
  (`LiteralPeek.LiteralPeekCorrectIff`).
- `XNet/TcpConnection.cpp:93` and `XNet/TcpConnection.cpp:289` define `shutdownInLoop` twice with
  opposite tests. The first is modelled; the second would half-close exactly while taken bytes are
  missing from the wire (`ConnectionProofs.SecondDefinitionCutsTheStream`).
- `XNet/TcpConnection.cpp:250`, `XNet/TcpConnection.cpp:262` and `XNet/TcpConnection.cpp:282` have slips of
  the pen (`wrote`, `errno=ECONNRESET`, `data`), read as `nwrote`, `==` and `message`.

Properties that turned out to be limited, with the exact limit:

- A repeating timer keeps its old key at the front of the set, so later timers can be due and not fire
  (`TimerRuns.RepeatingTimerBlocksOthers`); a pass misses none exactly when no due timer stands behind
  one that is not due (`TimerModel.CompleteIff`).
- Calls from other threads can half-close a connection twice or write after the half-close
  (`ConnectionProofs.RemoteSendAfterHalfClose`); a run is free of it exactly when none of its steps is one
  of those named by `ConnectionProofs.HalfCloseSafeIff`. With `send` and `shutdown` on the loop's thread
  it cannot happen.
- `outputBuffer()` hands out the connection's own output, and `send(ByteBuffer*)` accepts it. That does no
  harm exactly while it is empty (`ConnectionProofs.SendOwnOutputSafeIff`).
- Log file names have a resolution of one second, and `fopen` empties a file of the same name. Every file
  keeps its lines exactly in the runs that never open one under the name of an earlier file with something
  in it (`LogModel.RunKeepsFilesIff`).
- The roll-size bound holds for a positive roll size and for no other (`LogModel.RotationBound`,
  `LogModel.OneLineEach`).
- `uninit`'s notification is lost exactly when it falls between the writer's look at `m_bExit` and its
  wait: only then can the writer, whatever follows, ever be found asleep and unsignalled
  (`LogModel.ExitSignalLostIff`).
- A high-water mark of 0 never notifies (`ConnectionProofs.HighWaterAccounting`).

## Model

| member | source | states |
|---|---|---|
| `Endian.NetworkOrderDigits` | XNet/Endian.h:10-20 | the network form sends the most significant octet first: octet i counts multiples of 256 to the number of octets after it |
| `Endian.FromToBig` | XNet/Endian.h:10-32 | the octets of a value that fits denote that value |
| `Endian.ToFromBig` | XNet/Endian.h:10-32 | every octet sequence is the network form of the number it denotes |
| `Endian.WireImageIsNetworkOrder` | XNet/Endian.h:10-20 | on hosts of either byte order, the memory image of the converted value is the network form |
| `Endian.NetworkRoundTrip` | XNet/Endian.h:10-32 | converting to network order and back is the identity |
| `Endian.IntRoundTrip` | XNet/ByteBuffer.h:234-319 | a signed value encoded on one host is decoded on any other |
| `LiteralPeek.LittleHostKeepsOnlySign` | XNet/ByteBuffer.h:292-310 | read literally, the narrow peeks on a little-endian host yield only 0 or -1, by the sign of the value as loaded |
| `LiteralPeek.LiteralPeekCorrectIff` | XNet/ByteBuffer.h:292-310 | read literally, the narrow peeks return what was appended exactly on a big-endian host or for 0 and -1 |
| `BufferModel.MakeSpace` | XNet/ByteBuffer.h:381-399 | the content is kept, and when room was missing there is enough afterwards |
| `BufferModel.EnsureWritable` | XNet/ByteBuffer.h:197-205 | the content is kept and at least len bytes are writable |
| `BufferModel.ScatterRead` | XNet/ByteBuffer.cpp:16-47 | a scatter read appends exactly what was received, as one contiguous read would; nothing at end of stream or on an error; the array grows only if bytes spilled over |
| `BufferModel.RunRefinesPlain` | XNet/ByteBuffer.h:100-399 | after any sequence of calls the bytes between the indices are those of a plain sequence under the same calls |
| `BufferModel.EarlyReturnUnreachable` | XNet/ByteBuffer.h:389-392 | from ensureWritableBytes the early return of makeSpace is never reached |
| `BufferModel.ResizeBound` | XNet/ByteBuffer.h:384-386 | a resize leaves a size strictly below readable + 2 len + 8 |
| `BufferModel.RunBound` | XNet/ByteBuffer.h:381-399 | over a run with at most R readable before, and at most L bytes in, each append, the size never exceeds the initial one, R + 2L + 8, and the default size if the buffer is ever shrunk |
| `BufferModel.FreshRoom` | XNet/ByteBuffer.h:22-27 | a new buffer of n bytes takes n without growing, and in front of them exactly up to 8 |
| `BufferModel.EmptiedIsFresh` | XNet/ByteBuffer.h:100-121 | emptying a buffer, in one call or by retrieving all, makes it a new one of the same array size |
| `BufferModel.UndoneExactly` | XNet/ByteBuffer.h:100-232 | retrieve is undone by prepending what was retrieved, append by unwriting, prepend by retrieving, down to the indices |
| `BufferModel.RoomMadeIff` | XNet/ByteBuffer.h:197-205 | nothing moves while there is room; the array grows exactly when content, len and the reserved 8 bytes do not fit it, and then by just enough |
| `BufferModel.ShrinkSize` | XNet/ByteBuffer.h:356-362 | the size after shrink: 1032, or what content, reserve and 8 bytes need |
| `BufferModel.ReadTakes` | XNet/ByteBuffer.cpp:16-47 | how much one scatter read takes: all of up to 65536 bytes always, and at most 65536 more than fit |
| `BufferModel.PrependAccepted` | XNet/ByteBuffer.h:344-354 | in every run, data are accepted in front while no more than 8 bytes have been, these included |
| `TypedStream.TypedStreamRoundTrip` | XNet/ByteBuffer.h:234-319 | any list of integers appended after any bytes is read back once those are retrieved, and nothing is left |
| `TypedStream.PrependRoundTrip` | XNet/ByteBuffer.h:321-354 | integers prepended with enough room are read back last first, down to the original bytes |
| `TypedStream.WidthRanges` | XNet/ByteBuffer.h:234-255 | each width holds exactly the values of its signed machine type |
| `TypedStream.IntegersAsOctets` | XNet/ByteBuffer.h:234-342 | each width goes into the buffer as its 1, 2, 4 or 8 two's complement octets, most significant first, behind the content, or in front of it if they fit |
| `TypedStream.OctetCount` | XNet/ByteBuffer.h:234-319 | a width takes 1, 2, 4 or 8 bytes |
| `TypedStream.PeekNeeds` | XNet/ByteBuffer.h:282-319 | -1 while fewer than that many are readable |
| `TypedStream.PeekOctets` | XNet/ByteBuffer.h:257-319 | otherwise the value whose octets come first; retrieving the width drops exactly those |
| `ByteBuffers.ByteBuffer.constructor` | XNet/ByteBuffer.h:22-27 | an empty buffer of 8 + initialSize bytes |
| `ByteBuffers.ByteBuffer.Peek` | XNet/ByteBuffer.h:51-54 | the readable bytes |
| `ByteBuffers.ByteBuffer.RetrieveAll` | XNet/ByteBuffer.h:117-121 | the buffer is emptied and both indices return to 8 |
| `ByteBuffers.ByteBuffer.Retrieve` | XNet/ByteBuffer.h:100-115 | drops exactly the first len bytes; refused without effect when there are fewer |
| `ByteBuffers.ByteBuffer.RetrieveUntil` | XNet/ByteBuffer.h:123-135 | retrieves up to a position inside the readable bytes, and refuses any other |
| `ByteBuffers.ByteBuffer.RetrieveAsString` | XNet/ByteBuffer.h:162-172 | returns and drops the first len bytes, or returns nothing |
| `ByteBuffers.ByteBuffer.RetrieveAllAsString` | XNet/ByteBuffer.h:157-160 | returns all readable bytes and empties the buffer |
| `ByteBuffers.ByteBuffer.SlideDown` | XNet/ByteBuffer.h:394-395 | the overlapping copy, byte by byte in place, moves the readable bytes unharmed |
| `ByteBuffers.ByteBuffer.MakeSpace` | XNet/ByteBuffer.h:381-399 | grows or compacts as the model does |
| `ByteBuffers.ByteBuffer.EnsureWritableBytes` | XNet/ByteBuffer.h:197-205 | at least len bytes are writable and the content is kept |
| `ByteBuffers.ByteBuffer.HasWritten` | XNet/ByteBuffer.h:216-223 | moves the writer index over writable bytes only |
| `ByteBuffers.ByteBuffer.Append` | XNet/ByteBuffer.h:184-190 | the data follow the old content |
| `ByteBuffers.ByteBuffer.Unwrite` | XNet/ByteBuffer.h:224-232 | drops exactly the last len bytes; refused without effect when there are fewer |
| `ByteBuffers.ByteBuffer.Prepend` | XNet/ByteBuffer.h:344-354 | the data precede the old content; refused without effect when they do not fit before it |
| `ByteBuffers.ByteBuffer.Shrink` | XNet/ByteBuffer.h:356-362 | the same content in a new array with the reserve writable |
| `ByteBuffers.ByteBuffer.ReadFd` | XNet/ByteBuffer.cpp:16-47 | for every answer of readv, the two areas together reach the buffer as one sequence |
| `ByteBuffers.ByteBuffer.AppendInt` | XNet/ByteBuffer.h:234-255 | the 1, 2, 4 or 8 octets of the value follow the old content |
| `ByteBuffers.ByteBuffer.PrependInt` | XNet/ByteBuffer.h:321-342 | those octets precede the old content if they fit before it, else nothing changes |
| `ByteBuffers.ByteBuffer.PeekInt` | XNet/ByteBuffer.h:282-319 | the decoded first 1, 2, 4 or 8 bytes, or -1 when there are fewer |
| `ByteBuffers.ByteBuffer.ReadInt` | XNet/ByteBuffer.h:257-280 | peek, then 1, 2, 4 or 8 bytes are dropped if there are as many |
| `PollerModel.ServeKeepsAgreement` | XNet/EPollPoller.cpp:58-146 | every enable, disable or remove call keeps the agreement of channels, map and kernel |
| `PollerModel.AgreementAlways` | XNet/EPollPoller.cpp:58-146 | so does every run of such calls on any number of channels |
| `PollerModel.AgreementFromStart` | XNet/EPollPoller.cpp:58-146 | from an empty poller: the kernel watches exactly the descriptors of kAdded channels with their masks, the map holds exactly the channels that are not kNew, kDeleted means no events, and no epoll_ctl is ever refused |
| `PollerModel.CallIsLocal` | XNet/Channel.cpp:75-99 | a call leaves the channel agreeing and touches no other descriptor |
| `PollerModel.UpdateSucceedsIff` | XNet/EPollPoller.cpp:58-118 | an update succeeds exactly when no other channel holds the descriptor |
| `PollerModel.RemoveForgets` | XNet/EPollPoller.cpp:120-146 | after a removal neither the map nor the kernel points to the channel |
| `PollerModel.MaskFollowsCalls` | XNet/Channel.cpp:75-99 | in every run, whatever the poller answers, an event is in a channel's mask exactly if the last call on it that concerns the event enables it |
| `PollerModel.WatchedAfterUpdate` | XNet/EPollPoller.cpp:58-118 | a successful update that empties the mask of a kAdded channel ends its registration; any other leaves it watched with its new mask |
| `PollerModel.EnabledStays` | XNet/Channel.cpp:130-136 | a channel with events is not removed |
| `PollerModel.StrangersChangeNothing` | XNet/EPollPoller.cpp:66-105 | a channel that is not the one registered, or new on a taken descriptor, is refused without effect, agreement or not |
| `PollerModel.RefusalIsReported` | XNet/EPollPoller.cpp:58-118 | any other update fails exactly if the kernel refuses it; no registration changes then, and the channel is kAdded |
| `PollerModel.LiteralUpdateCorrectIff` | XNet/EPollPoller.cpp:63-95 | the guard read literally is right exactly for channels that are not kAdded, and the kernel refuses it for the others |
| `PollerModel.LiteralRemoveCorrectIff` | XNet/EPollPoller.cpp:136-145 | the last line read literally keeps the agreement exactly when the removal is refused; otherwise the channel passes for kAdded while neither map nor kernel knows it |
| `PollerModel.LiteralSetReventsCorrectIff` | XNet/Channel.h:42 | storing reports in m_events keeps the agreement exactly when they equal the mask or the channel is not registered |
| `PollerModel.LiteralAddReventsCorrectIff` | XNet/Channel.h:43 | adding reports to m_events keeps the agreement exactly when the mask has them all or the channel is not registered |
| `EPollPollers.Channel.constructor` | XNet/Channel.cpp:15-21 | a kNew channel without events keeps the agreement |
| `EPollPollers.Channel.EnableReading` | XNet/Channel.cpp:75-79 | the model's call, and the agreement is kept |
| `EPollPollers.Channel.DisableReading` | XNet/Channel.cpp:80-84 | the model's call, and the agreement is kept |
| `EPollPollers.Channel.EnableWriting` | XNet/Channel.cpp:85-89 | the model's call, and the agreement is kept |
| `EPollPollers.Channel.DisableWriting` | XNet/Channel.cpp:90-94 | the model's call, and the agreement is kept |
| `EPollPollers.Channel.DisableAll` | XNet/Channel.cpp:95-99 | the model's call, and the agreement is kept |
| `EPollPollers.Channel.Remove` | XNet/Channel.cpp:130-136 | the model's call, which does nothing while events are enabled, and the agreement is kept |
| `EPollPollers.Channel.StepAgrees` | XNet/Channel.cpp:75-141 | each of these calls is a step of the model's world |
| `EPollPollers.Channel.SetCallback` | XNet/Channel.h:23-38 | the callback is set, the others are as before |
| `EPollPollers.Channel.HandleEvent` | XNet/Channel.cpp:27-73 | which of the callbacks that are set run for which reported events, in the order close, error, read, write |
| `EPollPollers.Channel.CallbacksInOrder` | XNet/Channel.cpp:42-72 | such calls are at most one each of close, error, read and write, in this order |
| `EPollPollers.EPollPoller.UpdateChannel` | XNet/EPollPoller.cpp:58-118 | the map, the kernel, the channel and the result are those of the model |
| `EPollPollers.EPollPoller.RemoveChannel` | XNet/EPollPoller.cpp:120-146 | the map, the kernel and the channel are those of the model |
| `EPollPollers.EPollPoller.UpdateKernel` | XNet/EPollPoller.cpp:175-194 | one epoll_ctl on the channel's descriptor |
| `EPollPollers.EPollPoller.FillActiveChannels` | XNet/EPollPoller.cpp:160-173 | the longest prefix of reports about registered channels is listed in order, each with its last reported events |
| `EPollPollers.EPollPoller.Poll` | XNet/EPollPoller.cpp:32-56 | the same for what epoll_wait returned, and all reports while the kernel reports only watched pointers and the agreement holds; the event list doubles exactly when it was filled |
| `EPollPollers.NoReportIsLost` | XNet/EPollPoller.cpp:160-173 | while the agreement holds, every report of the kernel reaches the active channels |
| `ConnectionProofs.StreamConserved` | XNet/TcpConnection.cpp:169-288 | in every run, wire ++ output buffer is the concatenation of all messages taken, in order |
| `ConnectionProofs.InterestMirrorsPending` | XNet/TcpConnection.cpp:172-286 | in every run, write interest is on exactly while bytes are pending, read interest while open, none once disconnected |
| `ConnectionProofs.SendOwnOutputSafeIff` | XNet/TcpConnection.cpp:72-83 | in every run, sending the connection's own output buffer keeps the stream, and write interest, exactly while that buffer is empty |
| `ConnectionProofs.WhereOwnOutputGoes` | XNet/TcpConnection.cpp:72-83 | what becomes of the pending bytes then: lost when sent on the loop's thread, though they counted against the mark; queued as a message otherwise |
| `ConnectionProofs.CompletionMeansDrained` | XNet/TcpConnection.cpp:178-183 | a write-complete is queued, as the last functor, only when everything taken is on the wire, and by a step that writes bytes exactly then |
| `ConnectionProofs.HighWaterAccounting` | XNet/TcpConnection.cpp:276-281 | notifications exceed drains below the mark by 1 exactly while pending bytes reach a positive mark |
| `ConnectionProofs.WaterReportsSize` | XNet/TcpConnection.cpp:277-281 | the notification carries the number of pending bytes |
| `ConnectionProofs.LifeCycle` | XNet/TcpConnection.cpp:116-219 | connection callback at most once up and once down, down exactly when disconnected; close callback exactly once then, unless connectDestroyed ended the connection |
| `ConnectionProofs.RankNeverDecreases` | XNet/TcpConnection.cpp:85-148 | the state never moves back: kConnecting, kConnected, kDisConnecting, kDisconnected |
| `ConnectionProofs.NothingAfterDisconnect` | XNet/TcpConnection.cpp:199-242 | after kDisconnected nothing is taken or written and no connection or close callback runs |
| `ConnectionProofs.ForceCloseWaits` | XNet/TcpConnection.cpp:102-109 | a forced close waits in the queue until the connection is down |
| `ConnectionProofs.ForceCloseNeedsOpen` | XNet/TcpConnection.cpp:102-304 | on a connection that is not open, and on no other, forceClose and its functor do nothing |
| `ConnectionProofs.ForceCloseTakesEffect` | XNet/TcpConnection.cpp:297-304 | once the loop has taken the functors up to it, the connection is down, whatever they do |
| `ConnectionProofs.RemoteSendsInOrder` | XNet/TcpConnection.cpp:47-83 | messages sent from other threads are taken up in order, none twice and none left out |
| `ConnectionProofs.HalfCloseAfterDrain` | XNet/TcpConnection.cpp:85-100 | with send and shutdown on the loop's thread, the write side is shut at most once, after every byte ever taken, and nothing follows; after shutdown it has been shut exactly when nothing is pending |
| `ConnectionProofs.StepKeepsHalfCloseIff` | XNet/TcpConnection.cpp:178-188 | those steps: with a half-close made, a queued shutdownInLoop while nothing is pending, a queued message that goes straight to the socket, a drain |
| `ConnectionProofs.HalfCloseSafeIff` | XNet/TcpConnection.cpp:93-188 | with calls from any thread, a run half-closes at most once and writes nothing after it exactly when it has none of the steps named |
| `ConnectionProofs.RemoteSendAfterHalfClose` | XNet/TcpConnection.cpp:60-91 | a run in which a message from another thread is written after the half-close |
| `ConnectionProofs.SecondDefinitionCutsTheStream` | XNet/TcpConnection.cpp:289-296 | the second shutdownInLoop would half-close exactly while taken bytes are not on the wire |
| `ConnectionHistory.StateHistory` | XNet/TcpConnection.cpp:85-227 | in every run the state follows from the calls and events: disconnected exactly if one of the named steps ended the connection, else connecting until established, else disconnecting exactly if it was asked to leave |
| `ConnectionHistory.ReadOutcomes` | XNet/TcpConnection.cpp:150-168 | a read with data runs the message callback once and changes nothing else; end of stream or an error leaves the connection down |
| `ConnectionHistory.MessagesCounted` | XNet/TcpConnection.cpp:155-157 | in every run the message callback has run once for each read with data |
| `ConnectionHistory.CallbacksInOrder` | XNet/TcpConnection.cpp:116-219 | in every run "up" precedes "down", the close callback directly follows "down", and bytes are written only between the two |
| `ConnectionHistory.QueueIsFifo` | XNet/EventLoop.h:106-107 | however a run goes on, the functors taken and those waiting begin with the ones there were |
| `ConnectionHistory.FunctorsAccounted` | XNet/TcpConnection.cpp:47-109 | in every run the functors of each kind taken up and waiting are as many as the calls that asked for one in the right state, and the notices announced |
| `ConnectionHistory.NoticesReachTheQueue` | XNet/TcpConnection.cpp:178-281 | the write-complete and high-water functors taken up and waiting are as many as were announced |
| `ConnectionHistory.WireIsWhatWasGranted` | XNet/TcpConnection.cpp:169-268 | in every run the wire holds exactly as many of the bytes taken, in order, as the kernel granted, and the output buffer the rest |
| `ConnectionHistory.ShutdownNotForgotten` | XNet/TcpConnection.cpp:85-100 | with calls from any thread, after shutdown there are bytes to write, or the half-close was made, or its functor waits |
| `TcpConnections.TcpConnection.constructor` | XNet/TcpConnection.cpp:26-40 | a connecting connection with empty buffers and a kNew channel that calls its four handlers |
| `TcpConnections.TcpConnection.BindCallbacks` | XNet/TcpConnection.cpp:33-36 | the channel's four callbacks are set, and nothing else changes |
| `TcpConnections.TcpConnection.SendInLoop` | XNet/TcpConnection.cpp:232-288 | the model's step, for every answer of write, and the poller's agreement is kept |
| `TcpConnections.TcpConnection.WriteDirect` | XNet/TcpConnection.cpp:244-268 | what the direct write took, what remains, and whether the peer is gone; the completion when nothing remains |
| `TcpConnections.TcpConnection.NoticeComplete` | XNet/TcpConnection.cpp:181-183 | write-complete is queued if its callback is set |
| `TcpConnections.TcpConnection.NoticeHighWater` | XNet/TcpConnection.cpp:276-281 | the notice is queued, with the size, exactly when the added bytes make the pending ones reach the mark |
| `TcpConnections.TcpConnection.WantWriting` | XNet/TcpConnection.cpp:283-286 | write interest is on, and the poller's agreement is kept |
| `TcpConnections.TcpConnection.SendTail` | XNet/TcpConnection.cpp:274-287 | the unsent tail is queued behind the output, with the high-water notice and write interest |
| `TcpConnections.TcpConnection.ShutdownInLoop` | XNet/TcpConnection.cpp:93-100 | half-closes unless bytes wait to be written |
| `TcpConnections.TcpConnection.HandleWrite` | XNet/TcpConnection.cpp:169-198 | the model's step, for every answer of write |
| `TcpConnections.TcpConnection.WriteOutput` | XNet/TcpConnection.cpp:174-177 | the bytes the kernel took are on the wire and no longer in the output buffer |
| `TcpConnections.TcpConnection.Drained` | XNet/TcpConnection.cpp:178-188 | write interest off, write-complete queued, half-close if disconnecting |
| `TcpConnections.TcpConnection.HandleRead` | XNet/TcpConnection.cpp:150-168 | every byte received reaches the input buffer; any byte at all runs the message callback and nothing else, none at all or an error leaves the connection down |
| `TcpConnections.TcpConnection.ReadInput` | XNet/TcpConnection.cpp:153-154 | what was received is in the input buffer, and the sign of the result tells data, end of stream and error apart |
| `TcpConnections.TcpConnection.AfterRead` | XNet/TcpConnection.cpp:155-167 | data invoke the message callback, the other outcomes close |
| `TcpConnections.TcpConnection.HandleClose` | XNet/TcpConnection.cpp:199-219 | disconnects once, with both callbacks |
| `TcpConnections.TcpConnection.HandleError` | XNet/TcpConnection.cpp:220-227 | closes |
| `TcpConnections.TcpConnection.Send` | XNet/TcpConnection.cpp:47-70 | on the loop's thread at once, elsewhere through the queue, and only while connected |
| `TcpConnections.TcpConnection.SendBuffer` | XNet/TcpConnection.cpp:72-83 | the same for a buffer, which is emptied exactly when its bytes were handed over; for the connection's own output buffer what then becomes of the connection |
| `TcpConnections.TcpConnection.SendThenEmpty` | XNet/TcpConnection.cpp:76-77 | the bytes are sent, then the buffer is emptied |
| `TcpConnections.TcpConnection.Shutdown` | XNet/TcpConnection.cpp:85-91 | the model's step |
| `TcpConnections.TcpConnection.ForceClose` | XNet/TcpConnection.cpp:102-109 | the model's step |
| `TcpConnections.TcpConnection.ForceCloseInLoop` | XNet/TcpConnection.cpp:297-304 | the model's step |
| `TcpConnections.TcpConnection.ConnectEstablished` | XNet/TcpConnection.cpp:116-135 | the model's step; the answer of enableReading is the poller's |
| `TcpConnections.TcpConnection.ConnectDestroyed` | XNet/TcpConnection.cpp:137-148 | the model's step; a connection that was up, or whose channel has no events, is forgotten: the channel is kNew, and neither map nor kernel points to it; any other keeps its registration |
| `TcpConnections.TcpConnection.TakeDown` | XNet/TcpConnection.cpp:141-145 | down without the close callback, and all interest off |
| `TcpConnections.TcpConnection.RunFunctor` | XNet/TcpConnection.cpp:47-109 | each functor does what it was bound to |
| `TcpConnections.TcpConnection.RunNext` | XNet/EventLoop.h:106-107 | the loop takes its oldest functor |
| `TimerModel.OnePass` | XNet/TimerQueue.cpp:61-84 | a pass visits the longest due prefix, runs each entry once, erases exactly those whose count reached 0, and leaves the rest |
| `TimerModel.VisitedEntries` | XNet/Timer.cpp:28-43 | which entries survive and which callbacks run, entry by entry |
| `TimerModel.PassKeepsOrder` | XNet/TimerQueue.cpp:65-83 | the entries left stay in the set's order |
| `TimerModel.InsertKeepsOrder` | XNet/TimerQueue.cpp:120-126 | insertion keeps the set's order |
| `TimerModel.OrderOfPairs` | XNet/TimerQueue.cpp:120-126 | the set's order is a strict total one: by key, then by address |
| `TimerModel.AddThenRemove` | XNet/TimerQueue.cpp:86-104 | removing a timer just added restores the set |
| `TimerModel.RemovesOne` | XNet/TimerQueue.cpp:92-104 | removing takes exactly the timer's entry |
| `TimerModel.CancelSetsOne` | XNet/TimerQueue.cpp:106-118 | canceling sets exactly that timer's flag, on or off |
| `TimerModel.RunsInTurn` | XNet/Timer.cpp:28-43 | a timer of count c is due c times one interval apart and its last run leaves the expiration; count -1 goes on for ever; a canceled timer never changes |
| `TimerModel.CompleteIff` | XNet/TimerQueue.cpp:67-82 | a pass visits every due timer exactly when none stands behind one that is not due |
| `TimerModel.OneShotPass` | XNet/TimerQueue.cpp:61-84 | over one-shot timers a pass fires exactly the due ones, in order of expiration |
| `TimerRuns.WalkIsPass` | XNet/TimerQueue.cpp:67-83 | the loop that erases while it iterates computes that pass |
| `TimerRuns.TimerAccounting` | XNet/Timer.cpp:28-43 | in every run: a timer with count n >= 1 fires at most n times, fewer if it was removed, and is otherwise in the set exactly until its n-th firing; a repeating one stays until removed; remaining count and expiration follow from the firings |
| `TimerRuns.FiringRate` | XNet/Timer.cpp:33-42 | firing k of a timer with a positive interval satisfies k <= ceil((now - when) / interval) |
| `TimerRuns.KeysStayBelow` | XNet/TimerQueue.cpp:120-126 | keys stay a lower bound of expirations for intervals >= 0, one entry for each timer, in order |
| `TimerRuns.SilentTick` | XNet/Timer.cpp:30-32 | doTimer calls back no canceled or absent timer |
| `TimerRuns.CancelSilences` | XNet/TimerQueue.cpp:61-118 | from a cancel on, in every run without cancel(false), the timer never fires and its entry stays as the cancel left it |
| `TimerRuns.RemoveSilences` | XNet/TimerQueue.cpp:92-104 | once removed, a timer is out of the set and never fires again in any continuation |
| `TimerRuns.CancelUndone` | XNet/TimerQueue.cpp:106-118 | cancel(true) followed by cancel(false) restores the set |
| `TimerRuns.OneShotComplete` | XNet/TimerQueue.cpp:61-84 | in runs of one-shot timers every doTimer fires all due timers in order of expiration, leaves only later ones, and no timer, removed or not, fires twice |
| `TimerRuns.RepeatingTimerBlocksOthers` | XNet/TimerQueue.cpp:67-82 | a run in which a due timer is passed over behind a repeating one |
| `TimerQueues.Timer.constructor` | XNet/Timer.cpp:6-26 | a timer due at `when`, not canceled |
| `TimerQueues.Timer.Run` | XNet/Timer.cpp:28-43 | the model's run; the callback runs exactly when not canceled |
| `TimerQueues.TimerQueue.DoTimer` | XNet/TimerQueue.cpp:61-84 | set and callbacks are those of the pass |
| `TimerQueues.TimerQueue.RunAt` | XNet/TimerQueue.cpp:69-78 | one turn of the loop |
| `TimerQueues.TimerQueue.AddTimerInLoop` | XNet/TimerQueue.cpp:86-90 | the new entry stands where the set's order puts it |
| `TimerQueues.TimerQueue.RemoveTimerInLoop` | XNet/TimerQueue.cpp:92-104 | exactly that timer's entry is gone |
| `TimerQueues.TimerQueue.CancelTimerInLoop` | XNet/TimerQueue.cpp:106-118 | exactly that timer's flag is set |
| `LogModel.LinesConserved` | base/AsyncLog.cpp:446-466 | for any producers and interleaving, lines written ++ line in flight ++ queue are all lines pushed, in lock order |
| `LogModel.NoLostWakeup` | base/AsyncLog.cpp:448-455 | a writer parked unsignalled while the mutex is free has an empty queue |
| `LogModel.ExitMeansAllWritten` | base/AsyncLog.cpp:449-453 | the writer's return on m_bExit means every line pushed so far is written |
| `LogModel.ExitSignalLostIff` | base/AsyncLog.cpp:53-56 | after m_bExit is set, in any run and for any continuation: the writer can be found asleep unsignalled after uninit's notification exactly when it stood between its look at m_bExit and its wait |
| `LogModel.ChunksFinish` | base/AsyncLog.cpp:384-406 | however fwrite cuts the line up, the file gets exactly the line |
| `LogModel.ChunksEnd` | base/AsyncLog.cpp:389-402 | writeToFile ends: a non-empty line after at most as many turns as characters, an empty one at once with a failure |
| `LogModel.RotationBound` | base/AsyncLog.cpp:420-464 | every closed file has size s with roll <= s < roll + length of its last line, for roll > 0 |
| `LogModel.OneLineEach` | base/AsyncLog.cpp:421-424 | for roll <= 0 every closed file holds one line and misses that bound |
| `LogModel.SizeAtLoopHead` | base/AsyncLog.cpp:464 | m_nCurrentWrittenSize is the length of the lines of the current file at the head of the loop, and that file's size on disk |
| `LogModel.SizeWithoutFile` | base/AsyncLog.cpp:420-444 | the counter is 0 before there is a file and after one could not be made |
| `LogModel.RunDisk` | base/AsyncLog.cpp:372-465 | in every run the current file holds its lines and the part written of the one in flight, and a closed file all of its lines or nothing |
| `LogModel.RunKeepsFilesIff` | base/AsyncLog.cpp:372-465 | in every run, every file holds its lines exactly when no file was opened under the name of an earlier one with something in it |
| `LogModel.FilesHoldTheirLines` | base/AsyncLog.cpp:384-465 | with distinct file names every file holds exactly its lines, so no line spans two files |
| `LogModel.FilesConcatenate` | base/AsyncLog.cpp:418-465 | in every run that overwrites nothing, the files one after the other are the lines taken, in lock order |
| `LogModel.OpenKeepsFilesIff` | base/AsyncLog.cpp:372-382 | a new file keeps the earlier ones exactly when none of its name has anything in it |
| `LogProgress.ExitSetIff` | base/AsyncLog.cpp:55 | m_bExit is set exactly in the runs in which uninit has set it |
| `LogProgress.EmptyQueueDecides` | base/AsyncLog.cpp:449-455 | a writer that found the queue empty returns at its next step, giving the mutex back, exactly if uninit has been called; else it goes on to wait |
| `LogProgress.LinesAdmitted` | base/AsyncLog.cpp:217-221 | the lines pushed are those of the producers in the order they got the mutex |
| `LogProgress.ProducerGetsThrough` | base/AsyncLog.cpp:217-221 | a producer that gets the mutex is out again at its third turn, whatever the others do meanwhile: its line is pushed, the mutex is free, and the writer does not sleep unsignalled |
| `LogProgress.WriterDrains` | base/AsyncLog.cpp:418-466 | from every reachable state with no producer inside, if the disk takes something each time, the writer by itself has written every line pushed within a bounded number of turns, and then sleeps, or has returned exactly if it knows of m_bExit or will read it before waiting |
| `LogProgress.GivesUpIff` | base/AsyncLog.cpp:418-463 | the writer's thread ends early exactly when a needed file cannot be made or an fwrite takes nothing, as it does for an empty line |
| `LogProgress.WriterGone` | base/AsyncLog.cpp:414-468 | once that thread has ended, nothing more is written in any continuation |
| `LogProgress.ChunksSoFar` | base/AsyncLog.cpp:389-397 | while the fwrites together took less than the line, exactly that much of it is in the file |
| `LogProgress.FailedChunk` | base/AsyncLog.cpp:392-394 | a failing fwrite leaves the file as it is and the line is given up |
| `AsyncLogs.AsyncLog.Enqueue` | base/AsyncLog.cpp:217-221 | a producer's four steps: the line is behind the queue, a waiting writer is signalled, the mutex is free |
| `AsyncLogs.AsyncLog.RaiseExit` | base/AsyncLog.cpp:55 | the first step of uninit: m_bExit is set, and nothing else changes |
| `AsyncLogs.AsyncLog.SignalExit` | base/AsyncLog.cpp:56 | the second: a waiting writer is signalled |
| `AsyncLogs.AsyncLog.LockQueue` | base/AsyncLog.cpp:448 | the writer gets the mutex, at first or after a wait |
| `AsyncLogs.AsyncLog.TakeLine` | base/AsyncLog.cpp:449-458 | the writer's test of the queue under the mutex, and what it takes |
| `AsyncLogs.AsyncLog.TestExit` | base/AsyncLog.cpp:451-453 | the writer's look at m_bExit, and its return |
| `AsyncLogs.AsyncLog.Wait` | base/AsyncLog.cpp:454 | the writer sleeps unsignalled and the mutex is free |
| `AsyncLogs.AsyncLog.CreateNewFile` | base/AsyncLog.cpp:372-382 | a new empty file, which empties any of the same name |
| `AsyncLogs.AsyncLog.OpenIfNeeded` | base/AsyncLog.cpp:420-444 | the writer's step at the head of its loop, and its return when no file can be made |
| `AsyncLogs.AsyncLog.WriteToFile` | base/AsyncLog.cpp:384-406 | all of the data, or a proper part and false |
| `AsyncLogs.AsyncLog.WriteLine` | base/AsyncLog.cpp:459-465 | echo, file and size after a line; after a failed write the proper part of the line that is in the file, and the return |
| `CountDownLatches.RunIsSound` | base/CountDownLatch.cpp:9-23 | in every run a waiting thread has been signalled exactly if the count is used up, and one has returned only if it is |
| `CountDownLatches.NoLostWakeup` | base/CountDownLatch.cpp:9-23 | a waiting thread is signalled, and its next step returns, exactly when there were as many countDown calls as the count: no wake-up is lost, none is early |
| `CountDownLatches.WaitReturnsAtOnceIff` | base/CountDownLatch.cpp:9-15 | wait() returns at once exactly when the count is used up, else the thread waits unsignalled |
| `CountDownLatches.OthersUnaffected` | base/CountDownLatch.cpp:9-23 | a thread waits or has returned until its own next step, whatever the others do |
| `CountDownLatches.CallersKnown` | base/CountDownLatch.cpp:9-15 | the threads that wait or have returned are those that called wait() |
| `CountDownLatches.ReturnsOnlyAfterCount` | base/CountDownLatch.cpp:9-15 | wait returns only after as many countDown calls as the initial count |
| `CountDownLatches.CountDownLatch.CountDown` | base/CountDownLatch.cpp:17-23 | the model's step, with the notification exactly at 0 |

## Left out

- The event loop's bodies, sockets, addresses, `epoll_wait`, the clock, `shared_ptr` lifetimes and the acceptor: not in the repository or without state of their own; their answers are parameters.
- Wrap-around of `int64_t` times and of `size_t` sizes, and the `int32_t` count of `sockets::write`: sizes and times are unbounded here.
- Failures of `epoll_ctl` other than for a present or absent descriptor, such as lack of memory.
- Data races on the non-atomic `m_state` and `m_bExit`: a step is atomic, and calls from other threads are steps.
- User callbacks that re-enter the timer queue while `doTimer` iterates: the source's iteration would be undefined.
- Scheduling: that a writer ever gets its turn; what it has done once it has had enough turns is `LogProgress.WriterDrains`.
- `wait()` of the latch and `writeThreadProc` as loops of one object: both block inside the loop while other threads change the object, so they appear as steps of a state machine; the log's class has a method for each of the writer's steps, the latch's for `countDown`.
- The pointer arithmetic of `peek`, `beginWrite`, `findCRLF`, `findEOL` and `findString`: plain searches over the readable bytes.
- `reventsToString`, log line formatting, log levels, `outputBinary`, the FATAL path and line truncation: no state of their own, or stubs.
- `TimerQueue`'s destructor and the `Timer` objects it frees: entries that are erased are never freed by the source, so an address stands for one timer.
- TcpConnections.TcpConnection.SendBuffer: given the connection's own non-empty output buffer, the source may read from an array that the append has just moved or freed; the model reads the bytes as they were before, because the buffer is emptied afterwards whatever was appended.
