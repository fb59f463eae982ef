/** The statics of base/AsyncLog.cpp as an object. LogModel interleaves the threads; here every section
    that no other thread can interrupt is a method, proved to do what the corresponding steps of LogModel
    do. Who holds m_mutexWrite, and where the writer stands, are part of the object. */
module AsyncLogs {
  import opened LogModel

  /** For the writer's steps that ask nothing of the outside. */
  const NO_IO: Io := Io("", false, 0)

  class AsyncLog {
    const cfg: Config            // whether m_strFileName is set, and m_nFileRollSize
    var queue: seq<string>       // m_listLinesToWrite
    var exit: bool               // m_bExit
    var files: seq<LogFile>      // the files made; the last one is behind m_hLogFile
    var writtenSize: int         // m_nCurrentWrittenSize
    var console: seq<string>     // std::cout
    ghost var holder: Holder     // m_mutexWrite
    ghost var pc: Pc             // the writer; Parked while it waits on m_cvWrite
    ghost var enqueued: seq<string>

    constructor (cfg: Config)
      ensures this.cfg == cfg && View() == Start()
    {
      this.cfg := cfg;
      queue, exit, files, writtenSize, console := [], false, [], 0, [];
      holder, pc, enqueued := Free, Top, [];
    }

    /** The state of LogModel. */
    ghost function View(): State
      reads this
    {
      State(queue, exit, holder, pc, files, writtenSize, console, enqueued)
    }

    // ----- the producers -----

    /** m_cvWrite.notify_one. */
    method NotifyOne()
      modifies this`pc
      ensures View() == Notify(old(View()))
    {
      if pc.Parked? {
        pc := Parked(true);
      }
    }

    /** A producer's way through output's critical section. */
    static ghost function Produced(cfg: Config, s: State, line: string): State {
      var locked := Next(cfg, s, ProducerLock(line));
      Next(cfg, Next(cfg, Next(cfg, locked, ProducerGo), ProducerGo), ProducerGo)
    }

    /** output's critical section: lock, push the line, notify, unlock. */
    method Enqueue(line: string)
      requires holder.Free?
      modifies this`queue, this`enqueued, this`holder, this`pc
      ensures View() == Produced(cfg, old(View()), line)
      ensures queue == old(queue) + [line] && enqueued == old(enqueued) + [line] && holder.Free?
      ensures pc == if old(pc).Parked? then Parked(true) else old(pc)
    {
      holder := ByProducer(line, Locked);
      queue := queue + [line];
      enqueued := enqueued + [line];
      NotifyOne();
      holder := Free;
    }

    // ----- the two halves of uninit before it joins -----

    method RaiseExit()
      modifies this`exit
      ensures View() == Next(cfg, old(View()), SetExit) && exit
    {
      exit := true;
    }

    method SignalExit()
      modifies this`pc
      ensures View() == Next(cfg, old(View()), NotifyExit) && pc != Parked(false)
    {
      NotifyOne();
    }

    // ----- the writer -----

    /** The writer gets the mutex: at line 448, or back from a wait, signalled or not. */
    method LockQueue()
      requires holder.Free? && (pc.Acquire? || pc.Parked?)
      modifies this`holder, this`pc
      ensures View() == WriterStep(cfg, old(View()), NO_IO) && pc == Scan
    {
      holder, pc := ByWriter, Scan;
    }

    /** Lines 449-458: take the front line and let the mutex go, or see that there is none. */
    method TakeLine() returns (taken: bool, line: string)
      requires pc.Scan?
      modifies this`queue, this`holder, this`pc
      ensures View() == WriterStep(cfg, old(View()), NO_IO)
      ensures taken == (old(queue) != []) && pc == if taken then Echo(line) else CheckExit
    {
      if queue == [] {
        pc := CheckExit;
        return false, "";
      }
      taken, line := true, queue[0];
      queue := queue[1..];
      holder, pc := Free, Echo(line);
    }

    /** Line 451. */
    method TestExit() returns (leave: bool)
      requires pc.CheckExit?
      modifies this`holder, this`pc
      ensures View() == WriterStep(cfg, old(View()), NO_IO)
      ensures leave == exit && pc == if leave then Exited else Park
    {
      leave := exit;
      if leave {
        holder, pc := Free, Exited;
      } else {
        pc := Park;
      }
    }

    /** Line 454: go to sleep and let the mutex go, in one step. */
    method Wait()
      requires pc.Park?
      modifies this`holder, this`pc
      ensures View() == WriterStep(cfg, old(View()), NO_IO) && pc == Parked(false)
    {
      holder, pc := Free, Parked(false);
    }

    /** createNewFile, given what fopen does. The old handle is closed first. */
    method CreateNewFile(io: Io) returns (ok: bool)
      modifies this`files
      ensures ok == io.created
      ensures files == if ok then Truncate(old(files), io.name) + [LogFile(io.name, "", [])] else old(files)
      ensures ok ==> forall i :: 0 <= i < |files| && files[i].name == io.name ==> files[i].bytes == ""
    {
      if io.created {
        files := Truncate(files, io.name) + [LogFile(io.name, "", [])];
      }
      ok := io.created;
    }

    /** Lines 420-444: the head of writeThreadProc's loop. */
    method OpenIfNeeded(io: Io) returns (ok: bool)
      requires pc.Top?
      modifies this`files, this`writtenSize, this`pc
      ensures View() == WriterStep(cfg, old(View()), io)
      ensures pc == if ok then Acquire else Failed([])
    {
      if cfg.toFile {
        if files == [] || writtenSize >= cfg.roll {
          writtenSize := 0;
          var created := CreateNewFile(io);
          if !created {
            pc := Failed([]);
            return false;
          }
        }
      }
      pc := Acquire;
      return true;
    }

    /** fwrite: any count up to the length, or an error. */
    method FWrite(data: string) returns (ret: int)
      requires files != []
      modifies this`files
      ensures ret <= |data|
      ensures files == if ret <= 0 then old(files)
                       else SetLast(old(files), Last(old(files)).(bytes := Last(old(files)).bytes + data[..ret]))
    {
      ret := *;
      if ret > |data| {
        ret := |data|;
      }
      if ret > 0 {
        files := SetLast(files, Last(files).(bytes := Last(files).bytes + data[..ret]));
      }
    }

    /** writeToFile: all of data, or a part of it and false. Empty data is never written. */
    method WriteToFile(data: string) returns (ok: bool)
      requires files != []
      modifies this`files
      ensures ok ==> data != "" && files == Appended(old(files), data)
      ensures !ok ==> exists k :: 0 <= k <= |data| && (k < |data| || data == "") && files == Appended(old(files), data[..k])
    {
      var local := data;
      ghost var k := 0;
      assert Last(files).bytes + data[..0] == Last(files).bytes;
      while true
        invariant 0 <= k <= |data| && (k < |data| || data == "") && local == data[k..]
        invariant files != [] && files == Appended(old(files), data[..k])
        decreases |local|
      {
        var ret := FWrite(local);
        if ret <= 0 {
          return false;
        } else if ret <= |local| {
          assert (Last(old(files)).bytes + data[..k]) + local[..ret] == Last(old(files)).bytes + data[..k + ret] by {
            assert data[..k] + data[k..][..ret] == data[..k + ret];
          }
          local := local[ret..];
          k := k + ret;
        }
        if local == "" {
          assert data[..k] == data;
          break;
        }
      }
      return true;
    }

    static function Appended(files: seq<LogFile>, data: string): (r: seq<LogFile>)
      requires files != []
      ensures |r| == |files| && forall i :: 0 <= i < |r| - 1 ==> r[i] == files[i]
      ensures r[|r| - 1].bytes == files[|r| - 1].bytes + data
      ensures r[|r| - 1].name == files[|r| - 1].name && r[|r| - 1].lines == files[|r| - 1].lines
    {
      SetLast(files, Last(files).(bytes := Last(files).bytes + data))
    }

    /** From s, a part of the line reached the file, but not all of it unless it is empty. */
    static ghost predicate GaveUp(s: State, line: string, t: State)
      requires s.files != []
    {
      exists k :: 0 <= k <= |line| && (k < |line| || line == "")
        && t == s.(files := Appended(s.files, line[..k]), pc := Failed([line]))
    }

    /** Lines 459-465: echo the line, write it, count it. When a write fails, a proper part of the line
        has reached the file, or all of an empty one, and the writer gives up. */
    method WriteLine(line: string) returns (ok: bool)
      requires pc == Echo(line) && (cfg.toFile ==> files != [])
      modifies this`files, this`writtenSize, this`console, this`pc
      ensures var s := WriterStep(cfg, old(View()), NO_IO);
              ok ==> View() == if cfg.toFile then Finished(s) else s
      ensures !ok ==> cfg.toFile && GaveUp(WriterStep(cfg, old(View()), NO_IO), line, View())
    {
      console := console + [line];
      pc := if cfg.toFile then Writing(line, line) else Top;
      if cfg.toFile {
        ok := WriteToFile(line);
        if !ok {
          pc := Failed([line]);
          return;
        }
        files := Noted(files, line);
        writtenSize := writtenSize + |line|;
        pc := Top;
      }
      return true;
    }

    /** The history of the file now includes the line; the disk is not touched. */
    static function Noted(files: seq<LogFile>, line: string): (r: seq<LogFile>)
      requires files != []
      ensures |r| == |files| && forall i :: 0 <= i < |r| - 1 ==> r[i] == files[i]
      ensures r[|r| - 1].lines == files[|r| - 1].lines + [line]
      ensures r[|r| - 1].name == files[|r| - 1].name && r[|r| - 1].bytes == files[|r| - 1].bytes
    {
      SetLast(files, Last(files).(lines := Last(files).lines + [line]))
    }
  }
}
