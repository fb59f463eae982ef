/** The queue, the writer thread and the log files of base/AsyncLog.cpp as interleaved steps. Any
    number of producers call output; each takes the mutex, pushes its line, notifies and lets the
    mutex go. The writer's steps are the points of writeThreadProc where others may come between. */
module LogModel {
  datatype Config = Config(toFile: bool, roll: int)

  /** Where a producer stands inside output's critical section. */
  datatype Stage = Locked | Pushed | Notified

  /** Who holds m_mutexWrite. */
  datatype Holder = Free | ByWriter | ByProducer(line: string, stage: Stage)

  /** Where writeThreadProc stands. */
  datatype Pc =
    | Top                                  // line 420: is a new file needed?
    | Acquire                              // line 448: about to lock
    | Scan                                 // line 449: holds the lock, about to test the queue
    | CheckExit                            // line 451: found it empty, about to read m_bExit
    | Park                                 // line 454: read false, about to wait
    | Parked(signalled: bool)              // waiting, the mutex released
    | Echo(line: string)                   // line 459: has taken a line
    | Writing(line: string, rest: string)  // in writeToFile
    | Exited                               // returned at line 452
    | Failed(lost: seq<string>)            // returned at line 441 or 463

  /** A file in order of creation: its name, what is on disk, and the lines written to it. */
  datatype LogFile = LogFile(name: string, bytes: string, lines: seq<string>)

  datatype State = State(
    queue: seq<string>,      // m_listLinesToWrite
    exit: bool,              // m_bExit
    holder: Holder,
    pc: Pc,
    files: seq<LogFile>,
    size: int,               // m_nCurrentWrittenSize
    console: seq<string>,
    enqueued: seq<string>)   // every line pushed so far, in lock order

  /** What the outside answers a writer step: the name made from the clock, whether fopen succeeds,
      and what fwrite returns. */
  datatype Io = Io(name: string, created: bool, ret: int)

  datatype Step = ProducerLock(line: string) | ProducerGo | SetExit | NotifyExit | WriterGo(io: Io)

  function Start(): State {
    State([], false, Free, Top, [], 0, [], [])
  }

  /** notify_one: the writer is the only thread that ever waits. */
  function Notify(s: State): State {
    if s.pc.Parked? then s.(pc := Parked(true)) else s
  }

  /** fopen with "w+" empties a file of the same name. */
  function Truncate(files: seq<LogFile>, name: string): (r: seq<LogFile>)
    ensures |r| == |files|
    ensures forall i :: 0 <= i < |r| ==> r[i] == if files[i].name == name then files[i].(bytes := "") else files[i]
  {
    seq(|files|, i requires 0 <= i < |files| => if files[i].name == name then files[i].(bytes := "") else files[i])
  }

  function Last(files: seq<LogFile>): LogFile
    requires files != []
  {
    files[|files| - 1]
  }

  function SetLast(files: seq<LogFile>, f: LogFile): seq<LogFile>
    requires files != []
  {
    files[|files| - 1 := f]
  }

  /** Lines 420-444. */
  predicate NeedsFile(cfg: Config, s: State) {
    cfg.toFile && (s.files == [] || s.size >= cfg.roll)
  }

  function OpenFile(s: State, io: Io): State {
    if io.created then
      s.(files := Truncate(s.files, io.name) + [LogFile(io.name, "", [])], size := 0, pc := Acquire)
    else
      s.(size := 0, pc := Failed([]))
  }

  /** fwrite took n characters of what is left, and more are left. */
  function PartWritten(s: State, n: nat): State
    requires s.pc.Writing? && s.files != [] && n <= |s.pc.rest|
  {
    var f := Last(s.files);
    s.(files := SetLast(s.files, f.(bytes := f.bytes + s.pc.rest[..n])), pc := Writing(s.pc.line, s.pc.rest[n..]))
  }

  /** The line has been written in full. */
  function Finished(s: State): State
    requires s.pc.Writing? && s.files != []
  {
    var f := Last(s.files);
    s.(files := SetLast(s.files, f.(bytes := f.bytes + s.pc.rest, lines := f.lines + [s.pc.line])),
       size := s.size + |s.pc.line|, pc := Top)
  }

  /** One turn of writeToFile's loop: fwrite takes up to ret characters of what is left. */
  function WriteChunk(s: State, ret: int): State
    requires s.pc.Writing? && s.files != []
  {
    var n := if ret <= |s.pc.rest| then ret else |s.pc.rest|;
    if n <= 0 then s.(pc := Failed([s.pc.line]))
    else if n < |s.pc.rest| then PartWritten(s, n)
    else Finished(s)
  }

  function WriterStep(cfg: Config, s: State, io: Io): State {
    match s.pc
    case Top => if NeedsFile(cfg, s) then OpenFile(s, io) else s.(pc := Acquire)
    case Acquire => if s.holder.Free? then s.(holder := ByWriter, pc := Scan) else s
    case Scan =>
      if s.queue == [] then s.(pc := CheckExit)
      else s.(queue := s.queue[1..], holder := Free, pc := Echo(s.queue[0]))
    case CheckExit => if s.exit then s.(holder := Free, pc := Exited) else s.(pc := Park)
    case Park => s.(holder := Free, pc := Parked(false))
    case Parked(_) => if s.holder.Free? then s.(holder := ByWriter, pc := Scan) else s
    case Echo(line) =>
      s.(console := s.console + [line], pc := if cfg.toFile then Writing(line, line) else Top)
    case Writing(line, rest) => if s.files == [] then s else WriteChunk(s, io.ret)
    case Exited => s
    case Failed(_) => s
  }

  function ProducerStep(s: State): State {
    if !s.holder.ByProducer? then s
    else
      match s.holder.stage
      case Locked =>
        s.(queue := s.queue + [s.holder.line], enqueued := s.enqueued + [s.holder.line],
           holder := s.holder.(stage := Pushed))
      case Pushed => Notify(s).(holder := s.holder.(stage := Notified))
      case Notified => s.(holder := Free)
  }

  /** A step that is not possible, a lock on a held mutex for one, changes nothing. A writer step at
      Parked is a wake-up, signalled or spurious. */
  function Next(cfg: Config, s: State, step: Step): State {
    match step
    case ProducerLock(line) => if s.holder.Free? then s.(holder := ByProducer(line, Locked)) else s
    case ProducerGo => ProducerStep(s)
    case SetExit => s.(exit := true)
    case NotifyExit => Notify(s)
    case WriterGo(io) => WriterStep(cfg, s, io)
  }

  function Run(cfg: Config, steps: seq<Step>): State {
    if steps == [] then Start()
    else Next(cfg, Run(cfg, steps[..|steps| - 1]), steps[|steps| - 1])
  }

  // ----- writeToFile as one call -----

  /** The loop of writeToFile, given what fwrite returns each time. */
  function Chunks(s: State, rets: seq<int>): (t: State)
    ensures |t.files| == |s.files|
    decreases |rets|
  {
    if rets == [] || !s.pc.Writing? || s.files == [] then s
    else Chunks(WriteChunk(s, rets[0]), rets[1..])
  }

  /** However the line is cut up, once the loop ends well the file has got exactly the line. */
  lemma {:induction false} ChunksFinish(s: State, rets: seq<int>)
    requires s.pc.Writing? && s.files != []
    ensures Chunks(s, rets).pc.Top? ==> Chunks(s, rets) == Finished(s)
    decreases |rets|
  {
    if rets != [] {
      var t := WriteChunk(s, rets[0]);
      if t.pc.Writing? {
        ChunksFinish(t, rets[1..]);
        var n := |s.pc.rest| - |t.pc.rest|;
        var f := Last(s.files);
        assert s.pc.rest == s.pc.rest[..n] + s.pc.rest[n..];
        assert (f.bytes + s.pc.rest[..n]) + s.pc.rest[n..] == f.bytes + s.pc.rest;
      }
    }
  }

  /** If every fwrite takes something, a non-empty line is finished within as many turns as it has
      characters. An empty one fails at once. */
  lemma {:induction false} ChunksEnd(s: State, rets: seq<int>)
    requires s.pc.Writing? && s.files != [] && |rets| >= |s.pc.rest| && |rets| > 0
    requires forall i :: 0 <= i < |rets| ==> rets[i] > 0
    ensures Chunks(s, rets).pc == if s.pc.rest == "" then Failed([s.pc.line]) else Top
    decreases |rets|
  {
    var t := WriteChunk(s, rets[0]);
    if t.pc.Writing? {
      ChunksEnd(t, rets[1..]);
    }
  }

  // ----- every line, in order -----

  function AllLines(files: seq<LogFile>): seq<string> {
    if files == [] then [] else AllLines(files[..|files| - 1]) + files[|files| - 1].lines
  }

  /** The lines that have been written in full. */
  function Written(cfg: Config, s: State): seq<string> {
    if cfg.toFile then AllLines(s.files) else s.console
  }

  /** The line the writer has taken and not finished. */
  function InFlight(s: State): seq<string> {
    match s.pc
    case Echo(line) => [line]
    case Writing(line, _) => [line]
    case Failed(lost) => lost
    case _ => []
  }

  /** The mutex and the writer's place agree; an empty queue found under the lock stays empty; a parked
      writer that was not notified leaves nothing in the queue that nobody is about to notify of. */
  predicate Handshake(s: State) {
    && (s.holder.ByWriter? <==> s.pc.Scan? || s.pc.CheckExit? || s.pc.Park?)
    && (s.pc.CheckExit? || s.pc.Park? ==> s.queue == [])
    && (s.pc == Parked(false) ==> s.queue == [] || (s.holder.ByProducer? && s.holder.stage.Pushed?))
  }

  /** The writer has a file whenever it may write to one. */
  predicate HasFile(cfg: Config, s: State) {
    && (s.pc.Writing? ==> cfg.toFile && s.files != [])
    && (cfg.toFile && !s.pc.Top? && s.files == [] ==> s.pc.Failed?)
  }

  predicate Balanced(cfg: Config, s: State) {
    Written(cfg, s) + InFlight(s) + s.queue == s.enqueued
  }

  predicate Flows(cfg: Config, s: State) {
    Handshake(s) && HasFile(cfg, s) && Balanced(cfg, s)
  }

  /** The console has every line taken, but the one about to be echoed. */
  predicate Echoed(s: State) {
    s.console + (if s.pc.Echo? then [s.pc.line] else []) + s.queue == s.enqueued
  }

  lemma NextEchoed(cfg: Config, s: State, step: Step)
    requires Echoed(s)
    ensures Echoed(Next(cfg, s, step))
  {
    match step
    case WriterGo(io) => WriterEchoed(cfg, s, io);
    case ProducerGo =>
      if s.holder.ByProducer? && s.holder.stage.Locked? {
        Regroup(s.console, if s.pc.Echo? then [s.pc.line] else [], s.queue, [s.holder.line]);
      }
    case _ =>
  }

  lemma WriterEchoed(cfg: Config, s: State, io: Io)
    requires Echoed(s)
    ensures Echoed(WriterStep(cfg, s, io))
  {
    match s.pc
    case Scan =>
      if s.queue != [] {
        assert s.queue == [s.queue[0]] + s.queue[1..];
      }
    case _ =>
  }

  lemma {:induction false} RunEchoed(cfg: Config, steps: seq<Step>)
    ensures Echoed(Run(cfg, steps))
  {
    if steps != [] {
      RunEchoed(cfg, steps[..|steps| - 1]);
      NextEchoed(cfg, Run(cfg, steps[..|steps| - 1]), steps[|steps| - 1]);
    }
  }

  lemma AllLinesAppend(files: seq<LogFile>, f: LogFile)
    ensures AllLines(files + [f]) == AllLines(files) + f.lines
  {
    assert (files + [f])[..|files|] == files;
  }

  lemma {:induction false} AllLinesTruncate(files: seq<LogFile>, name: string)
    ensures AllLines(Truncate(files, name)) == AllLines(files)
  {
    if files != [] {
      AllLinesTruncate(files[..|files| - 1], name);
      assert Truncate(files, name)[..|files| - 1] == Truncate(files[..|files| - 1], name);
    }
  }

  lemma AllLinesSetLast(files: seq<LogFile>, f: LogFile)
    requires files != []
    ensures AllLines(SetLast(files, f)) == AllLines(files[..|files| - 1]) + f.lines
  {
    assert SetLast(files, f)[..|files| - 1] == files[..|files| - 1];
  }

  lemma NextHandshake(cfg: Config, s: State, step: Step)
    requires Handshake(s) && HasFile(cfg, s)
    ensures Handshake(Next(cfg, s, step))
  {
    match step
    case WriterGo(io) => WriterHandshake(cfg, s, io);
    case _ =>
  }

  lemma WriterHandshake(cfg: Config, s: State, io: Io)
    requires Handshake(s) && HasFile(cfg, s)
    ensures Handshake(WriterStep(cfg, s, io))
  {
  }

  lemma NextHasFile(cfg: Config, s: State, step: Step)
    requires HasFile(cfg, s)
    ensures HasFile(cfg, Next(cfg, s, step))
  {
    match step
    case WriterGo(io) => WriterHasFile(cfg, s, io);
    case _ =>
  }

  lemma WriterHasFile(cfg: Config, s: State, io: Io)
    requires HasFile(cfg, s)
    ensures HasFile(cfg, WriterStep(cfg, s, io))
  {
  }

  lemma ChunkBalanced(cfg: Config, s: State, ret: int)
    requires HasFile(cfg, s) && Balanced(cfg, s) && s.pc.Writing?
    ensures Balanced(cfg, WriteChunk(s, ret))
  {
    var f := Last(s.files);
    var t := WriteChunk(s, ret);
    if !t.pc.Failed? {
      AllLinesSetLast(s.files, Last(t.files));
      assert t.files == SetLast(s.files, Last(t.files));
      var front := AllLines(s.files[..|s.files| - 1]);
      assert front + (f.lines + [s.pc.line]) == (front + f.lines) + [s.pc.line];
    }
  }

  lemma OpenBalanced(cfg: Config, s: State, io: Io)
    requires Balanced(cfg, s) && s.pc.Top? && io.created
    ensures Balanced(cfg, OpenFile(s, io))
  {
    AllLinesTruncate(s.files, io.name);
    AllLinesAppend(Truncate(s.files, io.name), LogFile(io.name, "", []));
  }

  lemma TakeBalanced(cfg: Config, s: State, io: Io)
    requires Balanced(cfg, s) && s.pc.Scan? && s.queue != []
    ensures Balanced(cfg, WriterStep(cfg, s, io))
  {
    assert s.queue == [s.queue[0]] + s.queue[1..];
  }

  lemma WriterBalanced(cfg: Config, s: State, io: Io)
    requires HasFile(cfg, s) && Balanced(cfg, s)
    ensures Balanced(cfg, WriterStep(cfg, s, io))
  {
    if s.pc.Top? && NeedsFile(cfg, s) && io.created {
      OpenBalanced(cfg, s, io);
    } else if s.pc.Scan? && s.queue != [] {
      TakeBalanced(cfg, s, io);
    } else if s.pc.Writing? {
      ChunkBalanced(cfg, s, io.ret);
    }
  }

  lemma Regroup<T>(a: seq<T>, b: seq<T>, c: seq<T>, d: seq<T>)
    ensures a + b + (c + d) == (a + b + c) + d
  {
  }

  lemma ProducerBalanced(cfg: Config, s: State)
    requires Balanced(cfg, s)
    ensures Balanced(cfg, ProducerStep(s))
  {
    if s.holder.ByProducer? && s.holder.stage.Locked? {
      Regroup(Written(cfg, s), InFlight(s), s.queue, [s.holder.line]);
    }
  }

  lemma NextBalanced(cfg: Config, s: State, step: Step)
    requires HasFile(cfg, s) && Balanced(cfg, s)
    ensures Balanced(cfg, Next(cfg, s, step))
  {
    match step
    case WriterGo(io) => WriterBalanced(cfg, s, io);
    case ProducerGo => ProducerBalanced(cfg, s);
    case _ =>
  }

  lemma NextFlows(cfg: Config, s: State, step: Step)
    requires Flows(cfg, s)
    ensures Flows(cfg, Next(cfg, s, step))
  {
    NextHandshake(cfg, s, step);
    NextHasFile(cfg, s, step);
    NextBalanced(cfg, s, step);
  }

  lemma {:induction false} RunFlows(cfg: Config, steps: seq<Step>)
    ensures Flows(cfg, Run(cfg, steps))
  {
    if steps != [] {
      RunFlows(cfg, steps[..|steps| - 1]);
      NextFlows(cfg, Run(cfg, steps[..|steps| - 1]), steps[|steps| - 1]);
    }
  }

  /** For any number of producers and any interleaving: the lines written, then the one in flight,
      then the queue, are all lines pushed, in lock order; and the console shows each line taken. */
  lemma LinesConserved(cfg: Config, steps: seq<Step>)
    ensures var s := Run(cfg, steps);
      && Written(cfg, s) + InFlight(s) + s.queue == s.enqueued
      && s.console + (if s.pc.Echo? then [s.pc.line] else []) + s.queue == s.enqueued
  {
    RunFlows(cfg, steps);
    RunEchoed(cfg, steps);
  }

  /** No wake-up is lost to a producer: a writer that waits unsignalled while the mutex is free has an
      empty queue, and one woken finds out: its next step under the lock tests the queue again. */
  lemma NoLostWakeup(cfg: Config, steps: seq<Step>)
    ensures var s := Run(cfg, steps);
      && (s.pc == Parked(false) && s.holder.Free? ==> s.queue == [])
      && (s.pc.Parked? && s.queue != [] && s.holder.Free? ==> s.pc.signalled)
      && (s.holder.ByWriter? ==> s.pc.Scan? || s.queue == [])
  {
    RunFlows(cfg, steps);
  }

  /** The writer's return on m_bExit means that every line pushed so far has been written. */
  lemma ExitMeansAllWritten(cfg: Config, steps: seq<Step>, step: Step)
    requires !Run(cfg, steps).pc.Exited? && Run(cfg, steps + [step]).pc.Exited?
    ensures var s := Run(cfg, steps + [step]); s.exit && s.queue == [] && Written(cfg, s) == s.enqueued
  {
    RunOneMore(cfg, steps, step);
    RunFlows(cfg, steps);
  }

  /** uninit sets m_bExit and notifies without the mutex, so the notification can fall between the
      writer's reading of m_bExit and its wait. Exactly then can the writer ever again be found asleep
      unsignalled, whatever came between the two lines of uninit and whatever follows. */
  lemma ExitSignalLostIff(cfg: Config, steps: seq<Step>)
    requires Run(cfg, steps).exit
    ensures (exists more: seq<Step> :: Run(cfg, steps + [NotifyExit] + more).pc == Parked(false))
       <==> Run(cfg, steps).pc.Park?
  {
    var told := steps + [NotifyExit];
    RunOneMore(cfg, steps, NotifyExit);
    if Run(cfg, steps).pc.Park? {
      var wait := WriterGo(Io("", false, 0));
      RunOneMore(cfg, told, wait);
      assert Run(cfg, told + [wait]).pc == Parked(false);
    } else {
      forall more: seq<Step>
        ensures Run(cfg, told + more).pc != Parked(false)
      {
        StaysAwake(cfg, told, more);
      }
    }
  }

  /** The writer knows of m_bExit, or will read it before it waits. */
  predicate Awake(s: State) {
    s.exit && !s.pc.Park? && s.pc != Parked(false)
  }

  lemma NextAwake(cfg: Config, s: State, step: Step)
    requires Awake(s)
    ensures Awake(Next(cfg, s, step))
  {
    match step
    case WriterGo(io) => WriterAwake(cfg, s, io);
    case _ =>
  }

  lemma WriterAwake(cfg: Config, s: State, io: Io)
    requires Awake(s)
    ensures Awake(WriterStep(cfg, s, io))
  {
  }

  lemma {:induction false} StaysAwake(cfg: Config, steps: seq<Step>, more: seq<Step>)
    requires Awake(Run(cfg, steps))
    ensures Awake(Run(cfg, steps + more))
    decreases |more|
  {
    if more == [] {
      assert steps + more == steps;
    } else {
      var front, last := more[..|more| - 1], more[|more| - 1];
      StaysAwake(cfg, steps, front);
      assert steps + more == (steps + front) + [last];
      RunOneMore(cfg, steps + front, last);
      NextAwake(cfg, Run(cfg, steps + front), last);
    }
  }

  lemma RunOneMore(cfg: Config, steps: seq<Step>, step: Step)
    ensures Run(cfg, steps + [step]) == Next(cfg, Run(cfg, steps), step)
  {
    assert (steps + [step])[..|steps|] == steps;
  }

  // ----- files and rotation -----

  function Flat(lines: seq<string>): string {
    if lines == [] then "" else Flat(lines[..|lines| - 1]) + lines[|lines| - 1]
  }

  lemma FlatAppend(lines: seq<string>, line: string)
    ensures Flat(lines + [line]) == Flat(lines) + line
  {
    assert (lines + [line])[..|lines|] == lines;
  }

  predicate DistinctNames(files: seq<LogFile>) {
    forall i, j :: 0 <= i < j < |files| ==> files[i].name != files[j].name
  }

  /** What writeToFile has put into the current file of the line in flight. */
  function Partial(s: State): string {
    if s.pc.Writing? && |s.pc.rest| <= |s.pc.line| then s.pc.line[..|s.pc.line| - |s.pc.rest|] else ""
  }

  /** A closed file is full, but was not before its last line; with no positive roll size every line
      gets a file of its own. */
  predicate ClosedWell(cfg: Config, f: LogFile) {
    if cfg.roll > 0 then
      f.lines != [] && |Flat(f.lines[..|f.lines| - 1])| < cfg.roll <= |Flat(f.lines)|
    else |f.lines| == 1
  }

  /** The current file, at any point but a failed one. */
  predicate OpenWell(cfg: Config, s: State)
    requires s.files != []
  {
    var f := Last(s.files);
    && s.size == |Flat(f.lines)|
    && (f.lines == [] || (if cfg.roll > 0 then |Flat(f.lines[..|f.lines| - 1])| < cfg.roll else |f.lines| == 1))
    && (s.pc.Top? ==> f.lines != [])
    && (!s.pc.Top? ==> if cfg.roll > 0 then s.size < cfg.roll else f.lines == [])
  }

  predicate Rotates(cfg: Config, s: State) {
    && (s.pc.Writing? ==> |s.pc.rest| <= |s.pc.line| && s.pc.rest == s.pc.line[|s.pc.line| - |s.pc.rest|..])
    && (s.files != [] ==>
          && cfg.toFile
          && (forall i :: 0 <= i < |s.files| - 1 ==> ClosedWell(cfg, s.files[i]))
          && (s.pc.Failed? || OpenWell(cfg, s)))
  }

  /** Every closed file holds its lines. */
  predicate ClosedWhole(s: State) {
    forall i :: 0 <= i < |s.files| - 1 ==> s.files[i].bytes == Flat(s.files[i].lines)
  }

  /** The current file holds its lines and the part written so far of the one in flight. */
  predicate CurrentWhole(s: State) {
    s.files != [] && !s.pc.Failed? ==> Last(s.files).bytes == Flat(Last(s.files).lines) + Partial(s)
  }

  /** Whatever happens to a closed file, it holds all of its lines or nothing. */
  predicate ClosedWholeOrEmpty(s: State) {
    forall i :: 0 <= i < |s.files| - 1 ==> s.files[i].bytes == Flat(s.files[i].lines) || s.files[i].bytes == ""
  }

  /** What is on disk: every file holds its lines, the current one also the part written so far. */
  predicate OnDisk(s: State) {
    ClosedWhole(s) && CurrentWhole(s)
  }

  /** What holds of the disk in every run, even when file names collide. */
  predicate DiskInv(s: State) {
    CurrentWhole(s) && ClosedWholeOrEmpty(s)
  }

  /** The step opens a file under the name of an earlier one that has something in it. */
  predicate Overwrites(cfg: Config, s: State, step: Step) {
    && step.WriterGo? && step.io.created && s.pc.Top? && NeedsFile(cfg, s)
    && exists i :: 0 <= i < |s.files| && s.files[i].name == step.io.name && s.files[i].bytes != ""
  }

  predicate NothingOverwritten(cfg: Config, steps: seq<Step>) {
    steps == [] ||
    var front, last := steps[..|steps| - 1], steps[|steps| - 1];
    NothingOverwritten(cfg, front) && !Overwrites(cfg, Run(cfg, front), last)
  }

  lemma SplitAgain(line: string, done: nat, n: nat)
    requires done + n <= |line|
    ensures line[done..][n..] == line[done + n..]
    ensures line[..done] + line[done..][..n] == line[..done + n]
  {
  }

  lemma PartRotates(cfg: Config, s: State, n: nat)
    requires Rotates(cfg, s) && s.pc.Writing? && s.files != [] && n <= |s.pc.rest|
    ensures Rotates(cfg, PartWritten(s, n))
  {
    SplitAgain(s.pc.line, |s.pc.line| - |s.pc.rest|, n);
  }

  lemma FinishedRotates(cfg: Config, s: State)
    requires Rotates(cfg, s) && s.pc.Writing? && s.files != []
    ensures Rotates(cfg, Finished(s))
  {
    var f, t := Last(s.files), Finished(s);
    FlatAppend(f.lines, s.pc.line);
    assert Last(t.files).lines[..|f.lines|] == f.lines;
  }

  lemma ChunkRotates(cfg: Config, s: State, ret: int)
    requires Rotates(cfg, s) && s.pc.Writing? && s.files != []
    ensures Rotates(cfg, WriteChunk(s, ret))
  {
    if 0 < ret < |s.pc.rest| {
      PartRotates(cfg, s, ret);
    } else if ret > 0 {
      FinishedRotates(cfg, s);
    }
  }

  lemma PieceMore(base: string, line: string, done: nat, n: nat)
    requires done + n <= |line|
    ensures (base + line[..done]) + line[done..][..n] == base + line[..done + n]
  {
    SplitAgain(line, done, n);
  }

  lemma PartIsCurrent(cfg: Config, s: State, n: nat)
    requires Rotates(cfg, s) && s.pc.Writing? && s.files != [] && CurrentWhole(s) && n <= |s.pc.rest|
    ensures CurrentWhole(PartWritten(s, n))
  {
    PieceMore(Flat(Last(s.files).lines), s.pc.line, |s.pc.line| - |s.pc.rest|, n);
  }

  lemma FinishedIsCurrent(cfg: Config, s: State)
    requires Rotates(cfg, s) && s.pc.Writing? && s.files != [] && CurrentWhole(s)
    ensures CurrentWhole(Finished(s))
  {
    LineDone(Last(s.files).lines, s.pc.line, |s.pc.line| - |s.pc.rest|);
  }

  lemma ChunkIsCurrent(cfg: Config, s: State, ret: int)
    requires Rotates(cfg, s) && s.pc.Writing? && s.files != [] && CurrentWhole(s)
    ensures CurrentWhole(WriteChunk(s, ret))
  {
    if 0 < ret < |s.pc.rest| {
      PartIsCurrent(cfg, s, ret);
    } else if ret > 0 {
      FinishedIsCurrent(cfg, s);
    }
  }

  lemma ChunkKeepsClosed(s: State, ret: int)
    requires s.pc.Writing? && s.files != []
    ensures var t := WriteChunk(s, ret);
      |t.files| == |s.files| && forall i :: 0 <= i < |s.files| - 1 ==> t.files[i] == s.files[i]
  {
  }

  lemma Rejoin(base: string, line: string, done: nat)
    requires done <= |line|
    ensures (base + line[..done]) + line[done..] == base + line
  {
  }

  lemma NothingMore(text: string)
    ensures text + "" == text
  {
  }

  lemma LineDone(lines: seq<string>, line: string, done: nat)
    requires done <= |line|
    ensures (Flat(lines) + line[..done]) + line[done..] == Flat(lines + [line]) + ""
  {
    Rejoin(Flat(lines), line, done);
    FlatAppend(lines, line);
    NothingMore(Flat(lines + [line]));
  }

  /** t follows s without touching a file; the line in flight is the same, or is about to be written. */
  predicate Quiet(cfg: Config, s: State, t: State) {
    && t.files == s.files && t.size == s.size
    && (t.pc.Failed? <==> s.pc.Failed?)
    && (s.pc.Writing? ==> t.pc == s.pc)
    && (t.pc.Writing? ==> t.pc == s.pc || t.pc.rest == t.pc.line)
    && (t.pc.Top? ==> s.pc.Top? || !cfg.toFile)
    && (s.pc.Top? ==> t.pc.Top? || !NeedsFile(cfg, s))
  }

  /** The step opens a file, or fails to, or writes to one. */
  predicate TouchesFiles(cfg: Config, s: State, step: Step) {
    step.WriterGo? && (s.pc.Writing? || (s.pc.Top? && NeedsFile(cfg, s)))
  }

  lemma NextQuiet(cfg: Config, s: State, step: Step)
    requires !TouchesFiles(cfg, s, step)
    ensures Quiet(cfg, s, Next(cfg, s, step))
  {
    match step
    case WriterGo(io) => WriterQuiet(cfg, s, io);
    case _ =>
  }

  lemma WriterQuiet(cfg: Config, s: State, io: Io)
    requires !s.pc.Writing? && !(s.pc.Top? && NeedsFile(cfg, s))
    ensures Quiet(cfg, s, WriterStep(cfg, s, io))
  {
  }

  lemma QuietRotates(cfg: Config, s: State, t: State)
    requires Rotates(cfg, s) && Quiet(cfg, s, t)
    ensures Rotates(cfg, t)
  {
    assert t.pc.Writing? ==> t.pc.line[0..] == t.pc.line;
  }

  lemma OpenRotates(cfg: Config, s: State, io: Io)
    requires Rotates(cfg, s) && s.pc.Top? && NeedsFile(cfg, s)
    ensures Rotates(cfg, OpenFile(s, io))
  {
    if io.created {
      var t := OpenFile(s, io);
      forall i | 0 <= i < |t.files| - 1
        ensures ClosedWell(cfg, t.files[i])
      {
        assert t.files[i].lines == s.files[i].lines;
        assert i < |s.files| - 1 ==> ClosedWell(cfg, s.files[i]);
      }
    }
  }

  lemma NextRotates(cfg: Config, s: State, step: Step)
    requires HasFile(cfg, s) && Rotates(cfg, s)
    ensures Rotates(cfg, Next(cfg, s, step))
  {
    if !TouchesFiles(cfg, s, step) {
      NextQuiet(cfg, s, step);
      QuietRotates(cfg, s, Next(cfg, s, step));
    } else if s.pc.Writing? {
      ChunkRotates(cfg, s, step.io.ret);
    } else {
      OpenRotates(cfg, s, step.io);
    }
  }

  lemma {:induction false} RunRotates(cfg: Config, steps: seq<Step>)
    ensures Rotates(cfg, Run(cfg, steps))
  {
    if steps != [] {
      RunFlows(cfg, steps[..|steps| - 1]);
      RunRotates(cfg, steps[..|steps| - 1]);
      NextRotates(cfg, Run(cfg, steps[..|steps| - 1]), steps[|steps| - 1]);
    }
  }

  /** Rotation, in every run: every closed file has taken whole lines, and its size s satisfies
      roll <= s < roll + the length of its last line; m_nCurrentWrittenSize is the size of the lines in
      the current file whenever the writer is at the head of its loop. */
  lemma RotationBound(cfg: Config, steps: seq<Step>, i: nat)
    requires cfg.roll > 0 && i < |Run(cfg, steps).files| - 1
    ensures var f := Run(cfg, steps).files[i];
      f.lines != [] && cfg.roll <= |Flat(f.lines)| < cfg.roll + |f.lines[|f.lines| - 1]|
  {
    RunRotates(cfg, steps);
    assert ClosedWell(cfg, Run(cfg, steps).files[i]);
  }

  /** With a roll size of 0 or less the bound is missed by every closed file: each holds one line. */
  lemma OneLineEach(cfg: Config, steps: seq<Step>, i: nat)
    requires cfg.roll <= 0 && i < |Run(cfg, steps).files| - 1
    ensures var f := Run(cfg, steps).files[i];
      |f.lines| == 1 && Flat(f.lines) == f.lines[0] && !(|Flat(f.lines)| < cfg.roll + |f.lines[0]|)
  {
    RunRotates(cfg, steps);
    var f := Run(cfg, steps).files[i];
    assert ClosedWell(cfg, f);
    FlatAppend([], f.lines[0]);
    assert f.lines == [] + [f.lines[0]];
  }

  /** m_nCurrentWrittenSize, read at the head of the loop, is the length of the current file's lines and
      its size on disk. */
  lemma SizeAtLoopHead(cfg: Config, steps: seq<Step>)
    ensures var s := Run(cfg, steps);
      s.pc.Top? && s.files != [] ==> s.size == |Flat(Last(s.files).lines)| == |Last(s.files).bytes|
  {
    RunRotates(cfg, steps);
    RunDisk(cfg, steps);
  }

  /** Before there is a file, and after one could not be made, the counter is 0. */
  lemma {:induction false} SizeWithoutFile(cfg: Config, steps: seq<Step>)
    ensures var s := Run(cfg, steps); s.files == [] || s.pc == Failed([]) ==> s.size == 0
  {
    if steps != [] {
      SizeWithoutFile(cfg, steps[..|steps| - 1]);
      NextWithoutFile(cfg, Run(cfg, steps[..|steps| - 1]), steps[|steps| - 1]);
    }
  }

  lemma NextWithoutFile(cfg: Config, s: State, step: Step)
    requires s.files == [] || s.pc == Failed([]) ==> s.size == 0
    ensures var t := Next(cfg, s, step); t.files == [] || t.pc == Failed([]) ==> t.size == 0
  {
  }

  /** Between lines the current file is whole. */
  lemma WholeBetweenLines(s: State)
    requires OnDisk(s) && !s.pc.Writing? && !s.pc.Failed?
    ensures forall i :: 0 <= i < |s.files| ==> s.files[i].bytes == Flat(s.files[i].lines)
  {
    if s.files != [] {
      NothingMore(Flat(Last(s.files).lines));
    }
  }

  /** Opening a file keeps what the earlier ones hold exactly when no earlier file of that name has
      anything in it. The name has a resolution of one second, so two rotations in a second collide. */
  lemma OpenKeepsFilesIff(s: State, io: Io)
    requires io.created && forall i :: 0 <= i < |s.files| ==> s.files[i].bytes == Flat(s.files[i].lines)
    ensures (forall i :: 0 <= i < |s.files| ==> OpenFile(s, io).files[i].bytes == Flat(s.files[i].lines))
       <==> (forall i :: 0 <= i < |s.files| && s.files[i].name == io.name ==> s.files[i].bytes == "")
  {
    var t := OpenFile(s, io);
    assert forall i :: 0 <= i < |s.files| ==> t.files[i] == Truncate(s.files, io.name)[i];
  }

  lemma CurrentIsWhole(s: State)
    requires CurrentWhole(s) && s.files != [] && !s.pc.Writing? && !s.pc.Failed?
    ensures Last(s.files).bytes == Flat(Last(s.files).lines)
  {
    NothingMore(Flat(Last(s.files).lines));
  }

  lemma OpenIsCurrent(s: State, io: Io)
    requires io.created
    ensures CurrentWhole(OpenFile(s, io))
  {
    assert Last(OpenFile(s, io).files) == LogFile(io.name, "", []);
  }

  lemma OpenOnDisk(s: State, io: Io)
    requires DiskInv(s) && s.pc.Top? && io.created
    ensures DiskInv(OpenFile(s, io))
  {
    var t := OpenFile(s, io);
    OpenIsCurrent(s, io);
    if s.files != [] {
      CurrentIsWhole(s);
    }
    forall i | 0 <= i < |t.files| - 1
      ensures t.files[i].bytes == Flat(t.files[i].lines) || t.files[i].bytes == ""
    {
      assert t.files[i] == Truncate(s.files, io.name)[i];
    }
  }

  lemma OpenKeepsClosedIff(s: State, io: Io)
    requires DiskInv(s) && s.pc.Top? && io.created
    ensures ClosedWhole(OpenFile(s, io))
       <==> ClosedWhole(s) && (forall i :: 0 <= i < |s.files| && s.files[i].name == io.name ==> s.files[i].bytes == "")
  {
    var t := OpenFile(s, io);
    assert forall i :: 0 <= i < |s.files| ==> t.files[i] == Truncate(s.files, io.name)[i];
    if ClosedWhole(s) {
      WholeBetweenLines(s);
      OpenKeepsFilesIff(s, io);
    } else {
      var i :| 0 <= i < |s.files| - 1 && s.files[i].bytes != Flat(s.files[i].lines);
      assert t.files[i].bytes == "" && t.files[i].lines == s.files[i].lines;
    }
  }

  lemma QuietKeepsCurrent(cfg: Config, s: State, t: State)
    requires CurrentWhole(s) && Quiet(cfg, s, t)
    ensures CurrentWhole(t)
  {
    assert t.pc.Writing? && t.pc.rest == t.pc.line ==> t.pc.line[..0] == "";
  }

  lemma NextKeepsDisk(cfg: Config, s: State, step: Step)
    requires HasFile(cfg, s) && Rotates(cfg, s) && DiskInv(s)
    ensures DiskInv(Next(cfg, s, step))
  {
    if !TouchesFiles(cfg, s, step) {
      NextQuiet(cfg, s, step);
      QuietKeepsCurrent(cfg, s, Next(cfg, s, step));
    } else if s.pc.Writing? {
      ChunkIsCurrent(cfg, s, step.io.ret);
      ChunkKeepsClosed(s, step.io.ret);
    } else if step.io.created {
      OpenOnDisk(s, step.io);
    }
  }

  lemma NextKeepsClosedIff(cfg: Config, s: State, step: Step)
    requires HasFile(cfg, s) && DiskInv(s)
    ensures ClosedWhole(Next(cfg, s, step)) <==> ClosedWhole(s) && !Overwrites(cfg, s, step)
  {
    if !TouchesFiles(cfg, s, step) {
      NextQuiet(cfg, s, step);
    } else if s.pc.Writing? {
      ChunkKeepsClosed(s, step.io.ret);
    } else if step.io.created {
      OpenKeepsClosedIff(s, step.io);
    }
  }

  /** In every run, the current file holds its lines and the part of the line in flight, and a closed
      one all of its lines or nothing. */
  lemma {:induction false} RunDisk(cfg: Config, steps: seq<Step>)
    ensures DiskInv(Run(cfg, steps))
  {
    if steps != [] {
      var front := steps[..|steps| - 1];
      RunDisk(cfg, front);
      RunFlows(cfg, front);
      RunRotates(cfg, front);
      NextKeepsDisk(cfg, Run(cfg, front), steps[|steps| - 1]);
    }
  }

  /** Every file still holds all of its lines exactly when the run never opened one under the name of
      an earlier file that had something in it; what is lost once is lost for good. */
  lemma {:induction false} RunKeepsFilesIff(cfg: Config, steps: seq<Step>)
    ensures OnDisk(Run(cfg, steps)) <==> NothingOverwritten(cfg, steps)
  {
    RunDisk(cfg, steps);
    if steps != [] {
      var front := steps[..|steps| - 1];
      RunKeepsFilesIff(cfg, front);
      RunDisk(cfg, front);
      RunFlows(cfg, front);
      NextKeepsClosedIff(cfg, Run(cfg, front), steps[|steps| - 1]);
    }
  }

  lemma NamesKept(cfg: Config, s: State, step: Step)
    requires DistinctNames(Next(cfg, s, step).files)
    ensures DistinctNames(s.files) && !Overwrites(cfg, s, step)
  {
    var t := Next(cfg, s, step);
    assert |s.files| <= |t.files|;
    assert forall i :: 0 <= i < |s.files| ==> t.files[i].name == s.files[i].name;
    if step.WriterGo? && step.io.created && s.pc.Top? && NeedsFile(cfg, s) {
      assert t.files[|s.files|].name == step.io.name;
    }
  }

  lemma {:induction false} DistinctNamesOverwriteNothing(cfg: Config, steps: seq<Step>)
    requires DistinctNames(Run(cfg, steps).files)
    ensures NothingOverwritten(cfg, steps)
  {
    if steps != [] {
      var front := steps[..|steps| - 1];
      NamesKept(cfg, Run(cfg, front), steps[|steps| - 1]);
      DistinctNamesOverwriteNothing(cfg, front);
    }
  }

  /** So as long as no file name is used twice, every file holds exactly its lines: nothing is lost, and
      no line spans two files. */
  lemma FilesHoldTheirLines(cfg: Config, steps: seq<Step>)
    requires DistinctNames(Run(cfg, steps).files)
    ensures OnDisk(Run(cfg, steps))
  {
    DistinctNamesOverwriteNothing(cfg, steps);
    RunKeepsFilesIff(cfg, steps);
  }

  function AllBytes(files: seq<LogFile>): string {
    if files == [] then "" else AllBytes(files[..|files| - 1]) + files[|files| - 1].bytes
  }

  lemma {:induction false} FlatConcat(a: seq<string>, b: seq<string>)
    ensures Flat(a + b) == Flat(a) + Flat(b)
  {
    if b == [] {
      assert a + b == a;
    } else {
      var front, last := b[..|b| - 1], b[|b| - 1];
      FlatConcat(a, front);
      assert a + b == (a + front) + [last];
      FlatAppend(a + front, last);
      Assoc(Flat(a), Flat(front), last);
    }
  }

  lemma {:induction false} BytesOfWhole(files: seq<LogFile>)
    requires forall i :: 0 <= i < |files| ==> files[i].bytes == Flat(files[i].lines)
    ensures AllBytes(files) == Flat(AllLines(files))
  {
    if files != [] {
      BytesOfWhole(files[..|files| - 1]);
      FlatConcat(AllLines(files[..|files| - 1]), files[|files| - 1].lines);
    }
  }

  /** The files, one after the other, are the lines pushed so far, in lock order, up to the queue, the
      line in flight counting with the part already written. */
  lemma FilesConcatenate(cfg: Config, steps: seq<Step>)
    requires cfg.toFile && NothingOverwritten(cfg, steps) && !Run(cfg, steps).pc.Failed?
    ensures var s := Run(cfg, steps);
      && AllBytes(s.files) == Flat(AllLines(s.files)) + Partial(s)
      && AllLines(s.files) + InFlight(s) + s.queue == s.enqueued
  {
    RunFlows(cfg, steps);
    RunKeepsFilesIff(cfg, steps);
    BytesOnDisk(Run(cfg, steps));
  }

  lemma Assoc(a: string, b: string, c: string)
    ensures a + (b + c) == (a + b) + c
  {
  }

  lemma BytesOnDisk(s: State)
    requires OnDisk(s) && !s.pc.Failed? && (s.files == [] ==> !s.pc.Writing?)
    ensures AllBytes(s.files) == Flat(AllLines(s.files)) + Partial(s)
  {
    if s.files != [] {
      var front, last := s.files[..|s.files| - 1], Last(s.files);
      BytesOfWhole(front);
      FlatConcat(AllLines(front), last.lines);
      Assoc(Flat(AllLines(front)), Flat(last.lines), Partial(s));
    }
  }
}
