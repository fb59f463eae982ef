/** What the threads of LogModel get done: m_bExit reaches the writer, every line offered is pushed, and
    a writer that keeps its turn, with a disk that takes something each time, writes everything, then
    sleeps or returns. */
module LogProgress {
  import opened LogModel

  // ----- uninit -----

  /** m_bExit is set exactly in the runs in which uninit has set it. */
  lemma {:induction false} ExitSetIff(cfg: Config, steps: seq<Step>)
    ensures Run(cfg, steps).exit <==> SetExit in steps
  {
    if steps != [] {
      var front, last := steps[..|steps| - 1], steps[|steps| - 1];
      ExitSetIff(cfg, front);
      assert steps == front + [last];
      NextExit(cfg, Run(cfg, front), last);
    }
  }

  lemma NextExit(cfg: Config, s: State, step: Step)
    ensures Next(cfg, s, step).exit <==> s.exit || step.SetExit?
  {
  }

  /** A writer that has found the queue empty returns at its next step, giving the mutex back, if uninit has
      been called by then, and goes on to wait, holding it, if not. */
  lemma EmptyQueueDecides(cfg: Config, steps: seq<Step>, io: Io)
    requires Run(cfg, steps).pc.CheckExit?
    ensures var t := Run(cfg, steps + [WriterGo(io)]);
      if SetExit in steps then t.pc.Exited? && t.holder.Free? else t.pc.Park? && t.holder.ByWriter?
  {
    RunOneMore(cfg, steps, WriterGo(io));
    ExitSetIff(cfg, steps);
    RunFlows(cfg, steps);
  }

  lemma RunOnMore(cfg: Config, steps: seq<Step>, more: seq<Step>)
    requires more != []
    ensures Run(cfg, steps + more) == Next(cfg, Run(cfg, steps + more[..|more| - 1]), more[|more| - 1])
  {
    assert steps + more == (steps + more[..|more| - 1]) + [more[|more| - 1]];
    RunOneMore(cfg, steps + more[..|more| - 1], more[|more| - 1]);
  }

  // ----- the producers -----

  /** The lines whose producers got the mutex, in that order. */
  function Admitted(cfg: Config, steps: seq<Step>): seq<string> {
    if steps == [] then []
    else
      var front, last := steps[..|steps| - 1], steps[|steps| - 1];
      Admitted(cfg, front) + if last.ProducerLock? && Run(cfg, front).holder.Free? then [last.line] else []
  }

  /** The line of a producer that holds the mutex and has not pushed yet. */
  function AboutToPush(s: State): seq<string> {
    if s.holder.ByProducer? && s.holder.stage.Locked? then [s.holder.line] else []
  }

  lemma NextAdmits(cfg: Config, s: State, step: Step)
    requires Handshake(s)
    ensures Next(cfg, s, step).enqueued + AboutToPush(Next(cfg, s, step))
         == (s.enqueued + AboutToPush(s)) + if step.ProducerLock? && s.holder.Free? then [step.line] else []
  {
    match step
    case WriterGo(io) => WriterAdmits(cfg, s, io);
    case _ =>
  }

  lemma WriterAdmits(cfg: Config, s: State, io: Io)
    requires Handshake(s)
    ensures WriterStep(cfg, s, io).enqueued == s.enqueued
    ensures AboutToPush(WriterStep(cfg, s, io)) == AboutToPush(s)
  {
  }

  /** In every run, the lines pushed, and the one about to be, are those of the producers that got the mutex,
      in that order. */
  lemma {:induction false} LinesAdmitted(cfg: Config, steps: seq<Step>)
    ensures Run(cfg, steps).enqueued + AboutToPush(Run(cfg, steps)) == Admitted(cfg, steps)
  {
    if steps != [] {
      LinesAdmitted(cfg, steps[..|steps| - 1]);
      RunFlows(cfg, steps[..|steps| - 1]);
      NextAdmits(cfg, Run(cfg, steps[..|steps| - 1]), steps[|steps| - 1]);
    }
  }

  /** How many turns a producer has had. */
  function Goes(steps: seq<Step>): nat {
    if steps == [] then 0
    else Goes(steps[..|steps| - 1]) + if steps[|steps| - 1].ProducerGo? then 1 else 0
  }

  /** Where a producer that got the mutex in state s is after n of its turns: the line is pushed at the first,
      the writer is told at the second. */
  predicate Inside(s: State, line: string, t: State, n: nat) {
    && t.holder == ByProducer(line, if n == 0 then Locked else if n == 1 then Pushed else Notified)
    && t.enqueued == (if n == 0 then s.enqueued else s.enqueued + [line])
    && (n == 2 ==> t.pc != Parked(false))
  }

  lemma InsideStep(cfg: Config, s: State, line: string, t: State, n: nat, step: Step)
    requires Handshake(t) && Inside(s, line, t, n) && n <= 2
    ensures var u := Next(cfg, t, step);
      if !step.ProducerGo? then Inside(s, line, u, n)
      else if n < 2 then Inside(s, line, u, n + 1)
      else u.holder.Free? && u.enqueued == t.enqueued && u.pc == t.pc
  {
    match step
    case WriterGo(io) => WriterLeavesInside(cfg, t, io);
    case _ =>
  }

  lemma WriterLeavesInside(cfg: Config, t: State, io: Io)
    requires Handshake(t) && t.holder.ByProducer?
    ensures var u := WriterStep(cfg, t, io);
      u.holder == t.holder && u.enqueued == t.enqueued && (u.pc == Parked(false) ==> t.pc == Parked(false))
  {
  }

  lemma {:induction false} StaysInside(cfg: Config, steps: seq<Step>, line: string, more: seq<Step>)
    requires Run(cfg, steps).holder.Free? && Goes(more) <= 2
    ensures Inside(Run(cfg, steps), line, Run(cfg, steps + [ProducerLock(line)] + more), Goes(more))
    decreases |more|
  {
    var all := steps + [ProducerLock(line)];
    if more == [] {
      assert all + more == all;
      RunOneMore(cfg, steps, ProducerLock(line));
    } else {
      var front, last := more[..|more| - 1], more[|more| - 1];
      StaysInside(cfg, steps, line, front);
      RunFlows(cfg, all + front);
      RunOnMore(cfg, all, more);
      InsideStep(cfg, Run(cfg, steps), line, Run(cfg, all + front), Goes(front), last);
    }
  }

  /** A producer that gets the mutex is out again at its third turn, whatever the others do meanwhile: exactly
      its line has been pushed, the mutex is free, and the writer does not sleep unsignalled. */
  lemma ProducerGetsThrough(cfg: Config, steps: seq<Step>, line: string, more: seq<Step>)
    requires Run(cfg, steps).holder.Free? && Goes(more) == 2
    ensures var t := Run(cfg, (steps + [ProducerLock(line)] + more) + [ProducerGo]);
      t.holder.Free? && t.enqueued == Run(cfg, steps).enqueued + [line] && t.pc != Parked(false)
  {
    var all := steps + [ProducerLock(line)] + more;
    StaysInside(cfg, steps, line, more);
    RunFlows(cfg, all);
    RunOneMore(cfg, all, ProducerGo);
    InsideStep(cfg, Run(cfg, steps), line, Run(cfg, all), 2, ProducerGo);
  }

  // ----- the writer, left to itself -----

  /** The writer has nothing more to do by itself. */
  predicate Settled(s: State) {
    s.pc == Parked(false) || s.pc.Exited? || s.pc.Failed?
  }

  /** The writer takes its turns until it has nothing more to do. */
  function Alone(cfg: Config, s: State, ios: seq<Io>): State
    decreases |ios|
  {
    if ios == [] || Settled(s) then s else Alone(cfg, WriterStep(cfg, s, ios[0]), ios[1..])
  }

  /** Turns enough for these lines: one for each character, and four more for each line. */
  function Turns(lines: seq<string>): nat {
    if lines == [] then 0 else |lines[0]| + 4 + Turns(lines[1..])
  }

  /** Turns enough until the writer is settled. */
  function Bound(s: State): nat {
    match s.pc
    case Top => Turns(s.queue) + 5
    case Acquire => Turns(s.queue) + 4
    case Scan => Turns(s.queue) + 3
    case CheckExit => 2
    case Park => 1
    case Parked(signalled) => if signalled then Turns(s.queue) + 4 else 0
    case Echo(line) => |line| + Turns(s.queue) + 6
    case Writing(_, rest) => |rest| + Turns(s.queue) + 5
    case Exited => 0
    case Failed(_) => 0
  }

  /** No producer is inside, nothing has failed, and no empty line is among those to be written. */
  predicate Clean(s: State) {
    && !s.holder.ByProducer? && !s.pc.Failed?
    && (forall i :: 0 <= i < |s.queue| ==> s.queue[i] != "")
    && (s.pc.Echo? ==> s.pc.line != "")
    && (s.pc.Writing? ==> s.pc.rest != "")
    && (s.pc.Exited? ==> s.exit && s.queue == [])
  }

  predicate Ready(cfg: Config, s: State) {
    Flows(cfg, s) && Clean(s)
  }

  lemma TurnProgress(cfg: Config, s: State, io: Io)
    requires Ready(cfg, s) && !Settled(s) && io.created && io.ret > 0
    ensures var t := WriterStep(cfg, s, io);
      Bound(t) < Bound(s) && t.enqueued == s.enqueued && (Awake(t) <==> Awake(s))
  {
  }

  lemma TurnStaysClean(cfg: Config, s: State, io: Io)
    requires Clean(s) && Handshake(s) && HasFile(cfg, s) && !Settled(s) && io.created && io.ret > 0
    ensures Clean(WriterStep(cfg, s, io))
  {
  }

  lemma TurnStaysReady(cfg: Config, s: State, io: Io)
    requires Ready(cfg, s) && !Settled(s) && io.created && io.ret > 0
    ensures Ready(cfg, WriterStep(cfg, s, io))
  {
    NextFlows(cfg, s, WriterGo(io));
    TurnStaysClean(cfg, s, io);
  }

  lemma {:induction false} AloneSettles(cfg: Config, s: State, ios: seq<Io>)
    requires Ready(cfg, s) && |ios| >= Bound(s)
    requires forall i :: 0 <= i < |ios| ==> ios[i].created && ios[i].ret > 0
    ensures var t := Alone(cfg, s, ios);
      Ready(cfg, t) && Settled(t) && t.enqueued == s.enqueued && (Awake(t) <==> Awake(s))
    decreases |ios|
  {
    if !Settled(s) {
      TurnProgress(cfg, s, ios[0]);
      TurnStaysReady(cfg, s, ios[0]);
      AloneSettles(cfg, WriterStep(cfg, s, ios[0]), ios[1..]);
    }
  }

  lemma {:induction false} RestOnlyOfEmpty(cfg: Config, steps: seq<Step>)
    ensures var s := Run(cfg, steps); s.pc.Writing? && s.pc.rest == "" ==> s.pc.line == ""
  {
    if steps != [] {
      RestOnlyOfEmpty(cfg, steps[..|steps| - 1]);
      NextRest(cfg, Run(cfg, steps[..|steps| - 1]), steps[|steps| - 1]);
    }
  }

  lemma NextRest(cfg: Config, s: State, step: Step)
    requires s.pc.Writing? && s.pc.rest == "" ==> s.pc.line == ""
    ensures var t := Next(cfg, s, step); t.pc.Writing? && t.pc.rest == "" ==> t.pc.line == ""
  {
  }

  /** From every reachable state with no producer inside and no empty line to be written: if the disk takes
      something each time, the writer, within so many turns of its own, has written every line pushed, and
      then it sleeps with the mutex free; or it has returned, exactly if it knows of m_bExit or will read it
      before it waits. */
  lemma WriterDrains(cfg: Config, steps: seq<Step>, ios: seq<Io>)
    requires var s := Run(cfg, steps); !s.holder.ByProducer? && !s.pc.Failed? && !s.pc.Exited?
    requires var s := Run(cfg, steps); "" !in InFlight(s) && "" !in s.queue && |ios| >= Bound(s)
    requires forall i :: 0 <= i < |ios| ==> ios[i].created && ios[i].ret > 0
    ensures var s, t := Run(cfg, steps), Alone(cfg, Run(cfg, steps), ios);
      && t.pc == (if Awake(s) then Exited else Parked(false))
      && t.holder.Free? && t.queue == [] && Written(cfg, t) == s.enqueued
  {
    StartsReady(cfg, steps);
    AloneSettles(cfg, Run(cfg, steps), ios);
    SettledMeans(cfg, Alone(cfg, Run(cfg, steps), ios));
  }

  lemma StartsReady(cfg: Config, steps: seq<Step>)
    requires var s := Run(cfg, steps); !s.holder.ByProducer? && !s.pc.Failed? && !s.pc.Exited?
    requires var s := Run(cfg, steps); "" !in InFlight(s) && "" !in s.queue
    ensures Ready(cfg, Run(cfg, steps))
  {
    var s := Run(cfg, steps);
    RunFlows(cfg, steps);
    RestOnlyOfEmpty(cfg, steps);
    assert s.pc.Echo? || s.pc.Writing? ==> s.pc.line in InFlight(s);
  }

  lemma SettledMeans(cfg: Config, t: State)
    requires Ready(cfg, t) && Settled(t)
    ensures t.pc == if Awake(t) then Exited else Parked(false)
    ensures t.holder.Free? && t.queue == [] && Written(cfg, t) == t.enqueued
  {
    assert Written(cfg, t) + [] + [] == Written(cfg, t);
  }

  // ----- when the writer gives up -----

  /** The writer's thread ends early exactly when a file is needed and cannot be made, or when an fwrite takes
      nothing, which an empty line makes certain. */
  lemma GivesUpIff(cfg: Config, steps: seq<Step>, step: Step)
    requires !Run(cfg, steps).pc.Failed?
    ensures var s := Run(cfg, steps);
      Run(cfg, steps + [step]).pc.Failed?
      <==> step.WriterGo? &&
           if s.pc.Top? then cfg.toFile && (s.files == [] || s.size >= cfg.roll) && !step.io.created
           else s.pc.Writing? && (s.pc.rest == "" || step.io.ret <= 0)
  {
    RunOneMore(cfg, steps, step);
    RunFlows(cfg, steps);
  }

  lemma GoneStep(cfg: Config, s: State, step: Step)
    requires s.pc.Exited? || s.pc.Failed?
    ensures var t := Next(cfg, s, step); t.pc == s.pc && t.files == s.files && t.console == s.console
  {
  }

  /** Once its thread has ended, early or on m_bExit, nothing more is written, however the run goes on. */
  lemma {:induction false} WriterGone(cfg: Config, steps: seq<Step>, more: seq<Step>)
    requires Run(cfg, steps).pc.Exited? || Run(cfg, steps).pc.Failed?
    ensures var s, t := Run(cfg, steps), Run(cfg, steps + more);
      t.pc == s.pc && t.files == s.files && t.console == s.console
    decreases |more|
  {
    if more == [] {
      assert steps + more == steps;
    } else {
      var front, last := more[..|more| - 1], more[|more| - 1];
      WriterGone(cfg, steps, front);
      RunOnMore(cfg, steps, more);
      GoneStep(cfg, Run(cfg, steps + front), last);
    }
  }

  // ----- writeToFile, one fwrite at a time -----

  function Sum(rets: seq<int>): int {
    if rets == [] then 0 else rets[0] + Sum(rets[1..])
  }

  /** While every fwrite has taken something and all of them together less than the line, exactly that much
      of it is in the file and the rest is still to be written. */
  lemma {:induction false} ChunksSoFar(s: State, rets: seq<int>)
    requires s.pc.Writing? && s.files != []
    requires (forall i :: 0 <= i < |rets| ==> rets[i] > 0) && Sum(rets) < |s.pc.rest| && rets != []
    ensures 0 <= Sum(rets) && Chunks(s, rets) == PartWritten(s, Sum(rets))
    decreases |rets|
  {
    SumPositive(rets[1..]);
    if |rets| > 1 {
      var t := WriteChunk(s, rets[0]);
      ChunksSoFar(t, rets[1..]);
      PartsJoin(s, rets[0], Sum(rets[1..]));
    }
  }

  lemma {:induction false} SumPositive(rets: seq<int>)
    requires forall i :: 0 <= i < |rets| ==> rets[i] > 0
    ensures Sum(rets) >= 0 && (rets != [] ==> Sum(rets) > 0)
  {
    if rets != [] {
      SumPositive(rets[1..]);
    }
  }

  lemma PartsJoin(s: State, m: nat, n: nat)
    requires s.pc.Writing? && s.files != [] && m + n <= |s.pc.rest|
    ensures PartWritten(PartWritten(s, m), n) == PartWritten(s, m + n)
  {
    var rest, bytes := s.pc.rest, Last(s.files).bytes;
    SplitAgain(rest, m, n);
    PieceMore(bytes, rest, m, n);
  }

  /** An fwrite that fails leaves the file as it is, and the writer gives the line up. */
  lemma FailedChunk(s: State, ret: int)
    requires s.pc.Writing? && s.files != [] && ret <= 0
    ensures Chunks(s, [ret]) == s.(pc := Failed([s.pc.line]))
  {
    assert [ret][1..] == [];
  }
}
