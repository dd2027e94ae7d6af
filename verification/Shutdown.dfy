/** What a shutdown guarantees, that it ends, and the one order of events that breaks it. */
module Shutdown {
  import opened Domain
  import opened Router
  import opened Stages
  import opened WorkerPool

  /** When waiting for the workers returns. */
  predicate Stopped(p: Pool) {
    forall w | 0 <= w < |p.workers| :: p.workers[w].Exited?
  }

  lemma {:induction false} WorkersKept(s: Setup, p: Pool, run: seq<Label>)
    requires Feasible(s, p, run)
    ensures |After(s, p, run).workers| == |p.workers|
    decreases |run|
  {
    if run != [] {
      WorkersKept(s, Step(s, p, run[0]), run[1..]);
    }
  }

  lemma {:induction false} NothingOpen(workers: seq<Worker>)
    requires forall w | 0 <= w < |workers| :: !workers[w].Busy?
    ensures OpenCount(workers) == 0
  {
    if workers != [] {
      NothingOpen(workers[1..]);
    }
  }

  // ---------- what has happened once the workers are gone ----------

  /** Whatever was cancelled or closed: once every worker is gone, the started commands have each
      ended exactly once, as the sequential code would end them; the ones never started are exactly a
      suffix of the accepted ones; and the metrics account for every started command. */
  lemma StoppedMeansSettled(s: Setup, capacity: nat, workers: nat, run: seq<Label>)
    requires Feasible(s, Start(capacity, workers), run)
    requires Stopped(After(s, Start(capacity, workers), run))
    ensures var p := After(s, Start(capacity, workers), run);
            && p.accepted == p.started + p.queue
            && (forall t: nat :: t in p.outcomes <==> t < |p.started|)
            && (forall t: nat :: t < |p.started| ==> AsCoded(s, p.accepted[t], p.outcomes[t]))
            && |p.started| == p.tally.unknown + p.tally.noAdapter + p.tally.untranslatable +
                              p.tally.successes + p.tally.failures
  {
    StartInv(s, capacity, workers);
    RunsKeepInv(s, Start(capacity, workers), run);
    var p := After(s, Start(capacity, workers), run);
    NothingOpen(p.workers);
    forall t: nat | t < |p.started|
      ensures t in p.outcomes && AsCoded(s, p.accepted[t], p.outcomes[t])
    {
      assert t !in p.outcomes ==> Held(p, t);
      assert p.accepted[t] == p.started[t];
    }
  }

  /** Without cancellation, a stop drains the queue exactly when there was a worker to drain it (or
      nothing to drain): then every accepted command has ended, exactly once. */
  lemma GracefulStopDrains(s: Setup, capacity: nat, workers: nat, run: seq<Label>)
    requires Feasible(s, Start(capacity, workers), run)
    requires Stopped(After(s, Start(capacity, workers), run))
    requires !After(s, Start(capacity, workers), run).cancelled
    ensures var p := After(s, Start(capacity, workers), run);
            && (p.queue == [] <==> workers >= 1 || p.accepted == [])
            && (workers >= 1 ==> p.closed && forall t: nat :: t in p.outcomes <==> t < |p.accepted|)
  {
    StoppedMeansSettled(s, capacity, workers, run);
    WorkersKept(s, Start(capacity, workers), run);
    StartInv(s, capacity, workers);
    RunsKeepInv(s, Start(capacity, workers), run);
    var p := After(s, Start(capacity, workers), run);
    if workers >= 1 {
      assert p.workers[0].Exited?;
    } else {
      assert p.started == [] by {
        assert |p.started| > 0 ==> 0 in p.outcomes;
        NobodyStarts(s, Start(capacity, 0), run);
      }
    }
  }

  lemma {:induction false} NobodyStarts(s: Setup, p: Pool, run: seq<Label>)
    requires |p.workers| == 0 && Feasible(s, p, run)
    ensures After(s, p, run).started == p.started
    decreases |run|
  {
    if run != [] {
      NobodyStarts(s, Step(s, p, run[0]), run[1..]);
    }
  }

  // ---------- it ends ----------

  ghost function WorkerLeft(s: Setup, b: Worker): nat {
    match b
    case Exited => 0
    case Idle => 1
    case Busy(_, stage, _, _) => if StageOk(s, stage) then 2 + StepsLeft(s, stage) else 0
  }

  ghost function WorkersLeft(s: Setup, workers: seq<Worker>): nat {
    if workers == [] then 0 else WorkerLeft(s, workers[0]) + WorkersLeft(s, workers[1..])
  }

  ghost function QueueLeft(s: Setup, queue: seq<Command>): nat {
    if queue == [] then 0 else 2 + StepsLeft(s, Looking(queue[0])) + QueueLeft(s, queue[1..])
  }

  /** A bound on the worker steps that can still come once the queue is closed. */
  ghost function Left(s: Setup, p: Pool): nat {
    QueueLeft(s, p.queue) + WorkersLeft(s, p.workers)
  }

  lemma {:induction false} LeftUpdate(s: Setup, workers: seq<Worker>, w: nat, b: Worker)
    requires w < |workers|
    ensures WorkersLeft(s, workers[w := b]) == WorkersLeft(s, workers) - WorkerLeft(s, workers[w]) + WorkerLeft(s, b)
  {
    if w == 0 {
      assert workers[w := b][1..] == workers[1..];
    } else {
      assert workers[w := b][1..] == workers[1..][w - 1 := b];
      LeftUpdate(s, workers[1..], w - 1, b);
    }
  }

  /** After close every worker step strictly lowers the bound, whatever its port answers, and nothing
      else raises it. */
  lemma StepLeft(s: Setup, p: Pool, l: Label)
    requires Inv(s, p) && Enabled(p, l) && p.closed
    ensures Step(s, p, l).closed
    ensures Left(s, Step(s, p, l)) + (if IsWorkerStep(l) then 1 else 0) <= Left(s, p)
  {
    match l
    case Dequeue(w) => LeftUpdate(s, p.workers, w, Step(s, p, l).workers[w]);
    case Complete(w) => LeftUpdate(s, p.workers, w, Idle);
    case Exit(w) => LeftUpdate(s, p.workers, w, Exited);
    case Work(w, a) =>
      LeftUpdate(s, p.workers, w, Step(s, p, l).workers[w]);
      assert OnTrack(s, p.started[p.workers[w].ticket], p.workers[w]);
      AdvanceLeft(s, p.workers[w].stage, a);
    case _ =>
  }

  function WorkerSteps(run: seq<Label>): nat {
    if run == [] then 0 else (if IsWorkerStep(run[0]) then 1 else 0) + WorkerSteps(run[1..])
  }

  /** Under every schedule, the worker steps after close are at most the bound at close. */
  lemma {:induction false} ShutdownIsBounded(s: Setup, p: Pool, run: seq<Label>)
    requires Inv(s, p) && p.closed && Feasible(s, p, run)
    ensures WorkerSteps(run) + Left(s, After(s, p, run)) <= Left(s, p)
    decreases |run|
  {
    if run != [] {
      StepLeft(s, p, run[0]);
      StepInv(s, p, run[0]);
      ShutdownIsBounded(s, Step(s, p, run[0]), run[1..]);
    }
  }

  /** And no schedule gets stuck before the end: after close some worker can step exactly as long as
      some worker is still there, so waiting for the workers returns. */
  lemma StuckMeansStopped(p: Pool)
    requires p.closed && !p.crashed
    ensures Stopped(p) <==> forall l :: IsWorkerStep(l) ==> !Enabled(p, l)
  {
    if !Stopped(p) {
      var w :| 0 <= w < |p.workers| && !p.workers[w].Exited?;
      var calm := Answer(None, Ok([]), false, true, 0);
      assert match p.workers[w] {
          case Idle => Enabled(p, if p.queue == [] then Exit(w) else Dequeue(w))
          case Busy(_, stage, _, _) => Enabled(p, if stage.Done? then Complete(w) else Work(w, calm))
          case Exited => true
        };
    }
  }

  // ---------- whether a stop drains the queue ----------

  /** Every schedule by which the workers stop leaves the queue empty, whatever else happens in it. */
  ghost predicate SurelyDrains(s: Setup, p: Pool) {
    forall run :: Feasible(s, p, run) && Stopped(After(s, p, run)) ==> After(s, p, run).queue == []
  }

  /** The same of the schedules in which the context is not cancelled any more. */
  ghost predicate DrainsUncancelled(s: Setup, p: Pool) {
    forall run :: Feasible(s, p, run) && Cancel !in run && Stopped(After(s, p, run)) ==> After(s, p, run).queue == []
  }

  /** Once the queue is closed, it is sure to be drained exactly when there is nothing in it: a
      cancellation can come until the last worker is gone, and opens an exit to all of them. If no
      more cancellation comes, it is drained exactly when none came before, or there is nothing in it. */
  lemma DrainsExactly(s: Setup, p: Pool)
    requires Inv(s, p) && p.closed && !p.crashed && !Stopped(p)
    ensures SurelyDrains(s, p) <==> p.queue == []
    ensures DrainsUncancelled(s, p) <==> !p.cancelled || p.queue == []
  {
    if p.queue != [] {
      StepInv(s, p, Cancel);
      var leaving := CancelStrands(s, Step(s, p, Cancel));
      RunCons(s, p, Cancel, leaving);
      assert !SurelyDrains(s, p);
    }
    if p.cancelled && p.queue != [] {
      var leaving := CancelStrands(s, p);
      assert Cancel !in leaving;
    }
    forall run | Feasible(s, p, run) && Stopped(After(s, p, run))
      ensures p.queue == [] || (!p.cancelled && Cancel !in run) ==> After(s, p, run).queue == []
    {
      RunsKeepInv(s, p, run);
      ClosedStays(s, p, run);
      assert After(s, p, run).workers[0].Exited?;
    }
  }

  /** A closed pool takes nothing in any more. */
  lemma {:induction false} ClosedStays(s: Setup, p: Pool, run: seq<Label>)
    requires Feasible(s, p, run) && p.closed
    ensures var q := After(s, p, run);
            && q.closed && |q.workers| == |p.workers|
            && (Cancel !in run ==> q.cancelled == p.cancelled)
            && (p.queue == [] ==> q.queue == [])
    decreases |run|
  {
    if run != [] {
      assert run[0] in run;
      ClosedStays(s, Step(s, p, run[0]), run[1..]);
    }
  }

  ghost predicate WorkersOnly(run: seq<Label>) {
    forall l | l in run :: IsWorkerStep(l)
  }

  /** After a cancellation the workers can all leave with the queue as it is, each once it is done
      with the command it has in hand. */
  lemma {:induction false} CancelStrands(s: Setup, p: Pool) returns (run: seq<Label>)
    requires Inv(s, p) && p.closed && p.cancelled && !p.crashed
    ensures Feasible(s, p, run) && WorkersOnly(run)
    ensures Stopped(After(s, p, run)) && After(s, p, run).queue == p.queue
    decreases Left(s, p)
  {
    run := [];
    if !Stopped(p) {
      var w :| 0 <= w < |p.workers| && !p.workers[w].Exited?;
      var calm := Answer(None, Ok([]), false, true, 0);
      var l := if p.workers[w].Idle? then Exit(w) else if p.workers[w].stage.Done? then Complete(w) else Work(w, calm);
      StepLeft(s, p, l);
      StepInv(s, p, l);
      var rest := CancelStrands(s, Step(s, p, l));
      run := [l] + rest;
      RunCons(s, p, l, rest);
    }
  }

  lemma RunCons(s: Setup, p: Pool, l: Label, run: seq<Label>)
    requires Enabled(p, l) && Feasible(s, Step(s, p, l), run)
    ensures Feasible(s, p, [l] + run) && After(s, p, [l] + run) == After(s, Step(s, p, l), run)
  {
    assert ([l] + run)[1..] == run && ([l] + run)[0] == l;
  }

  /** The program's own shutdown can strand a command: accepted, then cancel and close, and all
      workers leave without having started it. */
  lemma AcceptedCommandStranded(s: Setup, capacity: nat, workers: nat, cmd: Command) returns (run: seq<Label>)
    requires capacity >= 1
    ensures Feasible(s, Start(capacity, workers), run)
    ensures var p := After(s, Start(capacity, workers), run);
            Stopped(p) && !p.crashed && p.accepted == p.queue == [cmd] && p.started == [] && p.outcomes == map[]
  {
    var p := Start(capacity, workers);
    var one := Step(s, p, Dispatch(cmd));
    var two := Step(s, one, Cancel);
    var three := Step(s, two, Close);
    HeldUp(s, capacity, workers, cmd);
    var leaving := CancelStrands(s, three);
    RunCons(s, two, Close, leaving);
    RunCons(s, one, Cancel, [Close] + leaving);
    RunCons(s, p, Dispatch(cmd), [Cancel] + ([Close] + leaving));
    run := [Dispatch(cmd)] + ([Cancel] + ([Close] + leaving));
    NothingAccepted(s, three, leaving);
    RunsKeepInv(s, three, leaving);
    NoneStarted(After(s, three, leaving), cmd);
  }

  lemma HeldUp(s: Setup, capacity: nat, workers: nat, cmd: Command)
    requires capacity >= 1
    ensures var p := Step(s, Step(s, Step(s, Start(capacity, workers), Dispatch(cmd)), Cancel), Close);
            Inv(s, p) && p.closed && p.cancelled && !p.crashed && p.accepted == p.queue == [cmd]
  {
    var p := Start(capacity, workers);
    StartInv(s, capacity, workers);
    StepInv(s, p, Dispatch(cmd));
    StepInv(s, Step(s, p, Dispatch(cmd)), Cancel);
    StepInv(s, Step(s, Step(s, p, Dispatch(cmd)), Cancel), Close);
  }

  lemma NoneStarted(p: Pool, cmd: Command)
    requires Fifo(p) && Partition(p) && p.accepted == p.queue == [cmd]
    ensures p.started == [] && p.outcomes == map[]
  {
    assert |p.accepted| == |p.started| + |p.queue|;
    assert p.outcomes.Keys == {};
  }

  lemma {:induction false} NothingAccepted(s: Setup, p: Pool, run: seq<Label>)
    requires !p.crashed && Feasible(s, p, run) && WorkersOnly(run)
    ensures After(s, p, run).accepted == p.accepted && !After(s, p, run).crashed
    decreases |run|
  {
    if run != [] {
      assert run[0] in run;
      NothingAccepted(s, Step(s, p, run[0]), run[1..]);
    }
  }

  // ---------- a send on a closed queue ----------

  /** The panicking order: something is dispatched, or the queue closed again, after a close. */
  predicate AfterClose(closed: bool, run: seq<Label>)
    decreases |run|
  {
    run != [] &&
    ((closed && (run[0].Dispatch? || run[0].Close?)) || AfterClose(closed || run[0].Close?, run[1..]))
  }

  /** A run panics exactly when a dispatch or a second close follows a close. */
  lemma {:induction false} PanicsExactly(s: Setup, p: Pool, run: seq<Label>)
    requires !p.crashed && Feasible(s, p, run)
    ensures After(s, p, run).crashed <==> AfterClose(p.closed, run)
    decreases |run|
  {
    if run != [] {
      var q := Step(s, p, run[0]);
      if q.crashed {
        assert run[1..] == [];
      } else {
        PanicsExactly(s, q, run[1..]);
      }
    }
  }

  /** The shutdown order of the program: cancel, close, and only later the cloud connection goes; a
      command that arrives in between panics. */
  lemma LateCommandPanics(s: Setup, capacity: nat, workers: nat, cmd: Command)
    ensures var run := [Cancel] + ([Close] + [Dispatch(cmd)]);
            Feasible(s, Start(capacity, workers), run) && After(s, Start(capacity, workers), run).crashed
  {
    var p := Start(capacity, workers);
    var one := Step(s, p, Cancel);
    var two := Step(s, one, Close);
    var crash := Step(s, two, Dispatch(cmd));
    RunCons(s, two, Dispatch(cmd), []);
    assert [Dispatch(cmd)] + [] == [Dispatch(cmd)] && After(s, crash, []) == crash;
    RunCons(s, one, Close, [Dispatch(cmd)]);
    RunCons(s, p, Cancel, [Close] + [Dispatch(cmd)]);
  }
}
