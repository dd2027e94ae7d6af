/** What the metrics of a run say: how many commands ended in each way. */
module Tallies {
  import opened Domain
  import opened Errors
  import opened Router
  import opened Stages
  import opened WorkerPool
  import opened Shutdown

  /** The ways in which a command can end. */
  datatype Ending = EndUnknown | EndNoAdapter | EndUntranslatable | EndFailed | EndDelivered

  function EndingOf(d: Disposition): Ending {
    match d
    case UnknownDevice => EndUnknown
    case NoAdapter => EndNoAdapter
    case Untranslatable => EndUntranslatable
    case Failed(_) => EndFailed
    case Delivered(_) => EndDelivered
  }

  function Metric(t: Tally, e: Ending): nat {
    match e
    case EndUnknown => t.unknown
    case EndNoAdapter => t.noAdapter
    case EndUntranslatable => t.untranslatable
    case EndFailed => t.failures
    case EndDelivered => t.successes
  }

  /** How many of the first `n` tickets ended in this way. */
  function Among(outcomes: map<nat, Outcome>, n: nat, e: Ending): nat {
    if n == 0 then 0
    else
      (if n - 1 in outcomes && EndingOf(outcomes[n - 1].disposition) == e then 1 else 0) + Among(outcomes, n - 1, e)
  }

  /** The command in hand has left its latency record, and is going to end in this way. */
  predicate IsCounted(b: Worker, e: Ending) {
    b.Busy? &&
    match b.stage
    case Storing(_) => e == EndDelivered
    case Emitting(_, _, _) => e == EndDelivered
    case Resting(_, _, _) => e == EndDelivered
    case Done(d) => EndingOf(d) == e && (d.Failed? || d.Delivered?)
    case _ => false
  }

  function InHand(workers: seq<Worker>, e: Ending): nat {
    if workers == [] then 0 else (if IsCounted(workers[0], e) then 1 else 0) + InHand(workers[1..], e)
  }

  /** Every metric counts the commands that ended in its way, and those in hand that have left their
      latency record and will. */
  ghost predicate Exact(p: Pool) {
    forall e :: Metric(p.tally, e) == Among(p.outcomes, |p.started|, e) + InHand(p.workers, e)
  }

  lemma {:induction false} InHandUpdate(workers: seq<Worker>, w: nat, b: Worker, e: Ending)
    requires w < |workers|
    ensures InHand(workers[w := b], e) ==
            InHand(workers, e) - (if IsCounted(workers[w], e) then 1 else 0) + (if IsCounted(b, e) then 1 else 0)
  {
    if w == 0 {
      assert workers[w := b][1..] == workers[1..];
    } else {
      assert workers[w := b][1..] == workers[1..][w - 1 := b];
      InHandUpdate(workers[1..], w - 1, b, e);
    }
  }

  lemma {:induction false} AmongAdds(outcomes: map<nat, Outcome>, n: nat, t: nat, o: Outcome, e: Ending)
    requires t !in outcomes
    ensures Among(outcomes[t := o], n, e) ==
            Among(outcomes, n, e) + (if t < n && EndingOf(o.disposition) == e then 1 else 0)
  {
    if n > 0 {
      AmongAdds(outcomes, n - 1, t, o, e);
    }
  }

  lemma {:induction false} NoneInHand(workers: seq<Worker>, e: Ending)
    requires forall w | 0 <= w < |workers| :: !workers[w].Busy?
    ensures InHand(workers, e) == 0
  {
    if workers != [] {
      NoneInHand(workers[1..], e);
    }
  }

  lemma TakeExact(p: Pool, w: nat, cmd: Command)
    requires Exact(p) && Partition(p) && IsWorker(p, w) && p.workers[w].Idle?
    ensures Exact(Take(p, w, cmd))
  {
    var q := Take(p, w, cmd);
    forall e
      ensures Metric(q.tally, e) == Among(q.outcomes, |q.started|, e) + InHand(q.workers, e)
    {
      InHandUpdate(p.workers, w, q.workers[w], e);
    }
  }

  lemma WorkExact(s: Setup, p: Pool, w: nat, a: Answer)
    requires Exact(p) && Enabled(p, Work(w, a)) && StageOk(s, p.workers[w].stage)
    ensures Exact(Step(s, p, Work(w, a)))
  {
    var q := Step(s, p, Work(w, a));
    forall e
      ensures Metric(q.tally, e) == Among(q.outcomes, |q.started|, e) + InHand(q.workers, e)
    {
      InHandUpdate(p.workers, w, q.workers[w], e);
      WorkCounts(s, p.workers[w].stage, q.workers[w], a, e);
      RecordedMetric(p.tally, CallAt(p.workers[w].stage, a), e);
    }
  }

  lemma RecordedMetric(t: Tally, c: Call, e: Ending)
    ensures Metric(Recorded(t, c), e) ==
            Metric(t, e) + (if c.Record? && e == (if c.success then EndDelivered else EndFailed) then 1 else 0)
  {
  }

  /** A command becomes counted by its latency record, under what the record says, and stays so. */
  lemma WorkCounts(s: Setup, stage: Stage, c: Worker, a: Answer, e: Ending)
    requires !stage.Done? && StageOk(s, stage) && c.Busy? && c.stage == Advance(s, stage, a)
    ensures var call := CallAt(stage, a);
            IsCounted(c, e) <==>
            IsCounted(Busy(0, stage, [], []), e) || (call.Record? && e == (if call.success then EndDelivered else EndFailed))
    ensures CallAt(stage, a).Record? ==> !IsCounted(Busy(0, stage, [], []), e)
  {
    match stage
    case Looking(cmd) =>
      if a.device.Some? && a.device.value.config.protocol in s.adapters {
        var adapter := s.adapters[a.device.value.config.protocol];
        if adapter.translate(cmd).Ok? {
          BeginLeft(s, Job(a.device.value, adapter, cmd, adapter.translate(cmd).value, Primary));
        }
      }
    case Sending(job, _, _) => RepliedLeft(s, job, a.reply);
    case Pausing(job, _, _) => RepliedLeft(s, job, Err(CONTEXT_CANCELED));
    case _ =>
  }

  lemma CompleteExact(s: Setup, p: Pool, w: nat)
    requires Exact(p) && Partition(p) && Enabled(p, Complete(w))
    ensures Exact(Step(s, p, Complete(w)))
  {
    var b, q := p.workers[w], Step(s, p, Complete(w));
    forall e
      ensures Metric(q.tally, e) == Among(q.outcomes, |q.started|, e) + InHand(q.workers, e)
    {
      InHandUpdate(p.workers, w, Idle, e);
      AmongAdds(p.outcomes, |p.started|, b.ticket, Outcome(b.stage.disposition, b.journal, b.answers), e);
      EndedMetric(p.tally, b.stage.disposition, e);
    }
  }

  lemma EndedMetric(t: Tally, d: Disposition, e: Ending)
    ensures Metric(Ended(t, d), e) ==
            Metric(t, e) + (if EndingOf(d) == e && !d.Failed? && !d.Delivered? then 1 else 0)
  {
  }

  lemma ExitExact(s: Setup, p: Pool, w: nat)
    requires Exact(p) && Enabled(p, Exit(w))
    ensures Exact(Step(s, p, Exit(w)))
  {
    forall e
      ensures InHand(p.workers[w := Exited], e) == InHand(p.workers, e)
    {
      InHandUpdate(p.workers, w, Exited, e);
    }
  }

  lemma StepExact(s: Setup, p: Pool, l: Label)
    requires Inv(s, p) && Exact(p) && Enabled(p, l)
    ensures Exact(Step(s, p, l))
  {
    match l
    case HandOff(cmd, to) => TakeExact(p, to, cmd);
    case Dequeue(w) => TakeExact(p, w, p.queue[0]);
    case Work(w, a) =>
      assert OnTrack(s, p.started[p.workers[w].ticket], p.workers[w]);
      WorkExact(s, p, w, a);
    case Complete(w) => CompleteExact(s, p, w);
    case Exit(w) => ExitExact(s, p, w);
    case _ =>
      assert forall e :: Metric(Step(s, p, l).tally, e) == Metric(p.tally, e);
  }

  lemma {:induction false} RunsKeepExact(s: Setup, p: Pool, run: seq<Label>)
    requires Inv(s, p) && Exact(p) && Feasible(s, p, run)
    ensures Exact(After(s, p, run))
    decreases |run|
  {
    if run != [] {
      StepExact(s, p, run[0]);
      StepInv(s, p, run[0]);
      RunsKeepExact(s, Step(s, p, run[0]), run[1..]);
    }
  }

  /** Once the workers are gone, each metric is the number of started commands that ended in its way:
      successes of those delivered, failures of those whose chain failed, and so on. */
  lemma StoppedTally(s: Setup, capacity: nat, workers: nat, run: seq<Label>, e: Ending)
    requires Feasible(s, Start(capacity, workers), run)
    requires Stopped(After(s, Start(capacity, workers), run))
    ensures var p := After(s, Start(capacity, workers), run);
            Metric(p.tally, e) == Among(p.outcomes, |p.started|, e)
  {
    var p := Start(capacity, workers);
    StartInv(s, capacity, workers);
    forall f
      ensures InHand(p.workers, f) == 0
    {
      NoneInHand(p.workers, f);
    }
    RunsKeepExact(s, p, run);
    NoneInHand(After(s, p, run).workers, e);
  }
}
