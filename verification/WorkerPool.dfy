/** The routing engine as a step machine: a dispatcher, a bounded queue, workers, cancel and close. */
module WorkerPool {
  import opened Domain
  import opened Router
  import opened Stages

  /** A busy worker has the ticket of its command: its position among the commands ever started. */
  datatype Worker =
    | Idle
    | Busy(ticket: nat, stage: Stage, journal: Journal, answers: seq<Answer>)
    | Exited

  /** How a command ended, with the calls it made and the answers it got. */
  datatype Outcome = Outcome(disposition: Disposition, journal: Journal, answers: seq<Answer>)

  /** What the engine holds, then the history of a run: the commands dispatched, accepted, dropped and
      started, in order, and how the started ones ended, by ticket. The tally counts metrics. */
  datatype Pool = Pool(
    capacity: nat, queue: seq<Command>, closed: bool, cancelled: bool, crashed: bool, workers: seq<Worker>,
    dispatched: seq<Command>, accepted: seq<Command>, dropped: seq<Command>, started: seq<Command>,
    outcomes: map<nat, Outcome>, tally: Tally)

  /** The metric counters of drops and of latency records by status; and, for commands that leave no
      latency record, why. */
  datatype Tally = Tally(
    drops: nat, successes: nat, failures: nat, unknown: nat, noAdapter: nat, untranslatable: nat)

  datatype Label =
    | Dispatch(cmd: Command)
    | HandOff(cmd: Command, to: nat)
    | Dequeue(worker: nat)
    | Work(worker: nat, answer: Answer)
    | Complete(worker: nat)
    | Exit(worker: nat)
    | Cancel
    | Close

  predicate IsWorkerStep(l: Label) {
    l.Dequeue? || l.Work? || l.Complete? || l.Exit?
  }

  function Start(capacity: nat, workers: nat): Pool {
    Pool(capacity, [], false, false, false, seq(workers, _ => Idle), [], [], [], [], map[], Tally(0, 0, 0, 0, 0, 0))
  }

  // ---------- steps ----------

  predicate IsWorker(p: Pool, w: nat) { w < |p.workers| }

  /** After a panic nothing runs. A receive from the queue and an exit on cancellation may both be
      possible; a wait can only be cut short once the context is cancelled. */
  predicate Enabled(p: Pool, l: Label) {
    !p.crashed &&
    match l
    case Dispatch(_) => true
    case HandOff(_, to) => !p.closed && p.queue == [] && IsWorker(p, to) && p.workers[to].Idle?
    case Dequeue(w) => IsWorker(p, w) && p.workers[w].Idle? && p.queue != []
    case Work(w, a) =>
      && IsWorker(p, w) && p.workers[w].Busy? && !p.workers[w].stage.Done?
      && (a.cancelled ==> p.cancelled)
    case Complete(w) => IsWorker(p, w) && p.workers[w].Busy? && p.workers[w].stage.Done?
    case Exit(w) => IsWorker(p, w) && p.workers[w].Idle? && (p.cancelled || (p.closed && p.queue == []))
    case Cancel => true
    case Close => true
  }

  /** A worker takes a command: the next ticket, from its lookup on. */
  function Take(p: Pool, w: nat, cmd: Command): Pool
    requires IsWorker(p, w)
  {
    p.(started := p.started + [cmd], workers := p.workers[w := Busy(|p.started|, Looking(cmd), [], [])])
  }

  function Recorded(t: Tally, c: Call): Tally {
    if !c.Record? then t
    else if c.success then t.(successes := t.successes + 1) else t.(failures := t.failures + 1)
  }

  function Ended(t: Tally, d: Disposition): Tally {
    match d
    case UnknownDevice => t.(unknown := t.unknown + 1)
    case NoAdapter => t.(noAdapter := t.noAdapter + 1)
    case Untranslatable => t.(untranslatable := t.untranslatable + 1)
    case _ => t
  }

  function Step(s: Setup, p: Pool, l: Label): Pool
    requires Enabled(p, l)
  {
    match l
    case Dispatch(cmd) =>
      if p.closed then p.(crashed := true)
      else if |p.queue| < p.capacity then
        p.(dispatched := p.dispatched + [cmd], accepted := p.accepted + [cmd], queue := p.queue + [cmd])
      else
        p.(dispatched := p.dispatched + [cmd], dropped := p.dropped + [cmd],
           tally := p.tally.(drops := p.tally.drops + 1))
    case HandOff(cmd, to) =>
      Take(p.(dispatched := p.dispatched + [cmd], accepted := p.accepted + [cmd]), to, cmd)
    case Dequeue(w) =>
      Take(p.(queue := p.queue[1..]), w, p.queue[0])
    case Work(w, a) =>
      var b := p.workers[w];
      var call := CallAt(b.stage, a);
      p.(workers := p.workers[w := Busy(b.ticket, Advance(s, b.stage, a), b.journal + [call], b.answers + [a])],
         tally := Recorded(p.tally, call))
    case Complete(w) =>
      var b := p.workers[w];
      p.(workers := p.workers[w := Idle],
         outcomes := p.outcomes[b.ticket := Outcome(b.stage.disposition, b.journal, b.answers)],
         tally := Ended(p.tally, b.stage.disposition))
    case Exit(w) => p.(workers := p.workers[w := Exited])
    case Cancel => p.(cancelled := true)
    case Close => if p.closed then p.(crashed := true) else p.(closed := true)
  }

  /** A run: every label enabled when its turn comes. */
  predicate Feasible(s: Setup, p: Pool, run: seq<Label>)
    decreases |run|
  {
    run == [] || (Enabled(p, run[0]) && Feasible(s, Step(s, p, run[0]), run[1..]))
  }

  function After(s: Setup, p: Pool, run: seq<Label>): Pool
    requires Feasible(s, p, run)
    decreases |run|
  {
    if run == [] then p else After(s, Step(s, p, run[0]), run[1..])
  }

  // ---------- what every step keeps ----------

  /** First in, first out, bounded: nothing accepted is lost, duplicated or overtaken. */
  predicate Fifo(p: Pool) {
    |p.queue| <= p.capacity && p.accepted == p.started + p.queue
  }

  /** Every dispatched command was accepted or dropped, and the drop metric is exact. */
  predicate Conserved(p: Pool) {
    && multiset(p.dispatched) == multiset(p.accepted) + multiset(p.dropped)
    && p.tally.drops == |p.dropped|
  }

  /** Every started command is exactly one of: ended, or in the hands of exactly one worker. */
  ghost predicate Partition(p: Pool) {
    && (forall t | t in p.outcomes :: t < |p.started|)
    && (forall w | 0 <= w < |p.workers| && p.workers[w].Busy? ::
          p.workers[w].ticket < |p.started| && p.workers[w].ticket !in p.outcomes)
    && (forall v, w | 0 <= v < w < |p.workers| && p.workers[v].Busy? && p.workers[w].Busy? ::
          p.workers[v].ticket != p.workers[w].ticket)
    && (forall t: nat | t < |p.started| && t !in p.outcomes :: Held(p, t))
  }

  ghost predicate Held(p: Pool, t: nat) {
    exists w :: 0 <= w < |p.workers| && p.workers[w].Busy? && p.workers[w].ticket == t
  }

  /** Without cancellation a worker leaves only when the queue is closed and drained. */
  predicate Drained(p: Pool) {
    (exists w :: 0 <= w < |p.workers| && p.workers[w].Exited?) && !p.cancelled ==> p.closed && p.queue == []
  }

  /** The script gave these answers, in this order. */
  ghost predicate Agrees(script: Script, answers: seq<Answer>) {
    forall i: nat :: i < |answers| ==> script(i) == answers[i]
  }

  /** What is left of a busy worker's command, run by the sequential code, completes it. */
  ghost predicate OnTrack(s: Setup, cmd: Command, b: Worker)
    requires b.Busy?
  {
    && StageOk(s, b.stage) && |b.journal| == |b.answers|
    && forall script :: Agrees(script, b.answers) ==>
         Process(s, script, cmd) == Finish(s, script, b.stage, b.journal)
  }

  /** An ended command did what the sequential code does on the same answers. */
  ghost predicate AsCoded(s: Setup, cmd: Command, o: Outcome) {
    forall script :: Agrees(script, o.answers) ==> Process(s, script, cmd) == (o.disposition, o.journal)
  }

  ghost predicate Faithful(s: Setup, p: Pool)
    requires Partition(p)
  {
    && (forall w | 0 <= w < |p.workers| && p.workers[w].Busy? :: OnTrack(s, p.started[p.workers[w].ticket], p.workers[w]))
    && (forall t | t in p.outcomes :: AsCoded(s, p.started[t], p.outcomes[t]))
  }

  /** A command in hand that has left no latency record and is not known to leave none. */
  predicate Open(b: Worker) {
    b.Busy? &&
    match b.stage
    case Storing(_) => false
    case Emitting(_, _, _) => false
    case Resting(_, _, _) => false
    case Done(d) => !d.Failed? && !d.Delivered?
    case _ => true
  }

  function OpenCount(workers: seq<Worker>): nat {
    if workers == [] then 0 else (if Open(workers[0]) then 1 else 0) + OpenCount(workers[1..])
  }

  /** Started commands add up: by metric, by reason for having none, and those still open. */
  predicate Balanced(p: Pool) {
    |p.started| == p.tally.unknown + p.tally.noAdapter + p.tally.untranslatable +
                   p.tally.successes + p.tally.failures + OpenCount(p.workers)
  }

  ghost predicate Inv(s: Setup, p: Pool) {
    Fifo(p) && Conserved(p) && Partition(p) && Drained(p) && Faithful(s, p) && Balanced(p)
  }

  lemma StartInv(s: Setup, capacity: nat, workers: nat)
    ensures Inv(s, Start(capacity, workers))
  {
    NoneOpen(Start(capacity, workers).workers);
  }

  lemma {:induction false} NoneOpen(workers: seq<Worker>)
    requires forall w | 0 <= w < |workers| :: workers[w].Idle?
    ensures OpenCount(workers) == 0
  {
    if workers != [] {
      NoneOpen(workers[1..]);
    }
  }

  lemma {:induction false} OpenUpdate(workers: seq<Worker>, w: nat, b: Worker)
    requires w < |workers|
    ensures OpenCount(workers[w := b]) ==
            OpenCount(workers) - (if Open(workers[w]) then 1 else 0) + (if Open(b) then 1 else 0)
  {
    if w == 0 {
      assert workers[w := b][1..] == workers[1..];
    } else {
      assert workers[w := b][1..] == workers[1..][w - 1 := b];
      OpenUpdate(workers[1..], w - 1, b);
    }
  }

  lemma StepFifo(s: Setup, p: Pool, l: Label)
    requires Enabled(p, l) && Fifo(p)
    ensures Fifo(Step(s, p, l))
  {
    var q := Step(s, p, l);
    match l
    case HandOff(cmd, _) =>
      assert q.started + q.queue == p.started + p.queue + [cmd];
    case Dequeue(_) =>
      assert q.started + q.queue == p.started + p.queue;
    case Dispatch(cmd) =>
      assert p.started + (p.queue + [cmd]) == p.started + p.queue + [cmd];
    case _ =>
      assert q.started == p.started && q.queue == p.queue;
  }

  lemma StepConserved(s: Setup, p: Pool, l: Label)
    requires Enabled(p, l) && Conserved(p)
    ensures Conserved(Step(s, p, l))
  {
    var q := Step(s, p, l);
    if q.dispatched != p.dispatched {
      assert multiset(q.dispatched) == multiset(p.dispatched) + multiset{l.cmd};
    }
  }

  /** A worker that takes, works on or ends a command; the others stay as they are. */
  lemma StepPartition(s: Setup, p: Pool, l: Label)
    requires Enabled(p, l) && Partition(p)
    ensures Partition(Step(s, p, l))
  {
    match l
    case HandOff(cmd, to) => TakePartition(p, to, cmd);
    case Dequeue(w) => TakePartition(p, w, p.queue[0]);
    case Work(w, a) => WorkPartition(s, p, w, a);
    case Exit(w) => SwapPartition(p, Step(s, p, l), w);
    case Complete(w) => CompletePartition(s, p, w);
    case _ => SamePartition(p, Step(s, p, l));
  }

  lemma SamePartition(p: Pool, q: Pool)
    requires Partition(p) && q.workers == p.workers && q.started == p.started && q.outcomes == p.outcomes
    ensures Partition(q)
  {
    forall t: nat | t < |q.started| && t !in q.outcomes
      ensures Held(q, t)
    {
      assert Held(p, t);
    }
  }

  lemma TakePartition(p: Pool, w: nat, cmd: Command)
    requires Partition(p) && IsWorker(p, w) && p.workers[w].Idle?
    ensures Partition(Take(p, w, cmd))
  {
    var q := Take(p, w, cmd);
    forall t: nat | t < |q.started| && t !in q.outcomes
      ensures Held(q, t)
    {
      if t < |p.started| {
        assert Held(p, t);
        var v :| 0 <= v < |p.workers| && p.workers[v].Busy? && p.workers[v].ticket == t;
        assert q.workers[v] == p.workers[v];
      } else {
        assert q.workers[w].ticket == t;
      }
    }
  }

  /** One worker changes without changing the ticket it holds, if any. */
  lemma SwapPartition(p: Pool, q: Pool, w: nat)
    requires Partition(p) && IsWorker(p, w) && q.started == p.started && q.outcomes == p.outcomes
    requires |q.workers| == |p.workers| && q.workers == p.workers[w := q.workers[w]]
    requires q.workers[w].Busy? <==> p.workers[w].Busy?
    requires p.workers[w].Busy? ==> q.workers[w].ticket == p.workers[w].ticket
    ensures Partition(q)
  {
    assert forall v | 0 <= v < |p.workers| ::
        (q.workers[v].Busy? <==> p.workers[v].Busy?) && (p.workers[v].Busy? ==> q.workers[v].ticket == p.workers[v].ticket);
    forall t: nat | t < |q.started| && t !in q.outcomes
      ensures Held(q, t)
    {
      assert Held(p, t);
    }
  }

  lemma WorkPartition(s: Setup, p: Pool, w: nat, a: Answer)
    requires Partition(p) && Enabled(p, Work(w, a))
    ensures Partition(Step(s, p, Work(w, a)))
  {
    SwapPartition(p, Step(s, p, Work(w, a)), w);
  }

  lemma CompletePartition(s: Setup, p: Pool, w: nat)
    requires Partition(p) && Enabled(p, Complete(w))
    ensures Partition(Step(s, p, Complete(w)))
  {
    var q := Step(s, p, Complete(w));
    forall t: nat | t < |q.started| && t !in q.outcomes
      ensures Held(q, t)
    {
      assert Held(p, t);
      var v :| 0 <= v < |p.workers| && p.workers[v].Busy? && p.workers[v].ticket == t;
      assert v != w && q.workers[v] == p.workers[v];
    }
  }

  lemma StepDrained(s: Setup, p: Pool, l: Label)
    requires Enabled(p, l) && Drained(p)
    ensures Drained(Step(s, p, l))
  {
    var q := Step(s, p, l);
    if w :| 0 <= w < |q.workers| && q.workers[w].Exited? {
      assert p.workers[w].Exited? || l == Exit(w);
    }
  }

  lemma StepBalanced(s: Setup, p: Pool, l: Label)
    requires Enabled(p, l) && Balanced(p)
    requires l.Work? ==> StageOk(s, p.workers[l.worker].stage)
    ensures Balanced(Step(s, p, l))
  {
    match l
    case HandOff(cmd, to) => TakeBalanced(p, to, cmd);
    case Dequeue(w) => TakeBalanced(p, w, p.queue[0]);
    case Complete(w) => CompleteBalanced(s, p, w);
    case Exit(w) => OpenUpdate(p.workers, w, Exited);
    case Work(w, a) => WorkBalanced(s, p, w, a);
    case _ =>
  }

  lemma TakeBalanced(p: Pool, w: nat, cmd: Command)
    requires Balanced(p) && IsWorker(p, w) && p.workers[w].Idle?
    ensures Balanced(Take(p, w, cmd))
  {
    OpenUpdate(p.workers, w, Busy(|p.started|, Looking(cmd), [], []));
  }

  lemma CompleteBalanced(s: Setup, p: Pool, w: nat)
    requires Enabled(p, Complete(w)) && Balanced(p)
    ensures Balanced(Step(s, p, Complete(w)))
  {
    OpenUpdate(p.workers, w, Idle);
  }

  lemma WorkBalanced(s: Setup, p: Pool, w: nat, a: Answer)
    requires Enabled(p, Work(w, a)) && Balanced(p) && StageOk(s, p.workers[w].stage)
    ensures Balanced(Step(s, p, Work(w, a)))
  {
    var next := Step(s, p, Work(w, a)).workers[w];
    OpenUpdate(p.workers, w, next);
    StaysOpen(s, p.workers[w], next, a);
  }

  /** Only the latency record closes an open command. */
  lemma StaysOpen(s: Setup, b: Worker, c: Worker, a: Answer)
    requires b.Busy? && !b.stage.Done? && StageOk(s, b.stage) && c.Busy? && c.stage == Advance(s, b.stage, a)
    ensures Open(c) <==> Open(b) && !CallAt(b.stage, a).Record?
    ensures CallAt(b.stage, a).Record? ==> Open(b)
  {
    match b.stage
    case Looking(cmd) =>
      if a.device.Some? && a.device.value.config.protocol in s.adapters {
        var adapter := s.adapters[a.device.value.config.protocol];
        if adapter.translate(cmd).Ok? {
          BeginLeft(s, Job(a.device.value, adapter, cmd, adapter.translate(cmd).value, Primary));
        }
      }
    case Sending(job, _, _) => RepliedLeft(s, job, a.reply);
    case Pausing(job, _, _) => RepliedLeft(s, job, Err(Errors.CONTEXT_CANCELED));
    case _ =>
  }

  lemma TakenOnTrack(s: Setup, cmd: Command, ticket: nat)
    ensures OnTrack(s, cmd, Busy(ticket, Looking(cmd), [], []))
  {
    forall script
      ensures Process(s, script, cmd) == Finish(s, script, Looking(cmd), [])
    {
      StepsAreTheCode(s, script, cmd);
    }
  }

  lemma WorkOnTrack(s: Setup, cmd: Command, b: Worker, a: Answer)
    requires b.Busy? && !b.stage.Done? && OnTrack(s, cmd, b)
    ensures OnTrack(s, cmd, Busy(b.ticket, Advance(s, b.stage, a), b.journal + [CallAt(b.stage, a)], b.answers + [a]))
  {
    AdvanceLeft(s, b.stage, a);
    forall script | Agrees(script, b.answers + [a])
      ensures Process(s, script, cmd) == Finish(s, script, Advance(s, b.stage, a), b.journal + [CallAt(b.stage, a)])
    {
      AgreesSplit(script, b.answers, a);
    }
  }

  lemma AgreesSplit(script: Script, answers: seq<Answer>, a: Answer)
    requires Agrees(script, answers + [a])
    ensures Agrees(script, answers) && script(|answers|) == a
  {
    var more := answers + [a];
    assert more[|answers|] == a;
    forall i: nat | i < |answers|
      ensures script(i) == answers[i]
    {
      assert more[i] == answers[i];
    }
  }

  lemma StepFaithful(s: Setup, p: Pool, l: Label)
    requires Enabled(p, l) && Partition(p) && Faithful(s, p) && Partition(Step(s, p, l))
    ensures Faithful(s, Step(s, p, l))
  {
    var q := Step(s, p, l);
    assert p.started <= q.started;
    forall w | 0 <= w < |q.workers| && q.workers[w].Busy?
      ensures OnTrack(s, q.started[q.workers[w].ticket], q.workers[w])
    {
      StepOnTrack(s, p, l, w);
    }
    forall t | t in q.outcomes
      ensures AsCoded(s, q.started[t], q.outcomes[t])
    {
      if l.Complete? && t == p.workers[l.worker].ticket {
        DoneAsCoded(s, p.started[t], p.workers[l.worker]);
      } else {
        assert q.outcomes[t] == p.outcomes[t] && q.started[t] == p.started[t];
      }
    }
  }

  lemma StepOnTrack(s: Setup, p: Pool, l: Label, w: nat)
    requires Enabled(p, l) && Partition(p) && Faithful(s, p) && Partition(Step(s, p, l))
    requires w < |p.workers| && Step(s, p, l).workers[w].Busy?
    ensures var q := Step(s, p, l); OnTrack(s, q.started[q.workers[w].ticket], q.workers[w])
  {
    var q := Step(s, p, l);
    if q.workers[w] == p.workers[w] {
      assert q.started[p.workers[w].ticket] == p.started[p.workers[w].ticket];
    } else if l.Work? {
      WorkOnTrack(s, p.started[p.workers[w].ticket], p.workers[w], l.answer);
    } else {
      TakenOnTrack(s, q.started[|p.started|], |p.started|);
    }
  }

  lemma DoneAsCoded(s: Setup, cmd: Command, b: Worker)
    requires b.Busy? && b.stage.Done? && OnTrack(s, cmd, b)
    ensures AsCoded(s, cmd, Outcome(b.stage.disposition, b.journal, b.answers))
  {
  }

  lemma StepInv(s: Setup, p: Pool, l: Label)
    requires Enabled(p, l) && Inv(s, p)
    ensures Inv(s, Step(s, p, l))
  {
    StepFifo(s, p, l);
    StepConserved(s, p, l);
    StepPartition(s, p, l);
    StepDrained(s, p, l);
    StepFaithful(s, p, l);
    assert l.Work? ==> OnTrack(s, p.started[p.workers[l.worker].ticket], p.workers[l.worker]);
    StepBalanced(s, p, l);
  }

  /** In every state that any interleaving of the dispatcher, the workers, cancel and close can reach,
      all of it holds. */
  lemma {:induction false} RunsKeepInv(s: Setup, p: Pool, run: seq<Label>)
    requires Inv(s, p) && Feasible(s, p, run)
    ensures Inv(s, After(s, p, run))
    decreases |run|
  {
    if run != [] {
      StepInv(s, p, run[0]);
      RunsKeepInv(s, Step(s, p, run[0]), run[1..]);
    }
  }

  // ---------- dispatch ----------

  /** An open queue drops a command exactly when it is full, and then changes nothing but the record
      and the metric of the drop; otherwise the command goes to its end. */
  lemma DispatchExactly(s: Setup, p: Pool, cmd: Command)
    requires Fifo(p) && !p.closed && !p.crashed
    ensures var q := Step(s, p, Dispatch(cmd));
            q == if |p.queue| == p.capacity
                 then p.(dispatched := p.dispatched + [cmd], dropped := p.dropped + [cmd],
                         tally := p.tally.(drops := p.tally.drops + 1))
                 else p.(dispatched := p.dispatched + [cmd], accepted := p.accepted + [cmd], queue := p.queue + [cmd])
  {
  }

  function Burst(cmds: seq<Command>): seq<Label> {
    if cmds == [] then [] else [Dispatch(cmds[0])] + Burst(cmds[1..])
  }

  function Least(m: nat, n: nat): nat { if m < n then m else n }

  lemma BurstCons(s: Setup, p: Pool, cmds: seq<Command>)
    requires !p.crashed && cmds != []
    ensures var q := Step(s, p, Dispatch(cmds[0]));
            && (Feasible(s, p, Burst(cmds)) <==> Feasible(s, q, Burst(cmds[1..])))
            && (Feasible(s, p, Burst(cmds)) ==> After(s, p, Burst(cmds)) == After(s, q, Burst(cmds[1..])))
  {
    assert Burst(cmds)[0] == Dispatch(cmds[0]) && Burst(cmds)[1..] == Burst(cmds[1..]);
  }

  lemma {:induction false} BurstFull(s: Setup, p: Pool, cmds: seq<Command>)
    requires |p.queue| == p.capacity && !p.closed && !p.crashed
    ensures Feasible(s, p, Burst(cmds))
    ensures var q := After(s, p, Burst(cmds));
            q.queue == p.queue && q.dropped == p.dropped + cmds && q.tally.drops == p.tally.drops + |cmds|
    decreases |cmds|
  {
    if cmds != [] {
      BurstCons(s, p, cmds);
      BurstFull(s, Step(s, p, Dispatch(cmds[0])), cmds[1..]);
      assert p.dropped + [cmds[0]] + cmds[1..] == p.dropped + cmds;
    }
  }

  lemma TakeOneMore(queue: seq<Command>, cmds: seq<Command>, k: nat)
    requires 0 < k <= |cmds|
    ensures queue + [cmds[0]] + cmds[1..][..k - 1] == queue + cmds[..k]
    ensures cmds[1..][k - 1..] == cmds[k..]
  {
  }

  lemma {:induction false} BurstFrom(s: Setup, p: Pool, cmds: seq<Command>, k: nat)
    requires |p.queue| <= p.capacity && !p.closed && !p.crashed
    requires k == Least(p.capacity - |p.queue|, |cmds|)
    ensures Feasible(s, p, Burst(cmds))
    ensures var q := After(s, p, Burst(cmds));
            && q.queue == p.queue + cmds[..k] && q.dropped == p.dropped + cmds[k..]
            && q.tally.drops == p.tally.drops + |cmds| - k
    decreases |cmds|
  {
    if k == 0 {
      assert cmds[..0] == [] && cmds[0..] == cmds;
      if cmds != [] {
        BurstFull(s, p, cmds);
      }
    } else {
      BurstCons(s, p, cmds);
      BurstFrom(s, Step(s, p, Dispatch(cmds[0])), cmds[1..], k - 1);
      TakeOneMore(p.queue, cmds, k);
    }
  }

  /** A burst of commands that no worker gets to: the first ones fill the queue, in order, and exactly
      the others are dropped, and counted. */
  lemma BurstExactly(s: Setup, capacity: nat, workers: nat, cmds: seq<Command>)
    ensures var p := Start(capacity, workers);
            var k := Least(capacity, |cmds|);
            && Feasible(s, p, Burst(cmds))
            && After(s, p, Burst(cmds)).queue == cmds[..k] && After(s, p, Burst(cmds)).dropped == cmds[k..]
            && After(s, p, Burst(cmds)).tally.drops == |cmds| - k
  {
    BurstFrom(s, Start(capacity, workers), cmds, Least(capacity, |cmds|));
  }

  // ---------- what the workers can do ----------

  /** A worker is busy, or idle with a command queued or a reason to leave. */
  predicate HasWork(p: Pool, w: nat) {
    IsWorker(p, w) &&
    (p.workers[w].Busy? || (p.workers[w].Idle? && (p.queue != [] || p.cancelled || p.closed)))
  }

  /** Exactly then some worker can step; so an open queue is served as long as a worker is there. */
  lemma WorkersServe(p: Pool)
    requires !p.crashed
    ensures (exists l :: IsWorkerStep(l) && Enabled(p, l)) <==> exists w: nat :: HasWork(p, w)
  {
    if l :| IsWorkerStep(l) && Enabled(p, l) {
      assert HasWork(p, l.worker);
    }
    if w: nat :| HasWork(p, w) {
      var calm := Answer(None, Ok([]), false, true, 0);
      var l := if p.workers[w].Busy? then (if p.workers[w].stage.Done? then Complete(w) else Work(w, calm))
               else if p.queue != [] then Dequeue(w) else Exit(w);
      assert IsWorkerStep(l) && Enabled(p, l);
    }
  }

  /** A worker in a wait can be cut short exactly when the context is cancelled; its retry then ends
      with the cancellation, its publishing without another attempt. */
  lemma WaitCutExactly(s: Setup, p: Pool, w: nat, a: Answer)
    requires !p.crashed && IsWorker(p, w) && p.workers[w].Busy? && a.cancelled
    requires p.workers[w].stage.Pausing? || p.workers[w].stage.Resting?
    ensures Enabled(p, Work(w, a)) <==> p.cancelled
    ensures var stage := p.workers[w].stage;
            p.cancelled ==>
              Step(s, p, Work(w, a)).workers[w].stage ==
              if stage.Resting? then Done(Delivered(stage.telemetry))
              else Updating(stage.job.dev, stage.job.cmd, Err(Errors.CONTEXT_CANCELED))
  {
  }
}
