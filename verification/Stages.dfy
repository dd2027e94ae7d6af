/** One command as a sequence of atomic steps, each a single call to a port, and the proof that
    taking them one at a time is the same as running the code of module Engine. */
module Stages {
  import opened Domain
  import opened Errors
  import opened Router
  import opened CommandLaws

  /** What a reply is for: the primary payload, or a follow-up with data gathered and payloads left. */
  datatype Todo = Primary | Rest(data: Data, payloads: seq<Bytes>)

  datatype Job = Job(dev: Device, adapter: Adapter, cmd: Command, payload: Bytes, todo: Todo)

  /** Where a worker stands in a command: about to make the next call, or done. */
  datatype Stage =
    | Looking(cmd: Command)
    | Sending(job: Job, attempt: int, backoff: Duration)
    | Pausing(job: Job, attempt: int, backoff: Duration)
    | Updating(dev: Device, cmd: Command, data: Result<Data, Error>)
    | Recording(dev: Device, cmd: Command, data: Result<Data, Error>)
    | Storing(telemetry: Telemetry)
    | Emitting(telemetry: Telemetry, attempt: int, backoff: Duration)
    | Resting(telemetry: Telemetry, attempt: int, backoff: Duration)
    | Done(disposition: Disposition)

  // ---------- the steps ----------

  /** The first call of a retry, or what an empty retry leads to. */
  function Begin(s: Setup, job: Job): Stage
    decreases job.todo.Primary?, if job.todo.Rest? then |job.todo.payloads| else 0, 2
  {
    if s.policy.maxAttempts >= 1 then Sending(job, 1, s.policy.baseBackoff) else Replied(s, job, Ok([]))
  }

  function Replied(s: Setup, job: Job, reply: Result<Bytes, Error>): Stage
    decreases job.todo.Primary?, if job.todo.Rest? then |job.todo.payloads| else 0, 1
  {
    if reply.Err? then Updating(job.dev, job.cmd, Err(reply.error))
    else
      var parsed := job.adapter.parse(reply.value);
      if parsed.Err? then Updating(job.dev, job.cmd, parsed)
      else
        match job.todo
        case Rest(data, payloads) => Proceed(s, job, data + parsed.value, payloads)
        case Primary =>
          if job.adapter.followUps.None? then Updating(job.dev, job.cmd, parsed)
          else
            var more := job.adapter.followUps.value(job.cmd);
            if more.Err? then Updating(job.dev, job.cmd, Err(more.error))
            else Proceed(s, job, parsed.value, more.value)
  }

  function Proceed(s: Setup, job: Job, data: Data, payloads: seq<Bytes>): Stage
    decreases false, |payloads|, 0
  {
    if payloads == [] then Updating(job.dev, job.cmd, Ok(data))
    else Begin(s, job.(payload := payloads[0], todo := Rest(data, payloads[1..])))
  }

  function Emit(s: Setup, t: Telemetry): Stage {
    if s.policy.maxAttempts >= 1 then Emitting(t, 1, s.policy.baseBackoff) else Done(Delivered(t))
  }

  /** The call a stage makes; only the write-back depends on the time of its own answer. */
  function CallAt(stage: Stage, a: Answer): Call
    requires !stage.Done?
  {
    match stage
    case Looking(cmd) => Lookup(cmd.deviceId)
    case Sending(job, _, _) => Send(job.dev, job.payload)
    case Pausing(_, _, backoff) => Wait(backoff)
    case Updating(dev, _, data) => Update(Seen(dev, data.Ok?, a.now))
    case Recording(dev, _, data) => Record(dev.config.protocol, data.Ok?)
    case Storing(t) => Buffer(t)
    case Emitting(t, _, _) => Publish(t)
    case Resting(_, _, backoff) => Wait(backoff)
  }

  function Advance(s: Setup, stage: Stage, a: Answer): Stage
    requires !stage.Done?
  {
    var max := s.policy.maxAttempts;
    match stage
    case Looking(cmd) =>
      if a.device.None? then Done(UnknownDevice)
      else
        var dev := a.device.value;
        if dev.config.protocol !in s.adapters then Done(NoAdapter)
        else
          var adapter := s.adapters[dev.config.protocol];
          var payload := adapter.translate(cmd);
          if payload.Err? then Done(Untranslatable) else Begin(s, Job(dev, adapter, cmd, payload.value, Primary))
    case Sending(job, n, backoff) =>
      if a.reply.Err? && Classify(a.reply.error) == Retryable && n < max then Pausing(job, n, backoff)
      else Replied(s, job, a.reply)
    case Pausing(job, n, backoff) =>
      if a.cancelled then Replied(s, job, Err(CONTEXT_CANCELED))
      else Sending(job, n + 1, Wrap64(2 * (backoff as int)))
    case Updating(dev, cmd, data) => Recording(dev, cmd, data)
    case Recording(dev, cmd, data) =>
      if data.Err? then Done(Failed(data.error))
      else
        var t := Telemetry(cmd.correlationId, dev.config.id, a.now, data.value);
        if s.buffered then Storing(t) else Emit(s, t)
    case Storing(t) => Emit(s, t)
    case Emitting(t, n, backoff) =>
      if !a.ok && n < max then Resting(t, n, backoff) else Done(Delivered(t))
    case Resting(t, n, backoff) =>
      if a.cancelled then Done(Delivered(t)) else Emitting(t, n + 1, Wrap64(2 * (backoff as int)))
  }

  // ---------- how many steps are left ----------

  predicate StageOk(s: Setup, stage: Stage) {
    match stage
    case Sending(_, n, _) => 1 <= n <= s.policy.maxAttempts
    case Emitting(_, n, _) => 1 <= n <= s.policy.maxAttempts
    case Pausing(_, n, _) => 1 <= n < s.policy.maxAttempts
    case Resting(_, n, _) => 1 <= n < s.policy.maxAttempts
    case _ => true
  }

  /** Calls of one full retry: every attempt and every wait between two. */
  function RetrySteps(s: Setup): nat {
    if s.policy.maxAttempts >= 1 then 2 * s.policy.maxAttempts - 1 else 0
  }

  ghost predicate ChainsWithin(s: Setup, cmd: Command, keys: set<Protocol>, bound: nat) {
    forall p | p in keys && p in s.adapters :: |FollowUpPayloads(s.adapters[p], cmd)| <= bound
  }

  /** A bound on the follow-ups any of the adapters may ask for. */
  ghost function LongestChain(s: Setup, cmd: Command): (bound: nat)
    ensures forall p | p in s.adapters :: |FollowUpPayloads(s.adapters[p], cmd)| <= bound
  {
    LongestChainExists(s, cmd, s.adapters.Keys);
    var bound: nat :| ChainsWithin(s, cmd, s.adapters.Keys, bound);
    bound
  }

  lemma {:induction false} LongestChainExists(s: Setup, cmd: Command, keys: set<Protocol>)
    requires keys <= s.adapters.Keys
    ensures exists bound: nat :: ChainsWithin(s, cmd, keys, bound)
  {
    if keys == {} {
      assert ChainsWithin(s, cmd, keys, 0);
    } else {
      var q :| q in keys;
      LongestChainExists(s, cmd, keys - {q});
      var bound: nat :| ChainsWithin(s, cmd, keys - {q}, bound);
      assert ChainsWithin(s, cmd, keys, bound + |FollowUpPayloads(s.adapters[q], cmd)|);
    }
  }

  function Pending(job: Job): nat {
    match job.todo
    case Primary => |FollowUpPayloads(job.adapter, job.cmd)|
    case Rest(_, payloads) => |payloads|
  }

  /** The steps a stage can still take before it is done. */
  ghost function StepsLeft(s: Setup, stage: Stage): nat
    requires StageOk(s, stage)
  {
    var full := RetrySteps(s);
    var max := s.policy.maxAttempts;
    match stage
    case Done(_) => 0
    case Resting(_, n, _) => 2 * (max - n)
    case Emitting(_, n, _) => 2 * (max - n) + 1
    case Storing(_) => full + 1
    case Recording(_, _, _) => full + 2
    case Updating(_, _, _) => full + 3
    case Pausing(job, n, _) => 2 * (max - n) + Pending(job) * full + full + 3
    case Sending(job, n, _) => 2 * (max - n) + 1 + Pending(job) * full + full + 3
    case Looking(cmd) => 1 + full + LongestChain(s, cmd) * full + full + 3
  }

  lemma {:induction false} BeginLeft(s: Setup, job: Job)
    ensures StageOk(s, Begin(s, job)) && (Begin(s, job).Sending? || Begin(s, job).Updating?)
    ensures StepsLeft(s, Begin(s, job)) <= RetrySteps(s) + Pending(job) * RetrySteps(s) + RetrySteps(s) + 3
    decreases job.todo.Primary?, if job.todo.Rest? then |job.todo.payloads| else 0, 2
  {
    if s.policy.maxAttempts < 1 {
      RepliedLeft(s, job, Ok([]));
    }
  }

  lemma {:induction false} RepliedLeft(s: Setup, job: Job, reply: Result<Bytes, Error>)
    ensures StageOk(s, Replied(s, job, reply)) && (Replied(s, job, reply).Sending? || Replied(s, job, reply).Updating?)
    ensures StepsLeft(s, Replied(s, job, reply)) <= Pending(job) * RetrySteps(s) + RetrySteps(s) + 3
    decreases job.todo.Primary?, if job.todo.Rest? then |job.todo.payloads| else 0, 1
  {
    assert Pending(job) * RetrySteps(s) >= 0;
    if reply.Ok? && job.adapter.parse(reply.value).Ok? {
      var data := job.adapter.parse(reply.value).value;
      match job.todo
      case Rest(gathered, payloads) => ProceedLeft(s, job, gathered + data, payloads);
      case Primary =>
        if job.adapter.followUps.Some? && job.adapter.followUps.value(job.cmd).Ok? {
          ProceedLeft(s, job, data, job.adapter.followUps.value(job.cmd).value);
        }
    }
  }

  lemma {:induction false} ProceedLeft(s: Setup, job: Job, data: Data, payloads: seq<Bytes>)
    ensures StageOk(s, Proceed(s, job, data, payloads))
    ensures Proceed(s, job, data, payloads).Sending? || Proceed(s, job, data, payloads).Updating?
    ensures StepsLeft(s, Proceed(s, job, data, payloads)) <= |payloads| * RetrySteps(s) + RetrySteps(s) + 3
    decreases false, |payloads|, 0
  {
    if payloads != [] {
      BeginLeft(s, job.(payload := payloads[0], todo := Rest(data, payloads[1..])));
      assert |payloads| * RetrySteps(s) == RetrySteps(s) + (|payloads| - 1) * RetrySteps(s);
    }
  }

  /** Every step leaves strictly fewer, whatever the port answers. */
  lemma AdvanceLeft(s: Setup, stage: Stage, a: Answer)
    requires !stage.Done? && StageOk(s, stage)
    ensures StageOk(s, Advance(s, stage, a))
    ensures StepsLeft(s, Advance(s, stage, a)) < StepsLeft(s, stage)
  {
    match stage
    case Looking(cmd) => LookingLeft(s, cmd, a);
    case Sending(job, _, _) => RepliedLeft(s, job, a.reply);
    case Pausing(job, _, _) => RepliedLeft(s, job, Err(CONTEXT_CANCELED));
    case _ =>
  }

  lemma LookingLeft(s: Setup, cmd: Command, a: Answer)
    ensures StageOk(s, Advance(s, Looking(cmd), a))
    ensures StepsLeft(s, Advance(s, Looking(cmd), a)) < StepsLeft(s, Looking(cmd))
  {
    var full := RetrySteps(s);
    assert LongestChain(s, cmd) * full >= 0;
    if a.device.Some? && a.device.value.config.protocol in s.adapters {
      var adapter := s.adapters[a.device.value.config.protocol];
      if adapter.translate(cmd).Ok? {
        var job := Job(a.device.value, adapter, cmd, adapter.translate(cmd).value, Primary);
        BeginLeft(s, job);
        TimesGrows(Pending(job), LongestChain(s, cmd), full);
      }
    }
  }

  lemma TimesGrows(a: nat, b: nat, c: nat)
    requires a <= b
    ensures a * c <= b * c
  {
  }

  // ---------- the steps against the code ----------

  /** Taking steps from a stage to the end, with the answers of a script. */
  ghost function Finish(s: Setup, script: Script, stage: Stage, j: Journal): (Disposition, Journal)
    requires StageOk(s, stage)
    decreases StepsLeft(s, stage)
  {
    if stage.Done? then (stage.disposition, j)
    else
      AdvanceLeft(s, stage, script(|j|));
      Finish(s, script, Advance(s, stage, script(|j|)), j + [CallAt(stage, script(|j|))])
  }

  lemma {:induction false} EmittingFinishes(s: Setup, script: Script, t: Telemetry, n: int, backoff: Duration, j: Journal)
    requires 1 <= n <= s.policy.maxAttempts
    ensures Finish(s, script, Emitting(t, n, backoff), j) ==
            (Delivered(t), Publications(s.policy, script, j, t, n, backoff))
    decreases s.policy.maxAttempts - n
  {
    if !script(|j|).ok && n < s.policy.maxAttempts {
      var sent := j + [Publish(t)];
      assert Finish(s, script, Emitting(t, n, backoff), j) == Finish(s, script, Resting(t, n, backoff), sent);
      if !script(|sent|).cancelled {
        EmittingFinishes(s, script, t, n + 1, Wrap64(2 * (backoff as int)), sent + [Wait(backoff)]);
      }
    }
  }

  lemma EmitFinishes(s: Setup, script: Script, t: Telemetry, j: Journal)
    ensures Finish(s, script, Emit(s, t), j) ==
            (Delivered(t), Publications(s.policy, script, j, t, 1, s.policy.baseBackoff))
  {
    if s.policy.maxAttempts >= 1 {
      EmittingFinishes(s, script, t, 1, s.policy.baseBackoff, j);
    }
  }

  lemma UpdatingFinishes(s: Setup, script: Script, dev: Device, cmd: Command, data: Result<Data, Error>, j: Journal)
    ensures Finish(s, script, Updating(dev, cmd, data), j) == Conclude(s, script, j, dev, cmd, data)
  {
    var updated := j + [Update(Seen(dev, data.Ok?, script(|j|).now))];
    var recorded := updated + [Record(dev.config.protocol, data.Ok?)];
    assert recorded == j + [Update(Seen(dev, data.Ok?, script(|j|).now)), Record(dev.config.protocol, data.Ok?)];
    assert Finish(s, script, Updating(dev, cmd, data), j) == Finish(s, script, Recording(dev, cmd, data), updated);
    if data.Ok? {
      var t := Telemetry(cmd.correlationId, dev.config.id, script(|updated|).now, data.value);
      if s.buffered {
        assert Finish(s, script, Recording(dev, cmd, data), updated) == Finish(s, script, Storing(t), recorded);
        EmitFinishes(s, script, t, recorded + [Buffer(t)]);
      } else {
        EmitFinishes(s, script, t, recorded);
      }
    }
  }

  lemma {:induction false} SendingFinishes(
    s: Setup, script: Script, job: Job, n: int, backoff: Duration, last: Option<Error>, j: Journal)
    requires 1 <= n <= s.policy.maxAttempts
    ensures StageOk(s, Replied(s, job, Attempts(s.policy, script, j, job.dev, job.payload, n, backoff, last).0))
    ensures var (reply, sent) := Attempts(s.policy, script, j, job.dev, job.payload, n, backoff, last);
            Finish(s, script, Sending(job, n, backoff), j) == Finish(s, script, Replied(s, job, reply), sent)
    decreases s.policy.maxAttempts - n
  {
    var (reply, _) := Attempts(s.policy, script, j, job.dev, job.payload, n, backoff, last);
    RepliedLeft(s, job, reply);
    var a := script(|j|);
    var sent := j + [Send(job.dev, job.payload)];
    if a.reply.Err? && Classify(a.reply.error) == Retryable && n < s.policy.maxAttempts {
      var waited := sent + [Wait(backoff)];
      assert Finish(s, script, Sending(job, n, backoff), j) == Finish(s, script, Pausing(job, n, backoff), sent);
      if !script(|sent|).cancelled {
        SendingFinishes(s, script, job, n + 1, Wrap64(2 * (backoff as int)), Some(a.reply.error), waited);
      }
    }
  }

  lemma BeginFinishes(s: Setup, script: Script, job: Job, j: Journal)
    ensures StageOk(s, Begin(s, job)) && StageOk(s, Replied(s, job, Retry(s.policy, script, j, job.dev, job.payload).0))
    ensures var (reply, sent) := Retry(s.policy, script, j, job.dev, job.payload);
            Finish(s, script, Begin(s, job), j) == Finish(s, script, Replied(s, job, reply), sent)
  {
    BeginLeft(s, job);
    RepliedLeft(s, job, Retry(s.policy, script, j, job.dev, job.payload).0);
    if s.policy.maxAttempts >= 1 {
      SendingFinishes(s, script, job, 1, s.policy.baseBackoff, None, j);
    }
  }

  lemma {:induction false} ProceedFinishes(
    s: Setup, script: Script, job: Job, data: Data, payloads: seq<Bytes>, j: Journal)
    ensures StageOk(s, Proceed(s, job, data, payloads))
    ensures var (result, sent) := FollowUp(s, script, j, job.dev, job.adapter, data, payloads);
            Finish(s, script, Proceed(s, job, data, payloads), j) == Conclude(s, script, sent, job.dev, job.cmd, result)
    decreases |payloads|
  {
    ProceedLeft(s, job, data, payloads);
    if payloads == [] {
      UpdatingFinishes(s, script, job.dev, job.cmd, Ok(data), j);
    } else {
      var next := job.(payload := payloads[0], todo := Rest(data, payloads[1..]));
      BeginFinishes(s, script, next, j);
      var (reply, sent) := Retry(s.policy, script, j, job.dev, payloads[0]);
      if reply.Err? {
        UpdatingFinishes(s, script, job.dev, job.cmd, Err(reply.error), sent);
      } else {
        var extra := job.adapter.parse(reply.value);
        if extra.Err? {
          UpdatingFinishes(s, script, job.dev, job.cmd, extra, sent);
        } else {
          ProceedFinishes(s, script, next, data + extra.value, payloads[1..], sent);
        }
      }
    }
  }

  lemma PrimaryFinishes(s: Setup, script: Script, job: Job, j: Journal)
    requires job.todo == Primary
    ensures StageOk(s, Begin(s, job))
    ensures var (result, sent) := Chain(s, script, j, job.dev, job.adapter, job.cmd, job.payload);
            Finish(s, script, Begin(s, job), j) == Conclude(s, script, sent, job.dev, job.cmd, result)
  {
    BeginFinishes(s, script, job, j);
    var (reply, sent) := Retry(s.policy, script, j, job.dev, job.payload);
    if reply.Err? {
      UpdatingFinishes(s, script, job.dev, job.cmd, Err(reply.error), sent);
    } else {
      var data := job.adapter.parse(reply.value);
      if data.Err? || job.adapter.followUps.None? {
        UpdatingFinishes(s, script, job.dev, job.cmd, data, sent);
      } else {
        var more := job.adapter.followUps.value(job.cmd);
        if more.Err? {
          UpdatingFinishes(s, script, job.dev, job.cmd, Err(more.error), sent);
        } else {
          ProceedFinishes(s, script, job, data.value, more.value, sent);
        }
      }
    }
  }

  /** Step by step, a command ends with the disposition and the journal of the sequential code, for
      every adapter, every policy and every script of answers. */
  lemma StepsAreTheCode(s: Setup, script: Script, cmd: Command)
    ensures Finish(s, script, Looking(cmd), []) == Process(s, script, cmd)
  {
    var found := script(0).device;
    var looked := [Lookup(cmd.deviceId)];
    assert [] + looked == looked;
    AdvanceLeft(s, Looking(cmd), script(0));
    assert Finish(s, script, Looking(cmd), []) == Finish(s, script, Advance(s, Looking(cmd), script(0)), looked);
    if found.Some? && found.value.config.protocol in s.adapters {
      var adapter := s.adapters[found.value.config.protocol];
      if adapter.translate(cmd).Ok? {
        PrimaryFinishes(s, script, Job(found.value, adapter, cmd, adapter.translate(cmd).value, Primary), looked);
      }
    }
  }
}
