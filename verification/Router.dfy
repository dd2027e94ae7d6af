/** The routing engine's work on one command, as functions of what its ports answer. */
module Router {
  import opened Domain
  import opened Errors
  import opened RegistryRuns

  const TWO_63 := 0x8000_0000_0000_0000

  predicate InRange(n: int) { -TWO_63 <= n < TWO_63 }

  /** A 64-bit count of nanoseconds. */
  type Duration = n: int | InRange(n)

  datatype Policy = Policy(maxAttempts: int, baseBackoff: Duration)

  /** A protocol adapter; `followUps` is None for one that cannot chain commands. */
  datatype Adapter = Adapter(
    translate: Command -> Result<Bytes, Error>,
    parse: Bytes -> Result<Data, Error>,
    followUps: Option<Command -> Result<seq<Bytes>, Error>>)

  datatype Setup = Setup(policy: Policy, adapters: map<Protocol, Adapter>, buffered: bool)

  /** What the engine asks of its ports, in the order in which it asks. */
  datatype Call =
    | Lookup(id: string)
    | Send(device: Device, payload: Bytes)
    | Wait(duration: Duration)
    | Update(update: Device)
    | Record(protocol: Protocol, success: bool)
    | Buffer(buffered: Telemetry)
    | Publish(published: Telemetry)

  type Journal = seq<Call>

  /** The outcome of a call, whichever it is: the device found, the reply to a send, whether a wait
      was cut short by cancellation, whether a publish was accepted, and the time of the call. */
  datatype Answer = Answer(device: Option<Device>, reply: Result<Bytes, Error>, cancelled: bool, ok: bool, now: int)

  /** The answer to the call at each position of the journal. */
  type Script = nat -> Answer

  // ---------- durations ----------

  /** A 64-bit signed integer after wrap-around. */
  function Wrap64(n: int): Duration {
    (n + TWO_63) % (2 * TWO_63) - TWO_63
  }

  function Pow2(n: nat): nat {
    if n == 0 then 1 else 2 * Pow2(n - 1)
  }

  // ---------- one send or publish, with retries ----------

  function Attempts(
    p: Policy, script: Script, j: Journal, dev: Device, payload: Bytes,
    attempt: int, backoff: Duration, last: Option<Error>)
    : (Result<Bytes, Error>, Journal)
    decreases if attempt <= p.maxAttempts then p.maxAttempts - attempt + 1 else 0
  {
    if attempt > p.maxAttempts then (if last.Some? then Err(last.value) else Ok([]), j)
    else
      var reply := script(|j|).reply;
      var sent := j + [Send(dev, payload)];
      if reply.Ok? || Classify(reply.error) != Retryable then (reply, sent)
      else if attempt < p.maxAttempts then
        var waited := sent + [Wait(backoff)];
        if script(|sent|).cancelled then (Err(CONTEXT_CANCELED), waited)
        else Attempts(p, script, waited, dev, payload, attempt + 1, Wrap64(2 * (backoff as int)), Some(reply.error))
      else Attempts(p, script, sent, dev, payload, attempt + 1, backoff, Some(reply.error))
  }

  function Retry(p: Policy, script: Script, j: Journal, dev: Device, payload: Bytes): (Result<Bytes, Error>, Journal) {
    Attempts(p, script, j, dev, payload, 1, p.baseBackoff, None)
  }

  function Publications(p: Policy, script: Script, j: Journal, t: Telemetry, attempt: int, backoff: Duration): Journal
    decreases if attempt <= p.maxAttempts then p.maxAttempts - attempt + 1 else 0
  {
    if attempt > p.maxAttempts then j
    else
      var sent := j + [Publish(t)];
      if script(|j|).ok then sent
      else if attempt < p.maxAttempts then
        var waited := sent + [Wait(backoff)];
        if script(|sent|).cancelled then waited
        else Publications(p, script, waited, t, attempt + 1, Wrap64(2 * (backoff as int)))
      else Publications(p, script, sent, t, attempt + 1, backoff)
  }

  // ---------- the chain ----------

  function FollowUp(
    s: Setup, script: Script, j: Journal, dev: Device, adapter: Adapter, data: Data, payloads: seq<Bytes>)
    : (Result<Data, Error>, Journal)
    decreases |payloads|
  {
    if payloads == [] then (Ok(data), j)
    else
      var (reply, sent) := Retry(s.policy, script, j, dev, payloads[0]);
      if reply.Err? then (Err(reply.error), sent)
      else
        var extra := adapter.parse(reply.value);
        if extra.Err? then (extra, sent)
        else FollowUp(s, script, sent, dev, adapter, data + extra.value, payloads[1..])
  }

  function Chain(
    s: Setup, script: Script, j: Journal, dev: Device, adapter: Adapter, cmd: Command, payload: Bytes)
    : (Result<Data, Error>, Journal)
  {
    var (reply, sent) := Retry(s.policy, script, j, dev, payload);
    if reply.Err? then (Err(reply.error), sent)
    else
      var data := adapter.parse(reply.value);
      if data.Err? || adapter.followUps.None? then (data, sent)
      else
        var more := adapter.followUps.value(cmd);
        if more.Err? then (Err(more.error), sent)
        else FollowUp(s, script, sent, dev, adapter, data.value, more.value)
  }

  // ---------- one command ----------

  /** How the engine is done with a command. */
  datatype Disposition =
    | UnknownDevice
    | NoAdapter
    | Untranslatable
    | Failed(error: Error)
    | Delivered(telemetry: Telemetry)

  /** The device copy after the chain, as it is written back. */
  function Seen(dev: Device, success: bool, now: int): Device {
    WriteBack(dev, if success then Online else Offline, now)
  }

  function Process(s: Setup, script: Script, cmd: Command): (Disposition, Journal) {
    var looked := [Lookup(cmd.deviceId)];
    var found := script(0).device;
    if found.None? then (UnknownDevice, looked)
    else
      var dev := found.value;
      if dev.config.protocol !in s.adapters then (NoAdapter, looked)
      else
        var adapter := s.adapters[dev.config.protocol];
        var payload := adapter.translate(cmd);
        if payload.Err? then (Untranslatable, looked)
        else
          var (data, chained) := Chain(s, script, looked, dev, adapter, cmd, payload.value);
          Conclude(s, script, chained, dev, cmd, data)
  }

  /** What follows the chain: the write-back, the latency record, and on success the telemetry. */
  function Conclude(
    s: Setup, script: Script, j: Journal, dev: Device, cmd: Command, data: Result<Data, Error>)
    : (Disposition, Journal)
  {
    var recorded := j + [Update(Seen(dev, data.Ok?, script(|j|).now)), Record(dev.config.protocol, data.Ok?)];
    if data.Err? then (Failed(data.error), recorded)
    else
      var t := Telemetry(cmd.correlationId, dev.config.id, script(|j| + 1).now, data.value);
      var buffered := if s.buffered then recorded + [Buffer(t)] else recorded;
      (Delivered(t), Publications(s.policy, script, buffered, t, 1, s.policy.baseBackoff))
  }
}
