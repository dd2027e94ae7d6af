/** One command as a whole: its sends, its telemetry, and what its outcome leaves in the journal. */
module CommandLaws {
  import opened Domain
  import opened Errors
  import opened Router
  import opened RetryLaws

  // ---------- counting calls ----------

  datatype Kind = Lookups | Sends | Waiting | Updates | Successes | Failures | Buffers | Publishes

  function KindOf(c: Call): Kind {
    match c
    case Lookup(_) => Lookups
    case Send(_, _) => Sends
    case Wait(_) => Waiting
    case Update(_) => Updates
    case Record(_, success) => if success then Successes else Failures
    case Buffer(_) => Buffers
    case Publish(_) => Publishes
  }

  function Count(j: Journal, kind: Kind): nat {
    if j == [] then 0 else (if KindOf(j[0]) == kind then 1 else 0) + Count(j[1..], kind)
  }

  lemma {:induction false} CountAppend(a: Journal, b: Journal, kind: Kind)
    ensures Count(a + b, kind) == Count(a, kind) + Count(b, kind)
  {
    if a == [] {
      assert a + b == b;
    } else {
      assert (a + b)[1..] == a[1..] + b;
      CountAppend(a[1..], b, kind);
    }
  }

  lemma {:induction false} RoundsCount(call: Call, unit: int, n: nat, kind: Kind)
    requires !call.Wait?
    ensures 2 * Count(Rounds(call, unit, n), KindOf(call)) <= n + 1
    ensures kind != KindOf(call) && kind != Waiting ==> Count(Rounds(call, unit, n), kind) == 0
    decreases n
  {
    if n >= 2 {
      RoundsCount(call, 2 * unit, n - 2, kind);
      CountAppend([call, Wait(Wrap64(unit))], Rounds(call, 2 * unit, n - 2), KindOf(call));
      CountAppend([call, Wait(Wrap64(unit))], Rounds(call, 2 * unit, n - 2), kind);
      assert [call, Wait(Wrap64(unit))][1..] == [Wait(Wrap64(unit))];
    } else if n == 1 {
      assert [call][1..] == [];
    }
  }

  // ---------- the chain ----------

  /** Attempts allowed per payload; none when the configured number is not positive. */
  function Cap(p: Policy): nat {
    if p.maxAttempts > 0 then p.maxAttempts else 0
  }

  /** The follow-up payloads of a command, as far as its adapter has any. */
  function FollowUpPayloads(adapter: Adapter, cmd: Command): seq<Bytes> {
    if adapter.followUps.None? then []
    else
      var more := adapter.followUps.value(cmd);
      if more.Ok? then more.value else []
  }

  /** Everything a command has to send. */
  function Payloads(adapter: Adapter, cmd: Command): seq<Bytes>
    requires adapter.translate(cmd).Ok?
  {
    [adapter.translate(cmd).value] + FollowUpPayloads(adapter, cmd)
  }

  /** A stretch of the journal that only sends these payloads to one device, and waits. */
  ghost predicate Probing(dev: Device, payloads: seq<Bytes>, calls: Journal) {
    forall c | c in calls :: c.Wait? || (c.Send? && c.device == dev && c.payload in payloads)
  }

  /** A retry adds at most the allowed number of sends, and nothing but sends to the device and waits. */
  lemma RetryAdds(p: Policy, script: Script, j: Journal, dev: Device, payload: Bytes) returns (calls: Journal)
    ensures Retry(p, script, j, dev, payload).1 == j + calls
    ensures Probing(dev, [payload], calls) && Count(calls, Sends) <= Cap(p)
  {
    if p.maxAttempts >= 1 {
      var k, n := RetryConcludes(p, script, j, dev, payload);
      calls := Rounds(Send(dev, payload), p.baseBackoff, n);
      RoundsCount(Send(dev, payload), p.baseBackoff, n, Sends);
      RoundsLength(Send(dev, payload), p.baseBackoff, n);
      forall c | c in calls
        ensures c.Wait? || c == Send(dev, payload)
      {
        var i :| 0 <= i < |calls| && calls[i] == c;
        assert i % 2 == 0 || i % 2 == 1;
      }
    } else {
      calls := [];
      assert j + [] == j;
    }
  }

  lemma {:induction false} FollowUpAdds(
    s: Setup, script: Script, j: Journal, dev: Device, adapter: Adapter, data: Data, payloads: seq<Bytes>)
    returns (calls: Journal)
    ensures FollowUp(s, script, j, dev, adapter, data, payloads).1 == j + calls
    ensures Probing(dev, payloads, calls) && Count(calls, Sends) <= Cap(s.policy) * |payloads|
    decreases |payloads|
  {
    calls := [];
    assert j + [] == j;
    if payloads != [] {
      calls := RetryAdds(s.policy, script, j, dev, payloads[0]);
      var (reply, sent) := Retry(s.policy, script, j, dev, payloads[0]);
      Times(Cap(s.policy), |payloads|);
      if reply.Ok? && adapter.parse(reply.value).Ok? {
        var more := FollowUpAdds(
          s, script, sent, dev, adapter, data + adapter.parse(reply.value).value, payloads[1..]);
        CountAppend(calls, more, Sends);
        assert sent + more == j + (calls + more);
        calls := calls + more;
      }
    }
  }

  lemma Times(a: nat, b: nat)
    requires b > 0
    ensures a * b == a + a * (b - 1) && a * (b - 1) >= 0
  {
  }

  /** A chain adds at most the allowed number of sends per payload, and touches only its device. */
  lemma ChainAdds(s: Setup, script: Script, j: Journal, dev: Device, adapter: Adapter, cmd: Command, payload: Bytes)
    returns (calls: Journal)
    ensures Chain(s, script, j, dev, adapter, cmd, payload).1 == j + calls
    ensures Probing(dev, [payload] + FollowUpPayloads(adapter, cmd), calls)
    ensures Count(calls, Sends) <= Cap(s.policy) * (1 + |FollowUpPayloads(adapter, cmd)|)
  {
    calls := RetryAdds(s.policy, script, j, dev, payload);
    var (reply, sent) := Retry(s.policy, script, j, dev, payload);
    var payloads := FollowUpPayloads(adapter, cmd);
    Times(Cap(s.policy), 1 + |payloads|);
    if reply.Ok? && adapter.parse(reply.value).Ok? && adapter.followUps.Some? && adapter.followUps.value(cmd).Ok? {
      var more := FollowUpAdds(s, script, sent, dev, adapter, adapter.parse(reply.value).value, payloads);
      CountAppend(calls, more, Sends);
      assert sent + more == j + (calls + more);
      calls := calls + more;
    }
  }

  /** From position `from` of the journal on, one answered and parsed send per payload, in order, at
      the positions `ends`; `result` is `data` overridden by their parses from left to right. */
  predicate Gathers(
    script: Script, j: Journal, from: nat, dev: Device, adapter: Adapter,
    data: Data, payloads: seq<Bytes>, ends: seq<nat>, result: Data)
    decreases |payloads|
  {
    if payloads == [] then ends == [] && result == data
    else
      && ends != [] && from <= ends[0] < |j| && j[ends[0]] == Send(dev, payloads[0])
      && script(ends[0]).reply.Ok?
      && var extra := adapter.parse(script(ends[0]).reply.value);
         extra.Ok? &&
         Gathers(script, j, ends[0] + 1, dev, adapter, data + extra.value, payloads[1..], ends[1..], result)
  }

  lemma {:induction false} FollowUpGathers(
    s: Setup, script: Script, j: Journal, dev: Device, adapter: Adapter, data: Data, payloads: seq<Bytes>)
    returns (ends: seq<nat>)
    requires s.policy.maxAttempts >= 1
    requires FollowUp(s, script, j, dev, adapter, data, payloads).0.Ok?
    ensures var (result, after) := FollowUp(s, script, j, dev, adapter, data, payloads);
            j <= after && Gathers(script, after, |j|, dev, adapter, data, payloads, ends, result.value)
    decreases |payloads|
  {
    ends := [];
    if payloads != [] {
      var (reply, sent) := Retry(s.policy, script, j, dev, payloads[0]);
      var _ := RetryAdds(s.policy, script, j, dev, payloads[0]);
      EmptySuccess(s.policy, script, j, dev, payloads[0]);
      var rest := FollowUpGathers(
        s, script, sent, dev, adapter, data + adapter.parse(reply.value).value, payloads[1..]);
      ends := [|sent| - 1] + rest;
      assert ends[1..] == rest;
    }
  }

  /** A successful chain's telemetry is the left-to-right override of the parsed replies: one answered
      send for the primary payload, then one for each follow-up, in order. */
  lemma ChainGathers(s: Setup, script: Script, j: Journal, dev: Device, adapter: Adapter, cmd: Command, payload: Bytes)
    returns (ends: seq<nat>)
    requires s.policy.maxAttempts >= 1
    requires Chain(s, script, j, dev, adapter, cmd, payload).0.Ok?
    ensures var (result, after) := Chain(s, script, j, dev, adapter, cmd, payload);
            Gathers(script, after, |j|, dev, adapter, map[], [payload] + FollowUpPayloads(adapter, cmd), ends, result.value)
  {
    var (reply, sent) := Retry(s.policy, script, j, dev, payload);
    var _ := RetryAdds(s.policy, script, j, dev, payload);
    EmptySuccess(s.policy, script, j, dev, payload);
    var data := adapter.parse(reply.value).value;
    var payloads := FollowUpPayloads(adapter, cmd);
    var rest: seq<nat> := [];
    if adapter.followUps.Some? {
      rest := FollowUpGathers(s, script, sent, dev, adapter, data, payloads);
    }
    ends := [|sent| - 1] + rest;
    assert ends[1..] == rest && ([payload] + payloads)[1..] == payloads;
    assert map[] + data == data;
  }

  // ---------- the outcome ----------

  /** The device, its adapter and the translation are there. */
  predicate Dispatchable(s: Setup, script: Script, cmd: Command) {
    && script(0).device.Some? && script(0).device.value.config.protocol in s.adapters
    && s.adapters[script(0).device.value.config.protocol].translate(cmd).Ok?
  }

  ghost predicate Publishing(t: Telemetry, calls: Journal) {
    forall c | c in calls :: c.Wait? || c == Publish(t)
  }

  /** The write-back and the latency record that follow the chain. */
  function Marks(dev: Device, success: bool, now: int): Journal {
    [Update(dev.(status := if success then Online else Offline, lastSeen := now)), Record(dev.config.protocol, success)]
  }

  /** Up to the latency record. */
  function Head(cmd: Command, dev: Device, success: bool, probing: Journal, now: int): Journal {
    [Lookup(cmd.deviceId)] + probing + Marks(dev, success, now)
  }

  /** After it: one buffering, if there is a buffer, then the publishing. */
  function Tail(s: Setup, t: Telemetry, publishing: Journal): Journal {
    (if s.buffered then [Buffer(t)] else []) + publishing
  }

  /** The shape of a command's journal: a lookup; then, if the device, its adapter and the translation
      are there, probing of that device, one write-back and one latency record; and only after
      success one buffering, if there is a buffer, before the first publish. */
  ghost predicate Shaped(
    s: Setup, script: Script, cmd: Command, d: Disposition, j: Journal, probing: Journal, publishing: Journal)
  {
    if d.UnknownDevice? || d.NoAdapter? || d.Untranslatable? then
      j == [Lookup(cmd.deviceId)] && (d.UnknownDevice? <==> script(0).device.None?)
    else
      && Dispatchable(s, script, cmd)
      && var dev := script(0).device.value;
         var head := Head(cmd, dev, d.Delivered?, probing, script(1 + |probing|).now);
         && Probing(dev, Payloads(s.adapters[dev.config.protocol], cmd), probing)
         && if d.Failed? then j == head
            else
              && d.telemetry.correlationId == cmd.correlationId && d.telemetry.deviceId == dev.config.id
              && d.telemetry.timestamp == script(2 + |probing|).now
              && j == head + Tail(s, d.telemetry, publishing)
              && Publishing(d.telemetry, publishing)
              && (s.policy.maxAttempts >= 1 ==> publishing != [] && publishing[0] == Publish(d.telemetry))
              && Count(publishing, Publishes) <= Cap(s.policy)
  }

  lemma ProcessShape(s: Setup, script: Script, cmd: Command) returns (probing: Journal, publishing: Journal)
    ensures Shaped(s, script, cmd, Process(s, script, cmd).0, Process(s, script, cmd).1, probing, publishing)
  {
    probing, publishing := [], [];
    var found := script(0).device;
    if found.Some? && found.value.config.protocol in s.adapters {
      var dev := found.value;
      var adapter := s.adapters[dev.config.protocol];
      var payload := adapter.translate(cmd);
      if payload.Ok? {
        var looked := [Lookup(cmd.deviceId)];
        probing := ChainAdds(s, script, looked, dev, adapter, cmd, payload.value);
        publishing := ConcludeShape(
          s, script, cmd, dev, probing, Chain(s, script, looked, dev, adapter, cmd, payload.value).0);
      }
    }
  }

  lemma ConcludeShape(s: Setup, script: Script, cmd: Command, dev: Device, probing: Journal, data: Result<Data, Error>)
    returns (publishing: Journal)
    requires script(0).device == Some(dev) && Dispatchable(s, script, cmd)
    requires Probing(dev, Payloads(s.adapters[dev.config.protocol], cmd), probing)
    ensures var (d, j) := Conclude(s, script, [Lookup(cmd.deviceId)] + probing, dev, cmd, data);
            Shaped(s, script, cmd, d, j, probing, publishing)
  {
    publishing := [];
    if data.Ok? {
      var head := Head(cmd, dev, true, probing, script(1 + |probing|).now);
      var t := Telemetry(cmd.correlationId, dev.config.id, script(2 + |probing|).now, data.value);
      var buffered := if s.buffered then head + [Buffer(t)] else head;
      publishing := PublicationsAdd(s.policy, script, buffered, t);
      assert buffered + publishing == head + Tail(s, t, publishing);
    }
  }

  /** What a command delivers, over its whole journal: the override, from left to right, of the parsed
      replies to its payloads, each an answered send; and it is what every buffering and every publish
      of the journal carries. */
  lemma DeliveredGathers(s: Setup, script: Script, cmd: Command, t: Telemetry) returns (ends: seq<nat>)
    requires s.policy.maxAttempts >= 1 && Process(s, script, cmd).0 == Delivered(t)
    ensures Dispatchable(s, script, cmd)
    ensures var dev, j := script(0).device.value, Process(s, script, cmd).1;
            var adapter := s.adapters[dev.config.protocol];
            && Gathers(script, j, 1, dev, adapter, map[], Payloads(adapter, cmd), ends, t.data)
            && Carries(j, t)
  {
    var dev := script(0).device.value;
    var adapter := s.adapters[dev.config.protocol];
    var payload := adapter.translate(cmd).value;
    var looked := [Lookup(cmd.deviceId)];
    ends := ChainGathers(s, script, looked, dev, adapter, cmd, payload);
    var (data, chained) := Chain(s, script, looked, dev, adapter, cmd, payload);
    ConcludeExtends(s, script, chained, dev, cmd, data);
    GathersLonger(script, chained, Process(s, script, cmd).1, 1, dev, adapter, map[],
                  [payload] + FollowUpPayloads(adapter, cmd), ends, t.data);
    DeliveredCarries(s, script, cmd, t);
  }

  ghost predicate Carries(j: Journal, t: Telemetry) {
    forall c | c in j :: (c.Buffer? ==> c.buffered == t) && (c.Publish? ==> c.published == t)
  }

  lemma DeliveredCarries(s: Setup, script: Script, cmd: Command, t: Telemetry)
    requires Process(s, script, cmd).0 == Delivered(t)
    ensures Carries(Process(s, script, cmd).1, t)
  {
    var probing, publishing := ProcessShape(s, script, cmd);
    assert forall c | c in probing :: c.Wait? || c.Send?;
    assert forall c | c in publishing :: c.Wait? || c == Publish(t);
  }

  /** Why a command ends as it does: no device, no adapter and no payload are told apart, and any other
      command is carried out, with the outcome of its chain. */
  lemma DispositionExactly(s: Setup, script: Script, cmd: Command)
    ensures var d := Process(s, script, cmd).0;
            var found := script(0).device;
            && (d.UnknownDevice? <==> found.None?)
            && (d.NoAdapter? <==> found.Some? && found.value.config.protocol !in s.adapters)
            && (d.Untranslatable? <==>
                  found.Some? && found.value.config.protocol in s.adapters &&
                  s.adapters[found.value.config.protocol].translate(cmd).Err?)
            && (d.Failed? || d.Delivered? <==> Dispatchable(s, script, cmd))
    ensures Dispatchable(s, script, cmd) ==>
              var dev := script(0).device.value;
              var adapter := s.adapters[dev.config.protocol];
              var result :=
                Chain(s, script, [Lookup(cmd.deviceId)], dev, adapter, cmd, adapter.translate(cmd).value).0;
              match Process(s, script, cmd).0
              case Delivered(t) => result == Ok(t.data)
              case Failed(e) => result == Err(e)
              case _ => false
  {
  }

  /** A write-back changes nothing but status and last-seen time of the device that was looked up:
      online, seen now, exactly if the command is delivered, else offline. A command that is carried
      out has one of them, and no other command has any. The latency record says the same. */
  lemma WriteBackExactly(s: Setup, script: Script, cmd: Command)
    ensures var (d, j) := Process(s, script, cmd);
            && (forall i :: 0 <= i < |j| && j[i].Update? ==>
                  && script(0).device.Some?
                  && j[i].update == script(0).device.value.(
                       status := if d.Delivered? then Online else Offline, lastSeen := script(i).now))
            && (forall i :: 0 <= i < |j| && j[i].Record? ==>
                  && script(0).device.Some?
                  && j[i].protocol == script(0).device.value.config.protocol && j[i].success == d.Delivered?
                  && (d.Delivered? ==> d.telemetry.timestamp == script(i).now))
            && Count(j, Updates) == (if d.Delivered? || d.Failed? then 1 else 0)
  {
    var probing, publishing := ProcessShape(s, script, cmd);
    var (d, j) := Process(s, script, cmd);
    CountShaped(s, script, cmd, d, j, probing, publishing, Updates);
    if d.Delivered? || d.Failed? {
      MarksAt(s, script, cmd, d, j, probing, publishing);
      MarksSay(script, d, j, |probing|);
    }
  }

  lemma MarksSay(script: Script, d: Disposition, j: Journal, n: nat)
    requires MarksOnly(script, d, j, n)
    ensures forall i :: 0 <= i < |j| && j[i].Update? ==>
              j[i].update == script(0).device.value.(
                status := if d.Delivered? then Online else Offline, lastSeen := script(i).now)
    ensures forall i :: 0 <= i < |j| && j[i].Record? ==>
              && j[i].protocol == script(0).device.value.config.protocol && j[i].success == d.Delivered?
              && (d.Delivered? ==> d.telemetry.timestamp == script(i).now)
  {
  }

  /** The write-back and the latency record stand right after `n` calls of probing, and nowhere else. */
  ghost predicate MarksOnly(script: Script, d: Disposition, j: Journal, n: nat) {
    && |j| >= 3 + n && script(0).device.Some?
    && var dev := script(0).device.value;
       && j[1 + n] == Update(dev.(status := if d.Delivered? then Online else Offline, lastSeen := script(1 + n).now))
       && j[2 + n] == Record(dev.config.protocol, d.Delivered?)
       && (d.Delivered? ==> d.telemetry.timestamp == script(2 + n).now)
       && forall i :: 0 <= i < |j| && (j[i].Update? || j[i].Record?) ==> i == 1 + n || i == 2 + n
  }

  lemma MarksAt(
    s: Setup, script: Script, cmd: Command, d: Disposition, j: Journal, probing: Journal, publishing: Journal)
    requires (d.Delivered? || d.Failed?) && Shaped(s, script, cmd, d, j, probing, publishing)
    ensures MarksOnly(script, d, j, |probing|)
  {
    var dev, n := script(0).device.value, |probing|;
    var head := Head(cmd, dev, d.Delivered?, probing, script(1 + n).now);
    MarksInHead(cmd, dev, d.Delivered?, probing, script(1 + n).now);
    if d.Delivered? {
      var tail := Tail(s, d.telemetry, publishing);
      assert forall c | c in tail :: c == Buffer(d.telemetry) || c in publishing;
      assert forall i :: 0 <= i < |head| ==> j[i] == head[i];
      assert forall i :: 3 + n <= i < |j| ==> j[i] == tail[i - (3 + n)] && j[i] in tail;
    }
  }

  lemma MarksInHead(cmd: Command, dev: Device, success: bool, probing: Journal, now: int)
    requires forall c | c in probing :: c.Wait? || c.Send?
    ensures var head, n := Head(cmd, dev, success, probing, now), |probing|;
            && |head| == 3 + n
            && head[1 + n] == Update(dev.(status := if success then Online else Offline, lastSeen := now))
            && head[2 + n] == Record(dev.config.protocol, success)
            && forall i :: 0 <= i < 1 + n ==> !head[i].Update? && !head[i].Record?
  {
    var head := Head(cmd, dev, success, probing, now);
    assert forall i :: 1 <= i < 1 + |probing| ==> head[i] == probing[i - 1] && head[i] in probing;
  }

  /** A command sends nothing but its own payloads, to the device that was looked up. */
  lemma ProcessSends(s: Setup, script: Script, cmd: Command)
    ensures forall c | c in Process(s, script, cmd).1 && c.Send? ::
              && Dispatchable(s, script, cmd) && c.device == script(0).device.value
              && c.payload in Payloads(s.adapters[c.device.config.protocol], cmd)
  {
    var probing, publishing := ProcessShape(s, script, cmd);
    var (d, j) := Process(s, script, cmd);
    assert forall c | c in publishing && d.Delivered? :: c.Wait? || c == Publish(d.telemetry);
  }

  // ---------- why a chain fails ----------

  /** The error comes from somewhere: a retry of one of the payloads that gave up with it, the parsing
      of a reply, or the adapter's follow-ups. */
  ghost predicate Blames(
    s: Setup, script: Script, after: Journal, dev: Device, adapter: Adapter, cmd: Command, payloads: seq<Bytes>, e: Error)
  {
    || (exists at: Journal, payload :: at <= after && payload in payloads && Retry(s.policy, script, at, dev, payload).0 == Err(e))
    || (exists at: Journal, payload ::
          && at <= after && payload in payloads && Retry(s.policy, script, at, dev, payload).0.Ok?
          && adapter.parse(Retry(s.policy, script, at, dev, payload).0.value) == Err(e))
    || (adapter.followUps.Some? && adapter.followUps.value(cmd) == Err(e))
  }

  lemma BlameRetry(
    s: Setup, script: Script, at: Journal, after: Journal, dev: Device, adapter: Adapter, cmd: Command,
    payload: Bytes, payloads: seq<Bytes>, e: Error)
    requires at <= after && payload in payloads
    requires var reply := Retry(s.policy, script, at, dev, payload).0;
             reply == Err(e) || (reply.Ok? && adapter.parse(reply.value) == Err(e))
    ensures Blames(s, script, after, dev, adapter, cmd, payloads, e)
  {
  }

  lemma {:induction false} FollowUpBlames(
    s: Setup, script: Script, j: Journal, dev: Device, adapter: Adapter, cmd: Command, data: Data,
    payloads: seq<Bytes>, all: seq<Bytes>)
    requires FollowUp(s, script, j, dev, adapter, data, payloads).0.Err?
    requires forall p | p in payloads :: p in all
    ensures var (result, after) := FollowUp(s, script, j, dev, adapter, data, payloads);
            Blames(s, script, after, dev, adapter, cmd, all, result.error)
    decreases |payloads|
  {
    var (result, after) := FollowUp(s, script, j, dev, adapter, data, payloads);
    var (reply, sent) := Retry(s.policy, script, j, dev, payloads[0]);
    var _ := FollowUpAdds(s, script, j, dev, adapter, data, payloads);
    if reply.Err? || adapter.parse(reply.value).Err? {
      BlameRetry(s, script, j, after, dev, adapter, cmd, payloads[0], all, result.error);
    } else {
      FollowUpBlames(s, script, sent, dev, adapter, cmd, data + adapter.parse(reply.value).value, payloads[1..], all);
    }
  }

  /** A chain fails for a reason: it never gives up when every send and parse it made succeeded. */
  lemma ChainBlames(s: Setup, script: Script, j: Journal, dev: Device, adapter: Adapter, cmd: Command, payload: Bytes)
    requires Chain(s, script, j, dev, adapter, cmd, payload).0.Err?
    ensures var (result, after) := Chain(s, script, j, dev, adapter, cmd, payload);
            Blames(s, script, after, dev, adapter, cmd, [payload] + FollowUpPayloads(adapter, cmd), result.error)
  {
    var (result, after) := Chain(s, script, j, dev, adapter, cmd, payload);
    var all := [payload] + FollowUpPayloads(adapter, cmd);
    var (reply, sent) := Retry(s.policy, script, j, dev, payload);
    var _ := ChainAdds(s, script, j, dev, adapter, cmd, payload);
    if reply.Err? || adapter.parse(reply.value).Err? {
      assert payload == all[0];
      BlameRetry(s, script, j, after, dev, adapter, cmd, payload, all, result.error);
    } else if adapter.followUps.value(cmd).Ok? {
      FollowUpBlames(
        s, script, sent, dev, adapter, cmd, adapter.parse(reply.value).value, FollowUpPayloads(adapter, cmd), all);
    }
  }

  lemma ConcludeExtends(s: Setup, script: Script, j: Journal, dev: Device, cmd: Command, data: Result<Data, Error>)
    ensures j <= Conclude(s, script, j, dev, cmd, data).1
  {
    if data.Ok? {
      var recorded := j + Marks(dev, true, script(|j|).now);
      var t := Telemetry(cmd.correlationId, dev.config.id, script(|j| + 1).now, data.value);
      var _ := PublicationsAdd(s.policy, script, if s.buffered then recorded + [Buffer(t)] else recorded, t);
    }
  }

  lemma {:induction false} GathersLonger(
    script: Script, j: Journal, longer: Journal, from: nat, dev: Device, adapter: Adapter,
    data: Data, payloads: seq<Bytes>, ends: seq<nat>, result: Data)
    requires j <= longer && Gathers(script, j, from, dev, adapter, data, payloads, ends, result)
    ensures Gathers(script, longer, from, dev, adapter, data, payloads, ends, result)
    decreases |payloads|
  {
    if payloads != [] {
      var extra := adapter.parse(script(ends[0]).reply.value);
      GathersLonger(script, j, longer, ends[0] + 1, dev, adapter, data + extra.value, payloads[1..], ends[1..], result);
    }
  }

  lemma PublicationsAdd(p: Policy, script: Script, j: Journal, t: Telemetry) returns (calls: Journal)
    ensures Publications(p, script, j, t, 1, p.baseBackoff) == j + calls
    ensures Publishing(t, calls) && Count(calls, Publishes) <= Cap(p)
    ensures p.maxAttempts >= 1 ==> calls != [] && calls[0] == Publish(t)
  {
    if p.maxAttempts >= 1 {
      var k, n := PublicationsEnd(p, script, j, t);
      calls := Rounds(Publish(t), p.baseBackoff, n);
      RoundsLength(Publish(t), p.baseBackoff, n);
      RoundsCount(Publish(t), p.baseBackoff, n, Publishes);
      forall c | c in calls
        ensures c.Wait? || c == Publish(t)
      {
        var i :| 0 <= i < |calls| && calls[i] == c;
        assert i % 2 == 0 || i % 2 == 1;
      }
    } else {
      calls := [];
      assert j + [] == j;
    }
  }

  lemma {:induction false} NoneOfKind(j: Journal, kind: Kind)
    requires forall c | c in j :: KindOf(c) != kind
    ensures Count(j, kind) == 0
  {
    if j != [] {
      assert j[0] in j;
      NoneOfKind(j[1..], kind);
    }
  }

  /** The counters of one command: a failed chain leaves one failure record and nothing buffered or
      published, a success one success record and one buffering at most; an undispatchable command
      leaves no record at all. */
  lemma ProcessCounts(s: Setup, script: Script, cmd: Command)
    ensures var (d, j) := Process(s, script, cmd);
            && Count(j, Successes) == (if d.Delivered? then 1 else 0)
            && Count(j, Failures) == (if d.Failed? then 1 else 0)
            && Count(j, Updates) == (if d.Delivered? || d.Failed? then 1 else 0)
            && Count(j, Buffers) == (if d.Delivered? && s.buffered then 1 else 0)
            && (!d.Delivered? ==> Count(j, Publishes) == 0)
            && Count(j, Publishes) <= Cap(s.policy)
  {
    var probing, publishing := ProcessShape(s, script, cmd);
    var (d, j) := Process(s, script, cmd);
    CountShaped(s, script, cmd, d, j, probing, publishing, Successes);
    CountShaped(s, script, cmd, d, j, probing, publishing, Failures);
    CountShaped(s, script, cmd, d, j, probing, publishing, Updates);
    CountShaped(s, script, cmd, d, j, probing, publishing, Buffers);
    CountShaped(s, script, cmd, d, j, probing, publishing, Publishes);
  }

  /** How often a call that is neither a lookup, a send nor a wait occurs in a shaped journal. */
  lemma CountShaped(
    s: Setup, script: Script, cmd: Command, d: Disposition, j: Journal, probing: Journal, publishing: Journal, kind: Kind)
    requires kind !in {Lookups, Sends, Waiting} && Shaped(s, script, cmd, d, j, probing, publishing)
    ensures Count(j, kind) ==
            (if kind == Successes && d.Delivered? then 1 else 0) + (if kind == Failures && d.Failed? then 1 else 0) +
            (if kind == Updates && (d.Delivered? || d.Failed?) then 1 else 0) +
            (if kind == Buffers && d.Delivered? && s.buffered then 1 else 0) +
            (if kind == Publishes && d.Delivered? then Count(publishing, kind) else 0)
  {
    if d.Failed? || d.Delivered? {
      var dev := script(0).device.value;
      var head := Head(cmd, dev, d.Delivered?, probing, script(1 + |probing|).now);
      CountHead(cmd, dev, d.Delivered?, probing, script(1 + |probing|).now, kind);
      if d.Delivered? {
        CountTail(s, d.telemetry, publishing, kind);
        CountAppend(head, Tail(s, d.telemetry, publishing), kind);
      }
    } else {
      CountOne(Lookup(cmd.deviceId), kind);
    }
  }

  lemma CountHead(cmd: Command, dev: Device, success: bool, probing: Journal, now: int, kind: Kind)
    requires kind !in {Lookups, Sends, Waiting} && forall c | c in probing :: c.Wait? || c.Send?
    ensures Count(Head(cmd, dev, success, probing, now), kind) ==
            (if kind == Updates then 1 else 0) + (if kind == (if success then Successes else Failures) then 1 else 0)
  {
    NoneOfKind(probing, kind);
    CountOne(Lookup(cmd.deviceId), kind);
    CountAppend([Lookup(cmd.deviceId)], probing, kind);
    CountAppend([Lookup(cmd.deviceId)] + probing, Marks(dev, success, now), kind);
    var update, record := Marks(dev, success, now)[0], Marks(dev, success, now)[1];
    assert Marks(dev, success, now) == [update] + [record];
    CountAppend([update], [record], kind);
    CountOne(update, kind);
    CountOne(record, kind);
  }

  lemma CountOne(c: Call, kind: Kind)
    ensures Count([c], kind) == if KindOf(c) == kind then 1 else 0
  {
    assert [c][1..] == [];
  }

  lemma CountTail(s: Setup, t: Telemetry, publishing: Journal, kind: Kind)
    requires kind != Waiting && Publishing(t, publishing)
    ensures Count(Tail(s, t, publishing), kind) ==
            (if kind == Buffers && s.buffered then 1 else 0) +
            (if kind == Publishes then Count(publishing, kind) else 0)
  {
    CountOne(Buffer(t), kind);
    CountAppend(if s.buffered then [Buffer(t)] else [], publishing, kind);
    OnlyPublishes(t, publishing, kind);
  }

  lemma OnlyPublishes(t: Telemetry, publishing: Journal, kind: Kind)
    requires Publishing(t, publishing)
    ensures kind != Publishes && kind != Waiting ==> Count(publishing, kind) == 0
  {
    if kind != Publishes && kind != Waiting {
      forall c | c in publishing
        ensures KindOf(c) != kind
      {
        assert c.Wait? || c == Publish(t);
      }
      NoneOfKind(publishing, kind);
    }
  }
}
