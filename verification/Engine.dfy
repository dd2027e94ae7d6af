/** The engine's loops, proved to compute the functions of module Router. */
module Engine {
  import opened Domain
  import opened Errors
  import opened RegistryRuns
  import opened Router

  /** One worker's run of a command: the ports answer by a script and every call is noted down. */
  class Worker {
    const setup: Setup
    const script: Script
    var journal: Journal

    constructor (setup: Setup, script: Script)
      ensures this.setup == setup && this.script == script && journal == []
    {
      this.setup, this.script, journal := setup, script, [];
    }

    method Ask(call: Call) returns (answer: Answer)
      modifies this
      ensures answer == script(|old(journal)|) && journal == old(journal) + [call]
    {
      answer := script(|journal|);
      journal := journal + [call];
    }

    method ExecuteWithRetry(dev: Device, payload: Bytes) returns (result: Result<Bytes, Error>)
      modifies this
      ensures (result, journal) == Retry(setup.policy, script, old(journal), dev, payload)
    {
      var p := setup.policy;
      var lastErr: Option<Error> := None;
      var backoff := p.baseBackoff;
      var attempt := 1;
      while attempt <= p.maxAttempts
        invariant Attempts(p, script, journal, dev, payload, attempt, backoff, lastErr) ==
                  Retry(p, script, old(journal), dev, payload)
      {
        var response := Ask(Send(dev, payload));
        if response.reply.Ok? {
          return response.reply;
        }
        lastErr := Some(response.reply.error);
        if Classify(response.reply.error) != Retryable {
          return response.reply;
        }
        if attempt < p.maxAttempts {
          var wait := Ask(Wait(backoff));
          if wait.cancelled {
            return Err(CONTEXT_CANCELED);
          }
          backoff := Wrap64(2 * (backoff as int));
        }
        attempt := attempt + 1;
      }
      return if lastErr.Some? then Err(lastErr.value) else Ok([]);
    }

    method PublishTelemetryWithRetry(t: Telemetry)
      modifies this
      ensures journal == Publications(setup.policy, script, old(journal), t, 1, setup.policy.baseBackoff)
    {
      var p := setup.policy;
      var backoff := p.baseBackoff;
      var attempt := 1;
      while attempt <= p.maxAttempts
        invariant Publications(p, script, journal, t, attempt, backoff) ==
                  Publications(p, script, old(journal), t, 1, p.baseBackoff)
      {
        var sent := Ask(Publish(t));
        if sent.ok {
          return;
        }
        if attempt < p.maxAttempts {
          var wait := Ask(Wait(backoff));
          if wait.cancelled {
            return;
          }
          backoff := Wrap64(2 * (backoff as int));
        }
        attempt := attempt + 1;
      }
    }

    /** Writes every entry of `extra` over `base`. */
    method MergeTelemetry(base: DataMap, extra: Data)
      modifies base
      ensures base.entries == old(base.entries) + extra
    {
      var rest := extra.Keys;
      while rest != {}
        invariant rest <= extra.Keys
        invariant base.entries == old(base.entries) + (map k | k in extra && k !in rest :: extra[k])
        decreases rest
      {
        var k :| k in rest;
        base.entries := base.entries[k := extra[k]];
        rest := rest - {k};
      }
      assert (map k | k in extra && k !in rest :: extra[k]) == extra;
    }

    method ExecuteCommandChain(dev: Device, adapter: Adapter, cmd: Command, payload: Bytes)
      returns (result: Result<Data, Error>)
      modifies this
      ensures (result, journal) == Chain(setup, script, old(journal), dev, adapter, cmd, payload)
    {
      var response := ExecuteWithRetry(dev, payload);
      if response.Err? {
        return Err(response.error);
      }
      var parsed := adapter.parse(response.value);
      if parsed.Err? || adapter.followUps.None? {
        return parsed;
      }
      var more := adapter.followUps.value(cmd);
      if more.Err? {
        return Err(more.error);
      }
      var telemetry := new DataMap(parsed.value);
      var i := 0;
      while i < |more.value|
        invariant i <= |more.value|
        invariant FollowUp(setup, script, journal, dev, adapter, telemetry.entries, more.value[i..]) ==
                  Chain(setup, script, old(journal), dev, adapter, cmd, payload)
      {
        assert more.value[i..][1..] == more.value[i + 1..];
        var followUpResp := ExecuteWithRetry(dev, more.value[i]);
        if followUpResp.Err? {
          return Err(followUpResp.error);
        }
        var extra := adapter.parse(followUpResp.value);
        if extra.Err? {
          return extra;
        }
        MergeTelemetry(telemetry, extra.value);
        i := i + 1;
      }
      return Ok(telemetry.entries);
    }

    /** One command from the queue to its end, over any answers of the ports. */
    method ProcessCommand(cmd: Command) returns (disposition: Disposition)
      requires journal == []
      modifies this
      ensures (disposition, journal) == Process(setup, script, cmd)
    {
      var found := Ask(Lookup(cmd.deviceId));
      assert journal == [Lookup(cmd.deviceId)];
      if found.device.None? {
        return UnknownDevice;
      }
      var dev := found.device.value;
      if dev.config.protocol !in setup.adapters {
        return NoAdapter;
      }
      var adapter := setup.adapters[dev.config.protocol];
      var payload := adapter.translate(cmd);
      if payload.Err? {
        return Untranslatable;
      }
      var data := ExecuteCommandChain(dev, adapter, cmd, payload.value);
      ghost var chained := journal;
      var now := script(|journal|).now;
      if data.Err? {
        dev := WriteBack(dev, Offline, now);
      } else {
        dev := WriteBack(dev, Online, now);
      }
      var _ := Ask(Update(dev));
      var recorded := Ask(Record(dev.config.protocol, data.Ok?));
      assert journal == chained + [Update(dev), Record(dev.config.protocol, data.Ok?)];
      if data.Err? {
        return Failed(data.error);
      }
      var t := Telemetry(cmd.correlationId, dev.config.id, recorded.now, data.value);
      if setup.buffered {
        var _ := Ask(Buffer(t));
      }
      PublishTelemetryWithRetry(t);
      return Delivered(t);
    }
  }
}
