/** A status query end to end: stream, frames, retries, parsing, chain and merge together. */
module GetStatus {
  import opened Domain
  import opened Errors
  import opened Text
  import opened PJLink
  import opened Southbound
  import opened Router
  import opened CommandLaws

  /** The PJLink adapter as the router sees it; its parser never fails. */
  const PJLINK_ADAPTER := Adapter(Translate, (raw: Bytes) => Ok(Parsed(raw)), Some(FollowUps))

  const POWER_QUERY := "%1POWR ?\r"
  const LAMP_QUERY := "%1LAMP ?\r"

  /** An attempt at a device that sends some greeting, this answer, and whatever comes after. The
      reads deliver the stream in order and in any chopping, with errors anywhere among them, and it
      may break off at any byte, the very first included. */
  ghost predicate Serves(a: Attempt, answer: Bytes) {
    IsFrame(answer) && exists greeting, more :: IsFrame(greeting) && BytesOf(a.script) <= greeting + (answer + more)
  }

  /** An attempt at a PJLink device on which nothing fails before the answer is there. */
  ghost predicate Reaches(a: Attempt, answer: Bytes) {
    && a.dial.None? && a.deadline.None? && a.write.None?
    && IsFrame(answer) && |answer| <= MAX_FRAME_BYTES
    && exists greeting, more ::
         IsFrame(greeting) && |greeting| <= MAX_FRAME_BYTES && GREETING_PREFIX <= TrimSpace(greeting) &&
         Stream(a.script) == greeting + (answer + more)
  }

  /** Whatever breaks on the way, a send to a serving device gives its answer or an error. */
  lemma ServedReply(a: Attempt, payload: Bytes, answer: Bytes)
    requires Serves(a, answer)
    ensures Sent(a, payload).Ok? ==> Sent(a, payload) == Ok(answer)
  {
    if Sent(a, payload).Ok? {
      var greeting, more :| IsFrame(greeting) && BytesOf(a.script) <= greeting + (answer + more);
      NextFrame(a.script, greeting, answer + more);
      NextFrame(ReadFrame(a.script, "", MAX_FRAME_BYTES).rest, answer, more);
    }
  }

  /** And it does give its answer when nothing fails before that. */
  lemma ReachedReply(a: Attempt, payload: Bytes, answer: Bytes)
    requires Reaches(a, answer)
    ensures Sent(a, payload) == Ok(answer)
  {
    var greeting, more :|
      IsFrame(greeting) && |greeting| <= MAX_FRAME_BYTES && GREETING_PREFIX <= TrimSpace(greeting) &&
      Stream(a.script) == greeting + (answer + more);
    ExchangeSplitsStream(a.script, payload, greeting, answer, more);
  }

  ghost predicate PowerReply(r: Bytes, state: string) {
    exists lead, pad, value, trail ::
      Blank(lead) && Blank(pad) && Blank(trail) && value in POWER_STATES && POWER_STATES[value] == state &&
      r == PrintPower(lead, pad, value, trail)
  }

  ghost predicate LampReply(r: Bytes, hours: int, on: bool) {
    exists lead, pad, gap, tail ::
      Blank(lead) && Blank(pad) && Blank(gap) && gap != "" && INT_MIN <= hours <= INT_MAX &&
      Breaks(tail) && FreeOfErrors(tail) && !Contains(tail, PJLink.POWR) &&
      r == PrintLamp(lead, pad, hours, gap, on, tail)
  }

  function PowerData(state: string): Data {
    map["powerState" := Value.Text(state)]
  }

  function LampData(hours: int, on: bool): Data {
    map["lamp_hours" := Number(hours), "lamp_status" := Value.Text(if on then "ON" else "OFF")]
  }

  function StatusData(state: string, hours: int, on: bool): Data {
    map["powerState" := Value.Text(state),
        "lamp_hours" := Number(hours), "lamp_status" := Value.Text(if on then "ON" else "OFF")]
  }

  lemma MergedData(state: string, hours: int, on: bool)
    ensures PowerData(state) + LampData(hours, on) == StatusData(state, hours, on)
    ensures PowerData(state) + LampData(hours, on) == LampData(hours, on) + PowerData(state)
  {
  }

  lemma PowerReplyParsed(r: Bytes, state: string)
    requires PowerReply(r, state)
    ensures Parsed(r) == PowerData(state)
  {
    var lead, pad, value, trail :|
      Blank(lead) && Blank(pad) && Blank(trail) && value in POWER_STATES && POWER_STATES[value] == state &&
      r == PrintPower(lead, pad, value, trail);
    PlainToken(value);
    PowerRoundTrip(lead, pad, value, trail);
  }

  lemma LampReplyParsed(r: Bytes, hours: int, on: bool)
    requires LampReply(r, hours, on)
    ensures Parsed(r) == LampData(hours, on)
  {
    var lead, pad, gap, tail :|
      Blank(lead) && Blank(pad) && Blank(gap) && gap != "" && INT_MIN <= hours <= INT_MAX &&
      Breaks(tail) && FreeOfErrors(tail) && !Contains(tail, PJLink.POWR) &&
      r == PrintLamp(lead, pad, hours, gap, on, tail);
    LampRoundTrip(lead, pad, hours, gap, on, tail);
  }

  /** A projector in one state: on every connection it sends a greeting and the printed answer to what
      it is asked. Any connection may still fail, at any point: dialing, writing or at any byte read. */
  ghost predicate Projector(
    script: Script, j: Journal, dev: Device, state: string, hours: int, on: bool)
  {
    forall i: nat | i < |j| && j[i].Send? && j[i].device == dev ::
      Answered(script(i).reply, j[i].payload, state, hours, on)
  }

  ghost predicate Answered(reply: Result<Bytes, Error>, payload: Bytes, state: string, hours: int, on: bool) {
    exists a, answer ::
      reply == Sent(a, payload) && Serves(a, answer) &&
      (payload == POWER_QUERY ==> PowerReply(answer, state)) &&
      (payload == LAMP_QUERY ==> LampReply(answer, hours, on))
  }

  lemma AnsweredParses(reply: Result<Bytes, Error>, payload: Bytes, state: string, hours: int, on: bool)
    requires Answered(reply, payload, state, hours, on) && reply.Ok?
    ensures payload == POWER_QUERY ==> Parsed(reply.value) == PowerData(state)
    ensures payload == LAMP_QUERY ==> Parsed(reply.value) == LampData(hours, on)
  {
    var a, answer :|
      reply == Sent(a, payload) && Serves(a, answer) &&
      (payload == POWER_QUERY ==> PowerReply(answer, state)) &&
      (payload == LAMP_QUERY ==> LampReply(answer, hours, on));
    ServedReply(a, payload, answer);
    if payload == POWER_QUERY {
      PowerReplyParsed(answer, state);
    }
    if payload == LAMP_QUERY {
      LampReplyParsed(answer, hours, on);
    }
  }

  lemma QueryPayloads(cmd: Command)
    requires cmd.name == "GET_STATUS"
    ensures Translate(cmd) == Ok(POWER_QUERY) && FollowUpPayloads(PJLINK_ADAPTER, cmd) == [LAMP_QUERY]
  {
  }

  /** Whatever connections fail and are retried on the way: if a status query succeeds at all, its
      telemetry is exactly the projector's power state, lamp hours and lamp status; and the two
      parses could be merged in either order. */
  lemma StatusTelemetry(
    s: Setup, script: Script, j: Journal, dev: Device, cmd: Command, state: string, hours: int, on: bool)
    requires s.policy.maxAttempts >= 1 && cmd.name == "GET_STATUS"
    requires Chain(s, script, j, dev, PJLINK_ADAPTER, cmd, POWER_QUERY).0.Ok?
    requires Projector(script, Chain(s, script, j, dev, PJLINK_ADAPTER, cmd, POWER_QUERY).1, dev, state, hours, on)
    ensures Chain(s, script, j, dev, PJLINK_ADAPTER, cmd, POWER_QUERY).0.value == StatusData(state, hours, on)
    ensures PowerData(state) + LampData(hours, on) == LampData(hours, on) + PowerData(state)
  {
    MergedData(state, hours, on);
    var (result, after) := Chain(s, script, j, dev, PJLINK_ADAPTER, cmd, POWER_QUERY);
    QueryPayloads(cmd);
    var ends := ChainGathers(s, script, j, dev, PJLINK_ADAPTER, cmd, POWER_QUERY);
    var first, second := TwoReplies(script, after, |j|, dev, PJLINK_ADAPTER, POWER_QUERY, LAMP_QUERY, ends, result.value);
    StatusMerged(script(first).reply, script(second).reply, state, hours, on);
  }

  /** And that is what the whole command hands on: every buffering and every publish in its journal
      carries exactly the projector's state. */
  lemma StatusDelivered(
    s: Setup, script: Script, cmd: Command, t: Telemetry, state: string, hours: int, on: bool)
    requires s.policy.maxAttempts >= 1 && cmd.name == "GET_STATUS"
    requires Dispatchable(s, script, cmd) && s.adapters[script(0).device.value.config.protocol] == PJLINK_ADAPTER
    requires Process(s, script, cmd).0 == Delivered(t)
    requires Projector(script, Process(s, script, cmd).1, script(0).device.value, state, hours, on)
    ensures t.data == StatusData(state, hours, on) && Carries(Process(s, script, cmd).1, t)
  {
    var dev, j := script(0).device.value, Process(s, script, cmd).1;
    QueryPayloads(cmd);
    MergedData(state, hours, on);
    var ends := DeliveredGathers(s, script, cmd, t);
    var first, second := TwoReplies(script, j, 1, dev, PJLINK_ADAPTER, POWER_QUERY, LAMP_QUERY, ends, t.data);
    StatusMerged(script(first).reply, script(second).reply, state, hours, on);
  }

  /** Every send of a command on this adapter: the one frame of a power command, for the state it is
      named after, or one of the two queries. */
  lemma SendsAsCommanded(s: Setup, script: Script, cmd: Command, code: string)
    requires Dispatchable(s, script, cmd) && s.adapters[script(0).device.value.config.protocol] == PJLINK_ADAPTER
    requires code in POWER_STATES
    ensures forall c | c in Process(s, script, cmd).1 && c.Send? ::
              && (cmd.name == "TURN_ON" && POWER_STATES[code] == "ON" ==> c.payload == "%1POWR " + code + "\r")
              && (cmd.name == "TURN_OFF" && POWER_STATES[code] == "STANDBY" ==> c.payload == "%1POWR " + code + "\r")
              && (cmd.name == "GET_STATUS" ==> c.payload == POWER_QUERY || c.payload == LAMP_QUERY)
  {
    ProcessSends(s, script, cmd);
    CommandFrames(cmd, code);
    FollowUpsOnce(cmd);
  }

  lemma FollowUpsOnce(cmd: Command)
    requires Translate(cmd).Ok?
    ensures Payloads(PJLINK_ADAPTER, cmd) == [Translate(cmd).value] + FollowUps(cmd).value
  {
    assert PJLINK_ADAPTER.translate(cmd) == Translate(cmd) && PJLINK_ADAPTER.followUps.value(cmd) == FollowUps(cmd);
  }

  lemma TwoReplies(
    script: Script, j: Journal, from: nat, dev: Device, adapter: Adapter, one: Bytes, two: Bytes,
    ends: seq<nat>, result: Data)
    returns (first: nat, second: nat)
    requires Gathers(script, j, from, dev, adapter, map[], [one] + [two], ends, result)
    ensures first < second < |j| && j[first] == Send(dev, one) && j[second] == Send(dev, two)
    ensures script(first).reply.Ok? && script(second).reply.Ok?
    ensures adapter.parse(script(first).reply.value).Ok? && adapter.parse(script(second).reply.value).Ok?
    ensures result == adapter.parse(script(first).reply.value).value + adapter.parse(script(second).reply.value).value
  {
    var payloads := [one] + [two];
    assert payloads[0] == one && payloads[1..] == [two] && [two][1..] == [];
    first, second := ends[0], ends[1];
    var data := adapter.parse(script(first).reply.value).value;
    assert map[] + data == data;
    assert Gathers(script, j, first + 1, dev, adapter, data, [two], ends[1..], result);
    var extra := adapter.parse(script(second).reply.value).value;
    assert Gathers(script, j, second + 1, dev, adapter, data + extra, [], ends[1..][1..], result);
  }

  lemma StatusMerged(power: Result<Bytes, Error>, lamp: Result<Bytes, Error>, state: string, hours: int, on: bool)
    requires power.Ok? && lamp.Ok?
    requires Answered(power, POWER_QUERY, state, hours, on) && Answered(lamp, LAMP_QUERY, state, hours, on)
    ensures PJLINK_ADAPTER.parse(power.value) == Ok(PowerData(state))
    ensures PJLINK_ADAPTER.parse(lamp.value) == Ok(LampData(hours, on))
  {
    AnsweredParses(power, POWER_QUERY, state, hours, on);
    AnsweredParses(lamp, LAMP_QUERY, state, hours, on);
  }

  /** When the first two connections reach the projector, the query succeeds with one send each. */
  lemma StatusFirstTry(
    s: Setup, script: Script, j: Journal, dev: Device, cmd: Command, one: Attempt, two: Attempt,
    power: Bytes, lamp: Bytes, state: string, hours: int, on: bool)
    requires s.policy.maxAttempts >= 1 && cmd.name == "GET_STATUS"
    requires script(|j|).reply == Sent(one, POWER_QUERY) && Reaches(one, power) && PowerReply(power, state)
    requires script(|j| + 1).reply == Sent(two, LAMP_QUERY) && Reaches(two, lamp) && LampReply(lamp, hours, on)
    ensures Chain(s, script, j, dev, PJLINK_ADAPTER, cmd, POWER_QUERY) ==
            (Ok(StatusData(state, hours, on)), j + [Send(dev, POWER_QUERY), Send(dev, LAMP_QUERY)])
  {
    ReachedReply(one, POWER_QUERY, power);
    ReachedReply(two, LAMP_QUERY, lamp);
    PowerReplyParsed(power, state);
    LampReplyParsed(lamp, hours, on);
    MergedData(state, hours, on);
    TwoAnswers(s, script, j, dev, cmd, power, lamp);
  }

  lemma TwoAnswers(s: Setup, script: Script, j: Journal, dev: Device, cmd: Command, power: Bytes, lamp: Bytes)
    requires s.policy.maxAttempts >= 1 && cmd.name == "GET_STATUS"
    requires script(|j|).reply == Ok(power) && script(|j| + 1).reply == Ok(lamp)
    ensures Chain(s, script, j, dev, PJLINK_ADAPTER, cmd, POWER_QUERY) ==
            (Ok(Parsed(power) + Parsed(lamp)), j + [Send(dev, POWER_QUERY), Send(dev, LAMP_QUERY)])
  {
    QueryPayloads(cmd);
    var sent := j + [Send(dev, POWER_QUERY)];
    var both := sent + [Send(dev, LAMP_QUERY)];
    FirstTry(s.policy, script, j, dev, POWER_QUERY);
    FirstTry(s.policy, script, sent, dev, LAMP_QUERY);
    var a := PJLINK_ADAPTER;
    assert a.parse(power) == Ok(Parsed(power)) && a.parse(lamp) == Ok(Parsed(lamp));
    assert [LAMP_QUERY][1..] == [];
    assert FollowUp(s, script, both, dev, a, Parsed(power) + Parsed(lamp), []) == (Ok(Parsed(power) + Parsed(lamp)), both);
    assert FollowUp(s, script, sent, dev, a, Parsed(power), [LAMP_QUERY]) == (Ok(Parsed(power) + Parsed(lamp)), both);
    assert both == j + [Send(dev, POWER_QUERY), Send(dev, LAMP_QUERY)];
  }

  lemma FirstTry(p: Policy, script: Script, j: Journal, dev: Device, payload: Bytes)
    requires p.maxAttempts >= 1 && script(|j|).reply.Ok?
    ensures Retry(p, script, j, dev, payload) == (script(|j|).reply, j + [Send(dev, payload)])
  {
  }
}
