/** The metrics publisher and the local alert rules, against a flat list of messages. */
module Publisher {
  import opened Domain

  // ---------- what is scraped, and what is sent ----------

  datatype Totals = Totals(count: nat, sum: real)

  /** One series of a family; a scraped series carries the part that fits its family's type. */
  datatype Series = Series(
    counter: Option<real>, gauge: Option<real>, untyped: Option<real>,
    histogram: Option<Totals>, summary: Option<Totals>, labels: map<string, string>)

  datatype FamilyType = Counter | Gauge | Untyped | Histogram | Summary | Unsupported

  datatype Family = Family(kind: FamilyType, series: seq<Series>)

  type Families = map<string, Family>

  datatype Rule = Rule(metric: string, operator: string, threshold: real, severity: string)

  datatype Message =
    | Alert(rule: Rule, value: real, alertLabels: map<string, string>)
    | Metric(name: string, value: real, labels: map<string, string>)

  /** What the cloud client is asked, in order; and what it answers at each position. */
  datatype CloudCall = CheckConnected | Publish(message: Message)

  datatype CloudAnswer = CloudAnswer(up: bool, ok: bool)

  type CloudLog = seq<CloudCall>

  type CloudScript = nat -> CloudAnswer

  // ---------- values ----------

  function DirectValue(kind: FamilyType, m: Series): Option<real> {
    match kind
    case Counter => m.counter
    case Gauge => m.gauge
    case Untyped => m.untyped
    case Histogram => if m.histogram.Some? then Some(m.histogram.value.count as real) else None
    case Summary => if m.summary.Some? then Some(m.summary.value.count as real) else None
    case Unsupported => None
  }

  function DerivedValue(kind: FamilyType, suffix: string, m: Series): Option<real> {
    match suffix
    case "_count" => if kind.Histogram? || kind.Summary? then DirectValue(kind, m) else None
    case "_sum" =>
      if kind.Histogram? && m.histogram.Some? then Some(m.histogram.value.sum)
      else if kind.Summary? && m.summary.Some? then Some(m.summary.value.sum)
      else None
    case "_total" => if kind.Counter? then m.counter else None
    case _ => None
  }

  predicate Breached(value: real, threshold: real, operator: string) {
    match operator
    case ">" => value > threshold
    case "<" => value < threshold
    case "==" => value == threshold
    case _ => false
  }

  // ---------- the flat list ----------

  /** The alerts one sample raises, in rule order. */
  function Alerts(rules: seq<Rule>, name: string, value: real, labels: map<string, string>): seq<Message> {
    if rules == [] then []
    else
      (if rules[0].metric == name && Breached(value, rules[0].threshold, rules[0].operator)
       then [Alert(rules[0], value, labels)] else []) +
      Alerts(rules[1..], name, value, labels)
  }

  /** Which value a series contributes: its own, or a derived field. */
  function ValueOf(kind: FamilyType, suffix: Option<string>, m: Series): Option<real> {
    if suffix.None? then DirectValue(kind, m) else DerivedValue(kind, suffix.value, m)
  }

  /** Per extractable series, the alerts it raises and then its metric payload. */
  function Ideal(
    rules: seq<Rule>, name: string, kind: FamilyType, suffix: Option<string>, series: seq<Series>): seq<Message>
  {
    if series == [] then []
    else
      var value := ValueOf(kind, suffix, series[0]);
      var rest := Ideal(rules, name, kind, suffix, series[1..]);
      if value.None? then rest
      else Alerts(rules, name, value.value, series[0].labels) + [Metric(name, value.value, series[0].labels)] + rest
  }

  /** Sends a list of messages: an alert only while connected, and whatever becomes of it the list
      goes on; the first rejected metric payload ends it. */
  function Transmit(script: CloudScript, log: CloudLog, messages: seq<Message>): (bool, CloudLog)
    decreases |messages|
  {
    if messages == [] then (true, log)
    else if messages[0].Alert? then
      var checked := log + [CheckConnected];
      Transmit(script, if script(|log|).up then checked + [Publish(messages[0])] else checked, messages[1..])
    else if script(|log|).ok then Transmit(script, log + [Publish(messages[0])], messages[1..])
    else (false, log + [Publish(messages[0])])
  }

  // ---------- where a metric comes from ----------

  const SUFFIXES := ["_bucket", "_count", "_sum", "_total"]

  predicate HasSuffix(s: string, suffix: string) {
    |suffix| <= |s| && s[|s| - |suffix|..] == suffix
  }

  /** The first suffix of the list that the name ends in, with something before it. */
  function Split(name: string, suffixes: seq<string>): Option<(string, string)> {
    if suffixes == [] then None
    else if HasSuffix(name, suffixes[0]) && |name| > |suffixes[0]| then
      Some((name[..|name| - |suffixes[0]|], suffixes[0]))
    else Split(name, suffixes[1..])
  }

  /** The family a metric is read from, and the derived field if it is not the family itself. */
  function Source(families: Families, name: string): Option<(Family, Option<string>)> {
    if name in families then Some((families[name], None))
    else
      var split := Split(name, SUFFIXES);
      if split.Some? && split.value.0 in families then Some((families[split.value.0], Some(split.value.1)))
      else None
  }

  predicate Present(families: Families, name: string) {
    Source(families, name).Some? && Source(families, name).value.0.series != []
  }

  function Messages(rules: seq<Rule>, families: Families, name: string): seq<Message> {
    var source := Source(families, name);
    if source.None? then []
    else Ideal(rules, name, source.value.0.kind, source.value.1, source.value.0.series)
  }

  datatype Counts = Counts(found: nat, notFound: nat, failed: nat)

  /** A publishing cycle: each metric's list in turn; one that fails does not stop the next. */
  function Cycle(
    script: CloudScript, log: CloudLog, rules: seq<Rule>, families: Families, names: seq<string>, c: Counts)
    : (Counts, CloudLog)
    decreases |names|
  {
    if names == [] then (c, log)
    else if !Present(families, names[0]) then
      Cycle(script, log, rules, families, names[1..], c.(notFound := c.notFound + 1))
    else
      var (ok, sent) := Transmit(script, log, Messages(rules, families, names[0]));
      Cycle(script, sent, rules, families, names[1..],
            if ok then c.(found := c.found + 1) else c.(failed := c.failed + 1))
  }

  // ---------- the publisher object ----------

  class MetricsPublisher {
    const rules: seq<Rule>
    const metrics: seq<string>
    const script: CloudScript
    var log: CloudLog

    constructor (rules: seq<Rule>, metrics: seq<string>, script: CloudScript)
      ensures this.rules == rules && this.metrics == metrics && this.script == script && log == []
    {
      this.rules, this.metrics, this.script, log := rules, metrics, script, [];
    }

    method Ask(call: CloudCall) returns (answer: CloudAnswer)
      modifies this
      ensures answer == script(|old(log)|) && log == old(log) + [call]
    {
      answer := script(|log|);
      log := log + [call];
    }

    method TriggerAlert(rule: Rule, value: real, labels: map<string, string>)
      modifies this
      ensures (true, log) == Transmit(script, old(log), [Alert(rule, value, labels)])
    {
      assert [Alert(rule, value, labels)][1..] == [];
      var connected := Ask(CheckConnected);
      if !connected.up {
        return;
      }
      var _ := Ask(Publish(Alert(rule, value, labels)));
    }

    method Evaluate(name: string, value: real, labels: map<string, string>)
      modifies this
      ensures (true, log) == Transmit(script, old(log), Alerts(rules, name, value, labels))
    {
      var i := 0;
      while i < |rules|
        invariant i <= |rules|
        invariant Transmit(script, log, Alerts(rules[i..], name, value, labels)) ==
                  Transmit(script, old(log), Alerts(rules, name, value, labels))
      {
        var rule := rules[i];
        assert rules[i..][1..] == rules[i + 1..];
        if rule.metric == name && Breached(value, rule.threshold, rule.operator) {
          ghost var alert := Alert(rule, value, labels);
          TransmitAppend(script, log, [alert], Alerts(rules[i + 1..], name, value, labels));
          TriggerAlert(rule, value, labels);
        } else {
          assert [] + Alerts(rules[i + 1..], name, value, labels) == Alerts(rules[i + 1..], name, value, labels);
        }
        i := i + 1;
      }
    }

    /** Publishes one field of every series of a family: the value itself, or a derived field. */
    method PublishSeries(family: Family, name: string, suffix: Option<string>) returns (present: bool, ok: bool)
      modifies this
      ensures present == (family.series != [])
      ensures (ok, log) == Transmit(script, old(log), Ideal(rules, name, family.kind, suffix, family.series))
    {
      if |family.series| == 0 {
        return false, true;
      }
      var i := 0;
      while i < |family.series|
        invariant i <= |family.series|
        invariant Transmit(script, log, Ideal(rules, name, family.kind, suffix, family.series[i..])) ==
                  Transmit(script, old(log), Ideal(rules, name, family.kind, suffix, family.series))
      {
        var m := family.series[i];
        assert family.series[i..][1..] == family.series[i + 1..];
        var value := ValueOf(family.kind, suffix, m);
        if value.Some? {
          var payload := Metric(name, value.value, m.labels);
          ghost var rest := Ideal(rules, name, family.kind, suffix, family.series[i + 1..]);
          TransmitSeries(script, log, rules, payload, rest);
          Evaluate(name, value.value, m.labels);
          var sent := Ask(Publish(payload));
          if !sent.ok {
            return true, false;
          }
        }
        i := i + 1;
      }
      return true, true;
    }

    method SplitDerivedSuffix(name: string) returns (split: Option<(string, string)>)
      ensures split == Split(name, SUFFIXES)
    {
      var i := 0;
      while i < |SUFFIXES|
        invariant i <= |SUFFIXES|
        invariant Split(name, SUFFIXES[i..]) == Split(name, SUFFIXES)
      {
        var s := SUFFIXES[i];
        if HasSuffix(name, s) {
          var base := name[..|name| - |s|];
          if base != "" {
            return Some((base, s));
          }
        }
        i := i + 1;
      }
      return None;
    }

    method ExtractAndPublish(families: Families, name: string) returns (published: bool, ok: bool)
      modifies this
      ensures published == Present(families, name)
      ensures (ok, log) == Transmit(script, old(log), Messages(rules, families, name))
    {
      if name in families {
        published, ok := PublishSeries(families[name], name, None);
        return;
      }
      var split := SplitDerivedSuffix(name);
      if split.Some? {
        var (base, suffix) := split.value;
        if base in families {
          published, ok := PublishSeries(families[base], name, Some(suffix));
          return;
        }
      }
      return false, true;
    }

    /** One cycle over the configured metrics, cut short after `processed` of them if the context is
        cancelled; nothing is sent when the scrape failed or the cloud is not connected. */
    method PublishMetrics(scraped: Option<Families>, cancelledAt: nat -> bool)
      returns (found: nat, notFound: nat, failed: nat, publishedOK: nat, processed: nat)
      modifies this
      ensures processed <= |metrics|
      ensures found + notFound + failed == processed && found == publishedOK
      ensures scraped.None? || cancelledAt(0) ==> processed == 0 && log == old(log)
      ensures scraped.Some? && !cancelledAt(0) && !script(|old(log)|).up ==>
                processed == 0 && log == old(log) + [CheckConnected]
      ensures scraped.Some? && !cancelledAt(0) && script(|old(log)|).up ==>
                && (Counts(found, notFound, failed), log) ==
                   Cycle(script, old(log) + [CheckConnected], rules, scraped.value, metrics[..processed], Counts(0, 0, 0))
                && (processed < |metrics| ==> cancelledAt(1 + processed))
                && forall i | 1 <= i <= processed :: !cancelledAt(i)
    {
      found, notFound, failed, publishedOK, processed := 0, 0, 0, 0, 0;
      if cancelledAt(0) || scraped.None? {
        return;
      }
      var families := scraped.value;
      var connected := Ask(CheckConnected);
      if !connected.up {
        return;
      }
      ghost var start := log;
      while processed < |metrics|
        invariant processed <= |metrics|
        invariant found + notFound + failed == processed && found == publishedOK
        invariant forall i | 1 <= i <= processed :: !cancelledAt(i)
        invariant (Counts(found, notFound, failed), log) ==
                  Cycle(script, start, rules, families, metrics[..processed], Counts(0, 0, 0))
      {
        if cancelledAt(1 + processed) {
          return;
        }
        var name := metrics[processed];
        CycleAppend(script, start, rules, families, metrics[..processed], name, Counts(0, 0, 0));
        CycleOne(script, log, rules, families, name, Counts(found, notFound, failed));
        AbsentSendsNothing(script, log, rules, families, name);
        assert metrics[..processed + 1] == metrics[..processed] + [name];
        var published, ok := ExtractAndPublish(families, name);
        if !ok {
          failed := failed + 1;
        } else if !published {
          notFound := notFound + 1;
        } else {
          found, publishedOK := found + 1, publishedOK + 1;
        }
        processed := processed + 1;
      }
      assert metrics[..processed] == metrics;
    }
  }

  // ---------- laws of the flat list ----------

  /** Sending one list and then another is sending both, unless the first one fails. */
  lemma {:induction false} TransmitAppend(script: CloudScript, log: CloudLog, a: seq<Message>, b: seq<Message>)
    ensures var (ok, sent) := Transmit(script, log, a);
            Transmit(script, log, a + b) == if ok then Transmit(script, sent, b) else (false, sent)
    decreases |a|
  {
    if a == [] {
      assert a + b == b;
    } else {
      assert (a + b)[1..] == a[1..] + b;
      if a[0].Alert? {
        var checked := log + [CheckConnected];
        TransmitAppend(script, if script(|log|).up then checked + [Publish(a[0])] else checked, a[1..], b);
      } else if script(|log|).ok {
        TransmitAppend(script, log + [Publish(a[0])], a[1..], b);
      }
    }
  }

  /** A series that yields a value: its alerts, its payload, and unless that is rejected, the rest. */
  lemma TransmitSeries(script: CloudScript, log: CloudLog, rules: seq<Rule>, payload: Message, rest: seq<Message>)
    requires payload.Metric?
    ensures var alerts := Alerts(rules, payload.name, payload.value, payload.labels);
            var (ok, warned) := Transmit(script, log, alerts);
            ok ==> Transmit(script, log, alerts + [payload] + rest) ==
                   if script(|warned|).ok then Transmit(script, warned + [Publish(payload)], rest)
                   else (false, warned + [Publish(payload)])
  {
    var alerts := Alerts(rules, payload.name, payload.value, payload.labels);
    Regroup(alerts, [payload], rest);
    TransmitAppend(script, log, alerts, [payload] + rest);
    assert ([payload] + rest)[1..] == rest;
  }

  lemma {:induction false} CycleAppend(
    script: CloudScript, log: CloudLog, rules: seq<Rule>, families: Families, names: seq<string>, name: string, c: Counts)
    ensures var (d, sent) := Cycle(script, log, rules, families, names, c);
            Cycle(script, log, rules, families, names + [name], c) == Cycle(script, sent, rules, families, [name], d)
    decreases |names|
  {
    if names == [] {
      assert names + [name] == [name];
    } else {
      assert (names + [name])[1..] == names[1..] + [name];
      if !Present(families, names[0]) {
        CycleAppend(script, log, rules, families, names[1..], name, c.(notFound := c.notFound + 1));
      } else {
        var (ok, sent) := Transmit(script, log, Messages(rules, families, names[0]));
        CycleAppend(script, sent, rules, families, names[1..], name,
                    if ok then c.(found := c.found + 1) else c.(failed := c.failed + 1));
      }
    }
  }

  lemma CycleOne(script: CloudScript, log: CloudLog, rules: seq<Rule>, families: Families, name: string, c: Counts)
    ensures var (ok, sent) := Transmit(script, log, Messages(rules, families, name));
            Cycle(script, log, rules, families, [name], c) ==
            if !Present(families, name) then (c.(notFound := c.notFound + 1), log)
            else (if ok then c.(found := c.found + 1) else c.(failed := c.failed + 1), sent)
  {
    assert [name][1..] == [];
  }

  lemma AbsentSendsNothing(script: CloudScript, log: CloudLog, rules: seq<Rule>, families: Families, name: string)
    ensures !Present(families, name) ==> Transmit(script, log, Messages(rules, families, name)) == (true, log)
  {
  }

  /** The calls a list of messages makes from position `at` on. */
  function Calls(script: CloudScript, at: nat, messages: seq<Message>): CloudLog
    decreases |messages|
  {
    if messages == [] then []
    else
      var m := messages[0];
      if m.Alert? && script(at).up then [CheckConnected, Publish(m)] + Calls(script, at + 2, messages[1..])
      else if m.Alert? then [CheckConnected] + Calls(script, at + 1, messages[1..])
      else if script(at).ok then [Publish(m)] + Calls(script, at + 1, messages[1..])
      else [Publish(m)]
  }

  lemma {:induction false} TransmitCalls(script: CloudScript, log: CloudLog, messages: seq<Message>)
    ensures Transmit(script, log, messages).1 == log + Calls(script, |log|, messages)
    decreases |messages|
  {
    if messages != [] {
      var m := messages[0];
      var next := if m.Alert? then (if script(|log|).up then log + [CheckConnected] + [Publish(m)] else log + [CheckConnected])
                  else log + [Publish(m)];
      if m.Alert? || script(|log|).ok {
        TransmitCalls(script, next, messages[1..]);
        assert next == log + (if m.Alert? then (if script(|log|).up then [CheckConnected, Publish(m)] else [CheckConnected])
                              else [Publish(m)]);
        assert next + Calls(script, |next|, messages[1..]) == log + Calls(script, |log|, messages);
      }
    }
  }

  /** The messages a stretch of calls tries to publish. */
  function Published(calls: CloudLog): seq<Message> {
    if calls == [] then []
    else (if calls[0].Publish? then [calls[0].message] else []) + Published(calls[1..])
  }

  lemma {:induction false} PublishedAppend(a: CloudLog, b: CloudLog)
    ensures Published(a + b) == Published(a) + Published(b)
  {
    if a == [] {
      assert a + b == b;
    } else {
      var first := if a[0].Publish? then [a[0].message] else [];
      assert (a + b)[1..] == a[1..] + b && (a + b)[0] == a[0];
      PublishedAppend(a[1..], b);
      Regroup(first, Published(a[1..]), Published(b));
    }
  }

  lemma Regroup(a: seq<Message>, b: seq<Message>, c: seq<Message>)
    ensures a + (b + c) == (a + b) + c
  {
  }

  function Payloads(messages: seq<Message>): seq<Message> {
    if messages == [] then []
    else (if messages[0].Metric? then [messages[0]] else []) + Payloads(messages[1..])
  }

  /** From `from` on, the client is connected and accepts everything. */
  ghost predicate AllWell(script: CloudScript, from: nat) {
    forall i: nat :: i >= from ==> script(i).up && script(i).ok
  }

  /** With the cloud well, the whole list arrives, in order and with nothing else in between. */
  lemma {:induction false} AllArrive(script: CloudScript, log: CloudLog, messages: seq<Message>)
    requires AllWell(script, |log|)
    ensures var (ok, sent) := Transmit(script, log, messages);
            ok && |sent| >= |log| && Published(sent) == Published(log) + messages
    decreases |messages|
  {
    if messages != [] {
      var m := messages[0];
      assert script(|log|).up && script(|log|).ok;
      var next := if m.Alert? then log + [CheckConnected] + [Publish(m)] else log + [Publish(m)];
      assert Published([CheckConnected]) == [] && Published([Publish(m)]) == [m];
      PublishedAppend(log, [CheckConnected]);
      PublishedAppend(log, [Publish(m)]);
      PublishedAppend(log + [CheckConnected], [Publish(m)]);
      AllArrive(script, next, messages[1..]);
      assert Published(log) + [m] + messages[1..] == Published(log) + messages;
    }
  }

  /** All messages of a cycle: metric after metric. */
  function CycleMessages(rules: seq<Rule>, families: Families, names: seq<string>): seq<Message> {
    if names == [] then []
    else Messages(rules, families, names[0]) + CycleMessages(rules, families, names[1..])
  }

  /** With the cloud well, a cycle publishes exactly the concatenation over the metrics, per series
      its alerts and then its payload; and none fails. */
  lemma {:induction false} CycleAllArrive(
    script: CloudScript, log: CloudLog, rules: seq<Rule>, families: Families, names: seq<string>, c: Counts)
    requires AllWell(script, |log|)
    ensures var (d, sent) := Cycle(script, log, rules, families, names, c);
            && Published(sent) == Published(log) + CycleMessages(rules, families, names)
            && d.failed == c.failed
    decreases |names|
  {
    if names != [] {
      var name := names[0];
      var messages := Messages(rules, families, name);
      AllArrive(script, log, messages);
      AbsentSendsNothing(script, log, rules, families, name);
      var sent := Transmit(script, log, messages).1;
      var d := if Present(families, name) then c.(found := c.found + 1) else c.(notFound := c.notFound + 1);
      CycleAllArrive(script, sent, rules, families, names[1..], d);
      assert Published(log) + messages + CycleMessages(rules, families, names[1..]) ==
             Published(log) + CycleMessages(rules, families, names);
    }
  }

  function Missing(families: Families, names: seq<string>): nat {
    if names == [] then 0 else (if Present(families, names[0]) then 0 else 1) + Missing(families, names[1..])
  }

  /** Whatever the cloud does, every metric is counted once, and as not found exactly when there is no
      series to read it from. */
  lemma {:induction false} CycleCounts(
    script: CloudScript, log: CloudLog, rules: seq<Rule>, families: Families, names: seq<string>, c: Counts)
    ensures var d := Cycle(script, log, rules, families, names, c).0;
            && d.notFound == c.notFound + Missing(families, names)
            && d.found + d.failed == c.found + c.failed + |names| - Missing(families, names)
    decreases |names|
  {
    if names != [] {
      if !Present(families, names[0]) {
        CycleCounts(script, log, rules, families, names[1..], c.(notFound := c.notFound + 1));
      } else {
        var (ok, sent) := Transmit(script, log, Messages(rules, families, names[0]));
        CycleCounts(script, sent, rules, families, names[1..],
                    if ok then c.(found := c.found + 1) else c.(failed := c.failed + 1));
      }
    }
  }

  /** The call `i` positions on is a metric payload that the cloud rejected. */
  predicate Rejected(script: CloudScript, at: nat, calls: CloudLog, i: nat) {
    i < |calls| && calls[i].Publish? && calls[i].message.Metric? && !script(at + i).ok
  }

  /** What the first message of a list calls, when it does not end the list. */
  function FirstCalls(script: CloudScript, at: nat, m: Message): CloudLog {
    if m.Metric? then [Publish(m)] else if script(at).up then [CheckConnected, Publish(m)] else [CheckConnected]
  }

  lemma TransmitTail(script: CloudScript, log: CloudLog, messages: seq<Message>)
    requires messages != [] && (messages[0].Metric? ==> script(|log|).ok)
    ensures var first := FirstCalls(script, |log|, messages[0]);
            && Transmit(script, log, messages) == Transmit(script, log + first, messages[1..])
            && Calls(script, |log|, messages) == first + Calls(script, |log| + |first|, messages[1..])
  {
    var m := messages[0];
    assert log + [CheckConnected] + [Publish(m)] == log + [CheckConnected, Publish(m)];
  }

  /** The metric payloads a stretch of calls tries to publish. */
  function Tried(calls: CloudLog): seq<Message> {
    if calls == [] then []
    else (if calls[0].Publish? && calls[0].message.Metric? then [calls[0].message] else []) + Tried(calls[1..])
  }

  lemma {:induction false} TriedAppend(a: CloudLog, b: CloudLog)
    ensures Tried(a + b) == Tried(a) + Tried(b)
  {
    if a == [] {
      assert a + b == b;
    } else {
      var first := if a[0].Publish? && a[0].message.Metric? then [a[0].message] else [];
      assert (a + b)[1..] == a[1..] + b && (a + b)[0] == a[0];
      TriedAppend(a[1..], b);
      Regroup(first, Tried(a[1..]), Tried(b));
    }
  }

  lemma FirstTried(script: CloudScript, at: nat, m: Message)
    ensures Tried(FirstCalls(script, at, m)) == if m.Metric? then [m] else []
  {
    assert [Publish(m)][1..] == [] && [CheckConnected][1..] == [];
    assert [CheckConnected, Publish(m)][1..] == [Publish(m)];
    assert Tried([Publish(m)]) == if m.Metric? then [m] else [];
  }

  lemma TriedNext(script: CloudScript, log: CloudLog, messages: seq<Message>)
    requires messages != [] && (messages[0].Metric? ==> script(|log|).ok)
    ensures var next := log + FirstCalls(script, |log|, messages[0]);
            var own := if messages[0].Metric? then [messages[0]] else [];
            && Transmit(script, log, messages).0 == Transmit(script, next, messages[1..]).0
            && Tried(Calls(script, |log|, messages)) == own + Tried(Calls(script, |next|, messages[1..]))
  {
    var first := FirstCalls(script, |log|, messages[0]);
    FirstTried(script, |log|, messages[0]);
    TransmitTail(script, log, messages);
    TriedAppend(first, Calls(script, |log| + |first|, messages[1..]));
  }

  /** For every script, the payloads tried are a prefix of the list's payloads, and all of them if the
      list does not fail. */
  lemma {:induction false} TransmitPayloads(script: CloudScript, log: CloudLog, messages: seq<Message>)
    ensures var ok := Transmit(script, log, messages).0;
            var tried := Tried(Calls(script, |log|, messages));
            tried <= Payloads(messages) && (ok ==> tried == Payloads(messages))
    decreases |messages|
  {
    if messages != [] {
      var m := messages[0];
      if m.Metric? && !script(|log|).ok {
        FirstTried(script, |log|, m);
        assert Calls(script, |log|, messages) == FirstCalls(script, |log|, m);
      } else {
        TriedNext(script, log, messages);
        TransmitPayloads(script, log + FirstCalls(script, |log|, m), messages[1..]);
      }
    }
  }

  /** For every script, a list fails exactly when its last call is a rejected payload, and none of its
      calls before that is one. */
  lemma {:induction false} TransmitCut(script: CloudScript, log: CloudLog, messages: seq<Message>)
    ensures var ok := Transmit(script, log, messages).0;
            var calls := Calls(script, |log|, messages);
            && (!ok ==> calls != [])
            && forall i: nat :: Rejected(script, |log|, calls, i) <==> !ok && i == |calls| - 1
    decreases |messages|
  {
    if messages != [] {
      var m := messages[0];
      var calls := Calls(script, |log|, messages);
      if m.Metric? && !script(|log|).ok {
        assert calls == [Publish(m)];
      } else {
        TransmitTail(script, log, messages);
        var first := FirstCalls(script, |log|, m);
        var rest := Calls(script, |log| + |first|, messages[1..]);
        TransmitCut(script, log + first, messages[1..]);
        forall i: nat
          ensures Rejected(script, |log|, calls, i) <==>
                  !Transmit(script, log, messages).0 && i == |calls| - 1
        {
          RejectedLater(script, |log|, first, rest, i);
        }
      }
    }
  }

  lemma RejectedLater(script: CloudScript, at: nat, first: CloudLog, rest: CloudLog, i: nat)
    ensures i >= |first| ==> (Rejected(script, at, first + rest, i) <==> Rejected(script, at + |first|, rest, i - |first|))
    ensures i < |first| ==> (Rejected(script, at, first + rest, i) <==> Rejected(script, at, first, i))
  {
  }

  // ---------- suffixes ----------

  /** A split puts the name back together; and no name ends in two of the suffixes, so the order in
      which they are tried does not matter. */
  lemma SplitExact(name: string, order: seq<string>)
    requires forall s :: s in order <==> s in SUFFIXES
    ensures Split(name, order) == Split(name, SUFFIXES)
    ensures Split(name, order).Some? ==>
              var (base, suffix) := Split(name, order).value;
              base != "" && suffix in SUFFIXES && base + suffix == name
    ensures Split(name, order).Some? <==> exists s :: s in SUFFIXES && HasSuffix(name, s) && |name| > |s|
  {
    SplitFinds(name, order);
    SplitFinds(name, SUFFIXES);
    if Split(name, order).Some? && Split(name, SUFFIXES).Some? {
      OneSuffix(name, Split(name, order).value.1, Split(name, SUFFIXES).value.1);
    }
  }

  lemma {:induction false} SplitFinds(name: string, order: seq<string>)
    ensures Split(name, order).Some? ==>
              var (base, suffix) := Split(name, order).value;
              suffix in order && HasSuffix(name, suffix) && |name| > |suffix| &&
              base == name[..|name| - |suffix|] && base + suffix == name
    ensures Split(name, order).None? ==> forall s | s in order :: !(HasSuffix(name, s) && |name| > |s|)
  {
    if order != [] {
      var s := order[0];
      if HasSuffix(name, s) && |name| > |s| {
        assert name[..|name| - |s|] + s == name;
      } else {
        SplitFinds(name, order[1..]);
        assert order == [s] + order[1..];
      }
    }
  }

  lemma OneSuffix(name: string, s: string, t: string)
    requires s in SUFFIXES && t in SUFFIXES && HasSuffix(name, s) && HasSuffix(name, t)
    ensures s == t
  {
    assert name[|name| - 1] == s[|s| - 1] == t[|t| - 1];
    assert name[|name| - 2] == s[|s| - 2] == t[|t| - 2];
  }

  // ---------- found, and nothing sent ----------

  lemma {:induction false} NothingIdeal(rules: seq<Rule>, name: string, kind: FamilyType, suffix: Option<string>, series: seq<Series>)
    ensures Ideal(rules, name, kind, suffix, series) == [] <==>
            forall i :: 0 <= i < |series| ==> ValueOf(kind, suffix, series[i]).None?
  {
    if series != [] {
      NothingIdeal(rules, name, kind, suffix, series[1..]);
      assert forall i :: 0 <= i < |series[1..]| ==> series[1..][i] == series[i + 1];
    }
  }

  lemma OnlyEmptyIsSilent(script: CloudScript, log: CloudLog, messages: seq<Message>)
    ensures Transmit(script, log, messages).1 == log <==> messages == []
  {
    TransmitCalls(script, log, messages);
    if messages != [] {
      assert Calls(script, |log|, messages) != [];
    }
  }

  /** Some series of the family that a present metric is read from yields the value asked for. */
  predicate Yields(families: Families, name: string)
    requires Present(families, name)
  {
    var (family, suffix) := Source(families, name).value;
    exists i :: 0 <= i < |family.series| && ValueOf(family.kind, suffix, family.series[i]).Some?
  }

  /** Found does not mean published. For every behaviour of the cloud, a present metric leaves the log
      as it was exactly when no series yields its value; and it is then counted as found. */
  lemma SilentlyFound(script: CloudScript, log: CloudLog, rules: seq<Rule>, families: Families, name: string, c: Counts)
    requires Present(families, name)
    ensures var (d, sent) := Cycle(script, log, rules, families, [name], c);
            && (sent == log <==> !Yields(families, name))
            && (!Yields(families, name) ==> d == c.(found := c.found + 1))
  {
    var (family, suffix) := Source(families, name).value;
    NothingIdeal(rules, name, family.kind, suffix, family.series);
    OnlyEmptyIsSilent(script, log, Messages(rules, families, name));
    CycleOne(script, log, rules, families, name, c);
  }

  /** Every bucket field of a histogram is found and never sent. */
  lemma BucketsAreSilent(families: Families, base: string)
    requires base != "" && base in families && base + "_bucket" !in families && families[base].series != []
    ensures Present(families, base + "_bucket") && !Yields(families, base + "_bucket")
  {
    var name := base + "_bucket";
    assert SUFFIXES[0] == "_bucket" && name[|name| - 7..] == "_bucket" && name[..|name| - 7] == base;
    assert Split(name, SUFFIXES) == Some((base, "_bucket"));
  }

  // ---------- a whole cycle, whatever the cloud does ----------

  function Flat(parts: seq<seq<Message>>): seq<Message> {
    if parts == [] then [] else parts[0] + Flat(parts[1..])
  }

  function Failures(failed: seq<bool>): nat {
    if failed == [] then 0 else (if failed[0] then 1 else 0) + Failures(failed[1..])
  }

  /** The payloads tried of one metric: all of its own, or a prefix of them if it failed. */
  predicate IsShare(rules: seq<Rule>, families: Families, name: string, part: seq<Message>, failed: bool) {
    var all := Payloads(Messages(rules, families, name));
    part <= all && (!failed ==> part == all)
  }

  predicate Shares(
    rules: seq<Rule>, families: Families, names: seq<string>, parts: seq<seq<Message>>, failed: seq<bool>)
  {
    && |parts| == |failed| == |names|
    && forall i :: 0 <= i < |names| ==> IsShare(rules, families, names[i], parts[i], failed[i])
  }

  /** The counts after one more metric. */
  function Outcome(families: Families, name: string, ok: bool, c: Counts): Counts {
    if !Present(families, name) then c.(notFound := c.notFound + 1)
    else if ok then c.(found := c.found + 1)
    else c.(failed := c.failed + 1)
  }

  lemma CycleNext(
    script: CloudScript, log: CloudLog, rules: seq<Rule>, families: Families, names: seq<string>, c: Counts)
    requires names != []
    ensures var (ok, sent) := Transmit(script, log, Messages(rules, families, names[0]));
            && Cycle(script, log, rules, families, names, c) ==
               Cycle(script, sent, rules, families, names[1..], Outcome(families, names[0], ok, c))
            && (!ok ==> Present(families, names[0]))
  {
    AbsentSendsNothing(script, log, rules, families, names[0]);
  }

  /** For every script, the payloads a cycle tries are the concatenation over its metrics of a prefix
      each, cut short only for the metrics counted as failed; a failed one does not stop the next. */
  lemma {:induction false} CyclePayloads(
    script: CloudScript, log: CloudLog, rules: seq<Rule>, families: Families, names: seq<string>, c: Counts)
    returns (parts: seq<seq<Message>>, failed: seq<bool>)
    ensures Shares(rules, families, names, parts, failed)
    ensures var (d, sent) := Cycle(script, log, rules, families, names, c);
            Tried(sent) == Tried(log) + Flat(parts) && d.failed == c.failed + Failures(failed)
    decreases |names|
  {
    if names == [] {
      parts, failed := [], [];
    } else {
      var messages := Messages(rules, families, names[0]);
      var (ok, sent) := Transmit(script, log, messages);
      var tried := Tried(Calls(script, |log|, messages));
      TriedByTransmit(script, log, messages);
      CycleNext(script, log, rules, families, names, c);
      var d := Outcome(families, names[0], ok, c);
      var more, others := CyclePayloads(script, sent, rules, families, names[1..], d);
      parts, failed := [tried] + more, [!ok] + others;
      SharesCons(rules, families, names, tried, !ok, more, others);
      assert parts[1..] == more && failed[1..] == others;
      Regroup(Tried(log), tried, Flat(more));
    }
  }

  lemma TriedByTransmit(script: CloudScript, log: CloudLog, messages: seq<Message>)
    ensures var (ok, sent) := Transmit(script, log, messages);
            var tried := Tried(Calls(script, |log|, messages));
            && Tried(sent) == Tried(log) + tried
            && tried <= Payloads(messages) && (ok ==> tried == Payloads(messages))
  {
    TransmitCalls(script, log, messages);
    TransmitPayloads(script, log, messages);
    TriedAppend(log, Calls(script, |log|, messages));
  }

  lemma SharesCons(
    rules: seq<Rule>, families: Families, names: seq<string>, part: seq<Message>, cut: bool,
    parts: seq<seq<Message>>, failed: seq<bool>)
    requires names != [] && Shares(rules, families, names[1..], parts, failed)
    requires IsShare(rules, families, names[0], part, cut)
    ensures Shares(rules, families, names, [part] + parts, [cut] + failed)
  {
    forall i | 0 < i < |names|
      ensures IsShare(rules, families, names[i], ([part] + parts)[i], ([cut] + failed)[i])
    {
      assert IsShare(rules, families, names[1..][i - 1], parts[i - 1], failed[i - 1]);
    }
  }

  // ---------- every call of a cycle, whatever the cloud does ----------

  /** The calls that attempt these messages one after the other: for an alert a check, and right after
      it the publish if and only if the client is up; for a payload its publish. */
  function Attempts(script: CloudScript, at: nat, messages: seq<Message>): CloudLog
    decreases |messages|
  {
    if messages == [] then []
    else
      var first := FirstCalls(script, at, messages[0]);
      first + Attempts(script, at + |first|, messages[1..])
  }

  lemma {:induction false} AttemptsAppend(script: CloudScript, at: nat, a: seq<Message>, b: seq<Message>)
    ensures var calls := Attempts(script, at, a);
            Attempts(script, at, a + b) == calls + Attempts(script, at + |calls|, b)
    decreases |a|
  {
    if a == [] {
      assert a + b == b;
    } else {
      var first := FirstCalls(script, at, a[0]);
      assert (a + b)[1..] == a[1..] + b && (a + b)[0] == a[0];
      var rest := Attempts(script, at + |first|, a[1..]);
      assert |Attempts(script, at, a)| == |first| + |rest|;
      AttemptsAppend(script, at + |first|, a[1..], b);
      RegroupCalls(first, rest, Attempts(script, at + |first| + |rest|, b));
    }
  }

  lemma RegroupCalls(a: CloudLog, b: CloudLog, c: CloudLog)
    ensures a + (b + c) == (a + b) + c
  {
  }

  /** The messages attempted of a metric: all of them, or those up to a payload if it failed. */
  predicate IsReach(rules: seq<Rule>, families: Families, name: string, part: seq<Message>, failed: bool) {
    var all := Messages(rules, families, name);
    part <= all && if failed then part != [] && part[|part| - 1].Metric? else part == all
  }

  predicate Reaches(
    rules: seq<Rule>, families: Families, names: seq<string>, parts: seq<seq<Message>>, failed: seq<bool>)
  {
    && |parts| == |failed| == |names|
    && forall i :: 0 <= i < |names| ==> IsReach(rules, families, names[i], parts[i], failed[i])
  }

  /** For every script, a list makes the calls that attempt its messages up to some point: its end, or
      the payload whose rejection ends it. */
  lemma {:induction false} TransmitAttempts(script: CloudScript, log: CloudLog, messages: seq<Message>) returns (k: nat)
    ensures k <= |messages|
    ensures var (ok, sent) := Transmit(script, log, messages);
            && sent == log + Attempts(script, |log|, messages[..k])
            && if ok then k == |messages| else k > 0 && messages[k - 1].Metric? && !script(|sent| - 1).ok
    decreases |messages|
  {
    k := 0;
    if messages != [] {
      var m, first := messages[0], FirstCalls(script, |log|, messages[0]);
      if m.Metric? && !script(|log|).ok {
        k := 1;
        assert messages[..1][1..] == [];
        assert Attempts(script, |log|, messages[..1]) == first + [] == [Publish(m)];
      } else {
        TransmitTail(script, log, messages);
        var n := TransmitAttempts(script, log + first, messages[1..]);
        k := 1 + n;
        AttemptsNext(script, log, messages, n);
      }
    }
  }

  lemma AttemptsNext(script: CloudScript, log: CloudLog, messages: seq<Message>, n: nat)
    requires n < |messages|
    ensures var next := log + FirstCalls(script, |log|, messages[0]);
            next + Attempts(script, |next|, messages[1..][..n]) == log + Attempts(script, |log|, messages[..1 + n])
  {
    assert messages[..1 + n] == [messages[0]] + messages[1..][..n];
    AttemptsGoOn(script, log, [messages[0]], messages[1..][..n]);
    assert Attempts(script, |log|, [messages[0]]) == FirstCalls(script, |log|, messages[0]) + [] by {
      assert [messages[0]][1..] == [];
    }
  }

  /** For every script, the calls of a cycle are those that attempt, metric after metric, the messages
      of each: all of them, or those up to a payload for the metrics counted as failed. */
  lemma {:induction false} CycleAttempts(
    script: CloudScript, log: CloudLog, rules: seq<Rule>, families: Families, names: seq<string>, c: Counts)
    returns (parts: seq<seq<Message>>, failed: seq<bool>)
    ensures Reaches(rules, families, names, parts, failed)
    ensures var (d, sent) := Cycle(script, log, rules, families, names, c);
            sent == log + Attempts(script, |log|, Flat(parts)) && d.failed == c.failed + Failures(failed)
    decreases |names|
  {
    if names == [] {
      parts, failed := [], [];
      assert log + [] == log;
    } else {
      var messages := Messages(rules, families, names[0]);
      var (ok, sent) := Transmit(script, log, messages);
      var k := TransmitAttempts(script, log, messages);
      CycleNext(script, log, rules, families, names, c);
      var d := Outcome(families, names[0], ok, c);
      var more, others := CycleAttempts(script, sent, rules, families, names[1..], d);
      parts, failed := [messages[..k]] + more, [!ok] + others;
      assert parts[1..] == more && failed[1..] == others;
      ReachesCons(rules, families, names, messages[..k], !ok, more, others);
      AttemptsGoOn(script, log, messages[..k], Flat(more));
    }
  }

  lemma AttemptsGoOn(script: CloudScript, log: CloudLog, part: seq<Message>, more: seq<Message>)
    ensures var sent := log + Attempts(script, |log|, part);
            sent + Attempts(script, |sent|, more) == log + Attempts(script, |log|, part + more)
  {
    var calls := Attempts(script, |log|, part);
    var rest := Attempts(script, |log + calls|, more);
    assert Attempts(script, |log|, part + more) == calls + rest by {
      AttemptsAppend(script, |log|, part, more);
    }
    RegroupCalls(log, calls, rest);
  }

  lemma ReachesCons(
    rules: seq<Rule>, families: Families, names: seq<string>, part: seq<Message>, cut: bool,
    parts: seq<seq<Message>>, failed: seq<bool>)
    requires names != [] && Reaches(rules, families, names[1..], parts, failed)
    requires IsReach(rules, families, names[0], part, cut)
    ensures Reaches(rules, families, names, [part] + parts, [cut] + failed)
  {
    forall i | 0 < i < |names|
      ensures IsReach(rules, families, names[i], ([part] + parts)[i], ([cut] + failed)[i])
    {
      assert IsReach(rules, families, names[1..][i - 1], parts[i - 1], failed[i - 1]);
    }
  }

  // ---------- what the messages are ----------

  /** What a series offers, by what a metric's name adds to the family's: a counter its value, with
      or without the conventional ending; a gauge and an untyped series theirs; a histogram and a
      summary their sample count, under their own name as well, and their sample sum. */
  function Samples(kind: FamilyType, m: Series): map<string, real> {
    match kind
    case Counter => if m.counter.Some? then map["" := m.counter.value, "_total" := m.counter.value] else map[]
    case Gauge => if m.gauge.Some? then map["" := m.gauge.value] else map[]
    case Untyped => if m.untyped.Some? then map["" := m.untyped.value] else map[]
    case Histogram => Totaled(m.histogram)
    case Summary => Totaled(m.summary)
    case Unsupported => map[]
  }

  function Totaled(totals: Option<Totals>): map<string, real> {
    if totals.None? then map[]
    else map["" := totals.value.count as real, "_count" := totals.value.count as real, "_sum" := totals.value.sum]
  }

  /** The value read for a direct metric or a derived one is the sample of that name, if there is one. */
  lemma ReadsTheSample(kind: FamilyType, suffix: Option<string>, m: Series)
    requires suffix.Some? ==> suffix.value in SUFFIXES
    ensures var name := if suffix.Some? then suffix.value else "";
            ValueOf(kind, suffix, m) == if name in Samples(kind, m) then Some(Samples(kind, m)[name]) else None
  {
    if suffix.Some? {
      SuffixNames(suffix.value);
    }
  }

  lemma SuffixNames(suffix: string)
    requires suffix in SUFFIXES
    ensures suffix in {"_bucket", "_count", "_sum", "_total"}
  {
  }

  /** A metric is read from the family of its own name if there is one, and otherwise from the family
      whose name it extends by a suffix. */
  lemma SourceExactly(families: Families, name: string, family: Family, suffix: string)
    requires suffix in SUFFIXES
    ensures Source(families, name) == Some((family, None)) <==> name in families && families[name] == family
    ensures Source(families, name) == Some((family, Some(suffix))) <==>
            name !in families && exists base :: base != "" && base in families && base + suffix == name && families[base] == family
  {
    SplitExact(name, SUFFIXES);
    if name !in families {
      if base :| base != "" && base in families && base + suffix == name && families[base] == family {
        assert name[|name| - |suffix|..] == suffix && name[..|base|] == base;
        assert HasSuffix(name, suffix) && |name| > |suffix|;
        SplitFinds(name, SUFFIXES);
        OneSuffix(name, suffix, Split(name, SUFFIXES).value.1);
      }
    }
  }

  /** The value lies on the far side of the rule's threshold, or on it, as the operator says. */
  predicate Crosses(rule: Rule, value: real) {
    || (rule.operator == ">" && value > rule.threshold)
    || (rule.operator == "<" && value < rule.threshold)
    || (rule.operator == "==" && value == rule.threshold)
  }

  /** The positions `at` are exactly those, from `from` on, of the rules for this metric that the
      value crosses, in increasing order. */
  predicate Crossed(rules: seq<Rule>, from: nat, name: string, value: real, at: seq<nat>) {
    && (forall j, k :: 0 <= j < k < |at| ==> at[j] < at[k])
    && (forall k :: 0 <= k < |at| ==> from <= at[k] < |rules|)
    && forall i: nat :: from <= i < |rules| ==> (i in at <==> rules[i].metric == name && Crosses(rules[i], value))
  }

  /** One alert for each of these rules. */
  predicate Announces(rules: seq<Rule>, value: real, labels: map<string, string>, at: seq<nat>, alerts: seq<Message>) {
    |alerts| == |at| && forall k :: 0 <= k < |at| ==> at[k] < |rules| && alerts[k] == Alert(rules[at[k]], value, labels)
  }

  /** The alerts of a sample: one for each rule of its metric that the value crosses, in rule order,
      each with the rule, the value and the labels of the sample. */
  lemma AlertsExactly(rules: seq<Rule>, name: string, value: real, labels: map<string, string>) returns (at: seq<nat>)
    ensures Crossed(rules, 0, name, value, at)
    ensures Announces(rules, value, labels, at, Alerts(rules, name, value, labels))
  {
    at := AlertsFrom(rules, 0, name, value, labels);
    assert rules[0..] == rules;
  }

  lemma {:induction false} AlertsFrom(rules: seq<Rule>, from: nat, name: string, value: real, labels: map<string, string>)
    returns (at: seq<nat>)
    requires from <= |rules|
    ensures Crossed(rules, from, name, value, at)
    ensures Announces(rules, value, labels, at, Alerts(rules[from..], name, value, labels))
    decreases |rules| - from
  {
    at := [];
    if from < |rules| {
      var more := AlertsFrom(rules, from + 1, name, value, labels);
      at := if rules[from].metric == name && Crosses(rules[from], value) then [from] + more else more;
      CrossedCons(rules, from, name, value, more);
      AnnouncesMore(rules, from, name, value, labels, more);
    }
  }

  lemma AnnouncesMore(rules: seq<Rule>, from: nat, name: string, value: real, labels: map<string, string>, more: seq<nat>)
    requires from < |rules| && Announces(rules, value, labels, more, Alerts(rules[from + 1..], name, value, labels))
    ensures Announces(rules, value, labels,
                      if rules[from].metric == name && Crosses(rules[from], value) then [from] + more else more,
                      Alerts(rules[from..], name, value, labels))
  {
    var later := Alerts(rules[from + 1..], name, value, labels);
    AlertsOfSuffix(rules, from, name, value, labels);
    AnnouncesCons(rules, from, value, labels, more, later);
    assert [] + later == later;
  }

  lemma AnnouncesCons(rules: seq<Rule>, from: nat, value: real, labels: map<string, string>, at: seq<nat>, alerts: seq<Message>)
    requires from < |rules| && Announces(rules, value, labels, at, alerts)
    ensures Announces(rules, value, labels, [from] + at, [Alert(rules[from], value, labels)] + alerts)
  {
  }

  lemma AlertsOfSuffix(rules: seq<Rule>, from: nat, name: string, value: real, labels: map<string, string>)
    requires from < |rules|
    ensures Alerts(rules[from..], name, value, labels) ==
            (if rules[from].metric == name && Crosses(rules[from], value) then [Alert(rules[from], value, labels)] else []) +
            Alerts(rules[from + 1..], name, value, labels)
  {
    assert rules[from..][1..] == rules[from + 1..];
  }

  lemma CrossedCons(rules: seq<Rule>, from: nat, name: string, value: real, more: seq<nat>)
    requires from < |rules| && Crossed(rules, from + 1, name, value, more)
    ensures Crossed(rules, from, name, value,
                    if rules[from].metric == name && Crosses(rules[from], value) then [from] + more else more)
  {
    assert forall i: nat :: i in [from] + more <==> i == from || i in more;
  }

  /** A metric's messages are those of its series, one series after the other. */
  lemma {:induction false} IdealAppend(
    rules: seq<Rule>, name: string, kind: FamilyType, suffix: Option<string>, a: seq<Series>, b: seq<Series>)
    ensures Ideal(rules, name, kind, suffix, a + b) ==
            Ideal(rules, name, kind, suffix, a) + Ideal(rules, name, kind, suffix, b)
  {
    if a == [] {
      assert a + b == b;
    } else {
      assert (a + b)[1..] == a[1..] + b && (a + b)[0] == a[0];
      IdealAppend(rules, name, kind, suffix, a[1..], b);
      var value := ValueOf(kind, suffix, a[0]);
      if value.Some? {
        Regroup(Alerts(rules, name, value.value, a[0].labels) + [Metric(name, value.value, a[0].labels)],
                Ideal(rules, name, kind, suffix, a[1..]), Ideal(rules, name, kind, suffix, b));
      }
    }
  }

  /** A series with a value gives its alerts and then its payload, any other series nothing. */
  lemma IdealOfOne(
    rules: seq<Rule>, name: string, kind: FamilyType, suffix: Option<string>, m: Series)
    returns (at: seq<nat>, alerts: seq<Message>)
    ensures var value := ValueOf(kind, suffix, m);
            var messages := Ideal(rules, name, kind, suffix, [m]);
            if value.None? then messages == []
            else
              && messages == alerts + [Metric(name, value.value, m.labels)]
              && Crossed(rules, 0, name, value.value, at) && Announces(rules, value.value, m.labels, at, alerts)
  {
    at, alerts := [], [];
    var value := ValueOf(kind, suffix, m);
    assert [m][1..] == [];
    if value.Some? {
      at := AlertsExactly(rules, name, value.value, m.labels);
      alerts := Alerts(rules, name, value.value, m.labels);
    }
  }

  /** Some series of the metric has this value and these labels. */
  predicate Sampled(families: Families, name: string, value: real, labels: map<string, string>) {
    var source := Source(families, name);
    source.Some? &&
    exists i :: 0 <= i < |source.value.0.series| && source.value.0.series[i].labels == labels &&
      ValueOf(source.value.0.kind, source.value.1, source.value.0.series[i]) == Some(value)
  }

  lemma {:induction false} IdealMembers(
    rules: seq<Rule>, name: string, kind: FamilyType, suffix: Option<string>, series: seq<Series>,
    rule: Rule, value: real, labels: map<string, string>)
    ensures Alert(rule, value, labels) in Ideal(rules, name, kind, suffix, series) <==>
            && rule in rules && rule.metric == name && Crosses(rule, value)
            && exists i :: 0 <= i < |series| && series[i].labels == labels && ValueOf(kind, suffix, series[i]) == Some(value)
  {
    if series != [] {
      var n := |series| - 1;
      assert series == series[..n] + [series[n]];
      IdealMembers(rules, name, kind, suffix, series[..n], rule, value, labels);
      IdealAppend(rules, name, kind, suffix, series[..n], [series[n]]);
      OneRaises(rules, name, kind, suffix, series[n], rule, value, labels);
    }
  }

  lemma OneRaises(
    rules: seq<Rule>, name: string, kind: FamilyType, suffix: Option<string>, m: Series,
    rule: Rule, value: real, labels: map<string, string>)
    ensures Alert(rule, value, labels) in Ideal(rules, name, kind, suffix, [m]) <==>
            && rule in rules && rule.metric == name && Crosses(rule, value)
            && m.labels == labels && ValueOf(kind, suffix, m) == Some(value)
  {
    var at, alerts := IdealOfOne(rules, name, kind, suffix, m);
    var read := ValueOf(kind, suffix, m);
    if read.Some? {
      Announced(rules, name, read.value, m.labels, at, alerts, Alert(rule, value, labels));
    }
  }

  lemma Announced(
    rules: seq<Rule>, name: string, value: real, labels: map<string, string>, at: seq<nat>, alerts: seq<Message>, alert: Message)
    requires Crossed(rules, 0, name, value, at) && Announces(rules, value, labels, at, alerts) && alert.Alert?
    ensures alert in alerts <==>
            && alert.rule in rules && alert.rule.metric == name && Crosses(alert.rule, value)
            && alert.value == value && alert.alertLabels == labels
  {
    if alert in alerts {
      var k :| 0 <= k < |alerts| && alerts[k] == alert;
      assert at[k] in at;
    }
    if alert.rule in rules && alert.rule.metric == name && Crosses(alert.rule, value) && alert.value == value && alert.alertLabels == labels {
      var i :| 0 <= i < |rules| && rules[i] == alert.rule;
      assert i in at;
      var k :| 0 <= k < |at| && at[k] == i;
      assert alerts[k] == alert;
    }
  }

  /** With the cloud well, the alerts that arrive in a cycle are exactly those for a rule of one of its
      metrics that a value of that metric crosses. */
  lemma AlertsArriveExactly(
    script: CloudScript, log: CloudLog, rules: seq<Rule>, families: Families, names: seq<string>, c: Counts,
    rule: Rule, value: real, labels: map<string, string>)
    requires AllWell(script, |log|) && Published(log) == []
    ensures Alert(rule, value, labels) in Published(Cycle(script, log, rules, families, names, c).1) <==>
            rule in rules && Crosses(rule, value) && rule.metric in names && Sampled(families, rule.metric, value, labels)
  {
    CycleAllArrive(script, log, rules, families, names, c);
    assert [] + CycleMessages(rules, families, names) == CycleMessages(rules, families, names);
    AlertInCycle(rules, families, names, rule, value, labels);
  }

  lemma {:induction false} AlertInCycle(
    rules: seq<Rule>, families: Families, names: seq<string>, rule: Rule, value: real, labels: map<string, string>)
    ensures Alert(rule, value, labels) in CycleMessages(rules, families, names) <==>
            rule in rules && Crosses(rule, value) && rule.metric in names && Sampled(families, rule.metric, value, labels)
  {
    if names != [] {
      AlertInCycle(rules, families, names[1..], rule, value, labels);
      assert names == [names[0]] + names[1..];
      var source := Source(families, names[0]);
      if source.Some? {
        IdealMembers(rules, names[0], source.value.0.kind, source.value.1, source.value.0.series, rule, value, labels);
      }
    }
  }
}
