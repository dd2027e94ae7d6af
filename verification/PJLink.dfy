/** The PJLink adapter: commands out, replies in (PJLink Class 1, sections 4.1, 4.2 and 4.8). */
module PJLink {
  import opened Domain
  import opened Errors
  import opened Text

  // ---------- commands ----------

  function Translate(cmd: Command): Result<Bytes, Error> {
    match cmd.name
    case "TURN_ON" => Ok("%1POWR 1\r")
    case "TURN_OFF" => Ok("%1POWR 0\r")
    case "GET_STATUS" => Ok("%1POWR ?\r")
    case _ => Err(Wrap("", ERR_UNSUPPORTED_PROTOCOL, ": " + cmd.name))
  }

  function FollowUps(cmd: Command): Result<seq<Bytes>, Error> {
    Ok(if cmd.name == "GET_STATUS" then ["%1LAMP ?\r"] else [])
  }

  /** Exactly three commands are translated, to three different payloads, each ending at its only
      carriage return; the error for any other is one no retry could mend. */
  lemma TranslateExact(a: Command, b: Command)
    ensures Translate(a).Ok? <==> a.name in {"TURN_ON", "TURN_OFF", "GET_STATUS"}
    ensures Translate(a).Ok? && Translate(b).Ok? ==> (Translate(a) == Translate(b) <==> a.name == b.name)
    ensures Translate(a).Ok? ==>
              var p := Translate(a).value;
              p != "" && forall i :: 0 <= i < |p| ==> (p[i] == '\r' <==> i == |p| - 1)
    ensures Translate(a).Err? ==> Classify(Translate(a).error) == Fatal
  {
    if Translate(a).Err? {
      WrapKeepsClass("", ERR_UNSUPPORTED_PROTOCOL, ": " + a.name);
    }
    if Translate(a).Ok? && Translate(b).Ok? {
      assert Translate(a).value[7] == Translate(b).value[7] <==> a.name == b.name;
    }
  }

  /** The power commands ask for the state they are named after, by the code that reports it, and
      nothing follows them; a status query asks for the power state and then for the lamp. */
  lemma CommandFrames(cmd: Command, code: string)
    requires code in POWER_STATES
    ensures cmd.name == "TURN_ON" && POWER_STATES[code] == "ON" ==> Translate(cmd) == Ok("%1POWR " + code + "\r")
    ensures cmd.name == "TURN_OFF" && POWER_STATES[code] == "STANDBY" ==> Translate(cmd) == Ok("%1POWR " + code + "\r")
    ensures cmd.name in {"TURN_ON", "TURN_OFF"} ==> FollowUps(cmd) == Ok([])
    ensures cmd.name == "GET_STATUS" ==> Translate(cmd) == Ok("%1POWR ?\r") && FollowUps(cmd) == Ok(["%1LAMP ?\r"])
  {
    StateCodes(code);
    assert "%1POWR " + "1" + "\r" == "%1POWR 1\r" && "%1POWR " + "0" + "\r" == "%1POWR 0\r";
  }

  /** On and standby are each reported by one code. */
  lemma StateCodes(code: string)
    requires code in POWER_STATES
    ensures POWER_STATES[code] == "ON" <==> code == "1"
    ensures POWER_STATES[code] == "STANDBY" <==> code == "0"
  {
    var state := POWER_STATES[code];
    match code
    case "1" => assert |state| == 2;
    case "0" => assert |state| == 7;
    case "2" => assert |state| == 7 && state[0] == 'C';
    case "3" => assert |state| == 7 && state[0] == 'W';
  }

  // ---------- replies ----------

  const POWR := "POWR="
  const LAMP := "LAMP="

  function ErrorCode(response: string): Option<string> {
    if Contains(response, "ERR1") then Some("ERR1_UNDEFINED_COMMAND")
    else if Contains(response, "ERR2") then Some("ERR2_OUT_OF_PARAMETER")
    else if Contains(response, "ERR3") then Some("ERR3_UNAVAILABLE_TIME")
    else if Contains(response, "ERR4") then Some("ERR4_PROJECTOR_FAILURE")
    else None
  }

  function PowerState(value: string): string {
    match value
    case "0" => "STANDBY"
    case "1" => "ON"
    case "2" => "COOLING"
    case "3" => "WARMING"
    case _ => value
  }

  /** What follows the first occurrence of a marker. */
  function AfterMarker(response: string, marker: string): Option<string> {
    var at := Index(response, marker);
    if at < 0 then None else Some(response[at + |marker|..])
  }

  function WithPower(response: string, data: Data): Data {
    var rest := AfterMarker(response, POWR);
    if rest.None? then data else PowerFrom(TrimSpace(rest.value), data)
  }

  function PowerFrom(value: string, data: Data): Data {
    if value == "OK" then data["powerResult" := Value.Text("OK")]
    else data["powerState" := Value.Text(PowerState(value))]
  }

  function WithLamp(response: string, data: Data): Data {
    var rest := AfterMarker(response, LAMP);
    if rest.None? then data else LampOf(rest.value, data)
  }

  function LampOf(payload: string, data: Data): Data {
    LampFrom(Fields(TrimSpace(payload)), data)
  }

  /** The first token is the hours if it is a number, the second the flag. */
  function LampFrom(parts: seq<string>, data: Data): Data {
    if parts == [] then data
    else if |parts| == 1 then WithHours(parts[0], data)
    else WithHours(parts[0], data)["lamp_status" := Value.Text(if parts[1] == "1" then "ON" else "OFF")]
  }

  function WithHours(token: string, data: Data): Data {
    var hours := Atoi(token);
    if hours.Some? then data["lamp_hours" := Number(hours.value)] else data
  }

  function Parsed(raw: Bytes): Data {
    Reading(TrimSpace(raw))
  }

  function Reading(response: string): Data {
    var code := ErrorCode(response);
    if code.Some? then map["error" := Value.Text(code.value)]
    else OrRaw(response, WithLamp(response, WithPower(response, map[])))
  }

  /** The reply itself stands in for data nothing was read from. */
  function OrRaw(response: string, data: Data): Data {
    if data == map[] then map["rawResponse" := Value.Text(response)] else data
  }

  method ParsePower(response: string, data: DataMap)
    modifies data
    ensures data.entries == WithPower(response, old(data.entries))
  {
    var at := Index(response, POWR);
    if at < 0 {
      return;
    }
    assert AfterMarker(response, POWR) == Some(response[at + 5..]);
    StorePower(TrimSpace(response[at + 5..]), data);
  }

  method StorePower(value: string, data: DataMap)
    modifies data
    ensures data.entries == PowerFrom(value, old(data.entries))
  {
    if value == "OK" {
      data.entries := data.entries["powerResult" := Value.Text("OK")];
      return;
    }
    data.entries := data.entries["powerState" := Value.Text(PowerState(value))];
  }

  method ParseLamp(response: string, data: DataMap)
    modifies data
    ensures data.entries == WithLamp(response, old(data.entries))
  {
    var at := Index(response, LAMP);
    if at < 0 {
      return;
    }
    assert AfterMarker(response, LAMP) == Some(response[at + 5..]);
    StoreLamp(response[at + 5..], data);
  }

  method StoreLamp(payload: string, data: DataMap)
    modifies data
    ensures data.entries == LampOf(payload, old(data.entries))
  {
    var parts := Fields(TrimSpace(payload));
    ghost var was := data.entries;
    assert LampOf(payload, was) == LampFrom(parts, was);
    if |parts| == 0 {
      return;
    }
    var hours := Atoi(parts[0]);
    if hours.Some? {
      data.entries := data.entries["lamp_hours" := Number(hours.value)];
    }
    assert data.entries == WithHours(parts[0], was);
    if |parts| > 1 {
      if parts[1] == "1" {
        data.entries := data.entries["lamp_status" := Value.Text("ON")];
      } else {
        data.entries := data.entries["lamp_status" := Value.Text("OFF")];
      }
    }
  }

  /** Parsing never fails; it fills a fresh map by the rules `Parsed` states. */
  method ParseTelemetry(raw: Bytes) returns (data: DataMap)
    ensures fresh(data) && data.entries == Parsed(raw)
  {
    var response := TrimSpace(raw);
    data := new DataMap(map[]);
    var code := ErrorCode(response);
    if code.Some? {
      data.entries := data.entries["error" := Value.Text(code.value)];
      return;
    }
    IndexMeansContains(response, POWR);
    IndexMeansContains(response, LAMP);
    if Contains(response, POWR) {
      ParsePower(response, data);
    }
    if Contains(response, LAMP) {
      ParseLamp(response, data);
    }
    if |data.entries| == 0 {
      data.entries := data.entries["rawResponse" := Value.Text(response)];
    }
  }

  lemma IndexMeansContains(s: string, m: string)
    ensures Contains(s, m) <==> Index(s, m) >= 0
  {
    IndexFromIs(s, m, 0);
    if Contains(s, m) {
      var i :| 0 <= i <= |s| - |m| && MatchesAt(s, m, i);
      assert MatchesAt(s, m, i);
    }
  }

  // ---------- the printer, and what parsing recovers ----------

  /** Any layout of a reply to a power query or command. */
  function PrintPower(lead: string, pad: string, value: string, trail: string): Bytes {
    lead + ("%1POWR=" + (pad + value + trail))
  }

  /** Any layout of a lamp reply: the first lamp's hours and flag, then whatever `tail` holds. */
  function PrintLamp(lead: string, pad: string, hours: int, gap: string, on: bool, tail: string): Bytes {
    lead + ("%1LAMP=" + LampBody(pad, hours, gap, if on then "1" else "0", tail))
  }

  function LampBody(pad: string, hours: int, gap: string, flag: string, tail: string): string {
    pad + (Itoa(hours) + (gap + (flag + tail)))
  }

  ghost predicate FreeOfErrors(s: string) {
    !Contains(s, "ERR1") && !Contains(s, "ERR2") && !Contains(s, "ERR3") && !Contains(s, "ERR4")
  }

  const ERROR_MARKERS := ["ERR1", "ERR2", "ERR3", "ERR4"]
  const ERROR_CODES := ["ERR1_UNDEFINED_COMMAND", "ERR2_OUT_OF_PARAMETER", "ERR3_UNAVAILABLE_TIME", "ERR4_PROJECTOR_FAILURE"]

  /** The reported code is that of the lowest-numbered marker anywhere in the reply, if there is one. */
  lemma ErrorCodeExact(response: string)
    ensures ErrorCode(response).None? <==> FreeOfErrors(response)
    ensures forall k :: 0 <= k < 4 ==>
              (ErrorCode(response) == Some(ERROR_CODES[k]) <==>
               Contains(response, ERROR_MARKERS[k]) && forall j :: 0 <= j < k ==> !Contains(response, ERROR_MARKERS[j]))
  {
    assert ERROR_MARKERS[0] == "ERR1" && ERROR_MARKERS[1] == "ERR2" && ERROR_MARKERS[2] == "ERR3" && ERROR_MARKERS[3] == "ERR4";
    forall i, j | 0 <= i < j < 4
      ensures ERROR_CODES[i] != ERROR_CODES[j]
    {
      assert ERROR_CODES[i][3] != ERROR_CODES[j][3];
    }
  }

  function ErrorValue(response: string): Option<Value> {
    var code := ErrorCode(response);
    if code.Some? then Some(Value.Text(code.value)) else None
  }

  /** The data has an entry; an error entry exactly when the reply has a marker, with its code, and
      then no other; a raw entry only alone, with the reply; and never both a power result and a state. */
  ghost predicate WellShaped(data: Data, response: string) {
    && data != map[]
    && ("error" in data <==> !FreeOfErrors(response))
    && ("error" in data ==> data.Keys == {"error"} && Some(data["error"]) == ErrorValue(response))
    && ("rawResponse" in data ==> data.Keys == {"rawResponse"} && data["rawResponse"] == Value.Text(response))
    && data.Keys <= {"error", "rawResponse", "powerResult", "powerState", "lamp_hours", "lamp_status"}
    && !("powerResult" in data && "powerState" in data)
  }

  /** Whatever the device sends, the data read from it is well shaped. */
  lemma ParsedShape(raw: Bytes)
    ensures WellShaped(Parsed(raw), TrimSpace(raw))
  {
    ReadingShape(TrimSpace(raw));
  }

  lemma ReadingShape(response: string)
    ensures WellShaped(Reading(response), response)
  {
    var power := WithPower(response, map[]);
    PowerKeys(response);
    LampKeys(response, power);
    ShapeOfReading(response, WithLamp(response, power));
  }

  lemma ShapeOfReading(response: string, lamp: Data)
    requires Reading(response) ==
             if ErrorCode(response).Some? then map["error" := Value.Text(ErrorCode(response).value)]
             else OrRaw(response, lamp)
    requires lamp.Keys <= {"powerResult", "powerState", "lamp_hours", "lamp_status"}
    requires !("powerResult" in lamp && "powerState" in lamp)
    ensures WellShaped(Reading(response), response)
  {
    if ErrorCode(response).Some? {
      assert "error" in Reading(response);
    } else if lamp == map[] {
      assert "rawResponse" in Reading(response);
    }
  }

  lemma PowerKeys(response: string)
    ensures var power := WithPower(response, map[]);
            power.Keys <= {"powerResult", "powerState"} && !("powerResult" in power && "powerState" in power)
  {
  }

  lemma LampKeys(response: string, data: Data)
    ensures var lamp := WithLamp(response, data);
            data.Keys <= lamp.Keys <= data.Keys + {"lamp_hours", "lamp_status"}
  {
  }

  /** The start of a reply can start neither an error marker nor the other query's marker. */
  lemma SolidReply(header: string, body: string, m: string)
    requires m != "" && m[0] !in header && !Contains(body, m)
    ensures !Contains(header + TrimRight(body), m)
  {
    if Contains(header + TrimRight(body), m) {
      ContainsAfter(header, TrimRight(body), m);
      var trail := TrimRightSplits(body);
      ContainsPrefix(TrimRight(body), trail, m);
    }
  }

  lemma TrimReply(lead: string, header: string, body: string)
    requires Blank(lead) && Plain(header)
    ensures TrimSpace(lead + (header + body)) == header + TrimRight(body)
  {
    TrimLeftDrops(lead, header + body);
    PlainHead(header, body);
    TrimRightAppend(header, body);
  }

  /** The marker of a reply is found right after its two-character prefix. */
  lemma MarkerAfterPrefix(marker: string, rest: string)
    requires |marker| == 5 && marker[0] != '%' && marker[0] != '1'
    ensures Index("%1" + marker + rest, marker) == 2
    ensures ("%1" + marker + rest)[7..] == rest
  {
    var s := "%1" + marker + rest;
    IndexFromIs(s, marker, 0);
    assert s[2..7] == marker;
    assert MatchesAt(s, marker, 2);
    assert !MatchesAt(s, marker, 0) by {
      assert s[0..5][0] == '%';
    }
    assert !MatchesAt(s, marker, 1) by {
      assert s[1..6][0] == '1';
    }
  }

  /** The power states of a Class 1 projector, by the code it reports (section 4.2). */
  const POWER_STATES: map<string, string> :=
    map["0" := "STANDBY", "1" := "ON", "2" := "COOLING", "3" := "WARMING"]

  /** Every power value comes back from any layout of its reply: the acknowledgement of a command as a
      result, a known code as its state, anything else as it is. */
  lemma PowerRoundTrip(lead: string, pad: string, value: string, trail: string)
    requires Blank(lead) && Blank(pad) && Blank(trail) && Trimmed(value)
    requires FreeOfErrors(value) && !Contains(value, LAMP)
    ensures Parsed(PrintPower(lead, pad, value, trail)) ==
            if value == "OK" then map["powerResult" := Value.Text("OK")]
            else map["powerState" := Value.Text(if value in POWER_STATES then POWER_STATES[value] else value)]
  {
    var body := pad + value + trail;
    var raw := PrintPower(lead, pad, value, trail);
    TrimReply(lead, "%1POWR=", body);
    PowerReplyUnmarked(pad, value, trail);
    ReadPower(TrimSpace(raw), TrimRight(body));
    TrimLeftOfTrimRight(pad, value, trail);
    PowerStateNamed(value);
  }

  lemma PowerStateNamed(value: string)
    ensures PowerState(value) == if value in POWER_STATES then POWER_STATES[value] else value
  {
  }

  lemma ReadPower(response: string, rest: string)
    requires response == "%1POWR=" + rest
    requires FreeOfErrors(response) && !Contains(response, LAMP)
    ensures Reading(response) ==
            if TrimSpace(rest) == "OK" then map["powerResult" := Value.Text("OK")]
            else map["powerState" := Value.Text(PowerState(TrimSpace(rest)))]
  {
    assert response == "%1" + POWR + rest;
    MarkerAfterPrefix(POWR, rest);
    IndexMeansContains(response, LAMP);
    ErrorCodeExact(response);
    var power := WithPower(response, map[]);
    assert "powerResult" in power || "powerState" in power;
  }

  lemma ReadLamp(response: string, rest: string, hours: int, flag: string, others: seq<string>)
    requires response == "%1LAMP=" + rest
    requires FreeOfErrors(response) && !Contains(response, POWR)
    requires Fields(TrimSpace(rest)) == [Itoa(hours), flag] + others
    requires INT_MIN <= hours <= INT_MAX
    ensures Reading(response) ==
            map["lamp_hours" := Number(hours), "lamp_status" := Value.Text(if flag == "1" then "ON" else "OFF")]
  {
    IndexMeansContains(response, POWR);
    ErrorCodeExact(response);
    LampAfterPrefix(rest, map[]);
    LampOfTokens(hours, flag, others);
  }

  function LampTokens(response: string): seq<string> {
    var rest := AfterMarker(response, LAMP);
    if rest.None? then [] else Fields(TrimSpace(rest.value))
  }

  /** The power entries of the data are those of this text, if there is any: a result or a state. */
  predicate PowerSays(data: Data, text: Option<string>) {
    && ("powerResult" in data <==> text.Some? && TrimSpace(text.value) == "OK")
    && ("powerResult" in data ==> data["powerResult"] == Value.Text("OK"))
    && ("powerState" in data <==> text.Some? && TrimSpace(text.value) != "OK")
    && ("powerState" in data ==>
          var value := TrimSpace(text.value);
          data["powerState"] == Value.Text(if value in POWER_STATES then POWER_STATES[value] else value))
  }

  /** The lamp entries of the data are those of these tokens: hours if the first is a number, and a
      flag if there is a second one, on for exactly "1". */
  predicate LampSays(data: Data, parts: seq<string>) {
    && ("lamp_hours" in data <==> parts != [] && Atoi(parts[0]).Some?)
    && ("lamp_hours" in data ==> data["lamp_hours"] == Number(Atoi(parts[0]).value))
    && ("lamp_status" in data <==> |parts| >= 2)
    && ("lamp_status" in data ==> data["lamp_status"] == Value.Text(if parts[1] == "1" then "ON" else "OFF"))
  }

  /** Any reply without an error marker: the power entries are those of the text after the first POWR=,
      the lamp entries those of the tokens after the first LAMP=. Neither hides the other, and only a
      reply that gives no entry is kept as it is. */
  lemma ReadingExactly(response: string)
    requires FreeOfErrors(response)
    ensures var data := Reading(response);
            && PowerSays(data, AfterMarker(response, POWR)) && LampSays(data, LampTokens(response))
            && ("rawResponse" in data <==> data.Keys !! {"powerResult", "powerState", "lamp_hours", "lamp_status"})
  {
    ReadingOfBoth(response);
    PowerEntries(response);
    EntriesOfBoth(response, WithPower(response, map[]), AfterMarker(response, POWR), LampTokens(response));
  }

  lemma ReadingOfBoth(response: string)
    requires FreeOfErrors(response)
    ensures Reading(response) == OrRaw(response, LampFrom(LampTokens(response), WithPower(response, map[])))
  {
    ErrorCodeExact(response);
    LampOfBoth(response, WithPower(response, map[]));
  }

  lemma LampOfBoth(response: string, data: Data)
    ensures WithLamp(response, data) == LampFrom(LampTokens(response), data)
  {
  }

  lemma EntriesOfBoth(response: string, power: Data, text: Option<string>, parts: seq<string>)
    requires power.Keys <= {"powerResult", "powerState"} && PowerSays(power, text)
    ensures var data := OrRaw(response, LampFrom(parts, power));
            && PowerSays(data, text) && LampSays(data, parts)
            && ("rawResponse" in data <==> data.Keys !! {"powerResult", "powerState", "lamp_hours", "lamp_status"})
  {
    LampEntries(parts, power, text);
    RawEntry(response, LampFrom(parts, power), text, parts);
  }

  lemma PowerEntries(response: string)
    ensures var power := WithPower(response, map[]);
            power.Keys <= {"powerResult", "powerState"} && PowerSays(power, AfterMarker(response, POWR))
  {
    var text := AfterMarker(response, POWR);
    if text.Some? {
      PowerFromSays(text.value);
    }
  }

  lemma PowerFromSays(text: string)
    ensures var power := PowerFrom(TrimSpace(text), map[]);
            power.Keys <= {"powerResult", "powerState"} && PowerSays(power, Some(text))
  {
    PowerStateNamed(TrimSpace(text));
  }

  lemma LampEntries(parts: seq<string>, power: Data, text: Option<string>)
    requires power.Keys <= {"powerResult", "powerState"} && PowerSays(power, text)
    ensures var data := LampFrom(parts, power);
            && data.Keys <= {"powerResult", "powerState", "lamp_hours", "lamp_status"}
            && PowerSays(data, text) && LampSays(data, parts)
  {
  }

  lemma RawEntry(response: string, data: Data, text: Option<string>, parts: seq<string>)
    requires data.Keys <= {"powerResult", "powerState", "lamp_hours", "lamp_status"}
    requires PowerSays(data, text) && LampSays(data, parts)
    ensures var all := OrRaw(response, data);
            && PowerSays(all, text) && LampSays(all, parts)
            && ("rawResponse" in all <==> all.Keys !! {"powerResult", "powerState", "lamp_hours", "lamp_status"})
  {
    if data != map[] {
      var k :| k in data;
      assert k in {"powerResult", "powerState", "lamp_hours", "lamp_status"};
    }
  }

  lemma LampAfterPrefix(rest: string, data: Data)
    ensures WithLamp("%1LAMP=" + rest, data) == LampFrom(Fields(TrimSpace(rest)), data)
  {
    assert "%1LAMP=" + rest == "%1" + LAMP + rest;
    MarkerAfterPrefix(LAMP, rest);
  }

  lemma LampOfTokens(hours: int, flag: string, others: seq<string>)
    requires INT_MIN <= hours <= INT_MAX
    ensures LampFrom([Itoa(hours), flag] + others, map[]) ==
            map["lamp_hours" := Number(hours), "lamp_status" := Value.Text(if flag == "1" then "ON" else "OFF")]
    ensures LampFrom([Itoa(hours), flag] + others, map[]) != map[]
  {
    ItoaAtoi(hours);
    var parts := [Itoa(hours), flag] + others;
    assert parts[0] == Itoa(hours) && parts[1] == flag;
    assert "lamp_hours" in LampFrom(parts, map[]);
  }

  lemma PowerReplyUnmarked(pad: string, value: string, trail: string)
    requires Blank(pad) && Blank(trail)
    requires FreeOfErrors(value) && !Contains(value, LAMP)
    ensures FreeOfErrors("%1POWR=" + TrimRight(pad + value + trail))
    ensures !Contains("%1POWR=" + TrimRight(pad + value + trail), LAMP)
  {
    var reply := "%1POWR=" + TrimRight(pad + value + trail);
    assert !Contains(reply, "ERR1") by {
      PowerReplyLacks(pad, value, trail, "ERR1");
    }
    assert !Contains(reply, "ERR2") by {
      PowerReplyLacks(pad, value, trail, "ERR2");
    }
    assert !Contains(reply, "ERR3") by {
      PowerReplyLacks(pad, value, trail, "ERR3");
    }
    assert !Contains(reply, "ERR4") by {
      PowerReplyLacks(pad, value, trail, "ERR4");
    }
    assert !Contains(reply, LAMP) by {
      PowerReplyLacks(pad, value, trail, LAMP);
    }
  }

  lemma PowerReplyLacks(pad: string, value: string, trail: string, m: string)
    requires Blank(pad) && Blank(trail) && Plain(m) && m[0] !in "%1POWR="
    requires !Contains(value, m)
    ensures !Contains("%1POWR=" + TrimRight(pad + value + trail), m)
  {
    if Contains(pad + value + trail, m) {
      PaddedContains(pad, value, trail, m);
    }
    SolidReply("%1POWR=", pad + value + trail, m);
  }

  lemma TrimLeftOfTrimRight(pad: string, value: string, trail: string)
    requires Blank(pad) && Blank(trail) && Trimmed(value)
    ensures TrimSpace(TrimRight(pad + value + trail)) == value
  {
    TrimRightDrops(pad + value, trail);
    if value == "" {
      assert pad + value == "" + pad;
      TrimRightDrops("", pad);
    } else {
      BlankWhole(pad);
      LastSeam(pad, value);
      assert pad + value + "" == pad + value;
      TrimSpaceStrips(pad, value, "");
    }
  }

  /** A solid marker in a padded value lies in the value. */
  lemma PaddedContains(pad: string, value: string, trail: string, m: string)
    requires Blank(pad) && Blank(trail) && Plain(m)
    requires Contains(pad + value + trail, m)
    ensures Contains(value, m)
  {
    Reassociate(pad, value, trail);
    ContainsAfter(pad, value + trail, m);
    BlankHides(pad, m[0]);
    ContainsInBreak(value, trail, m);
    if Contains(trail, m) {
      BlankHides(trail, m[0]);
      ContainsNeeds(trail, m, m[0]);
    }
  }

  /** A visible marker does not straddle the start of white space. */
  lemma ContainsInBreak(s: string, t: string, m: string)
    requires Breaks(t) && Plain(m) && Contains(s + t, m)
    ensures Contains(s, m) || Contains(t, m)
  {
    ContainsSplit(s, t, m);
    if t != "" && t[0] in m {
      SpaceHides(t[..SpaceHead(t)], t[0]);
    }
  }

  /** Hours and flag come back from any layout of a lamp reply, whatever further lamp fields follow. */
  lemma LampRoundTrip(lead: string, pad: string, hours: int, gap: string, on: bool, tail: string)
    requires Blank(lead) && Blank(pad) && Blank(gap) && gap != ""
    requires INT_MIN <= hours <= INT_MAX
    requires Breaks(tail)
    requires FreeOfErrors(tail) && !Contains(tail, POWR)
    ensures Parsed(PrintLamp(lead, pad, hours, gap, on, tail)) ==
            map["lamp_hours" := Number(hours), "lamp_status" := Value.Text(if on then "ON" else "OFF")]
  {
    var flag := if on then "1" else "0";
    TrimReply(lead, "%1LAMP=", LampBody(pad, hours, gap, flag, tail));
    LampReplyReads(pad, hours, gap, flag, tail);
  }

  lemma LampReplyReads(pad: string, hours: int, gap: string, flag: string, tail: string)
    requires Blank(pad) && Blank(gap) && gap != "" && flag in {"0", "1"}
    requires INT_MIN <= hours <= INT_MAX
    requires Breaks(tail) && FreeOfErrors(tail) && !Contains(tail, POWR)
    ensures Reading("%1LAMP=" + TrimRight(LampBody(pad, hours, gap, flag, tail))) ==
            map["lamp_hours" := Number(hours), "lamp_status" := Value.Text(if flag == "1" then "ON" else "OFF")]
  {
    var rest := TrimRight(LampBody(pad, hours, gap, flag, tail));
    var response := "%1LAMP=" + rest;
    assert FreeOfErrors(response) by {
      LampReplyUnmarked(pad, hours, gap, flag, tail);
    }
    assert !Contains(response, POWR) by {
      LampReplyLacks(pad, hours, gap, flag, tail, POWR, 'O');
    }
    LampFields(pad, hours, gap, flag, tail);
    ReadLamp(response, rest, hours, flag, Fields(tail));
  }

  lemma PaddedToken(pad: string, token: string, rest: string)
    requires Blank(pad) && Token(token) && Breaks(rest)
    ensures Fields(pad + (token + rest)) == [token] + Fields(rest)
  {
    FieldsSkip(pad, token + rest);
    FieldsFirst(token, rest);
  }

  lemma LampFields(pad: string, hours: int, gap: string, flag: string, tail: string)
    requires Blank(pad) && Blank(gap) && gap != "" && Plain(flag)
    requires INT_MIN <= hours <= INT_MAX
    requires Breaks(tail)
    ensures Fields(TrimSpace(TrimRight(LampBody(pad, hours, gap, flag, tail)))) ==
            [Itoa(hours), flag] + Fields(tail)
  {
    var body := LampBody(pad, hours, gap, flag, tail);
    FieldsOfTrimmed(TrimRight(body));
    FieldsOfTrimmed(body);
    ItoaAtoi(hours);
    PlainToken(Itoa(hours));
    PlainToken(flag);
    TwoTokens(pad, Itoa(hours), gap, flag, tail);
  }

  lemma TwoTokens(pad: string, one: string, gap: string, two: string, tail: string)
    requires Blank(pad) && Blank(gap) && gap != "" && Token(one) && Token(two)
    requires Breaks(tail)
    ensures Fields(pad + (one + (gap + (two + tail)))) == [one, two] + Fields(tail)
  {
    var rest := gap + (two + tail);
    HeadStays(gap, two + tail);
    var others := Fields(tail);
    assert Fields(rest) == [two] + others by {
      PaddedToken(gap, two, tail);
    }
    assert Fields(pad + (one + rest)) == [one] + Fields(rest) by {
      PaddedToken(pad, one, rest);
    }
    assert [one] + ([two] + others) == [one, two] + others;
  }

  lemma LampReplyUnmarked(pad: string, hours: int, gap: string, flag: string, tail: string)
    requires Blank(pad) && Blank(gap) && flag in {"0", "1"}
    requires INT_MIN <= hours <= INT_MAX
    requires Breaks(tail)
    requires FreeOfErrors(tail)
    ensures FreeOfErrors("%1LAMP=" + TrimRight(LampBody(pad, hours, gap, flag, tail)))
  {
    var reply := "%1LAMP=" + TrimRight(LampBody(pad, hours, gap, flag, tail));
    assert !Contains(reply, "ERR1") by {
      LampReplyLacks(pad, hours, gap, flag, tail, "ERR1", 'E');
    }
    assert !Contains(reply, "ERR2") by {
      LampReplyLacks(pad, hours, gap, flag, tail, "ERR2", 'E');
    }
    assert !Contains(reply, "ERR3") by {
      LampReplyLacks(pad, hours, gap, flag, tail, "ERR3", 'E');
    }
    assert !Contains(reply, "ERR4") by {
      LampReplyLacks(pad, hours, gap, flag, tail, "ERR4", 'E');
    }
  }

  /** A marker with a letter the printed part never uses can only come from the tail. */
  lemma LampReplyLacks(pad: string, hours: int, gap: string, flag: string, tail: string, m: string, c: char)
    requires Blank(pad) && Blank(gap) && flag in {"0", "1"}
    requires INT_MIN <= hours <= INT_MAX
    requires Breaks(tail)
    requires Plain(m) && c in m && c in {'E', 'O'} && !Contains(tail, m)
    ensures !Contains("%1LAMP=" + TrimRight(LampBody(pad, hours, gap, flag, tail)), m)
  {
    var printed := "%1LAMP=" + (pad + (Itoa(hours) + (gap + flag)));
    var body := LampBody(pad, hours, gap, flag, tail);
    PrintedLacks(pad, hours, gap, flag, c);
    TailLacks(printed, tail, m, c);
    LampBodySplits(pad, hours, gap, flag, tail);
    Reassociate("%1LAMP=", pad + (Itoa(hours) + (gap + flag)), tail);
    TrimmedLacks("%1LAMP=", body, m);
  }

  lemma PrintedLacks(pad: string, hours: int, gap: string, flag: string, c: char)
    requires Blank(pad) && Blank(gap) && flag in {"0", "1"}
    requires INT_MIN <= hours <= INT_MAX && c in {'E', 'O'}
    ensures c !in "%1LAMP=" + (pad + (Itoa(hours) + (gap + flag)))
  {
    ItoaAtoi(hours);
    BlankHides(pad, c);
    BlankHides(gap, c);
    assert c !in "%1LAMP=" && c !in flag && c !in Itoa(hours);
    NotInWhole(gap, flag, c);
    NotInWhole(Itoa(hours), gap + flag, c);
    NotInWhole(pad, Itoa(hours) + (gap + flag), c);
    NotInWhole("%1LAMP=", pad + (Itoa(hours) + (gap + flag)), c);
  }

  lemma NotInWhole(s: string, t: string, c: char)
    requires c !in s && c !in t
    ensures c !in s + t
  {
  }

  lemma TailLacks(printed: string, tail: string, m: string, c: char)
    requires Breaks(tail)
    requires Plain(m) && c in m && c !in printed && !Contains(tail, m)
    ensures !Contains(printed + tail, m)
  {
    if Contains(printed + tail, m) {
      ContainsInBreak(printed, tail, m);
      if Contains(printed, m) {
        ContainsNeeds(printed, m, c);
      }
    }
  }

  lemma TrimmedLacks(header: string, body: string, m: string)
    requires !Contains(header + body, m)
    ensures !Contains(header + TrimRight(body), m)
  {
    if Contains(header + TrimRight(body), m) {
      var trail := TrimRightSplits(body);
      ContainsPrefix(header + TrimRight(body), trail, m);
      Reassociate(header, TrimRight(body), trail);
    }
  }

  lemma LampBodySplits(pad: string, hours: int, gap: string, flag: string, tail: string)
    ensures LampBody(pad, hours, gap, flag, tail) == (pad + (Itoa(hours) + (gap + flag))) + tail
  {
    Reassociate(gap, flag, tail);
    Reassociate(Itoa(hours), gap + flag, tail);
    Reassociate(pad, Itoa(hours) + (gap + flag), tail);
  }
}
