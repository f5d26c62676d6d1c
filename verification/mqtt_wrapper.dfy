/** The remote-command bookkeeping of the MQTT wrapper
    (main/network/mqtt_wrapper.c): the string mappings, the merge of a parsed
    command object into the per-fan command array, the connection flag kept
    by the event handler, and the guards in front of the two publish calls.
    The broker connection, TLS, the reconnect timer and the JSON library are
    collaborators: a parsed payload is an input, and so is the outcome of
    building and sending a message. */
module MqttWrapper {
  import opened Types

  /** Number of fan channels in this configuration (the command array is
      initialised with three entries). */
  const FAN_COUNT: nat := 3

  /** `fan_state_to_string`: every state gets a name that parses back to
      it, so none of them is reported under the "UNKNOWN" fallback. */
  function FanStateToString(s: FanState): (str: string)
    ensures StringToFanState(str) == s
    ensures str != "UNKNOWN"
  {
    match s
    case Off => "OFF"
    case Low => "LOW"
    case High => "HIGH"
  }

  /** `string_to_fan_state`: the three names are recognised exactly and every
      other string falls back to OFF. */
  function StringToFanState(str: string): (r: FanState)
    ensures str == "LOW" <==> r == Low
    ensures str == "HIGH" <==> r == High
    ensures r == Off <==> str != "LOW" && str != "HIGH"
  {
    if str == "OFF" then Off
    else if str == "LOW" then Low
    else if str == "HIGH" then High
    else Off
  }

  /** Round trip: naming a state and parsing the name gives the state back. */
  lemma FanStateRoundTrip(s: FanState)
    ensures StringToFanState(FanStateToString(s)) == s
  {
  }

  /** The converse holds for every string that parses to a running state or
      that is literally "OFF"; all other strings are the OFF fallback. */
  lemma StringRoundTrip(str: string)
    ensures FanStateToString(StringToFanState(str)) == str
        <==> str == "OFF" || str == "LOW" || str == "HIGH"
  {
  }

  /** The mode vocabulary of the remote-command configuration, to which
      `system_mode_to_string` belongs. */
  datatype ReportedMode = Remote | LocalOnly | SafeStopped

  /** `system_mode_to_string`: every mode has a nonempty name other than
      the "UNKNOWN" fallback. */
  function SystemModeToString(mode: ReportedMode): (str: string)
    ensures |str| > 0 && str != "UNKNOWN"
  {
    match mode
    case Remote => "REMOTE"
    case LocalOnly => "LOCAL"
    case SafeStopped => "SAFE_STOP"
  }

  /** The names the status message carries for each mode. */
  lemma SystemModeNames()
    ensures SystemModeToString(Remote) == "REMOTE"
    ensures SystemModeToString(LocalOnly) == "LOCAL"
    ensures SystemModeToString(SafeStopped) == "SAFE_STOP"
  {
  }

  /** Distinct modes are reported under distinct names, none of them the
      "UNKNOWN" fallback. */
  lemma SystemModeToStringInjective(a: ReportedMode, b: ReportedMode)
    ensures SystemModeToString(a) == SystemModeToString(b) ==> a == b
    ensures SystemModeToString(a) != "UNKNOWN"
  {
  }

  /** A JSON member value: a string, a number, or anything else. */
  datatype JsonValue = JString(str: string) | JNumber(num: real) | JOther

  /** A parsed JSON object, by member name. */
  type JsonObject = map<string, JsonValue>

  /** The wrapper's state: the connection flag, the last command per fan and
      whether any command has arrived. */
  datatype Mqtt = Mqtt(connected: bool, command: seq<FanState>, received: bool)

  /** The statics before the client starts. */
  function InitMqtt(): (m: Mqtt)
    ensures !m.connected && !m.received
    ensures |m.command| == FAN_COUNT
    ensures forall i :: 0 <= i < |m.command| ==> m.command[i] == Off
  {
    Mqtt(false, [Off, Off, Off], false)
  }

  /** The decimal digits of `n`, as `%d` prints it. */
  function Decimal(n: nat): (s: string)
    ensures |s| > 0
    decreases n
  {
    var digit := ['0' + ((n % 10) as char)];
    if n < 10 then digit else Decimal(n / 10) + digit
  }

  /** The member name of fan `i`: "fan_0", "fan_1", ... */
  function FanKey(i: nat): string {
    "fan_" + Decimal(i)
  }

  /** Whether the object carries a string command for fan `i`. */
  predicate SlotCommanded(obj: JsonObject, i: nat) {
    FanKey(i) in obj && obj[FanKey(i)].JString?
  }

  /** Fan `i`'s command after merging `obj` over `previous`. */
  function MergedSlot(obj: JsonObject, i: nat, previous: FanState): FanState {
    if SlotCommanded(obj, i) then StringToFanState(obj[FanKey(i)].str) else previous
  }

  /** `r` is `m` with `obj` merged in slot by slot: a slot changes only when
      its key carries a string, and the received flag is raised exactly when
      some slot was commanded. */
  predicate MergedFrom(m: Mqtt, obj: JsonObject, r: Mqtt)
    requires |m.command| == FAN_COUNT
  {
    && r.connected == m.connected
    && |r.command| == FAN_COUNT
    && (forall i :: 0 <= i < FAN_COUNT ==> r.command[i] == MergedSlot(obj, i, m.command[i]))
    && (r.received <==> m.received || exists i :: 0 <= i < FAN_COUNT && SlotCommanded(obj, i))
  }

  /** `parse_remote_command`, with `payload` the parse result (`None` when
      the JSON did not parse). */
  method ParseRemoteCommand(m: Mqtt, payload: Option<JsonObject>) returns (r: Mqtt)
    requires |m.command| == FAN_COUNT
    ensures payload.None? ==> r == m
    ensures payload.Some? ==> MergedFrom(m, payload.value, r)
  {
    if payload.None? {
      return m;
    }
    var obj := payload.value;
    var command := m.command;
    var hasCommand := false;
    var i := 0;
    while i < FAN_COUNT
      invariant 0 <= i <= FAN_COUNT
      invariant |command| == FAN_COUNT
      invariant forall j :: 0 <= j < i ==> command[j] == MergedSlot(obj, j, m.command[j])
      invariant forall j :: i <= j < FAN_COUNT ==> command[j] == m.command[j]
      invariant hasCommand <==> exists j :: 0 <= j < i && SlotCommanded(obj, j)
    {
      var key := FanKey(i);
      if key in obj && obj[key].JString? {
        command := command[i := StringToFanState(obj[key].str)];
        hasCommand := true;
        assert SlotCommanded(obj, i);
      } else {
        assert !SlotCommanded(obj, i);
      }
      i := i + 1;
    }
    r := m.(command := command);
    if hasCommand {
      r := r.(received := true);
    }
  }

  /** A merge never lowers the received flag. */
  lemma MergeKeepsReceived(m: Mqtt, obj: JsonObject, r: Mqtt)
    requires |m.command| == FAN_COUNT
    requires MergedFrom(m, obj, r)
    ensures m.received ==> r.received
  {
  }

  /** An object with no fan member changes no slot and raises no flag. */
  lemma MergeWithoutFanKeys(m: Mqtt, obj: JsonObject, r: Mqtt)
    requires |m.command| == FAN_COUNT
    requires forall i :: 0 <= i < FAN_COUNT ==> FanKey(i) !in obj
    requires MergedFrom(m, obj, r)
    ensures r == m
  {
    assert r.command == m.command;
  }

  /** The topic filter subscribed to on connect. */
  const COMMAND_FILTER: string := "home/ventilation/command/#"

  /** `strncmp(a, b, n) == 0` where `a` is a buffer holding exactly the
      compared characters and `b` is NUL-terminated: a missing character reads
      as NUL and the comparison stops at the first NUL. Over NUL-free
      strings, comparing the whole of `a` is a prefix test. */
  function CStrNEqual(a: string, b: string, n: nat): (r: bool)
    ensures '\0' !in a && '\0' !in b && n == |a| ==> (r <==> a <= b)
    decreases n
  {
    if n == 0 then true
    else
      var ca := if |a| > 0 then a[0] else '\0';
      var cb := if |b| > 0 then b[0] else '\0';
      if ca != cb then false
      else if ca == '\0' then true
      else
        assert '\0' !in a ==> '\0' !in a[1..];
        assert '\0' !in b ==> '\0' !in b[1..];
        assert |a| > 0 && |b| > 0 ==> (a <= b <==> a[1..] <= b[1..]);
        CStrNEqual(a[1..], b[1..], n - 1)
  }

  /** The topic gate of MQTT_EVENT_DATA as written: a nonempty topic compared
      against the filter text, wildcard included, over the topic's own
      length. */
  predicate IsCommandTopic(topic: string) {
    |topic| > 0 && CStrNEqual(topic, COMMAND_FILTER, |topic|)
  }

  /** The gate as written accepts exactly the nonempty prefixes of the
      filter text. */
  lemma CommandTopicIsFilterPrefix(topic: string)
    requires '\0' !in topic
    ensures IsCommandTopic(topic) <==> |topic| > 0 && topic <= COMMAND_FILTER
  {
    assert '\0' !in COMMAND_FILTER;
  }

  /** The bare command topic passes the gate as written; a per-fan topic
      below it, which the subscription delivers, does not. */
  lemma WrittenGateOnFanTopic()
    ensures IsCommandTopic(COMMAND_TOPIC)
    ensures !IsCommandTopic(COMMAND_TOPIC + "/fan_0")
    ensures MatchesCommandFilter(COMMAND_TOPIC + "/fan_0")
  {
    var sub := COMMAND_TOPIC + "/fan_0";
    CommandTopicIsFilterPrefix(COMMAND_TOPIC);
    CommandTopicIsFilterPrefix(sub);
    assert sub[|COMMAND_FILTER| - 1] != COMMAND_FILTER[|COMMAND_FILTER| - 1];
  }

  /** The topic level the command filter covers. */
  const COMMAND_TOPIC: string := "home/ventilation/command"

  /** Whether `topic` matches the subscription filter: under section 4.7.1.2
      of the MQTT 3.1.1 standard a trailing `/#` matches the parent level
      itself and every topic below it. */
  predicate MatchesCommandFilter(topic: string) {
    topic == COMMAND_TOPIC || COMMAND_TOPIC + "/" <= topic
  }

  /** The corrected gate accepts the command topic and its whole subtree,
      and nothing outside it, such as the status and alert topics or a
      sibling that merely starts with the same letters. */
  lemma CommandFilterMatchesSubtree(sub: string)
    ensures MatchesCommandFilter(COMMAND_TOPIC)
    ensures MatchesCommandFilter(COMMAND_TOPIC + "/" + sub)
    ensures !MatchesCommandFilter("home/ventilation/status")
    ensures !MatchesCommandFilter("home/ventilation/alert")
    ensures !MatchesCommandFilter("home/ventilation/commands")
  {
    assert (COMMAND_TOPIC + "/" + sub)[..|COMMAND_TOPIC + "/"|] == COMMAND_TOPIC + "/";
    assert "home/ventilation/status"[17] != (COMMAND_TOPIC + "/")[17];
    assert "home/ventilation/alert"[17] != (COMMAND_TOPIC + "/")[17];
    assert "home/ventilation/commands"[24] != (COMMAND_TOPIC + "/")[24];
  }

  /** On the topics the subscription delivers, the gate as written lets
      through only three literal topics; every other topic of the subtree
      is dropped. */
  lemma WrittenGateWithinSubscription(topic: string)
    requires '\0' !in topic
    requires MatchesCommandFilter(topic)
    ensures IsCommandTopic(topic)
        <==> topic == COMMAND_TOPIC || topic == COMMAND_TOPIC + "/" || topic == COMMAND_FILTER
  {
    SubtreePrefixesOfFilter(topic);
  }

  /** The topics of the subscribed subtree that are prefixes of the filter
      text. */
  lemma SubtreePrefixesOfFilter(topic: string)
    requires MatchesCommandFilter(topic)
    ensures topic <= COMMAND_FILTER
        <==> topic == COMMAND_TOPIC || topic == COMMAND_TOPIC + "/" || topic == COMMAND_FILTER
  {
    var parent := COMMAND_TOPIC + "/";
    assert COMMAND_FILTER == parent + "#";
    assert COMMAND_FILTER[..|parent|] == parent;
    if topic == COMMAND_TOPIC {
      assert COMMAND_FILTER[..|COMMAND_TOPIC|] == COMMAND_TOPIC;
    } else {
      PrefixOfFilterInSubtree(topic, parent, COMMAND_FILTER);
    }
  }

  /** Below `parent`, a prefix of `parent + [c]` is one of two strings. */
  lemma PrefixOfFilterInSubtree(topic: string, parent: string, filter: string)
    requires |filter| == |parent| + 1 && filter[..|parent|] == parent
    requires parent <= topic
    ensures topic <= filter <==> topic == parent || topic == filter
  {
    if topic <= filter && |topic| == |parent| {
      assert topic == topic[..|parent|];
    }
    if topic == parent {
      assert filter[..|topic|] == topic;
    }
  }

  /** The events the handler distinguishes; `Data` carries the topic and the
      parse result of its payload. */
  datatype Event =
    | Connected
    | Disconnected
    | Subscribed
    | Data(topic: string, payload: Option<JsonObject>)
    | Published
    | ErrorEvent
    | OtherEvent

  /** `mqtt_event_handler` as written, restricted to the wrapper's own
      state: a data event is parsed only when its topic passes the written
      gate. */
  method OnEvent(m: Mqtt, e: Event) returns (r: Mqtt)
    requires |m.command| == FAN_COUNT
    ensures e.Connected? ==> r == m.(connected := true)
    ensures e.Disconnected? ==> r == m.(connected := false)
    ensures e.Data? && IsCommandTopic(e.topic) && e.payload.Some? ==> MergedFrom(m, e.payload.value, r)
    ensures e.Data? && (!IsCommandTopic(e.topic) || e.payload.None?) ==> r == m
    ensures !e.Connected? && !e.Disconnected? && !e.Data? ==> r == m
  {
    match e
    case Connected =>
      r := m.(connected := true);
    case Disconnected =>
      r := m.(connected := false);
    case Data(topic, payload) =>
      if IsCommandTopic(topic) {
        r := ParseRemoteCommand(m, payload);
      } else {
        r := m;
      }
    case _ =>
      r := m;
  }

  /** The event handler with the data-topic gate corrected to the
      subscription's filter match; otherwise as written. */
  method OnEventCorrected(m: Mqtt, e: Event) returns (r: Mqtt)
    requires |m.command| == FAN_COUNT
    ensures e.Connected? ==> r == m.(connected := true)
    ensures e.Disconnected? ==> r == m.(connected := false)
    ensures e.Data? && MatchesCommandFilter(e.topic) && e.payload.Some? ==> MergedFrom(m, e.payload.value, r)
    ensures e.Data? && (!MatchesCommandFilter(e.topic) || e.payload.None?) ==> r == m
    ensures !e.Connected? && !e.Disconnected? && !e.Data? ==> r == m
  {
    match e
    case Connected =>
      r := m.(connected := true);
    case Disconnected =>
      r := m.(connected := false);
    case Data(topic, payload) =>
      if MatchesCommandFilter(topic) {
        r := ParseRemoteCommand(m, payload);
      } else {
        r := m;
      }
    case _ =>
      r := m;
  }

  /** A command for fan 0 published on a topic of the subscribed subtree
      other than the three the written gate lets through (a per-fan topic
      such as "home/ventilation/command/fan_0", say): the handler as written
      drops it, and the corrected handler applies it. */
  method SubtreeCommand(m: Mqtt, topic: string) returns (asWritten: Mqtt, corrected: Mqtt)
    requires |m.command| == FAN_COUNT
    requires '\0' !in topic && MatchesCommandFilter(topic)
    requires topic != COMMAND_TOPIC && topic != COMMAND_TOPIC + "/" && topic != COMMAND_FILTER
    ensures asWritten == m
    ensures |corrected.command| == FAN_COUNT
    ensures corrected.received && corrected.command[0] == High
    ensures corrected.command[1..] == m.command[1..]
  {
    var obj: JsonObject := map["fan_0" := JString("HIGH")];
    var e := Data(topic, Some(obj));
    WrittenGateWithinSubscription(topic);
    asWritten := OnEvent(m, e);
    corrected := OnEventCorrected(m, e);
    FanZeroCommand(obj);
  }

  /** An object naming only "fan_0" commands fan 0 and no other fan. */
  lemma FanZeroCommand(obj: JsonObject)
    requires obj == map["fan_0" := JString("HIGH")]
    ensures SlotCommanded(obj, 0) && MergedSlot(obj, 0, Off) == High
    ensures !SlotCommanded(obj, 1) && !SlotCommanded(obj, 2)
  {
    assert Decimal(0) == "0" && Decimal(1) == "1" && Decimal(2) == "2";
    assert FanKey(0) == "fan_0";
    assert FanKey(1)[4] != "fan_0"[4] && FanKey(2)[4] != "fan_0"[4];
  }

  /** A connection event followed by both publish calls: after a
      disconnect nothing can be published, after a connect a well-formed
      message goes out exactly when the transport accepts it, and any other
      event leaves both guards as they were. */
  method PublishAfterEvent(m: Mqtt, e: Event, sensor: Option<SensorData>, message: Option<string>, transportOk: bool)
    returns (statusErr: EspErr, alertErr: EspErr)
    requires |m.command| == FAN_COUNT
    ensures e.Disconnected? ==> statusErr != EspOk && alertErr != EspOk
    ensures e.Connected? ==> (statusErr == EspOk <==> sensor.Some? && transportOk)
    ensures e.Connected? ==> (alertErr == EspOk <==> message.Some? && transportOk)
    ensures !e.Connected? && !e.Disconnected? ==>
              statusErr == PublishStatus(m, sensor, transportOk) && alertErr == PublishAlert(m, message, transportOk)
  {
    var m' := OnEvent(m, e);
    statusErr := PublishStatus(m', sensor, transportOk);
    alertErr := PublishAlert(m', message, transportOk);
  }

  /** The outcome of `mqtt_get_remote_command`: the return value and the
      caller's array afterwards. */
  datatype CommandRead = CommandRead(ok: bool, cmd: seq<FanState>)

  /** `mqtt_get_remote_command`; `hasOutput` is false for a null array and
      `out` is the caller's array before the call. */
  function GetRemoteCommand(m: Mqtt, hasOutput: bool, out: seq<FanState>): (r: CommandRead)
    ensures r.ok <==> hasOutput && m.connected && m.received
    ensures r.ok ==> r.cmd == m.command
    ensures !r.ok ==> r.cmd == out
  {
    if !hasOutput || !m.connected || !m.received then CommandRead(false, out)
    else CommandRead(true, m.command)
  }

  /** A disconnect hides the stored command until the next connect, and a
      connect exposes it again once anything was received. */
  lemma ConnectionGatesCommand(m: Mqtt, out: seq<FanState>)
    ensures !GetRemoteCommand(m.(connected := false), true, out).ok
    ensures m.received ==> GetRemoteCommand(m.(connected := true), true, out) == CommandRead(true, m.command)
  {
  }

  /** The argument and connection guards of `mqtt_publish_status`;
      `transportOk` is whether building and sending the message succeeded. */
  function PublishStatus(m: Mqtt, sensor: Option<SensorData>, transportOk: bool): (err: EspErr)
    ensures sensor.None? ==> err == EspErrInvalidArg
    ensures sensor.Some? && !m.connected ==> err == EspFail
    ensures err == EspOk <==> sensor.Some? && m.connected && transportOk
  {
    if sensor.None? then EspErrInvalidArg
    else if !m.connected then EspFail
    else if transportOk then EspOk
    else EspFail
  }

  /** The argument and connection guards of `mqtt_publish_alert`. */
  function PublishAlert(m: Mqtt, message: Option<string>, transportOk: bool): (err: EspErr)
    ensures message.None? ==> err == EspErrInvalidArg
    ensures message.Some? && !m.connected ==> err == EspFail
    ensures err == EspOk <==> message.Some? && m.connected && transportOk
  {
    if message.None? then EspErrInvalidArg
    else if !m.connected then EspFail
    else if transportOk then EspOk
    else EspFail
  }

  /** The object `mqtt_publish_status` serialises: the three readings, one
      named state per fan, the mode name and the send time. */
  function StatusPayload(sensor: SensorData, fans: seq<FanState>, mode: ReportedMode, now: int): (obj: JsonObject)
    requires |fans| == FAN_COUNT
    ensures obj.Keys == {"co2", "temp", "humi", "fan_0", "fan_1", "fan_2", "mode", "timestamp"}
    ensures obj["co2"] == JNumber(sensor.co2)
    ensures obj["temp"] == JNumber(sensor.temperature)
    ensures obj["humi"] == JNumber(sensor.humidity)
    ensures obj["mode"] == JString(SystemModeToString(mode))
    ensures obj["timestamp"] == JNumber(now as real)
    ensures forall i :: 0 <= i < FAN_COUNT ==> FanKey(i) in obj && obj[FanKey(i)] == JString(FanStateToString(fans[i]))
  {
    assert FanKey(0) == "fan_0" && FanKey(1) == "fan_1" && FanKey(2) == "fan_2";
    map[
      "co2" := JNumber(sensor.co2),
      "temp" := JNumber(sensor.temperature),
      "humi" := JNumber(sensor.humidity),
      "fan_0" := JString(FanStateToString(fans[0])),
      "fan_1" := JString(FanStateToString(fans[1])),
      "fan_2" := JString(FanStateToString(fans[2])),
      "mode" := JString(SystemModeToString(mode)),
      "timestamp" := JNumber(now as real)]
  }

  /** A status message read back by the command parser sets every fan to
      the state it reported and counts as a received command. */
  lemma StatusPayloadRoundTrip(m: Mqtt, sensor: SensorData, fans: seq<FanState>, mode: ReportedMode, now: int, r: Mqtt)
    requires |fans| == FAN_COUNT && |m.command| == FAN_COUNT
    requires MergedFrom(m, StatusPayload(sensor, fans, mode, now), r)
    ensures r.command == fans
    ensures r.received
  {
    var obj := StatusPayload(sensor, fans, mode, now);
    forall i | 0 <= i < FAN_COUNT
      ensures r.command[i] == fans[i]
    {
      assert SlotCommanded(obj, i);
      FanStateRoundTrip(fans[i]);
    }
    assert SlotCommanded(obj, 0);
  }

  /** The object `mqtt_publish_alert` serialises. */
  function AlertPayload(message: string, now: int): (obj: JsonObject)
    ensures obj.Keys == {"alert", "level", "timestamp"}
    ensures obj["alert"] == JString(message)
    ensures obj["level"] == JString("WARNING")
    ensures obj["timestamp"] == JNumber(now as real)
  {
    map["alert" := JString(message), "level" := JString("WARNING"), "timestamp" := JNumber(now as real)]
  }

  /** An alert message carries no fan member, so read back by the command
      parser it changes nothing. */
  lemma AlertPayloadIsNotACommand(m: Mqtt, message: string, now: int, r: Mqtt)
    requires |m.command| == FAN_COUNT
    requires MergedFrom(m, AlertPayload(message, now), r)
    ensures r == m
  {
    forall i | 0 <= i < FAN_COUNT
      ensures FanKey(i) !in AlertPayload(message, now)
    {
      assert FanKey(i)[..4] == "fan_";
    }
    MergeWithoutFanKeys(m, AlertPayload(message, now), r);
  }
}
