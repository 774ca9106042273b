/**
 * The per-device coordinator (`coordinator.py`): it turns each inbound
 * message into a merge into a running state snapshot and hands that
 * snapshot to every listener in registration order; it subscribes to the
 * device's telemetry topic and publishes commands to its command topic.
 * Listeners are named by number; a call to one is recorded as a `Call`, and
 * which of them raise is a parameter. Decoding the raw text as JSON is the
 * parameter `parse`, None where `raw.decode("utf-8")` or `json.loads`
 * raises. The clock is the parameter `now`.
 */
module Coordination {
  import opened Wrappers
  import opened Dicts
  import opened Values
  import Base64
  import opened CodecV3
  import opened Envelope
  import CommandsV3
  import opened Transport

  const StatePrefix := "/app/device/property/"
  const CommandPrefix := "/app/device/thing/property/set/"

  /** The topic the device's telemetry arrives on. */
  function StateTopic(serial: string): (t: string)
    ensures |t| == |StatePrefix| + |serial| && t[..|StatePrefix|] == StatePrefix && t[|StatePrefix|..] == serial
  {
    StatePrefix + serial
  }

  /** The topic commands for the device go to. */
  function CommandTopic(serial: string): (t: string)
    ensures |t| == |CommandPrefix| + |serial| && t[..|CommandPrefix|] == CommandPrefix && t[|CommandPrefix|..] == serial
  {
    CommandPrefix + serial
  }

  /** Telemetry and command topics never meet, and each names one device. */
  lemma TopicsApart(a: string, b: string)
    ensures StateTopic(a) != CommandTopic(b)
    ensures StateTopic(a) == StateTopic(b) <==> a == b
    ensures CommandTopic(a) == CommandTopic(b) <==> a == b
  {
    assert StateTopic(a)[12] == 'p' && CommandTopic(b)[12] == 't';
  }

  /** One listener call: which listener, and the snapshot it was given. */
  datatype Call = Call(listener: nat, snapshot: Dict<string, Json>)

  /**
   * Calling `listeners` in order with one snapshot; a listener that raises
   * ends the loop (the exception is caught around the whole handler).
   */
  function Fanout(listeners: seq<nat>, snapshot: Dict<string, Json>, raises: nat -> bool): seq<Call>
    decreases |listeners|
  {
    if |listeners| == 0 then []
    else
      var rest := if raises(listeners[0]) then [] else Fanout(listeners[1..], snapshot, raises);
      [Call(listeners[0], snapshot)] + rest
  }

  /** With no listener raising, each is called exactly once, in order, with the same snapshot. */
  lemma {:induction false} FanoutAll(listeners: seq<nat>, snapshot: Dict<string, Json>, raises: nat -> bool)
    requires forall i | 0 <= i < |listeners| :: !raises(listeners[i])
    ensures Fanout(listeners, snapshot, raises) ==
      seq(|listeners|, i requires 0 <= i < |listeners| => Call(listeners[i], snapshot))
    decreases |listeners|
  {
    if |listeners| > 0 {
      assert forall i | 0 <= i < |listeners[1..]| :: listeners[1..][i] == listeners[i + 1];
      FanoutAll(listeners[1..], snapshot, raises);
    }
  }

  /** When listener `i` is the first to raise, exactly the listeners up to it are called. */
  lemma {:induction false} FanoutStops(listeners: seq<nat>, snapshot: Dict<string, Json>, raises: nat -> bool, i: nat)
    requires i < |listeners| && raises(listeners[i])
    requires forall k | 0 <= k < i :: !raises(listeners[k])
    ensures Fanout(listeners, snapshot, raises) ==
      seq(i + 1, k requires 0 <= k < i + 1 => Call(listeners[k], snapshot))
    decreases i
  {
    if i > 0 {
      assert forall k | 0 <= k < |listeners[1..]| :: listeners[1..][k] == listeners[k + 1];
      FanoutStops(listeners[1..], snapshot, raises, i - 1);
    }
  }

  /** What the handler makes of one message before it touches the snapshot. */
  datatype Reaction =
    | Ignore                               // no raw bytes, or nothing decoded
    | Fail                                 // raised and was caught
    | Merge(entries: Dict<string, Json>)   // a non-empty dict to merge

  /** The reaction to `raw`, and the codec state decoding it leaves. */
  function React(st: CodecState, family: Family, raw: Option<seq<byte>>, parse: seq<byte> -> Option<Json>, pb: Protobuf): (Reaction, CodecState)
  {
    if raw.None? || |raw.value| == 0 then (Ignore, st)
    else
      match parse(raw.value)
      case None => (Fail, st)
      case Some(env) =>
        var (normalized, st') := DecodeEnvelopeSpec(st, family, env, pb);
        if !Truthy(normalized) then (Ignore, st')
        else if normalized.Obj? then (Reaction.Merge(normalized.entries), st')
        else (Fail, st')  // `dict.update` refuses anything but a dict here
  }

  /** Merging is key-wise overwrite: merged keys take the new values, every other key keeps its own. */
  lemma MergeOverwrites(state: Dict<string, Json>, entries: Dict<string, Json>, k: string)
    ensures HasKey(entries, k) ==> Get(Update(state, entries), k) == Last(entries, k)
    ensures !HasKey(entries, k) ==> Get(Update(state, entries), k) == Get(state, k)
    ensures KeySet(Update(state, entries)) == KeySet(state) + KeySet(entries)
  {
  }

  /** Merging the same dict twice is merging it once. */
  lemma MergeTwice(state: Dict<string, Json>, entries: Dict<string, Json>)
    requires DistinctKeys(entries)
    ensures Update(Update(state, entries), entries) == Update(state, entries)
  {
    UpdateIdempotent(state, entries);
  }

  /** A JSON-family device ignores a message that parses to `{}`, and fails on one that does not parse. */
  lemma ReactJson(st: CodecState, raw: seq<byte>, parse: seq<byte> -> Option<Json>, pb: Protobuf)
    requires |raw| > 0
    ensures parse(raw) == Some(Obj([])) ==> React(st, FamilyJson, Some(raw), parse, pb) == (Ignore, st)
    ensures parse(raw).None? ==> React(st, FamilyJson, Some(raw), parse, pb) == (Fail, st)
    ensures parse(raw) == Some(Obj([("soc", Int(5))])) ==>
      React(st, FamilyJson, Some(raw), parse, pb) == (Reaction.Merge([("soc", Int(5))]), st)
  {
  }

  /**
   * Without raw bytes nothing happens; a merge always carries a non-empty
   * dict; a family other than v3 and JSON never merges and leaves the codec
   * alone. For the v3 family the codec state is the decoder's, and the
   * decoded dict is merged exactly when it is non-empty.
   */
  lemma ReactOutcome(st: CodecState, family: Family, raw: Option<seq<byte>>, parse: seq<byte> -> Option<Json>, pb: Protobuf)
    ensures raw.None? || |raw.value| == 0 ==> React(st, family, raw, parse, pb) == (Ignore, st)
    ensures React(st, family, raw, parse, pb).0.Merge? ==> |React(st, family, raw, parse, pb).0.entries| > 0
    ensures family.OtherFamily? ==> React(st, family, raw, parse, pb) == (if raw.Some? && |raw.value| > 0 && parse(raw.value).None? then Fail else Ignore, st)
    ensures family == FamilyV3 && raw.Some? && |raw.value| > 0 && parse(raw.value).Some? ==>
      var d := Decode(st, parse(raw.value).value, pb);
      React(st, family, raw, parse, pb) == (if |d.out| > 0 then Reaction.Merge(d.out) else Ignore, d.state)
  {
  }

  class Coordinator {
    var state: Dict<string, Json>
    var listeners: seq<nat>
    var lastUpdate: int
    const serial: string
    const family: Family
    const commandPool: CommandsV3.CommandPool
    const mqtt: MqttClient
    const codec: Codec

    predicate Valid()
      reads this, mqtt
    {
      mqtt.Valid()
    }

    /** `__init__`: empty state, no listeners, no update yet, and the handler set on the client. */
    constructor (client: MqttClient, codec: Codec, serial: string, family: Family, commandPool: CommandsV3.CommandPool)
      requires client.Valid()
      modifies client
      ensures Valid()
      ensures this.mqtt == client && this.codec == codec && this.serial == serial
      ensures this.family == family && this.commandPool == commandPool
      ensures state == [] && listeners == [] && lastUpdate == 0
      ensures client.hasHandler
      ensures client.subscriptions == old(client.subscriptions) && client.wire == old(client.wire)
      ensures client.connected == old(client.connected) && client.published == old(client.published)
      ensures client.lastPacketTime == old(client.lastPacketTime) && client.reconnects == old(client.reconnects)
    {
      this.mqtt := client;
      this.codec := codec;
      this.serial := serial;
      this.family := family;
      this.commandPool := commandPool;
      state := [];
      listeners := [];
      lastUpdate := 0;
      new;
      client.SetMessageHandler();
    }

    /** `start`: subscribes to the device's telemetry topic at qos 0 (the connection itself is not modelled). */
    method Start()
      requires Valid()
      modifies mqtt
      ensures Valid()
      ensures mqtt.subscriptions == Put(old(mqtt.subscriptions), StateTopic(serial), Subscription(StateTopic(serial), 0))
      ensures mqtt.wire == old(mqtt.wire) + [WireOp.Subscribe(StateTopic(serial), 0)]
      ensures mqtt.connected == old(mqtt.connected) && mqtt.published == old(mqtt.published)
      ensures mqtt.hasHandler == old(mqtt.hasHandler)
      ensures mqtt.lastPacketTime == old(mqtt.lastPacketTime) && mqtt.reconnects == old(mqtt.reconnects)
    {
      mqtt.Subscribe(StateTopic(serial), 0);
    }

    /** `on_state(cb)`: the listener goes last in line. */
    method OnState(listener: nat)
      modifies this
      ensures listeners == old(listeners) + [listener]
      ensures state == old(state) && lastUpdate == old(lastUpdate)
    {
      listeners := listeners + [listener];
    }

    /**
     * `_handle_message`: a message with raw bytes that decode to a non-empty
     * dict is merged into the state, stamps `now` as the last update, and
     * the post-merge snapshot goes to the listeners in order; anything else
     * leaves state, stamp and listeners alone. Nothing escapes the handler.
     */
    method HandleMessage(raw: Option<seq<byte>>, parse: seq<byte> -> Option<Json>, pb: Protobuf, now: int, raises: nat -> bool)
      returns (calls: seq<Call>)
      modifies this, codec
      ensures var (reaction, st) := React(old(codec.State()), family, raw, parse, pb);
        codec.State() == st &&
        listeners == old(listeners) &&
        (reaction.Merge? ==>
          state == Update(old(state), reaction.entries) && lastUpdate == now &&
          calls == Fanout(listeners, state, raises)) &&
        (!reaction.Merge? ==> state == old(state) && lastUpdate == old(lastUpdate) && calls == [])
    {
      calls := [];
      if raw.None? || |raw.value| == 0 {
        return;
      }
      var envelope := parse(raw.value);
      if envelope.None? {
        return;
      }
      var normalized := DecodeEnvelope(codec, family, envelope.value, pb);
      if !Truthy(normalized) || !normalized.Obj? {
        return;
      }
      state := Update(state, normalized.entries);
      lastUpdate := now;
      calls := Notify(state, raises);
    }

    /** The listener loop: each listener in registration order gets `snapshot`, until one raises. */
    method Notify(snapshot: Dict<string, Json>, raises: nat -> bool) returns (calls: seq<Call>)
      ensures calls == Fanout(listeners, snapshot, raises)
    {
      calls := [];
      var i := 0;
      while i < |listeners|
        invariant 0 <= i <= |listeners|
        invariant calls + Fanout(listeners[i..], snapshot, raises) == Fanout(listeners, snapshot, raises)
      {
        assert listeners[i..][1..] == listeners[i + 1..];
        calls := calls + [Call(listeners[i], snapshot)];
        if raises(listeners[i]) {
          return;
        }
        i := i + 1;
      }
    }

    /**
     * `seconds_since_update`: 1_000_000 while nothing has been merged (the
     * stamp is not positive), otherwise the seconds since the stamp, never
     * negative.
     */
    function SecondsSinceUpdate(now: int): (s: int)
      reads this
      ensures s >= 0
      ensures lastUpdate <= 0 ==> s == 1_000_000
      ensures lastUpdate > 0 && now >= lastUpdate ==> s == now - lastUpdate
      ensures lastUpdate > 0 && now < lastUpdate ==> s == 0
    {
      if lastUpdate <= 0 then 1_000_000
      else if now - lastUpdate > 0 then now - lastUpdate else 0
    }

    /** `_publish_command(payload)`: the payload goes out on the command topic at qos 0, not retained. */
    method PublishCommand(payload: seq<byte>)
      modifies mqtt
      ensures old(mqtt.connected) ==>
        mqtt.wire == old(mqtt.wire) + [Publish(CommandTopic(serial), Base64.Encode(payload), 0, false)] &&
        mqtt.published == old(mqtt.published) + 1
      ensures !old(mqtt.connected) ==> mqtt.wire == old(mqtt.wire) && mqtt.published == old(mqtt.published)
      ensures mqtt.subscriptions == old(mqtt.subscriptions) && mqtt.connected == old(mqtt.connected)
      ensures mqtt.hasHandler == old(mqtt.hasHandler)
      ensures mqtt.lastPacketTime == old(mqtt.lastPacketTime) && mqtt.reconnects == old(mqtt.reconnects)
    {
      mqtt.PublishBase64(CommandTopic(serial), payload, 0, false);
    }

    /**
     * Builds a command and publishes it; a build error propagates and
     * nothing is published.
     */
    method SendCommand(built: Result<seq<byte>, CommandsV3.BuildError>) returns (r: Result<(), CommandsV3.BuildError>)
      modifies mqtt
      ensures r.Err? <==> built.Err?
      ensures built.Err? ==> r.error == built.error && mqtt.wire == old(mqtt.wire) && mqtt.published == old(mqtt.published)
      ensures built.Ok? && old(mqtt.connected) ==>
        mqtt.wire == old(mqtt.wire) + [Publish(CommandTopic(serial), Base64.Encode(built.value), 0, false)] &&
        mqtt.published == old(mqtt.published) + 1
      ensures built.Ok? && !old(mqtt.connected) ==> mqtt.wire == old(mqtt.wire) && mqtt.published == old(mqtt.published)
      ensures mqtt.subscriptions == old(mqtt.subscriptions) && mqtt.connected == old(mqtt.connected)
      ensures mqtt.hasHandler == old(mqtt.hasHandler)
      ensures mqtt.lastPacketTime == old(mqtt.lastPacketTime) && mqtt.reconnects == old(mqtt.reconnects)
    {
      if built.Err? {
        return Err(built.error);
      }
      PublishCommand(built.value);
      return Ok(());
    }

    /** `set_ac_output(enabled)` */
    method SetAcOutput(enabled: bool) returns (r: Result<(), CommandsV3.BuildError>)
      modifies mqtt
      ensures var built := CommandsV3.SetAcOutput(commandPool, enabled);
        (r.Err? <==> built.Err?) && (built.Err? ==> r.error == built.error) &&
        (built.Ok? && old(mqtt.connected) ==>
          mqtt.wire == old(mqtt.wire) + [Publish(CommandTopic(serial), Base64.Encode(built.value), 0, false)] &&
          mqtt.published == old(mqtt.published) + 1) &&
        (built.Err? || !old(mqtt.connected) ==> mqtt.wire == old(mqtt.wire) && mqtt.published == old(mqtt.published))
      ensures mqtt.subscriptions == old(mqtt.subscriptions) && mqtt.connected == old(mqtt.connected)
      ensures mqtt.hasHandler == old(mqtt.hasHandler)
      ensures mqtt.lastPacketTime == old(mqtt.lastPacketTime) && mqtt.reconnects == old(mqtt.reconnects)
    {
      r := SendCommand(CommandsV3.SetAcOutput(commandPool, enabled));
    }

    /** `set_dc_output(enabled)` */
    method SetDcOutput(enabled: bool) returns (r: Result<(), CommandsV3.BuildError>)
      modifies mqtt
      ensures var built := CommandsV3.SetDcOutput(commandPool, enabled);
        (r.Err? <==> built.Err?) && (built.Err? ==> r.error == built.error) &&
        (built.Ok? && old(mqtt.connected) ==>
          mqtt.wire == old(mqtt.wire) + [Publish(CommandTopic(serial), Base64.Encode(built.value), 0, false)] &&
          mqtt.published == old(mqtt.published) + 1) &&
        (built.Err? || !old(mqtt.connected) ==> mqtt.wire == old(mqtt.wire) && mqtt.published == old(mqtt.published))
      ensures mqtt.subscriptions == old(mqtt.subscriptions) && mqtt.connected == old(mqtt.connected)
      ensures mqtt.hasHandler == old(mqtt.hasHandler)
      ensures mqtt.lastPacketTime == old(mqtt.lastPacketTime) && mqtt.reconnects == old(mqtt.reconnects)
    {
      r := SendCommand(CommandsV3.SetDcOutput(commandPool, enabled));
    }

    /** `set_min_soc(percent)` */
    method SetMinSoc(percent: int) returns (r: Result<(), CommandsV3.BuildError>)
      modifies mqtt
      ensures var built := CommandsV3.SetMinSoc(commandPool, percent);
        (r.Err? <==> built.Err?) && (built.Err? ==> r.error == built.error) &&
        (built.Ok? && old(mqtt.connected) ==>
          mqtt.wire == old(mqtt.wire) + [Publish(CommandTopic(serial), Base64.Encode(built.value), 0, false)] &&
          mqtt.published == old(mqtt.published) + 1) &&
        (built.Err? || !old(mqtt.connected) ==> mqtt.wire == old(mqtt.wire) && mqtt.published == old(mqtt.published))
      ensures mqtt.subscriptions == old(mqtt.subscriptions) && mqtt.connected == old(mqtt.connected)
      ensures mqtt.hasHandler == old(mqtt.hasHandler)
      ensures mqtt.lastPacketTime == old(mqtt.lastPacketTime) && mqtt.reconnects == old(mqtt.reconnects)
    {
      r := SendCommand(CommandsV3.SetMinSoc(commandPool, percent));
    }

    /** `set_ac_charge_power(watts)` */
    method SetAcChargePower(watts: int) returns (r: Result<(), CommandsV3.BuildError>)
      modifies mqtt
      ensures var built := CommandsV3.SetAcChargePower(commandPool, watts);
        (r.Err? <==> built.Err?) && (built.Err? ==> r.error == built.error) &&
        (built.Ok? && old(mqtt.connected) ==>
          mqtt.wire == old(mqtt.wire) + [Publish(CommandTopic(serial), Base64.Encode(built.value), 0, false)] &&
          mqtt.published == old(mqtt.published) + 1) &&
        (built.Err? || !old(mqtt.connected) ==> mqtt.wire == old(mqtt.wire) && mqtt.published == old(mqtt.published))
      ensures mqtt.subscriptions == old(mqtt.subscriptions) && mqtt.connected == old(mqtt.connected)
      ensures mqtt.hasHandler == old(mqtt.hasHandler)
      ensures mqtt.lastPacketTime == old(mqtt.lastPacketTime) && mqtt.reconnects == old(mqtt.reconnects)
    {
      r := SendCommand(CommandsV3.SetAcChargePower(commandPool, watts));
    }

    /** `set_xboost(enabled)` */
    method SetXboost(enabled: bool) returns (r: Result<(), CommandsV3.BuildError>)
      modifies mqtt
      ensures var built := CommandsV3.SetXboost(commandPool, enabled);
        (r.Err? <==> built.Err?) && (built.Err? ==> r.error == built.error) &&
        (built.Ok? && old(mqtt.connected) ==>
          mqtt.wire == old(mqtt.wire) + [Publish(CommandTopic(serial), Base64.Encode(built.value), 0, false)] &&
          mqtt.published == old(mqtt.published) + 1) &&
        (built.Err? || !old(mqtt.connected) ==> mqtt.wire == old(mqtt.wire) && mqtt.published == old(mqtt.published))
      ensures mqtt.subscriptions == old(mqtt.subscriptions) && mqtt.connected == old(mqtt.connected)
      ensures mqtt.hasHandler == old(mqtt.hasHandler)
      ensures mqtt.lastPacketTime == old(mqtt.lastPacketTime) && mqtt.reconnects == old(mqtt.reconnects)
    {
      r := SendCommand(CommandsV3.SetXboost(commandPool, enabled));
    }
  }

  /**
   * With the module's pool unbound, a published command is the base64 of
   * the command's JSON text, and that text decodes back to the command.
   */
  lemma PublishedMinSoc(percent: int, text: string)
    requires CommandsV3.SetMinSoc(CommandsV3.Unbound, percent).Ok?
    requires text == Base64.Encode(CommandsV3.SetMinSoc(CommandsV3.Unbound, percent).value)
    ensures Base64.Decode(text) == Ok(CommandsV3.SetMinSoc(CommandsV3.Unbound, percent).value)
    ensures CommandsV3.SetMinSoc(CommandsV3.Unbound, percent) ==
      Ok(CommandsV3.Utf8(CommandsV3.Dumps(Obj(CommandsV3.MinSocPayload(percent)))))
    ensures CommandsV3.ParseCommand(CommandsV3.Dumps(Obj(CommandsV3.MinSocPayload(percent)))) ==
      Some(("SET_MIN_SOC", "min_soc", CommandsV3.ClampPercent(percent)))
  {
    Base64.RoundTrip(CommandsV3.SetMinSoc(CommandsV3.Unbound, percent).value);
    CommandsV3.CommandsReadBack(false, percent, 0);
  }
}
