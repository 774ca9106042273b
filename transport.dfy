/**
 * The MQTT client's bookkeeping (`ecoflow_mqtt.py`): the subscription table
 * and the re-subscription on every connect, publishing only while
 * connected, the publish and reconnect counters, the time of the last
 * packet and one step of the idle watchdog. The broker connection is the
 * abstract flag `connected`; what the client hands to the broker is
 * recorded, in order, in `wire`. Times are whole seconds passed in as `now`.
 */
module Transport {
  import opened Wrappers
  import opened Dicts
  import Base64
  import opened Values

  /** One recorded subscription. */
  datatype Subscription = Subscription(topic: string, qos: int)

  /** What the client asks of the broker connection. */
  datatype WireOp =
    | Subscribe(topic: string, qos: int)
    | Publish(topic: string, text: string, qos: int, retain: bool)
    | Reconnect

  /** The handler call for one inbound message: its topic and `{"raw": payload}`. */
  datatype Delivery = Delivery(topic: string, raw: seq<byte>)

  /** The subscribe requests that replay a subscription table, in its order. */
  function Resubscribe(subs: Dict<string, Subscription>): seq<WireOp>
  {
    seq(|subs|, i requires 0 <= i < |subs| => Subscribe(subs[i].1.topic, subs[i].1.qos))
  }

  /** Each subscription is filed under its own topic, once. */
  predicate WellFiled(subs: Dict<string, Subscription>)
  {
    DistinctKeys(subs) && forall i | 0 <= i < |subs| :: subs[i].1.topic == subs[i].0
  }

  /**
   * Replaying a well-filed table sends one request per recorded topic, and
   * each request carries exactly the topic and qos on record.
   */
  lemma ResubscribeExact(subs: Dict<string, Subscription>)
    requires WellFiled(subs)
    ensures |Resubscribe(subs)| == |subs|
    ensures forall op | op in Resubscribe(subs) ::
      op.Subscribe? && Get(subs, op.topic) == Some(Subscription(op.topic, op.qos))
    ensures forall topic, s | Get(subs, topic) == Some(s) :: Subscribe(topic, s.qos) in Resubscribe(subs)
  {
    var ops := Resubscribe(subs);
    forall op | op in ops
      ensures op.Subscribe? && Get(subs, op.topic) == Some(Subscription(op.topic, op.qos))
    {
      var i :| 0 <= i < |ops| && ops[i] == op;
      GetAt(subs, i);
    }
    forall topic, s | Get(subs, topic) == Some(s) ensures Subscribe(topic, s.qos) in ops {
      var i := KeyIndex(subs, topic);
      GetAt(subs, i);
      assert ops[i] == Subscribe(topic, s.qos);
    }
  }

  /**
   * Recording a subscription keeps the table well filed, and the next
   * connect sends that topic with the qos just recorded.
   */
  lemma SubscribeFiles(subs: Dict<string, Subscription>, topic: string, qos: int)
    requires WellFiled(subs)
    ensures WellFiled(Put(subs, topic, Subscription(topic, qos)))
    ensures Subscribe(topic, qos) in Resubscribe(Put(subs, topic, Subscription(topic, qos)))
  {
    var r := Put(subs, topic, Subscription(topic, qos));
    forall i | 0 <= i < |r| ensures r[i].1.topic == r[i].0 {
      var k := r[i].0;
      GetAt(r, i);
      if k != topic {
        var j := KeyIndex(subs, k);
        GetAt(subs, j);
      }
    }
    ResubscribeExact(r);
  }

  /**
   * Where one watchdog step leaves the last-packet time: idle for more than
   * `threshold` seconds and the forced reconnect returns normally, the time
   * becomes `now`; otherwise it stays.
   */
  function AfterWatchdog(last: int, now: int, threshold: int, reconnectOk: bool): (t: int)
    ensures t == last || t == now
    ensures !reconnectOk ==> t == last
    ensures now - last <= threshold ==> t == last
    ensures reconnectOk && threshold >= 0 ==> now - t <= threshold
  {
    if now - last > threshold && reconnectOk then now else last
  }

  class MqttClient {
    var subscriptions: Dict<string, Subscription>
    var hasHandler: bool
    var connected: bool
    var lastPacketTime: int
    var reconnects: nat
    var published: nat
    var wire: seq<WireOp>

    predicate Valid()
      reads this
    {
      WellFiled(subscriptions)
    }

    /** A client before connecting: nothing subscribed, no handler, counters at zero. */
    constructor (now: int)
      ensures Valid()
      ensures subscriptions == [] && !hasHandler && !connected
      ensures lastPacketTime == now && reconnects == 0 && published == 0 && wire == []
    {
      subscriptions := [];
      hasHandler := false;
      connected := false;
      lastPacketTime := now;
      reconnects := 0;
      published := 0;
      wire := [];
    }

    /** `set_message_handler` */
    method SetMessageHandler()
      modifies this
      ensures hasHandler
      ensures subscriptions == old(subscriptions) && connected == old(connected)
      ensures lastPacketTime == old(lastPacketTime) && reconnects == old(reconnects)
      ensures published == old(published) && wire == old(wire)
    {
      hasHandler := true;
    }

    /**
     * `subscribe(topic, qos)`: records the subscription under its topic,
     * replacing an earlier qos for it and keeping every other topic, and
     * sends the request.
     */
    method Subscribe(topic: string, qos: int)
      requires Valid()
      modifies this
      ensures Valid()
      ensures Get(subscriptions, topic) == Some(Subscription(topic, qos))
      ensures forall t | t != topic :: Get(subscriptions, t) == Get(old(subscriptions), t)
      ensures subscriptions == Put(old(subscriptions), topic, Subscription(topic, qos))
      ensures wire == old(wire) + [WireOp.Subscribe(topic, qos)]
      ensures hasHandler == old(hasHandler) && connected == old(connected)
      ensures lastPacketTime == old(lastPacketTime) && reconnects == old(reconnects) && published == old(published)
    {
      var next := Put(subscriptions, topic, Subscription(topic, qos));
      assert Get(next, topic) == Some(Subscription(topic, qos)) && forall t | t != topic :: Get(next, t) == Get(subscriptions, t);
      SubscribeFiles(subscriptions, topic, qos);
      subscriptions := next;
      wire := wire + [WireOp.Subscribe(topic, qos)];
    }

    /**
     * `publish_base64(topic, payload, qos, retain)`: while disconnected,
     * nothing; while connected, the base64 text of the payload goes out and
     * `published` rises by one.
     */
    method PublishBase64(topic: string, payload: seq<byte>, qos: int, retain: bool)
      modifies this
      ensures !old(connected) ==> wire == old(wire) && published == old(published)
      ensures old(connected) ==>
        wire == old(wire) + [Publish(topic, Base64.Encode(payload), qos, retain)] && published == old(published) + 1
      ensures subscriptions == old(subscriptions) && hasHandler == old(hasHandler) && connected == old(connected)
      ensures lastPacketTime == old(lastPacketTime) && reconnects == old(reconnects)
    {
      if !connected {
        return;
      }
      var text := Base64.Encode(payload);
      wire := wire + [Publish(topic, text, qos, retain)];
      published := published + 1;
    }

    /** `_on_connect`: the connection is up and every recorded subscription is sent again, in order. */
    method OnConnect()
      requires Valid()
      modifies this
      ensures Valid()
      ensures connected
      ensures wire == old(wire) + Resubscribe(subscriptions)
      ensures subscriptions == old(subscriptions) && hasHandler == old(hasHandler)
      ensures lastPacketTime == old(lastPacketTime) && reconnects == old(reconnects) && published == old(published)
    {
      connected := true;
      var ops := Resubscribe(subscriptions);
      var i := 0;
      while i < |subscriptions|
        invariant 0 <= i <= |subscriptions| == |ops|
        invariant wire == old(wire) + ops[..i]
        invariant subscriptions == old(subscriptions) && hasHandler == old(hasHandler) && connected
        invariant lastPacketTime == old(lastPacketTime) && reconnects == old(reconnects) && published == old(published)
      {
        var sub := subscriptions[i].1;
        wire := wire + [WireOp.Subscribe(sub.topic, sub.qos)];
        assert ops[..i + 1] == ops[..i] + [ops[i]];
        i := i + 1;
      }
      assert ops[..|ops|] == ops;
    }

    /** `_on_disconnect`: the connection is down and `reconnects` rises by one. */
    method OnDisconnect()
      modifies this
      ensures !connected && reconnects == old(reconnects) + 1
      ensures subscriptions == old(subscriptions) && hasHandler == old(hasHandler)
      ensures lastPacketTime == old(lastPacketTime) && published == old(published) && wire == old(wire)
    {
      connected := false;
      reconnects := reconnects + 1;
    }

    /**
     * `_on_message`: the last-packet time becomes `now` first; with a handler
     * set, the message goes to it as `{"raw": payload}` (whatever the handler
     * raises stays inside the callback), without one nothing else happens.
     */
    method OnMessage(topic: string, payload: seq<byte>, now: int) returns (d: Option<Delivery>)
      modifies this
      ensures lastPacketTime == now
      ensures d == if hasHandler then Some(Delivery(topic, payload)) else None
      ensures subscriptions == old(subscriptions) && hasHandler == old(hasHandler) && connected == old(connected)
      ensures reconnects == old(reconnects) && published == old(published) && wire == old(wire)
    {
      lastPacketTime := now;
      if !hasHandler {
        return None;
      }
      d := Some(Delivery(topic, payload));
    }

    /**
     * One pass of the watchdog loop: idle for more than `threshold` seconds,
     * a reconnect is forced; the last-packet time moves to `now` only when
     * that reconnect returns normally (`reconnectOk`).
     */
    method WatchdogStep(now: int, threshold: int, reconnectOk: bool) returns (forced: bool)
      modifies this
      ensures forced <==> now - old(lastPacketTime) > threshold
      ensures wire == old(wire) + (if forced then [Reconnect] else [])
      ensures lastPacketTime == AfterWatchdog(old(lastPacketTime), now, threshold, reconnectOk)
      ensures subscriptions == old(subscriptions) && hasHandler == old(hasHandler) && connected == old(connected)
      ensures reconnects == old(reconnects) && published == old(published)
    {
      forced := now - lastPacketTime > threshold;
      if forced {
        wire := wire + [Reconnect];
        if reconnectOk {
          lastPacketTime := now;
        }
      }
    }

    /** `get_metrics()`: the two counters and the whole seconds since the last packet, never negative. */
    function GetMetrics(now: int): (m: Dict<string, int>)
      reads this
      ensures Get(m, "reconnects") == Some(reconnects)
      ensures Get(m, "published") == Some(published)
      ensures Get(m, "seconds_since_last_packet").Some? && Get(m, "seconds_since_last_packet").value >= 0
      ensures now >= lastPacketTime ==> Get(m, "seconds_since_last_packet") == Some(now - lastPacketTime)
      ensures KeySet(m) == {"reconnects", "published", "seconds_since_last_packet"}
    {
      var age := if now - lastPacketTime > 0 then now - lastPacketTime else 0;
      var m := [("reconnects", reconnects as int), ("published", published as int), ("seconds_since_last_packet", age)];
      assert m[1..] == [("published", published as int), ("seconds_since_last_packet", age)];
      assert m[1..][1..] == [("seconds_since_last_packet", age)];
      assert Get(m[1..][1..], "seconds_since_last_packet") == Some(age);
      assert KeySet(m) == {"reconnects", "published", "seconds_since_last_packet"} by {
        assert m[0].0 == "reconnects" && m[1].0 == "published" && m[2].0 == "seconds_since_last_packet";
      }
      m
    }
  }
}
