/**
 * The wrapper around the paho MQTT client (sr/robot3/mqtt.py). It keeps a
 * table from full topic to message callback, applies the configured topic
 * prefix, drops publishes while disconnected and re-subscribes the whole
 * table on every (re)connection. The paho client is represented by the log of
 * calls the wrapper makes on it.
 */
module Mqtt {
  import opened Wrappers

  type Topic = string

  /** A message handler; only its identity matters here. */
  datatype Callback = Callback(id: nat)

  /** The quality of service every subscribe and publish asks for (at least once). */
  const Qos: nat := 1

  /** The keepalive interval, in seconds, passed to paho's connect. */
  const Keepalive: nat := 60

  /** A call made on the paho client. */
  datatype ClientOp =
    | ClientConnect(host: string, port: int, keepalive: nat)
    | LoopStart
    | MessageCallbackAdd(topic: Topic, callback: Callback)
    | ClientSubscribe(topic: Topic, qos: nat)
    | MessageCallbackRemove(topic: Topic)
    | ClientUnsubscribe(topic: Topic)
    | ClientPublish(topic: Topic, payload: string, retain: bool, qos: nat)

  /** How paho's connect ends: it returns, or raises one of the three errors the wrapper catches. */
  datatype ConnectResult = Connected | ConnectTimeout | InvalidAddress | ConnectionRefused

  /** The topic `subscribe` registers: `<prefix>/<topic>` unless there is no prefix or it is overridden. */
  function SubscribeTopic(prefix: Option<string>, topic: Topic, overridePrefix: bool): (full: Topic)
    ensures full == topic <==> (overridePrefix || prefix.None?)
    ensures !overridePrefix && prefix.Some? ==> full == prefix.value + "/" + topic
  {
    if !overridePrefix && prefix.Some? then prefix.value + "/" + topic else topic
  }

  /** The topic `publish` sends to: prefixed only when auto-prefixing is on and the prefix is a non-empty string. */
  function PublishTopic(prefix: Option<string>, topic: Topic, autoPrefix: bool): (full: Topic)
    ensures full == topic <==> !(autoPrefix && prefix.Some? && prefix.value != "")
    ensures autoPrefix && prefix.Some? && prefix.value != "" ==> full == prefix.value + "/" + topic
  {
    if autoPrefix && prefix.Some? && prefix.value != "" then prefix.value + "/" + topic else topic
  }

  /** An empty prefix still adds a leading slash when subscribing, but is not applied when publishing. */
  lemma EmptyPrefixAsymmetry(topic: Topic)
    ensures SubscribeTopic(Some(""), topic, false) == "/" + topic
    ensures PublishTopic(Some(""), topic, true) == topic
  {
  }

  /** The two calls `_subscribe` makes for one topic. */
  function SubscribeOps(topic: Topic, callback: Callback): seq<ClientOp> {
    [MessageCallbackAdd(topic, callback), ClientSubscribe(topic, Qos)]
  }

  /** The calls a reconnection makes when it walks the table in the order `topics`. */
  function ResubscribeOps(topics: seq<Topic>, subscriptions: map<Topic, Callback>): seq<ClientOp>
    requires forall t :: t in topics ==> t in subscriptions
  {
    if topics == [] then []
    else
      var last := topics[|topics| - 1];
      ResubscribeOps(topics[..|topics| - 1], subscriptions) + SubscribeOps(last, subscriptions[last])
  }

  /** A reconnection issues, for the i-th topic walked, its callback registration and then its subscription. */
  lemma {:induction false} ResubscribeOpsLayout(topics: seq<Topic>, subscriptions: map<Topic, Callback>)
    requires forall t :: t in topics ==> t in subscriptions
    ensures |ResubscribeOps(topics, subscriptions)| == 2 * |topics|
    ensures forall i :: 0 <= i < |topics| ==>
      && ResubscribeOps(topics, subscriptions)[2 * i] == MessageCallbackAdd(topics[i], subscriptions[topics[i]])
      && ResubscribeOps(topics, subscriptions)[2 * i + 1] == ClientSubscribe(topics[i], Qos)
  {
    if topics != [] {
      var init := topics[..|topics| - 1];
      ResubscribeOpsLayout(init, subscriptions);
      forall i | 0 <= i < |init| ensures init[i] == topics[i] { }
    }
  }

  /**
   * When the walk covers the table, the reconnection re-subscribes exactly the
   * tracked topics, each with its tracked callback, and makes no other call.
   */
  lemma ResubscribeCoversTable(topics: seq<Topic>, subscriptions: map<Topic, Callback>)
    requires forall t :: t in topics <==> t in subscriptions
    ensures forall t :: ClientSubscribe(t, Qos) in ResubscribeOps(topics, subscriptions) <==> t in subscriptions
    ensures forall t, cb :: MessageCallbackAdd(t, cb) in ResubscribeOps(topics, subscriptions) <==>
      t in subscriptions && subscriptions[t] == cb
    ensures forall op :: op in ResubscribeOps(topics, subscriptions) ==>
      op.MessageCallbackAdd? || (op.ClientSubscribe? && op.qos == Qos)
  {
    var ops := ResubscribeOps(topics, subscriptions);
    ResubscribeOpsLayout(topics, subscriptions);
    forall op | op in ops
      ensures exists i :: (0 <= i < |topics| &&
                          (op == MessageCallbackAdd(topics[i], subscriptions[topics[i]]) || op == ClientSubscribe(topics[i], Qos)))
    {
      var n :| 0 <= n < |ops| && ops[n] == op;
      var i := n / 2;
      assert i < |topics|;
      if n == 2 * i {
        assert op == MessageCallbackAdd(topics[i], subscriptions[topics[i]]);
      } else {
        assert n == 2 * i + 1;
        assert op == ClientSubscribe(topics[i], Qos);
      }
    }
    forall t | t in subscriptions ensures ClientSubscribe(t, Qos) in ops {
      var i :| 0 <= i < |topics| && topics[i] == t;
      assert ops[2 * i + 1] == ClientSubscribe(t, Qos);
    }
    forall t, cb | t in subscriptions && subscriptions[t] == cb ensures MessageCallbackAdd(t, cb) in ops {
      var i :| 0 <= i < |topics| && topics[i] == t;
      assert ops[2 * i] == MessageCallbackAdd(t, cb);
    }
  }

  /** Subscribing to a new topic and then unsubscribing from its full topic gives the table back. */
  lemma SubscribeUnsubscribeRestores(subscriptions: map<Topic, Callback>, full: Topic, callback: Callback)
    requires full !in subscriptions
    ensures subscriptions[full := callback] - {full} == subscriptions
  {
  }

  /** `unsubscribe` applies no prefix: unsubscribing from the bare topic leaves the prefixed entry tracked. */
  lemma UnsubscribeIgnoresPrefix(subscriptions: map<Topic, Callback>, prefix: string, topic: Topic, callback: Callback)
    ensures var full := SubscribeTopic(Some(prefix), topic, false);
      full in subscriptions[full := callback] - {topic}
  {
  }

  class MqttClient {
    /** The tracked subscriptions, keyed by full (already prefixed) topic. */
    var subscriptions: map<Topic, Callback>
    const topicPrefix: Option<string>
    const clientName: Option<string>
    /** What paho's `is_connected()` reports; paho's network thread owns this state. */
    var connected: bool
    /** Every call made on the paho client, oldest first. */
    var ops: seq<ClientOp>

    constructor (clientName: Option<string>, topicPrefix: Option<string>)
      ensures this.clientName == clientName && this.topicPrefix == topicPrefix
      ensures subscriptions == map[] && !connected && ops == []
    {
      this.clientName := clientName;
      this.topicPrefix := topicPrefix;
      subscriptions := map[];
      connected := false;
      ops := [];
    }

    /**
     * `connect`: does nothing when already connected; otherwise asks paho to
     * connect and starts the network loop only if that did not fail.
     */
    method Connect(host: string, port: int, result: ConnectResult)
      modifies this`ops
      ensures connected ==> ops == old(ops)
      ensures !connected ==>
        ops == old(ops) + [ClientConnect(host, port, Keepalive)] + (if result == Connected then [LoopStart] else [])
    {
      if connected {
        return;
      }
      ops := ops + [ClientConnect(host, port, Keepalive)];
      if result != Connected {
        return;
      }
      ops := ops + [LoopStart];
    }

    /** `subscribe`: tracks the callback under the full topic, replacing any earlier one, and subscribes to it. */
    method Subscribe(topic: Topic, callback: Callback, overridePrefix: bool)
      modifies this`subscriptions, this`ops
      ensures subscriptions == old(subscriptions)[SubscribeTopic(topicPrefix, topic, overridePrefix) := callback]
      ensures ops == old(ops) + SubscribeOps(SubscribeTopic(topicPrefix, topic, overridePrefix), callback)
    {
      var fullTopic := SubscribeTopic(topicPrefix, topic, overridePrefix);
      subscriptions := subscriptions[fullTopic := callback];
      SubscribeOne(fullTopic, callback);
    }

    /** `_subscribe`: registers the callback with paho and subscribes with at-least-once delivery. */
    method SubscribeOne(topic: Topic, callback: Callback)
      modifies this`ops
      ensures ops == old(ops) + SubscribeOps(topic, callback)
    {
      ops := ops + [MessageCallbackAdd(topic, callback)];
      ops := ops + [ClientSubscribe(topic, Qos)];
    }

    /** `unsubscribe`: forgets the exact topic if tracked (no error otherwise) and always unsubscribes from it. */
    method Unsubscribe(topic: Topic)
      modifies this`subscriptions, this`ops
      ensures subscriptions == old(subscriptions) - {topic}
      ensures ops == old(ops) + [MessageCallbackRemove(topic), ClientUnsubscribe(topic)]
    {
      if topic in subscriptions {
        subscriptions := subscriptions - {topic};
      }
      ops := ops + [MessageCallbackRemove(topic)];
      ops := ops + [ClientUnsubscribe(topic)];
    }

    /** `publish`: dropped without error while disconnected; otherwise one publish at QoS 1. */
    method Publish(topic: Topic, payload: string, retain: bool, autoPrefixTopic: bool)
      modifies this`ops
      ensures !connected ==> ops == old(ops)
      ensures connected ==>
        ops == old(ops) + [ClientPublish(PublishTopic(topicPrefix, topic, autoPrefixTopic), payload, retain, Qos)]
    {
      if !connected {
        return;
      }
      var fullTopic := PublishTopic(topicPrefix, topic, autoPrefixTopic);
      ops := ops + [ClientPublish(fullTopic, payload, retain, Qos)];
    }

    /**
     * `_on_connect`: re-subscribes every tracked topic with its callback. The
     * table is left as it was; `order` is the order the walk took.
     */
    method OnConnect() returns (ghost order: seq<Topic>)
      modifies this`ops
      ensures forall t :: t in order <==> t in subscriptions
      ensures forall i, j :: 0 <= i < j < |order| ==> order[i] != order[j]
      ensures ops == old(ops) + ResubscribeOps(order, subscriptions)
    {
      var remaining := subscriptions.Keys;
      order := [];
      while remaining != {}
        invariant remaining <= subscriptions.Keys
        invariant forall t :: t in order ==> t in subscriptions && t !in remaining
        invariant forall t :: t in subscriptions ==> t in order || t in remaining
        invariant forall i, j :: 0 <= i < j < |order| ==> order[i] != order[j]
        invariant ops == old(ops) + ResubscribeOps(order, subscriptions)
        decreases remaining
      {
        var topic :| topic in remaining;
        SubscribeOne(topic, subscriptions[topic]);
        order := order + [topic];
        remaining := remaining - {topic};
      }
    }
  }
}
