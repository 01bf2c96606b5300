/**
 `forward_to_cedalo`: turning one sensor reading into one publish per
 downstream client that exists and reports itself connected.

 For each entry of `cedalo_clients`, in order, a live client gets a publish
 whose topic is the sink's base topic followed by its channel for the
 category, and whose envelope carries the value, the category, that channel,
 the time and the bridge version. A publish that raises is caught inside the
 loop: it is recorded as an attempt that raised, and the loop goes on.
 */
module Relay {
  import opened Wrappers
  import Topics
  import Config
  import Sinks

  /** The base topic of a sink with no channel configuration or no `base_topic` key. */
  const DefaultBaseTopic: string := "meteo/default/"

  /** The `bridge_version` field of every envelope. */
  const BridgeVersion: string := "1.0"

  /** The JSON object sent downstream, as a record. */
  datatype Envelope = Envelope(
    value: string, sensorType: string, customChannel: string, timestamp: real, bridgeVersion: string)

  /** One `publish(full_topic, payload)` call on the client of `sink`. */
  datatype Publish = Publish(sink: string, topic: string, envelope: Envelope)

  /** A publish call and whether it raised (and was caught and logged). */
  datatype Attempt = Attempt(publish: Publish, raised: bool)

  /** `CHANNEL_NAMES.get(sink, {}).get("base_topic", "meteo/default/")`. */
  function BaseTopic(channelNames: map<string, Config.ChannelConfig>, sink: string): string {
    if sink in channelNames then ValueOr(channelNames[sink].baseTopic, DefaultBaseTopic) else DefaultBaseTopic
  }

  /** `CHANNEL_NAMES.get(sink, {}).get("channels", {}).get(category, category)`. */
  function CustomChannel(channelNames: map<string, Config.ChannelConfig>, sink: string, category: string): string {
    if sink in channelNames && category in channelNames[sink].channels then channelNames[sink].channels[category]
    else category
  }

  /** The publish `forward_to_cedalo` issues to one live sink. */
  function Route(channelNames: map<string, Config.ChannelConfig>, sink: string, category: string,
                 value: string, now: real): Publish
  {
    var channel := CustomChannel(channelNames, sink, category);
    Publish(sink, BaseTopic(channelNames, sink) + channel, Envelope(value, category, channel, now, BridgeVersion))
  }

  /** The loop of `forward_to_cedalo` over `cedalo_clients`, in order. */
  function Forward(clients: seq<Sinks.Slot>, net: string -> Sinks.Link, channelNames: map<string, Config.ChannelConfig>,
                   category: string, value: string, now: real): seq<Attempt>
    decreases |clients|
  {
    if |clients| == 0 then []
    else
      var rest := Forward(clients[1..], net, channelNames, category, value, now);
      var slot := clients[0];
      if Sinks.Live(slot, net) then
        [Attempt(Route(channelNames, slot.name, category, value, now), net(slot.name).publishRaises)] + rest
      else rest
  }

  /** The keys of the slots a forward publishes to. */
  function LiveSinks(clients: seq<Sinks.Slot>, net: string -> Sinks.Link): set<string> {
    set i | 0 <= i < |clients| && Sinks.Live(clients[i], net) :: clients[i].name
  }

  /** The sinks the attempts went to, in order. */
  function Targets(attempts: seq<Attempt>): seq<string> {
    seq(|attempts|, i requires 0 <= i < |attempts| => attempts[i].publish.sink)
  }

  /** The sinks the attempts went to, as a set. */
  function Sent(attempts: seq<Attempt>): set<string> {
    set i | 0 <= i < |attempts| :: attempts[i].publish.sink
  }

  /** Unfolding `Sent` at the first attempt. */
  lemma SentCons(a: Attempt, rest: seq<Attempt>)
    ensures Sent([a] + rest) == {a.publish.sink} + Sent(rest)
  {
    var attempts := [a] + rest;
    assert attempts[0] == a;
    forall s | s in Sent(rest)
      ensures s in Sent(attempts)
    {
      var i :| 0 <= i < |rest| && rest[i].publish.sink == s;
      assert attempts[i + 1] == rest[i];
    }
  }

  /** The publish calls of the attempts, in order. */
  function Publishes(attempts: seq<Attempt>): seq<Publish> {
    seq(|attempts|, i requires 0 <= i < |attempts| => attempts[i].publish)
  }

  /**
   The sinks whose `publish` call returned without raising. The call's return
   code is ignored by the bridge, so this is not a delivery guarantee.
   */
  function NotRaised(attempts: seq<Attempt>): set<string> {
    set i | 0 <= i < |attempts| && !attempts[i].raised :: attempts[i].publish.sink
  }

  /** Unfolding `LiveSinks` at the first slot. */
  lemma LiveSinksCons(clients: seq<Sinks.Slot>, net: string -> Sinks.Link)
    requires |clients| > 0
    ensures LiveSinks(clients, net) ==
      (if Sinks.Live(clients[0], net) then {clients[0].name} else {}) + LiveSinks(clients[1..], net)
  {
    var tail := clients[1..];
    forall s | s in LiveSinks(clients, net)
      ensures s in (if Sinks.Live(clients[0], net) then {clients[0].name} else {}) + LiveSinks(tail, net)
    {
      var i :| 0 <= i < |clients| && Sinks.Live(clients[i], net) && clients[i].name == s;
      if i > 0 {
        assert tail[i - 1] == clients[i];
      }
    }
    forall s | s in LiveSinks(tail, net)
      ensures s in LiveSinks(clients, net)
    {
      var i :| 0 <= i < |tail| && Sinks.Live(tail[i], net) && tail[i].name == s;
      assert clients[i + 1] == tail[i];
    }
  }

  /**
   Publishes go exactly to the live slots: the set of targets is the set of
   keys whose client exists and is connected, and there are never more
   attempts than slots.
   */
  lemma {:induction false} ForwardSinks(
    clients: seq<Sinks.Slot>, net: string -> Sinks.Link, channelNames: map<string, Config.ChannelConfig>,
    category: string, value: string, now: real)
    ensures var attempts := Forward(clients, net, channelNames, category, value, now);
      && |attempts| <= |clients|
      && Sent(attempts) == LiveSinks(clients, net)
    decreases |clients|
  {
    if |clients| > 0 {
      var attempts := Forward(clients, net, channelNames, category, value, now);
      var rest := Forward(clients[1..], net, channelNames, category, value, now);
      ForwardSinks(clients[1..], net, channelNames, category, value, now);
      LiveSinksCons(clients, net);
      if Sinks.Live(clients[0], net) {
        assert attempts == [attempts[0]] + rest;
        SentCons(attempts[0], rest);
      }
    }
  }

  /** The first slot's key is not the key of any later slot when all keys are distinct. */
  lemma FirstNameFresh(clients: seq<Sinks.Slot>, net: string -> Sinks.Link)
    requires |clients| > 0 && Config.Distinct(Sinks.Names(clients))
    ensures Config.Distinct(Sinks.Names(clients[1..]))
    ensures clients[0].name !in LiveSinks(clients[1..], net)
  {
    var tail := clients[1..];
    assert Sinks.Names(tail) == Sinks.Names(clients)[1..];
    forall i | 0 <= i < |tail|
      ensures tail[i].name != clients[0].name
    {
      assert Sinks.Names(clients)[i + 1] == tail[i].name;
      assert Sinks.Names(clients)[0] == clients[0].name;
    }
  }

  /** When the slots' keys are distinct, as a dictionary's are, no sink is published to twice. */
  lemma {:induction false} ForwardDistinctTargets(
    clients: seq<Sinks.Slot>, net: string -> Sinks.Link, channelNames: map<string, Config.ChannelConfig>,
    category: string, value: string, now: real)
    requires Config.Distinct(Sinks.Names(clients))
    ensures Config.Distinct(Targets(Forward(clients, net, channelNames, category, value, now)))
    decreases |clients|
  {
    if |clients| > 0 {
      var attempts := Forward(clients, net, channelNames, category, value, now);
      var rest := Forward(clients[1..], net, channelNames, category, value, now);
      FirstNameFresh(clients, net);
      ForwardDistinctTargets(clients[1..], net, channelNames, category, value, now);
      if Sinks.Live(clients[0], net) {
        ForwardSinks(clients[1..], net, channelNames, category, value, now);
        assert Targets(attempts) == [clients[0].name] + Targets(rest);
        forall k | 0 <= k < |rest|
          ensures Targets(rest)[k] != clients[0].name
        {
          assert Targets(rest)[k] == rest[k].publish.sink;
          assert Targets(rest)[k] in Sent(rest);
        }
        DistinctCons(clients[0].name, Targets(rest));
      }
    }
  }

  /**
   Publishes go exactly to the live slots: the set of targets is the set of
   keys whose client exists and is connected, there are never more attempts
   than slots, and when the keys are distinct no sink is published to twice.
   */
  lemma ForwardTargetsLiveSinks(
    clients: seq<Sinks.Slot>, net: string -> Sinks.Link, channelNames: map<string, Config.ChannelConfig>,
    category: string, value: string, now: real)
    ensures var attempts := Forward(clients, net, channelNames, category, value, now);
      && |attempts| <= |clients|
      && Sent(attempts) == LiveSinks(clients, net)
      && (Config.Distinct(Sinks.Names(clients)) ==> Config.Distinct(Targets(attempts)))
  {
    ForwardSinks(clients, net, channelNames, category, value, now);
    if Config.Distinct(Sinks.Names(clients)) {
      ForwardDistinctTargets(clients, net, channelNames, category, value, now);
    }
  }

  /** Putting a new element in front of distinct elements keeps them distinct. */
  lemma DistinctCons(x: string, rest: seq<string>)
    requires Config.Distinct(rest)
    requires forall k :: 0 <= k < |rest| ==> rest[k] != x
    ensures Config.Distinct([x] + rest)
  {
    var s := [x] + rest;
    forall i, j | 0 <= i < j < |s|
      ensures s[i] != s[j]
    {
      assert s[j] == rest[j - 1];
      if i > 0 {
        assert s[i] == rest[i - 1];
      }
    }
  }

  /**
   An attempt carries the publish resolved for its own sink: topic
   `base_topic + custom_channel`, envelope with the reading's value and
   category, the sink's channel, the time and bridge version "1.0"; and it
   raised exactly when that sink's own publish raises.
   */
  predicate ResolvedForSink(a: Attempt, net: string -> Sinks.Link, channelNames: map<string, Config.ChannelConfig>,
                            category: string, value: string, now: real)
  {
    var sink := a.publish.sink;
    var channel := CustomChannel(channelNames, sink, category);
    && a.publish.topic == BaseTopic(channelNames, sink) + channel
    && a.publish.envelope == Envelope(value, category, channel, now, BridgeVersion)
    && a.raised == net(sink).publishRaises
  }

  /** Every attempt of a forward is resolved for its own sink. */
  lemma {:induction false} ForwardEnvelopes(
    clients: seq<Sinks.Slot>, net: string -> Sinks.Link, channelNames: map<string, Config.ChannelConfig>,
    category: string, value: string, now: real)
    ensures forall a :: a in Forward(clients, net, channelNames, category, value, now) ==>
      ResolvedForSink(a, net, channelNames, category, value, now)
    decreases |clients|
  {
    if |clients| > 0 {
      ForwardEnvelopes(clients[1..], net, channelNames, category, value, now);
      var rest := Forward(clients[1..], net, channelNames, category, value, now);
      if Sinks.Live(clients[0], net) {
        var first := Attempt(Route(channelNames, clients[0].name, category, value, now), net(clients[0].name).publishRaises);
        assert Forward(clients, net, channelNames, category, value, now) == [first] + rest;
        assert ResolvedForSink(first, net, channelNames, category, value, now);
      }
    }
  }

  /**
   Fan-out independence: which publishes are issued, to whom and with what,
   depends only on which clients are connected, never on whether any publish
   raises.
   */
  lemma {:induction false} ForwardIgnoresFailures(
    clients: seq<Sinks.Slot>, net1: string -> Sinks.Link, net2: string -> Sinks.Link,
    channelNames: map<string, Config.ChannelConfig>, category: string, value: string, now: real)
    requires forall s :: net1(s).connected == net2(s).connected
    ensures Publishes(Forward(clients, net1, channelNames, category, value, now))
         == Publishes(Forward(clients, net2, channelNames, category, value, now))
    decreases |clients|
  {
    if |clients| > 0 {
      ForwardIgnoresFailures(clients[1..], net1, net2, channelNames, category, value, now);
      var rest1 := Forward(clients[1..], net1, channelNames, category, value, now);
      var rest2 := Forward(clients[1..], net2, channelNames, category, value, now);
      var a1 := Forward(clients, net1, channelNames, category, value, now);
      var a2 := Forward(clients, net2, channelNames, category, value, now);
      if Sinks.Live(clients[0], net1) {
        assert Publishes(a1) == [a1[0].publish] + Publishes(rest1);
        assert Publishes(a2) == [a2[0].publish] + Publishes(rest2);
      }
    }
  }

  /**
   A sink's `publish` call returns without raising exactly when its client
   exists, is connected and its own publish does not raise, whatever happens
   at the other sinks.
   */
  lemma NotRaisedAtLiveSinks(
    clients: seq<Sinks.Slot>, net: string -> Sinks.Link, channelNames: map<string, Config.ChannelConfig>,
    category: string, value: string, now: real)
    ensures NotRaised(Forward(clients, net, channelNames, category, value, now))
         == (set s | s in LiveSinks(clients, net) && !net(s).publishRaises)
  {
    var attempts := Forward(clients, net, channelNames, category, value, now);
    ForwardTargetsLiveSinks(clients, net, channelNames, category, value, now);
    ForwardEnvelopes(clients, net, channelNames, category, value, now);
    forall s | s in LiveSinks(clients, net) && !net(s).publishRaises
      ensures s in NotRaised(attempts)
    {
      assert s in Sent(attempts);
      var i :| 0 <= i < |attempts| && attempts[i].publish.sink == s;
      assert attempts[i] in attempts;
    }
    forall s | s in NotRaised(attempts)
      ensures s in LiveSinks(clients, net) && !net(s).publishRaises
    {
      var i :| 0 <= i < |attempts| && !attempts[i].raised && attempts[i].publish.sink == s;
      assert attempts[i] in attempts;
      assert s in Sent(attempts);
    }
  }

  /**
   Channel resolution never fails: a mapped category gets its configured
   channel and an unmapped one (or an unconfigured sink) keeps the raw
   category; the base topic falls back to "meteo/default/" exactly when the
   sink has no configured base topic.
   */
  lemma ResolutionFallbacks(channelNames: map<string, Config.ChannelConfig>, sink: string, category: string)
    ensures sink in channelNames && category in channelNames[sink].channels ==>
      CustomChannel(channelNames, sink, category) == channelNames[sink].channels[category]
    ensures !(sink in channelNames && category in channelNames[sink].channels) ==>
      CustomChannel(channelNames, sink, category) == category
    ensures sink in channelNames && channelNames[sink].baseTopic.Some? ==>
      BaseTopic(channelNames, sink) == channelNames[sink].baseTopic.value
    ensures !(sink in channelNames && channelNames[sink].baseTopic.Some?) ==>
      BaseTopic(channelNames, sink) == DefaultBaseTopic
  {
  }

  /**
   A sink with no channel configuration publishes under "meteo/default/"
   with the raw category as the channel, so the category is still the last
   level of the published topic whenever it is a single level.
   */
  lemma UnconfiguredSinkRoute(channelNames: map<string, Config.ChannelConfig>, sink: string, category: string)
    requires sink !in channelNames
    ensures var topic := BaseTopic(channelNames, sink) + CustomChannel(channelNames, sink, category);
      && topic == DefaultBaseTopic + category
      && (Topics.Separator !in category ==> Topics.LastSegment(topic) == category)
  {
    if Topics.Separator !in category {
      assert DefaultBaseTopic == "meteo/default" + [Topics.Separator];
      Topics.LastSegmentOfLevel("meteo/default", category);
      assert DefaultBaseTopic + category == "meteo/default" + [Topics.Separator] + category;
    }
  }

  /**
   For a well-formed sink and a known category, the publish topic is the
   configured base topic followed by exactly one more level, the mapped
   channel: the base is a prefix and the channel is the topic's last level.
   */
  lemma ConfiguredRoute(channelNames: map<string, Config.ChannelConfig>, categories: set<string>,
                        sink: string, category: string)
    requires sink in channelNames && Config.SinkWellFormed(channelNames[sink], categories)
    requires category in categories
    ensures var base := channelNames[sink].baseTopic.value;
      var channel := channelNames[sink].channels[category];
      var topic := BaseTopic(channelNames, sink) + CustomChannel(channelNames, sink, category);
      && topic == base + channel
      && topic[..|base|] == base
      && Topics.LastSegment(topic) == channel
  {
    var base := channelNames[sink].baseTopic.value;
    var channel := channelNames[sink].channels[category];
    var prefix := base[..|base| - 1];
    assert base == prefix + [Topics.Separator];
    Topics.LastSegmentOfLevel(prefix, channel);
    assert base + channel == prefix + [Topics.Separator] + channel;
  }

  /**
   Within one well-formed sink, distinct known categories are published on
   distinct topics.
   */
  lemma DistinctCategoriesDistinctTopics(channelNames: map<string, Config.ChannelConfig>, categories: set<string>,
                                         sink: string, c: string, d: string)
    requires sink in channelNames && Config.SinkWellFormed(channelNames[sink], categories)
    requires c in categories && d in categories && c != d
    ensures BaseTopic(channelNames, sink) + CustomChannel(channelNames, sink, c)
         != BaseTopic(channelNames, sink) + CustomChannel(channelNames, sink, d)
  {
    ConfiguredRoute(channelNames, categories, sink, c);
    ConfiguredRoute(channelNames, categories, sink, d);
  }

  /** A sink is among a forward's targets exactly when it is the key of a live slot. */
  lemma TargetsAreLiveSinks(
    clients: seq<Sinks.Slot>, net: string -> Sinks.Link, channelNames: map<string, Config.ChannelConfig>,
    category: string, value: string, now: real)
    ensures forall sink :: sink in Targets(Forward(clients, net, channelNames, category, value, now))
                       <==> sink in LiveSinks(clients, net)
  {
    var attempts := Forward(clients, net, channelNames, category, value, now);
    ForwardTargetsLiveSinks(clients, net, channelNames, category, value, now);
    var targets := Sent(attempts);
    forall sink
      ensures sink in Targets(attempts) <==> sink in targets
    {
      if sink in Targets(attempts) {
        var k :| 0 <= k < |attempts| && Targets(attempts)[k] == sink;
        assert sink in targets;
      }
      if sink in targets {
        var k :| 0 <= k < |attempts| && attempts[k].publish.sink == sink;
        assert Targets(attempts)[k] == sink;
      }
    }
  }

  /** Every attempt of a forward goes to the key of a live slot. */
  lemma {:induction false} ForwardFromLiveSlots(
    clients: seq<Sinks.Slot>, net: string -> Sinks.Link, channelNames: map<string, Config.ChannelConfig>,
    category: string, value: string, now: real)
    ensures forall a :: a in Forward(clients, net, channelNames, category, value, now) ==>
      a.publish.sink in LiveSinks(clients, net)
    decreases |clients|
  {
    if |clients| > 0 {
      ForwardFromLiveSlots(clients[1..], net, channelNames, category, value, now);
      LiveSinksCons(clients, net);
    }
  }

  /**
   When every slot's key has a well-formed channel configuration and the
   category is a known one, no fallback is used: each publish goes to the
   sink's configured base topic followed by its mapped channel, which is the
   topic's last level and the envelope's `custom_channel`.
   */
  lemma ForwardUsesConfiguredRoutes(
    clients: seq<Sinks.Slot>, net: string -> Sinks.Link, channelNames: map<string, Config.ChannelConfig>,
    categories: set<string>, category: string, value: string, now: real)
    requires forall i :: 0 <= i < |clients| ==>
      clients[i].name in channelNames && Config.SinkWellFormed(channelNames[clients[i].name], categories)
    requires category in categories
    ensures forall a :: a in Forward(clients, net, channelNames, category, value, now) ==>
      && a.publish.sink in channelNames
      && ConfiguredPublish(a.publish, channelNames[a.publish.sink], category, value, now)
  {
    ForwardFromLiveSlots(clients, net, channelNames, category, value, now);
    ForwardEnvelopes(clients, net, channelNames, category, value, now);
    forall a | a in Forward(clients, net, channelNames, category, value, now)
      ensures a.publish.sink in channelNames && ConfiguredPublish(a.publish, channelNames[a.publish.sink], category, value, now)
    {
      var i :| 0 <= i < |clients| && Sinks.Live(clients[i], net) && clients[i].name == a.publish.sink;
      ConfiguredRoute(channelNames, categories, a.publish.sink, category);
    }
  }

  /**
   A publish on a sink's configured route: the configured base topic and the
   mapped channel, the channel being the topic's last level, and the envelope
   carrying the reading under that channel.
   */
  predicate ConfiguredPublish(p: Publish, cc: Config.ChannelConfig, category: string, value: string, now: real) {
    && cc.baseTopic.Some?
    && category in cc.channels
    && var channel := cc.channels[category];
       && p.topic == cc.baseTopic.value + channel
       && Topics.LastSegment(p.topic) == channel
       && p.envelope == Envelope(value, category, channel, now, BridgeVersion)
  }
}
