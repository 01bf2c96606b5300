/**
 The `MeteoMQTTBridge` object: its fields, `start`, the subscription made on
 connecting to the public broker, and the handling of one inbound message,
 plus the facts that tie the relay to the shipped configuration.

 The decoding of a payload's bytes (`msg.payload.decode()`) is a parameter
 `decode` that yields `None` where decoding raises; the clock is the
 parameter `now`.
 */
module Bridge {
  import opened Wrappers
  import Topics
  import Config
  import Sinks
  import Relay

  /** One value of `received_data`. */
  datatype Reading = Reading(value: string, timestamp: real, originalTopic: string)

  /** How `setup_public_client` ends: `mqtt.Client()` raises, `connect` raises, or both succeed. */
  datatype PublicSetup = ClientCreationRaises | ConnectRaises | Connects

  /**
   The fields of the bridge: whether `public_client` is set, whether its
   network loop was started, `cedalo_clients` and `received_data`.
   */
  datatype State = State(
    publicClient: bool, publicLoopStarted: bool,
    cedaloClients: seq<Sinks.Slot>, receivedData: map<string, Reading>)

  /** A freshly constructed bridge. */
  const Fresh: State := State(false, false, [], map[])

  /**
   `start`: set up one downstream client per broker, then the public client,
   then start the public loop if a public client is set. The public client
   is set as soon as `mqtt.Client()` succeeds, even when `connect` then raises.
   */
  function Start(s: State, brokers: Config.Brokers, setupRaises: string -> bool, publicSetup: PublicSetup): State {
    var clients := Sinks.SetupAll(s.cedaloClients, brokers, setupRaises);
    var hasPublic := if publicSetup == ClientCreationRaises then s.publicClient else true;
    State(hasPublic, s.publicLoopStarted || hasPublic, clients, s.receivedData)
  }

  /**
   Starting a fresh bridge leaves exactly one `cedalo_clients` entry per
   broker key, in table order, each `None` exactly when its setup raised and
   otherwise the configured client; `received_data` stays empty, and the
   public loop runs exactly when the public client could be created.
   */
  lemma StartRegistersEveryBroker(brokers: Config.Brokers, setupRaises: string -> bool, publicSetup: PublicSetup)
    requires Config.Distinct(Config.BrokerNames(brokers))
    ensures var r := Start(Fresh, brokers, setupRaises, publicSetup);
      && Sinks.Names(r.cedaloClients) == Config.BrokerNames(brokers)
      && (forall i :: 0 <= i < |brokers| ==>
            && (r.cedaloClients[i].client.None? <==> setupRaises(brokers[i].0))
            && r.cedaloClients[i].client == Sinks.SetupCedaloClient(brokers[i].1, setupRaises(brokers[i].0)))
      && r.receivedData == map[]
      && (r.publicClient <==> publicSetup != ClientCreationRaises)
      && (r.publicLoopStarted <==> r.publicClient)
  {
    Sinks.SetupAllAppends([], brokers, setupRaises);
  }

  /** `on_public_connect`: the topics subscribed to for a connect result code `rc`. */
  function OnPublicConnect(rc: int): (subscribed: seq<string>)
    ensures rc != 0 ==> subscribed == []
    ensures rc == 0 ==> subscribed == Config.PublicBroker.topics
    ensures rc == 0 ==> |subscribed| == 5 && Config.TopicsCategorised(subscribed, Config.Categories)
  {
    Config.SubscribedTopicsCategorised();
    if rc == 0 then Config.PublicBroker.topics else []
  }

  /**
   `on_public_message`: decode the payload; if that raises, nothing else
   happens. Otherwise store the reading under the topic's last level,
   replacing only that key, and forward it to the downstream clients.
   */
  function OnPublicMessage(s: State, topic: string, payload: seq<bv8>, decode: seq<bv8> -> Option<string>,
                           net: string -> Sinks.Link, now: real): (r: (State, seq<Relay.Attempt>))
    ensures decode(payload).None? ==> r.0 == s && r.1 == []
    ensures decode(payload).Some? ==>
      var category := Topics.LastSegment(topic);
      && r.0.receivedData.Keys == s.receivedData.Keys + {category}
      && r.0.receivedData[category] == Reading(decode(payload).value, now, topic)
      && (forall k :: k in s.receivedData && k != category ==> r.0.receivedData[k] == s.receivedData[k])
      && r.0.cedaloClients == s.cedaloClients
      && r.0.publicClient == s.publicClient && r.0.publicLoopStarted == s.publicLoopStarted
      && r.1 == Relay.Forward(s.cedaloClients, net, Config.ChannelNames, category, decode(payload).value, now)
  {
    match decode(payload)
    case None => (s, [])
    case Some(text) =>
      var category := Topics.LastSegment(topic);
      var stored := s.(receivedData := s.receivedData[category := Reading(text, now, topic)]);
      (stored, Relay.Forward(s.cedaloClients, net, Config.ChannelNames, category, text, now))
  }

  /**
   After a fresh start with the shipped broker table, `cedalo_clients` holds
   client_1, client_2 and client_3 in that order, each without a client
   exactly when its setup raised.
   */
  lemma ShippedSlots(e1: Config.Endpoint, e2: Config.Endpoint, e3: Config.Endpoint,
                     setupRaises: string -> bool, publicSetup: PublicSetup)
    ensures var clients := Start(Fresh, Config.CedaloBrokers(e1, e2, e3), setupRaises, publicSetup).cedaloClients;
      && Sinks.Names(clients) == ["client_1", "client_2", "client_3"]
      && (forall i :: 0 <= i < |clients| ==> (clients[i].client.None? <==> setupRaises(clients[i].name)))
  {
    var brokers := Config.CedaloBrokers(e1, e2, e3);
    Config.ShippedBrokersConsistent(e1, e2, e3);
    StartRegistersEveryBroker(brokers, setupRaises, publicSetup);
    var clients := Start(Fresh, brokers, setupRaises, publicSetup).cedaloClients;
    forall i | 0 <= i < |clients|
      ensures clients[i].client.None? <==> setupRaises(clients[i].name)
    {
      assert clients[i].name == Sinks.Names(clients)[i] == Config.BrokerNames(brokers)[i] == brokers[i].0;
    }
    assert Config.BrokerNames(brokers) == ["client_1", "client_2", "client_3"];
  }

  /**
   Slots named client_1, client_2 and client_3, each empty exactly when its
   setup raised, publish to exactly the configured sinks whose setup did not
   raise and whose client is connected.
   */
  lemma ShippedSlotsLive(clients: seq<Sinks.Slot>, setupRaises: string -> bool, net: string -> Sinks.Link)
    requires Sinks.Names(clients) == ["client_1", "client_2", "client_3"]
    requires forall i :: 0 <= i < |clients| ==> (clients[i].client.None? <==> setupRaises(clients[i].name))
    ensures forall i :: 0 <= i < |clients| ==> clients[i].name in Config.ChannelNames
    ensures Config.Distinct(Sinks.Names(clients))
    ensures Relay.LiveSinks(clients, net)
         == (set sink | sink in Config.ChannelNames && !setupRaises(sink) && net(sink).connected)
  {
    assert Config.ChannelNames.Keys == {"client_1", "client_2", "client_3"};
    assert forall i :: 0 <= i < |clients| ==> clients[i].name == Sinks.Names(clients)[i];
    var expected := set sink | sink in Config.ChannelNames && !setupRaises(sink) && net(sink).connected;
    forall sink | sink in expected
      ensures sink in Relay.LiveSinks(clients, net)
    {
      var i := if sink == "client_1" then 0 else if sink == "client_2" then 1 else 2;
      assert clients[i].name == sink;
    }
  }

  /**
   After a fresh start with the shipped broker table, the slots a forward
   publishes to are exactly the configured sinks whose setup did not raise
   and whose client is connected.
   */
  lemma ShippedLiveSinks(e1: Config.Endpoint, e2: Config.Endpoint, e3: Config.Endpoint,
                         setupRaises: string -> bool, publicSetup: PublicSetup, net: string -> Sinks.Link)
    ensures var s := Start(Fresh, Config.CedaloBrokers(e1, e2, e3), setupRaises, publicSetup);
      && (forall i :: 0 <= i < |s.cedaloClients| ==> s.cedaloClients[i].name in Config.ChannelNames)
      && Config.Distinct(Sinks.Names(s.cedaloClients))
      && Relay.LiveSinks(s.cedaloClients, net)
         == (set sink | sink in Config.ChannelNames && !setupRaises(sink) && net(sink).connected)
  {
    ShippedSlots(e1, e2, e3, setupRaises, publicSetup);
    ShippedSlotsLive(Start(Fresh, Config.CedaloBrokers(e1, e2, e3), setupRaises, publicSetup).cedaloClients,
                     setupRaises, net);
  }

  /**
   End to end with the shipped configuration: after a fresh start, a decoded
   message on any subscribed topic is published once to each downstream
   broker whose setup succeeded and whose client is connected, and to no
   other; each publish uses that broker's configured base topic and mapped
   channel (never "meteo/default/" nor the raw category), the channel is the
   published topic's last level, and the envelope carries the reading under
   that channel.
   */
  lemma SubscribedMessageRouting(
    e1: Config.Endpoint, e2: Config.Endpoint, e3: Config.Endpoint, setupRaises: string -> bool,
    publicSetup: PublicSetup, topic: string, payload: seq<bv8>, decode: seq<bv8> -> Option<string>,
    net: string -> Sinks.Link, now: real)
    requires topic in Config.PublicBroker.topics
    requires decode(payload).Some?
    ensures var attempts := OnPublicMessage(Start(Fresh, Config.CedaloBrokers(e1, e2, e3), setupRaises, publicSetup),
                                            topic, payload, decode, net, now).1;
      var category := Topics.LastSegment(topic);
      && category in Config.Categories
      && Config.Distinct(Relay.Targets(attempts))
      && (forall sink :: sink in Relay.Targets(attempts) <==>
            sink in Config.ChannelNames && !setupRaises(sink) && net(sink).connected)
      && (forall a :: a in attempts ==>
            && a.publish.sink in Config.ChannelNames
            && Relay.ConfiguredPublish(a.publish, Config.ChannelNames[a.publish.sink], category,
                                       decode(payload).value, now))
  {
    var s := Start(Fresh, Config.CedaloBrokers(e1, e2, e3), setupRaises, publicSetup);
    var category := Topics.LastSegment(topic);
    var text := decode(payload).value;
    SubscribedCategory(topic);
    Config.ShippedSinksWellFormed();
    ShippedLiveSinks(e1, e2, e3, setupRaises, publicSetup, net);
    Relay.ForwardTargetsLiveSinks(s.cedaloClients, net, Config.ChannelNames, category, text, now);
    Relay.TargetsAreLiveSinks(s.cedaloClients, net, Config.ChannelNames, category, text, now);
    Relay.ForwardUsesConfiguredRoutes(s.cedaloClients, net, Config.ChannelNames, Config.Categories, category, text, now);
  }

  /** Every subscribed topic's category is one of the five. */
  lemma SubscribedCategory(topic: string)
    requires topic in OnPublicConnect(0)
    ensures Topics.LastSegment(topic) in Config.Categories
  {
    Config.SubscribedTopicsCategorised();
    var i :| 0 <= i < |Config.PublicBroker.topics| && Config.PublicBroker.topics[i] == topic;
  }

  /**
   A two-sink channel table: "sink1" maps temperature to
   "ambient_temperature" under "weather_station/central/"; "sink2" has no
   mapping for temperature.
   */
  const ExampleChannels: map<string, Config.ChannelConfig> := map[
    "sink1" := Config.ChannelConfig(Some("weather_station/central/"), map["temperature" := "ambient_temperature"]),
    "sink2" := Config.ChannelConfig(Some("city/"), map["humidity" := "humidity_percent"])]

  /** The example's topic has category "temperature". */
  lemma ExampleCategory()
    ensures Topics.LastSegment("meteo/temperature") == "temperature"
  {
    assert "meteo/temperature" == "meteo" + [Topics.Separator] + "temperature";
    Topics.LastSegmentOfLevel("meteo", "temperature");
  }

  /** In the example, "sink1" publishes temperature on its mapped channel. */
  lemma ExampleMappedRoute(now: real)
    ensures Relay.Route(ExampleChannels, "sink1", "temperature", "23.5", now)
         == Relay.Publish("sink1", "weather_station/central/ambient_temperature",
              Relay.Envelope("23.5", "temperature", "ambient_temperature", now, "1.0"))
  {
    assert "weather_station/central/" + "ambient_temperature" == "weather_station/central/ambient_temperature";
    assert Relay.BaseTopic(ExampleChannels, "sink1") == "weather_station/central/";
    assert Relay.CustomChannel(ExampleChannels, "sink1", "temperature") == "ambient_temperature";
  }

  /** In the example, "sink2" has no channel for temperature and publishes on the raw category. */
  lemma ExampleUnmappedRoute(now: real)
    ensures Relay.Route(ExampleChannels, "sink2", "temperature", "23.5", now)
         == Relay.Publish("sink2", "city/temperature", Relay.Envelope("23.5", "temperature", "temperature", now, "1.0"))
  {
    assert "city/" + "temperature" == "city/temperature";
    assert "temperature" != "humidity";
    assert Relay.BaseTopic(ExampleChannels, "sink2") == "city/";
    assert Relay.CustomChannel(ExampleChannels, "sink2", "temperature") == "temperature";
  }

  /**
   With both sinks of `ExampleChannels` connected, a reading "23.5" on
   "meteo/temperature" gives two publishes, the first on the mapped channel,
   the second on the raw category under that sink's base topic.
   */
  lemma TwoSinkExample(client: Sinks.CedaloClient, net: string -> Sinks.Link, now: real)
    requires net("sink1") == Sinks.Link(true, false) && net("sink2") == Sinks.Link(true, false)
    ensures var clients := [Sinks.Slot("sink1", Some(client)), Sinks.Slot("sink2", Some(client))];
      Relay.Forward(clients, net, ExampleChannels, Topics.LastSegment("meteo/temperature"), "23.5", now) ==
        [ Relay.Attempt(Relay.Publish("sink1", "weather_station/central/ambient_temperature",
            Relay.Envelope("23.5", "temperature", "ambient_temperature", now, "1.0")), false),
          Relay.Attempt(Relay.Publish("sink2", "city/temperature",
            Relay.Envelope("23.5", "temperature", "temperature", now, "1.0")), false) ]
  {
    var clients := [Sinks.Slot("sink1", Some(client)), Sinks.Slot("sink2", Some(client))];
    ExampleCategory();
    ExampleMappedRoute(now);
    ExampleUnmappedRoute(now);
    var category := "temperature";
    var tail := clients[1..];
    assert tail[1..] == [];
    assert Relay.Forward(tail[1..], net, ExampleChannels, category, "23.5", now) == [];
    var a1 := Relay.Attempt(Relay.Route(ExampleChannels, "sink1", category, "23.5", now), false);
    var a2 := Relay.Attempt(Relay.Route(ExampleChannels, "sink2", category, "23.5", now), false);
    assert Relay.Forward(tail, net, ExampleChannels, category, "23.5", now) == [a2];
    assert Relay.Forward(clients, net, ExampleChannels, category, "23.5", now) == [a1, a2];
  }
}
