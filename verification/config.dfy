/**
 The static configuration of the bridge (config.py): the public source broker
 and its topic list, the three downstream brokers, and each downstream broker's
 base topic and channel map, together with the well-formedness facts the relay
 relies on and a proof that the shipped tables have them.

 The host, port, username and password of each downstream broker are read from
 the environment with defaults; they enter here as `Endpoint` parameters, and
 `DefaultEndpoint` gives the values used when the environment is empty.
 */
module Config {
  import opened Wrappers
  import Topics

  /** `PUBLIC_BROKER_CONFIG`. */
  datatype PublicBrokerConfig = PublicBrokerConfig(host: string, port: int, keepalive: int, topics: seq<string>)

  /** The environment-provided part of one downstream broker's settings. */
  datatype Endpoint = Endpoint(host: string, port: int, username: string, password: string)

  /** One value of `CEDALO_BROKERS`. */
  datatype BrokerConfig = BrokerConfig(host: string, port: int, username: string, password: string, clientId: string)

  /**
   One value of `CHANNEL_NAMES`. A missing `"base_topic"` key is `None`; a
   missing `"channels"` key reads as an empty map, exactly as `.get(..., {})`.
   */
  datatype ChannelConfig = ChannelConfig(baseTopic: Option<string>, channels: map<string, string>)

  type Brokers = seq<(string, BrokerConfig)>

  const PublicBroker: PublicBrokerConfig := PublicBrokerConfig(
    "broker.hivemq.com", 1883, 60,
    ["meteo/temperature", "meteo/humidity", "meteo/pressure", "meteo/wind", "meteo/rainfall"])

  /** The sensor categories the subscribed topics end in. */
  const Categories: set<string> := {"temperature", "humidity", "pressure", "wind", "rainfall"}

  /** The settings of downstream broker `index` when none of its variables is set. */
  function DefaultEndpoint(index: string): Endpoint {
    Endpoint("your-cedalo-instance-" + index + ".cedalo.com", 1883, "", "")
  }

  /** `CEDALO_BROKERS`, in its declaration order. */
  function CedaloBrokers(e1: Endpoint, e2: Endpoint, e3: Endpoint): Brokers {
    [ ("client_1", BrokerConfig(e1.host, e1.port, e1.username, e1.password, "meteo_bridge_1")),
      ("client_2", BrokerConfig(e2.host, e2.port, e2.username, e2.password, "meteo_bridge_2")),
      ("client_3", BrokerConfig(e3.host, e3.port, e3.username, e3.password, "meteo_bridge_3")) ]
  }

  /** A channel map over the five categories, in the order config.py lists them. */
  function CategoryMap(temperature: string, humidity: string, pressure: string, wind: string, rainfall: string): map<string, string> {
    map["temperature" := temperature, "humidity" := humidity, "pressure" := pressure,
        "wind" := wind, "rainfall" := rainfall]
  }

  /** `CHANNEL_NAMES`. */
  const ChannelNames: map<string, ChannelConfig> := map[
    "client_1" := ChannelConfig(Some("weather_station/central/"), CategoryMap(
      "ambient_temperature", "relative_humidity", "atmospheric_pressure", "wind_speed", "precipitation")),
    "client_2" := ChannelConfig(Some("environmental_sensors/city/"), CategoryMap(
      "temp_celsius", "humidity_percent", "pressure_hpa", "wind_velocity", "rain_mm")),
    "client_3" := ChannelConfig(Some("iot_meteo/aggregated/"), CategoryMap(
      "thermal_reading", "moisture_level", "barometric_data", "air_flow", "hydrometer"))]

  /** The keys of a broker table, in order. */
  function BrokerNames(brokers: Brokers): seq<string> {
    seq(|brokers|, i requires 0 <= i < |brokers| => brokers[i].0)
  }

  predicate Distinct<T(==)>(s: seq<T>) {
    forall i, j :: 0 <= i < j < |s| ==> s[i] != s[j]
  }

  /** Every topic's last level is one of the categories. */
  predicate TopicsCategorised(topics: seq<string>, categories: set<string>) {
    forall i :: 0 <= i < |topics| ==> Topics.LastSegment(topics[i]) in categories
  }

  /** No two brokers share an MQTT client identifier. */
  predicate ClientIdsDistinct(brokers: Brokers) {
    forall i, j :: 0 <= i < j < |brokers| ==> brokers[i].1.clientId != brokers[j].1.clientId
  }

  /** A non-empty string ending in the separator. */
  predicate EndsWithSeparator(base: string) {
    |base| > 0 && base[|base| - 1] == Topics.Separator
  }

  /**
   One sink's channel configuration is usable as is: its base topic is set and
   ends in `/`, every category has a channel, every channel is one non-empty
   topic level, and no two categories share a channel.
   */
  predicate SinkWellFormed(cc: ChannelConfig, categories: set<string>) {
    && cc.baseTopic.Some?
    && EndsWithSeparator(cc.baseTopic.value)
    && categories <= cc.channels.Keys
    && (forall c :: c in cc.channels ==> |cc.channels[c]| > 0 && Topics.Separator !in cc.channels[c])
    && (forall c, d :: c in cc.channels && d in cc.channels && c != d ==> cc.channels[c] != cc.channels[d])
  }

  /** The whole configuration is consistent. */
  predicate WellFormed(source: PublicBrokerConfig, categories: set<string>, brokers: Brokers,
                       channelNames: map<string, ChannelConfig>) {
    && TopicsCategorised(source.topics, categories)
    && Distinct(BrokerNames(brokers))
    && ClientIdsDistinct(brokers)
    && channelNames.Keys == (set i | 0 <= i < |brokers| :: brokers[i].0)
    && (forall sink :: sink in channelNames ==> SinkWellFormed(channelNames[sink], categories))
  }

  /** Every subscribed topic ends in one of the five categories. */
  lemma SubscribedTopicsCategorised()
    ensures TopicsCategorised(PublicBroker.topics, Categories)
  {
    var topics := PublicBroker.topics;
    var levels := ["temperature", "humidity", "pressure", "wind", "rainfall"];
    forall i | 0 <= i < |topics|
      ensures Topics.LastSegment(topics[i]) in Categories
    {
      assert topics[i] == "meteo" + [Topics.Separator] + levels[i];
      Topics.LastSegmentOfLevel("meteo", levels[i]);
    }
  }

  /** A non-empty string without separators: exactly one topic level. */
  predicate IsLevel(s: string) {
    |s| > 0 && Topics.Separator !in s
  }

  /** A category map has exactly the five categories as keys, each mapped to the channel given for it. */
  lemma CategoryMapEntries(t: string, h: string, p: string, w: string, r: string)
    ensures var channels := CategoryMap(t, h, p, w, r);
      && channels.Keys == Categories
      && channels["temperature"] == t && channels["humidity"] == h && channels["pressure"] == p
      && channels["wind"] == w && channels["rainfall"] == r
  {
  }

  /** A category map whose five channels are distinct sends distinct categories to distinct channels. */
  lemma CategoryMapInjective(t: string, h: string, p: string, w: string, r: string)
    requires Distinct([t, h, p, w, r])
    ensures var channels := CategoryMap(t, h, p, w, r);
      forall c, d :: c in channels && d in channels && c != d ==> channels[c] != channels[d]
  {
    var channels := CategoryMap(t, h, p, w, r);
    var keys := ["temperature", "humidity", "pressure", "wind", "rainfall"];
    var names := [t, h, p, w, r];
    CategoryMapEntries(t, h, p, w, r);
    forall c | c in channels
      ensures exists i :: 0 <= i < 5 && keys[i] == c && channels[c] == names[i]
    {
      if c == keys[0] {
      } else if c == keys[1] {
        assert keys[1] == c;
      } else if c == keys[2] {
        assert keys[2] == c;
      } else if c == keys[3] {
        assert keys[3] == c;
      } else {
        assert keys[4] == c;
      }
    }
    forall c, d | c in channels && d in channels && c != d
      ensures channels[c] != channels[d]
    {
      var i :| 0 <= i < 5 && keys[i] == c && channels[c] == names[i];
      var j :| 0 <= j < 5 && keys[j] == d && channels[d] == names[j];
    }
  }

  /** A category map is well formed when its five channels are distinct topic levels. */
  lemma CategoryMapWellFormed(base: string, t: string, h: string, p: string, w: string, r: string)
    requires EndsWithSeparator(base)
    requires IsLevel(t) && IsLevel(h) && IsLevel(p) && IsLevel(w) && IsLevel(r)
    requires Distinct([t, h, p, w, r])
    ensures SinkWellFormed(ChannelConfig(Some(base), CategoryMap(t, h, p, w, r)), Categories)
  {
    CategoryMapEntries(t, h, p, w, r);
    CategoryMapInjective(t, h, p, w, r);
  }

  /** The channels of client_1 are usable as is. */
  lemma Sink1WellFormed()
    ensures SinkWellFormed(ChannelNames["client_1"], Categories)
  {
    CategoryMapWellFormed("weather_station/central/",
      "ambient_temperature", "relative_humidity", "atmospheric_pressure", "wind_speed", "precipitation");
  }

  /** The channels of client_2 are usable as is. */
  lemma Sink2WellFormed()
    ensures SinkWellFormed(ChannelNames["client_2"], Categories)
  {
    CategoryMapWellFormed("environmental_sensors/city/",
      "temp_celsius", "humidity_percent", "pressure_hpa", "wind_velocity", "rain_mm");
  }

  /** The channels of client_3 are usable as is. */
  lemma Sink3WellFormed()
    ensures SinkWellFormed(ChannelNames["client_3"], Categories)
  {
    CategoryMapWellFormed("iot_meteo/aggregated/",
      "thermal_reading", "moisture_level", "barometric_data", "air_flow", "hydrometer");
  }

  /** Each shipped channel configuration is usable as is. */
  lemma ShippedSinksWellFormed()
    ensures forall sink :: sink in ChannelNames ==> SinkWellFormed(ChannelNames[sink], Categories)
  {
    Sink1WellFormed();
    Sink2WellFormed();
    Sink3WellFormed();
  }

  /** The shipped broker table has distinct keys and client identifiers, and the same keys as the channel table. */
  lemma ShippedBrokersConsistent(e1: Endpoint, e2: Endpoint, e3: Endpoint)
    ensures var brokers := CedaloBrokers(e1, e2, e3);
      && Distinct(BrokerNames(brokers))
      && ClientIdsDistinct(brokers)
      && ChannelNames.Keys == (set i | 0 <= i < |brokers| :: brokers[i].0)
  {
    var brokers := CedaloBrokers(e1, e2, e3);
    assert (set i | 0 <= i < |brokers| :: brokers[i].0) == {"client_1", "client_2", "client_3"} by {
      assert brokers[0].0 == "client_1" && brokers[1].0 == "client_2" && brokers[2].0 == "client_3";
    }
  }

  /** The shipped tables are consistent, whatever the environment supplies. */
  lemma ShippedConfigWellFormed(e1: Endpoint, e2: Endpoint, e3: Endpoint)
    ensures WellFormed(PublicBroker, Categories, CedaloBrokers(e1, e2, e3), ChannelNames)
  {
    SubscribedTopicsCategorised();
    ShippedSinksWellFormed();
    ShippedBrokersConsistent(e1, e2, e3);
  }
}
