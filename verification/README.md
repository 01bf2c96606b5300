# Meteo MQTT bridge: a Dafny model of the relay core

The meteo MQTT bridge subscribes to five weather topics (`meteo/temperature`,
`meteo/humidity`, `meteo/pressure`, `meteo/wind`, `meteo/rainfall`) on a public
MQTT broker. It relays every reading to three downstream ("Cedalo") brokers.
Each downstream broker has its own base topic and its own name for every
sensor category. The model covers this path:

- **Topics** (`topics.dfy`). `Split` models Python's `str.split('/')`. Joining
  the parts of any split gives the topic back, and splitting a join gives the
  parts back when they are a non-empty list of separator-free levels. `LastSegment` is `topic.split('/')[-1]`, the sensor
  category. It is characterised as the maximal separator-free suffix of the
  topic (`IsLastLevel`).
- **Config** (`config.dfy`). These are the tables of `config.py` as constants:
  the public broker and its topic list, the three brokers, and the channel
  table. Environment-supplied values enter as `Endpoint` parameters. The
  module also defines the well-formedness predicates the relay relies on and
  proves that the shipped tables satisfy them.
- **Sinks** (`sinks.dfy`). This covers `setup_cedalo_client` and its
  credential decision. It also models the `cedalo_clients` dictionary as an
  ordered sequence of slots, with `Assign` as dictionary assignment, and the
  setup loop of `start`.
- **Relay** (`relay.dfy`). This is `forward_to_cedalo` as the pure function
  `Forward`. It takes the category, the value, the slots and the connection
  state, and returns the sequence of publish attempts. Each attempt is
  recorded with whether its `publish` raised, which the loop catches.
- **Bridge** (`bridge.dfy`). This covers the bridge's fields, `start`,
  `on_public_connect` and `on_public_message`: decode, store into
  `received_data`, then forward. It also holds the end-to-end lemmas that tie
  the relay to the shipped configuration.

The MQTT client library is outside the model. The model receives as inputs
what the bridge learns from it:
- whether setting up a downstream client raised anywhere in its `try` block:
  client construction, `username_pw_set`, `connect` or `loop_start`
  (`setupRaises`);
- whether each client reports itself connected and whether its `publish`
  raises (`net: string -> Link`);
- how `setup_public_client` ended (`PublicSetup`);
- the result of `msg.payload.decode()` (`decode`, with `None` where decoding
  raises);
- the clock reading (`now`).

Facts about the code that the model keeps:
- The base topic falls back to `"meteo/default/"` both for a sink with no
  channel entry and for a sink whose entry has no `base_topic` key.
- Connection state is read as one boolean per sink per forwarded message:
  whatever `is_connected()` reports at that moment.
- `start` logs a failed public-broker setup and carries on. It does not abort.
- The public client counts as set as soon as `mqtt.Client()` succeeds, even
  when `connect` then raises, so its loop is still started.
- Subscribing does not inspect per-topic results.
- The shipped channel table maps every category for every sink, so the
  unmapped-category fallback never fires with it. `Bridge.ExampleChannels` is
  a separate two-sink table in which "sink2" has no temperature mapping, used
  to show that fallback.

## Model

| member | source | states |
|---|---|---|
| Topics.Split | docker/proposal/meteo_mqtt_bridge/main.py:61 | splitting on `/` always yields at least one part, and no part contains the separator |
| Topics.JoinSplit | docker/proposal/meteo_mqtt_bridge/main.py:61 | joining the parts of a split with the separator gives back the original topic exactly, so the split loses nothing |
| Topics.SplitJoin | docker/proposal/meteo_mqtt_bridge/main.py:61 | splitting a join of separator-free levels gives back those levels, so the split is the inverse of the join |
| Topics.LastSegment | docker/proposal/meteo_mqtt_bridge/main.py:61 | the derived category is a separator-free suffix of the topic that is either the whole topic or directly preceded by `/` |
| Topics.LastLevelUnique | docker/proposal/meteo_mqtt_bridge/main.py:61 | a topic has only one such last level, so the characterisation pins the category down |
| Topics.LastSegmentOfLevel | docker/proposal/meteo_mqtt_bridge/main.py:61 | the category of `prefix/level` is `level` whatever the prefix holds, including further `/` |
| Topics.LastSegmentWholeTopic | docker/proposal/meteo_mqtt_bridge/main.py:61 | a topic is its own category exactly when it contains no `/` (both directions) |
| Config.PublicBroker | docker/proposal/meteo_mqtt_bridge/config.py:7-18 | `PUBLIC_BROKER_CONFIG`: host `broker.hivemq.com`, port 1883, keep-alive 60 and the five topics in order; its topics are stated by `Config.SubscribedTopicsCategorised` and `Bridge.OnPublicConnect` |
| Config.SubscribedTopicsCategorised | docker/proposal/meteo_mqtt_bridge/config.py:11-17 | every subscribed topic's last level is one of temperature, humidity, pressure, wind, rainfall |
| Config.CategoryMapWellFormed | docker/proposal/meteo_mqtt_bridge/config.py:46-77 | a channel map that lists five distinct single-level names under a base ending in `/` is total over the five categories and injective |
| Config.ShippedSinksWellFormed | docker/proposal/meteo_mqtt_bridge/config.py:46-77 | each shipped sink has a base topic ending in `/`, a channel for all five categories, and pairwise distinct non-empty channels without `/` |
| Config.ShippedBrokersConsistent | docker/proposal/meteo_mqtt_bridge/config.py:21-43 | the broker keys are distinct, the client ids `meteo_bridge_1..3` are pairwise distinct, and the channel table has exactly the broker keys |
| Config.DefaultEndpoint | docker/proposal/meteo_mqtt_bridge/config.py:23-41 | the `os.getenv` defaults of one downstream broker: host `your-cedalo-instance-<n>.cedalo.com`, port 1883, empty username and password; stated by `Sinks.DefaultEnvironmentAnonymous` |
| Config.CedaloBrokers | docker/proposal/meteo_mqtt_bridge/config.py:21-43 | `CEDALO_BROKERS` in declaration order, keys `client_1..3` with client ids `meteo_bridge_1..3` and the environment-supplied endpoints; stated by `Config.ShippedBrokersConsistent` and `Config.ShippedConfigWellFormed` |
| Config.ChannelNames | docker/proposal/meteo_mqtt_bridge/config.py:46-77 | the three base topics and channel maps of `CHANNEL_NAMES`; stated by `Config.ShippedSinksWellFormed` |
| Config.ShippedConfigWellFormed | docker/proposal/meteo_mqtt_bridge/config.py:7-77 | the whole shipped configuration is consistent for every environment-supplied host, port, username and password |
| Sinks.SetupCedaloClient | docker/proposal/meteo_mqtt_bridge/main.py:26-50 | setup yields no client exactly when anything in its `try` block raises; otherwise the client has the configured id, host, port and keep-alive 60, and credentials are set if and only if the username is non-empty |
| Sinks.Assign | docker/proposal/meteo_mqtt_bridge/main.py:146 | assigning a key keeps the key order when the key exists and appends it otherwise, leaves every other entry unchanged, and stores the new client |
| Sinks.AssignKeepsKeysDistinct | docker/proposal/meteo_mqtt_bridge/main.py:146 | assignment never creates a duplicate key, so `cedalo_clients` keeps distinct keys like the dictionary it models |
| Sinks.AssignThenLookup | docker/proposal/meteo_mqtt_bridge/main.py:146 | reading a key back after assigning it gives the assigned client |
| Sinks.SetupAllAppends | docker/proposal/meteo_mqtt_bridge/main.py:145-146 | the setup loop over distinct new broker keys appends exactly one entry per broker in table order, each holding that broker's setup result |
| Sinks.SetupAll | docker/proposal/meteo_mqtt_bridge/main.py:145-146 | the setup loop of `start`, one assignment per broker in table order; its contract is stated by `Sinks.SetupAllAppends` |
| Sinks.DefaultEnvironmentAnonymous | docker/proposal/meteo_mqtt_bridge/config.py:21-43 | with no environment variable set, the configuration is consistent and every client that sets up uses its default host, port 1883 and no credentials |
| Sinks.Live | docker/proposal/meteo_mqtt_bridge/main.py:77 | a slot is published to when it holds a client that reports itself connected; stated by `Relay.ForwardSinks` and `Relay.ForwardFromLiveSlots` |
| Bridge.Fresh | docker/proposal/meteo_mqtt_bridge/main.py:21-24 | a new bridge has no public client, no clients and no readings; what `start` makes of it is stated by `Bridge.StartRegistersEveryBroker` |
| Bridge.Start | docker/proposal/meteo_mqtt_bridge/main.py:140-155 | `start`: the setup loop, then the public client, then its loop if the client is set; its contract is stated by `Bridge.StartRegistersEveryBroker` |
| Bridge.StartRegistersEveryBroker | docker/proposal/meteo_mqtt_bridge/main.py:140-155 | after `start` on a fresh bridge there is exactly one `cedalo_clients` entry per broker key in order, `None` exactly when setup raised; `received_data` is empty and the public loop runs exactly when the public client was created |
| Bridge.OnPublicConnect | docker/proposal/meteo_mqtt_bridge/main.py:104-113 | a failed connect subscribes to nothing; a successful one subscribes to exactly the configured topic list in order, five topics whose categories are all known |
| Bridge.OnPublicMessage | docker/proposal/meteo_mqtt_bridge/main.py:52-72 | a payload that fails to decode changes nothing and forwards nothing; otherwise `received_data[category]` holds the value, time and original topic, every other key is unchanged, and the reading is forwarded under that category |
| Relay.Forward | docker/proposal/meteo_mqtt_bridge/main.py:74-102 | `forward_to_cedalo`; its targets are stated by `Relay.ForwardSinks` and `Relay.ForwardDistinctTargets`, its publishes by `Relay.ForwardEnvelopes`, and its failure handling by `Relay.ForwardIgnoresFailures` and `Relay.NotRaisedAtLiveSinks` |
| Relay.Route | docker/proposal/meteo_mqtt_bridge/main.py:79-98 | the publish for one live sink; stated by `Relay.ForwardEnvelopes`, `Relay.ConfiguredRoute` and `Relay.UnconfiguredSinkRoute` |
| Relay.BaseTopic | docker/proposal/meteo_mqtt_bridge/main.py:80-81 | the sink's base topic with its `"meteo/default/"` fallback; stated by `Relay.ResolutionFallbacks` |
| Relay.CustomChannel | docker/proposal/meteo_mqtt_bridge/main.py:82-85 | the sink's channel for the category, falling back to the category itself; stated by `Relay.ResolutionFallbacks` |
| Relay.ForwardSinks | docker/proposal/meteo_mqtt_bridge/main.py:76-77 | the set of sinks published to is exactly the set of keys whose client exists and is connected, and there are never more publishes than clients |
| Relay.ForwardDistinctTargets | docker/proposal/meteo_mqtt_bridge/main.py:76-77 | when the client keys are distinct, as a dictionary's are, no sink is published to twice |
| Relay.ForwardTargetsLiveSinks | docker/proposal/meteo_mqtt_bridge/main.py:76-77 | the sinks published to are exactly those whose client exists and is connected; there are never more publishes than clients, and none is published to twice when keys are distinct |
| Relay.TargetsAreLiveSinks | docker/proposal/meteo_mqtt_bridge/main.py:76-77 | a sink appears among the publish targets if and only if its slot holds a connected client |
| Relay.ForwardFromLiveSlots | docker/proposal/meteo_mqtt_bridge/main.py:76-77 | no publish goes to a sink whose client is `None` or not connected |
| Relay.ForwardEnvelopes | docker/proposal/meteo_mqtt_bridge/main.py:79-98 | each publish goes to its sink's base topic followed by its resolved channel; its envelope holds the value, the category as `sensor_type`, that channel, the time and `bridge_version` "1.0"; it raised exactly when that sink's own publish raises |
| Relay.ForwardIgnoresFailures | docker/proposal/meteo_mqtt_bridge/main.py:76-102 | the publishes issued (targets, topics, envelopes, order) depend only on which clients are connected, never on whether any publish raises |
| Relay.NotRaisedAtLiveSinks | docker/proposal/meteo_mqtt_bridge/main.py:76-102 | a sink's `publish` call returns without raising exactly when its client exists, is connected and its own publish does not raise, whatever happens at the other sinks |
| Relay.ResolutionFallbacks | docker/proposal/meteo_mqtt_bridge/main.py:80-85 | resolution never fails: a mapped category gets its channel and an unmapped one keeps its raw name; the base topic is the configured one when present and "meteo/default/" otherwise |
| Relay.UnconfiguredSinkRoute | docker/proposal/meteo_mqtt_bridge/main.py:80-86 | a sink missing from the channel table publishes on "meteo/default/" followed by the raw category, which stays the topic's last level when it is a single level |
| Relay.ConfiguredRoute | docker/proposal/meteo_mqtt_bridge/main.py:80-86 | for a well-formed sink and a known category, the full topic is the configured base followed by the mapped channel; the base is a prefix and the channel is exactly one new last level |
| Relay.DistinctCategoriesDistinctTopics | docker/proposal/meteo_mqtt_bridge/main.py:85-86 | within a well-formed sink, two different known categories are published on different topics |
| Relay.ForwardUsesConfiguredRoutes | docker/proposal/meteo_mqtt_bridge/main.py:74-98 | when every client key has a well-formed channel entry and the category is known, no fallback is used: every publish is on the configured base plus mapped channel, with that channel in the envelope |
| Bridge.ShippedSlots | docker/proposal/meteo_mqtt_bridge/main.py:140-146 | after a fresh start with the shipped brokers, `cedalo_clients` holds client_1, client_2 and client_3 in that order, each without a client exactly when its setup raised |
| Bridge.ShippedLiveSinks | docker/proposal/meteo_mqtt_bridge/main.py:145-146 | after a fresh start with the shipped brokers, every client key is in the channel table, the keys are distinct, and the live sinks are the configured ones whose setup succeeded and whose client is connected |
| Bridge.SubscribedCategory | docker/proposal/meteo_mqtt_bridge/config.py:11-17 | a message on any subscribed topic has one of the five known categories |
| Bridge.SubscribedMessageRouting | docker/proposal/meteo_mqtt_bridge/main.py:52-102 | with the shipped configuration, a decoded message on any topic of the configured list (the list a successful connect subscribes to, by `Bridge.OnPublicConnect`) is published once to each set-up, connected broker and to no other; each publish uses the configured base topic and mapped channel, never a fallback |
| Bridge.ExampleCategory | docker/proposal/meteo_mqtt_bridge/main.py:61 | the category of `meteo/temperature` is `temperature` |
| Bridge.ExampleMappedRoute | docker/proposal/meteo_mqtt_bridge/main.py:80-95 | in the two-sink example, the sink with a temperature mapping publishes on `weather_station/central/ambient_temperature` with `custom_channel` "ambient_temperature" |
| Bridge.ExampleUnmappedRoute | docker/proposal/meteo_mqtt_bridge/main.py:80-95 | in the two-sink example, the sink without a temperature mapping publishes on `city/temperature` with `custom_channel` "temperature" |
| Bridge.TwoSinkExample | docker/proposal/meteo_mqtt_bridge/main.py:74-102 | with two connected sinks, a "23.5" reading on `meteo/temperature` produces exactly the two expected publishes, in client order |

## Left out

- The paho-mqtt client is not modelled: client construction, `connect`, `loop_start`/`loop_stop`, `subscribe`, `publish`, `is_connected` and the callbacks. Their outcomes are inputs (`setupRaises`, `net`, `PublicSetup`, the `rc` of `on_public_connect`). Transport `tcp` and protocol MQTTv5 are passed only to that library.
- The network loops run concurrently on background threads. That concurrency is not modelled; each inbound message is handled as one atomic step.
- `stop` is not modelled. It only calls `loop_stop`/`disconnect` on the clients and resets no field.
- `on_cedalo_connect` and `on_cedalo_disconnect` are not modelled. They only log.
- `main()` is not modelled. It is a sleep loop with interrupt handling.
- Timestamps are not modelled as separate clock reads. The source calls `time.time()` once for `received_data` and once per envelope. The model uses one reading `now` for all of them, so it does not show that envelopes of one message may carry slightly different times.
- `json.dumps` serialisation is not modelled. The envelope is a record.
- Logging and `print` are not modelled.
- `os.getenv` and `load_dotenv` are not modelled, and neither is the `int(...)` conversion of the port. A non-numeric port would raise at import time. Host, port, username and password are parameters; `DefaultEndpoint` gives the documented defaults.
- `msg.payload.decode()` is not modelled as UTF-8 decoding. It is the parameter `decode`.
- Decoding of `msg.topic` by the client library is not modelled. The topic arrives as a string.
- An exception raised by `is_connected()` itself is not modelled. That call sits outside the per-sink `try` and would end the loop early; the model takes connectivity as a given boolean that cannot raise.
- `main_5.py` is not part of this model. It is an HTTP weather fetch plus a periodic publish, all I/O.
- `main_4_gpt.py` is not part of this model. It is the same I/O plumbing and refers to an undefined `config`.
