/**
 The downstream ("Cedalo") connections as the bridge keeps them: one entry of
 `cedalo_clients` per configured broker, holding either a client or `None`
 when `setup_cedalo_client` raised.

 The MQTT client library is not part of this model. What the bridge learns
 from it is an input: whether setting a client up raised, and, at the
 moment a message is forwarded, whether each client reports itself connected
 and whether its `publish` call raises (`Link`).
 */
module Sinks {
  import opened Wrappers
  import Config

  /** The keep-alive interval, in seconds, passed to every downstream `connect`. */
  const KeepAlive: int := 60

  datatype Credentials = Credentials(username: string, password: string)

  /** What a created downstream client was configured with. */
  datatype CedaloClient = CedaloClient(
    clientId: string, host: string, port: int, keepalive: int, credentials: Option<Credentials>)

  /** One entry of `cedalo_clients`: the broker key and its client, or `None`. */
  datatype Slot = Slot(name: string, client: Option<CedaloClient>)

  /** A client's state at forwarding time: `is_connected()`, and whether `publish` raises. */
  datatype Link = Link(connected: bool, publishRaises: bool)

  /**
   `setup_cedalo_client`: builds the client with the configured identifier,
   sets credentials only when a username is configured, connects with the
   fixed keep-alive and starts its loop. `setupRaises` stands for any
   exception inside that `try` block (client construction, setting
   credentials, `connect` or `loop_start`); the result is then `None`.
   */
  function SetupCedaloClient(cfg: Config.BrokerConfig, setupRaises: bool): (r: Option<CedaloClient>)
    ensures r.None? <==> setupRaises
    ensures r.Some? ==> r.value.clientId == cfg.clientId && r.value.keepalive == KeepAlive
    ensures r.Some? ==> r.value.host == cfg.host && r.value.port == cfg.port
    ensures r.Some? ==> (r.value.credentials.Some? <==> |cfg.username| > 0)
    ensures r.Some? && r.value.credentials.Some? ==>
      r.value.credentials.value == Credentials(cfg.username, cfg.password)
  {
    if setupRaises then None
    else
      var credentials := if cfg.username != "" then Some(Credentials(cfg.username, cfg.password)) else None;
      Some(CedaloClient(cfg.clientId, cfg.host, cfg.port, KeepAlive, credentials))
  }

  /**
   With none of the environment variables set, the shipped configuration is
   consistent and every downstream client that sets up connects to port 1883
   without credentials.
   */
  lemma DefaultEnvironmentAnonymous()
    ensures var brokers := Config.CedaloBrokers(
      Config.DefaultEndpoint("1"), Config.DefaultEndpoint("2"), Config.DefaultEndpoint("3"));
      && Config.WellFormed(Config.PublicBroker, Config.Categories, brokers, Config.ChannelNames)
      && (forall i :: 0 <= i < |brokers| ==>
            SetupCedaloClient(brokers[i].1, false)
            == Some(CedaloClient(brokers[i].1.clientId, brokers[i].1.host, 1883, KeepAlive, None)))
  {
    Config.ShippedConfigWellFormed(Config.DefaultEndpoint("1"), Config.DefaultEndpoint("2"), Config.DefaultEndpoint("3"));
  }

  /** A slot is published to when it holds a client that reports itself connected. */
  predicate Live(slot: Slot, net: string -> Link) {
    slot.client.Some? && net(slot.name).connected
  }

  /** The broker keys of the slots, in order. */
  function Names(slots: seq<Slot>): seq<string> {
    seq(|slots|, i requires 0 <= i < |slots| => slots[i].name)
  }

  /** `cedalo_clients[name] = client`: replace the entry in place, or append a new key. */
  function Assign(slots: seq<Slot>, name: string, client: Option<CedaloClient>): (r: seq<Slot>)
    ensures name in Names(slots) ==> Names(r) == Names(slots)
    ensures name !in Names(slots) ==> r == slots + [Slot(name, client)]
    ensures forall i :: 0 <= i < |slots| && slots[i].name != name ==> r[i] == slots[i]
    ensures Slot(name, client) in r
    decreases |slots|
  {
    if |slots| == 0 then [Slot(name, client)]
    else
      assert Names(slots) == [slots[0].name] + Names(slots[1..]);
      if slots[0].name == name then [Slot(name, client)] + slots[1..]
      else
        var rest := Assign(slots[1..], name, client);
        assert Names([slots[0]] + rest) == [slots[0].name] + Names(rest);
        [slots[0]] + rest
  }

  /** Assignment keeps the keys distinct, as a dictionary's always are. */
  lemma AssignKeepsKeysDistinct(slots: seq<Slot>, name: string, client: Option<CedaloClient>)
    requires Config.Distinct(Names(slots))
    ensures Config.Distinct(Names(Assign(slots, name, client)))
  {
    if name !in Names(slots) {
      var r := Assign(slots, name, client);
      assert Names(r) == Names(slots) + [name];
    }
  }

  /** Reading a key back after assigning it gives the assigned client. */
  lemma AssignThenLookup(slots: seq<Slot>, name: string, client: Option<CedaloClient>)
    requires Config.Distinct(Names(slots))
    ensures var r := Assign(slots, name, client);
      forall i :: 0 <= i < |r| && r[i].name == name ==> r[i].client == client
  {
    var r := Assign(slots, name, client);
    AssignKeepsKeysDistinct(slots, name, client);
    var j :| 0 <= j < |r| && r[j] == Slot(name, client);
    forall i | 0 <= i < |r| && r[i].name == name
      ensures r[i].client == client
    {
      assert Names(r)[i] == name == Names(r)[j];
    }
  }

  /**
   The setup loop of `start`: one `Assign` per broker, in table order, with the
   client that `setup_cedalo_client` produced for it.
   */
  function SetupAll(slots: seq<Slot>, brokers: Config.Brokers, setupRaises: string -> bool): seq<Slot>
    decreases |brokers|
  {
    if |brokers| == 0 then slots
    else
      var (name, cfg) := brokers[0];
      SetupAll(Assign(slots, name, SetupCedaloClient(cfg, setupRaises(name))), brokers[1..], setupRaises)
  }

  /** After one fresh key is appended, the remaining distinct broker keys are still fresh. */
  lemma RestStillFresh(slots: seq<Slot>, brokers: Config.Brokers, slot: Slot)
    requires |brokers| > 0 && slot.name == brokers[0].0
    requires Config.Distinct(Config.BrokerNames(brokers))
    requires forall i :: 0 <= i < |brokers| ==> brokers[i].0 !in Names(slots)
    ensures Config.Distinct(Config.BrokerNames(brokers[1..]))
    ensures forall i :: 0 <= i < |brokers| - 1 ==> brokers[1..][i].0 !in Names(slots + [slot])
  {
    var rest := brokers[1..];
    assert Config.BrokerNames(rest) == Config.BrokerNames(brokers)[1..];
    assert Names(slots + [slot]) == Names(slots) + [slot.name];
    forall i | 0 <= i < |rest|
      ensures rest[i].0 !in Names(slots + [slot])
    {
      assert Config.BrokerNames(brokers)[i + 1] == rest[i].0;
      assert Config.BrokerNames(brokers)[0] == brokers[0].0;
    }
  }

  /** One slot per broker, in table order, holding that broker's setup result. */
  function Registered(brokers: Config.Brokers, setupRaises: string -> bool): (r: seq<Slot>)
    ensures |r| == |brokers|
    ensures forall i :: 0 <= i < |brokers| ==>
      r[i] == Slot(brokers[i].0, SetupCedaloClient(brokers[i].1, setupRaises(brokers[i].0)))
  {
    seq(|brokers|, i requires 0 <= i < |brokers| =>
      Slot(brokers[i].0, SetupCedaloClient(brokers[i].1, setupRaises(brokers[i].0))))
  }

  /**
   Setting up brokers whose keys are new and distinct appends one slot per
   broker, in table order, each holding that broker's setup result.
   */
  lemma {:induction false} SetupAllAppends(slots: seq<Slot>, brokers: Config.Brokers, setupRaises: string -> bool)
    requires Config.Distinct(Config.BrokerNames(brokers))
    requires forall i :: 0 <= i < |brokers| ==> brokers[i].0 !in Names(slots)
    ensures SetupAll(slots, brokers, setupRaises) == slots + Registered(brokers, setupRaises)
    decreases |brokers|
  {
    if |brokers| > 0 {
      var slot := Slot(brokers[0].0, SetupCedaloClient(brokers[0].1, setupRaises(brokers[0].0)));
      RestStillFresh(slots, brokers, slot);
      SetupAllAppends(slots + [slot], brokers[1..], setupRaises);
      SetupAllStep(slots, brokers, setupRaises);
    }
  }

  /** Once the remaining brokers append their slots after the first one's, all brokers append theirs. */
  lemma SetupAllStep(slots: seq<Slot>, brokers: Config.Brokers, setupRaises: string -> bool)
    requires |brokers| > 0 && brokers[0].0 !in Names(slots)
    requires var slot := Slot(brokers[0].0, SetupCedaloClient(brokers[0].1, setupRaises(brokers[0].0)));
      SetupAll(slots + [slot], brokers[1..], setupRaises) == slots + [slot] + Registered(brokers[1..], setupRaises)
    ensures SetupAll(slots, brokers, setupRaises) == slots + Registered(brokers, setupRaises)
  {
    SetupFreshStep(slots, brokers, setupRaises);
    RegisteredCons(brokers, setupRaises);
  }

  /** Setting up a broker whose key is new appends its slot before the remaining brokers are set up. */
  lemma SetupFreshStep(slots: seq<Slot>, brokers: Config.Brokers, setupRaises: string -> bool)
    requires |brokers| > 0 && brokers[0].0 !in Names(slots)
    ensures SetupAll(slots, brokers, setupRaises)
         == SetupAll(slots + [Slot(brokers[0].0, SetupCedaloClient(brokers[0].1, setupRaises(brokers[0].0)))],
                     brokers[1..], setupRaises)
  {
    var name := brokers[0].0;
    var client := SetupCedaloClient(brokers[0].1, setupRaises(name));
    assert Assign(slots, name, client) == slots + [Slot(name, client)];
  }

  /** Unfolding `Registered` at the first broker. */
  lemma RegisteredCons(brokers: Config.Brokers, setupRaises: string -> bool)
    requires |brokers| > 0
    ensures Registered(brokers, setupRaises)
         == [Slot(brokers[0].0, SetupCedaloClient(brokers[0].1, setupRaises(brokers[0].0)))]
            + Registered(brokers[1..], setupRaises)
  {
  }
}
