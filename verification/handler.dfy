/** The advertisement handler: the callback given to the scan session
    (cmd/ble2mqtt/ble2mqtt.go, lines 63-166). For an advertisement from a
    registered sensor, every service-data block of 15 bytes or more yields
    five publications in a fixed order (two state records, three discovery
    records); each is attempted once, and a failed attempt is only logged.

    The broker is a parameter `publish: nat -> bool` telling whether the
    k-th attempt of this advertisement succeeded, and the clock is a
    parameter `clock: nat -> int` giving the Unix time read while handling
    the block at a given position. */
module Handler {
  import opened Options
  import Text
  import opened Registry
  import opened Decoder
  import opened Topics

  /** The device description shared by the three discovery records. */
  datatype Device = Device(name: string, identifiers: string, manufacturer: string, model: string)

  /** The JSON objects the handler publishes: a state record carrying one
      measurement, or a discovery record describing one entity. */
  datatype Payload =
    | StatePayload(timestamp: int, sensorLabel: string, value: real, battery: int, signal: int)
    | DiscoveryPayload(device: Device, name: string, uniqueId: string, stateTopic: string,
                       valueTemplate: string, unit: string, deviceClass: Option<string>)

  /** Which of the five publications a record is; a failure is logged under it. */
  datatype Role = TemperatureState | HumidityState | TemperatureDiscovery | HumidityDiscovery | BatteryDiscovery

  /** One publication handed to the broker client. */
  datatype Record = Record(role: Role, topic: string, payload: Payload, qos: nat, retained: bool)

  /** One publish attempt and whether the broker acknowledged it. */
  datatype Attempt = Attempt(record: Record, delivered: bool)

  /** A service-data block; its service identifier is never consulted. */
  datatype ServiceData = ServiceData(uuid: string, data: seq<Byte>)

  datatype Advertisement = Advertisement(address: string, rssi: int, serviceData: seq<ServiceData>)

  const PublishOrder: seq<Role> :=
    [TemperatureState, HumidityState, TemperatureDiscovery, HumidityDiscovery, BatteryDiscovery]

  /** Every record is published at QoS 0 with the retain flag set (mqtt.go, line 48). */
  const PublishQoS: nat := 0

  const DeviceModel: string := "LYWSD03MMC"
  const DeviceManufacturer: string := "Xiaomi"

  /** The temperature unit exactly as the source spells it: the two
      characters U+00C2 U+00B0 followed by `C`. */
  const TemperatureUnit: string := "\U{00C2}\U{00B0}C"
  const PercentUnit: string := "%"

  function Publication(role: Role, topic: string, payload: Payload): (r: Record)
  {
    Record(role, topic, payload, PublishQoS, true)
  }

  function DeviceOf(sensor: SensorConfig): (d: Device)
  {
    Device(DeviceModel + " " + sensor.name, sensor.macAddress, DeviceManufacturer, DeviceModel)
  }

  /** The state payload of one measurement `value` of `reading`. */
  function StateOf(sensor: SensorConfig, reading: Reading, value: real, rssi: int): (p: Payload)
  {
    StatePayload(reading.timestamp, Text.Title(sensor.name), value, reading.battery, rssi)
  }

  /** The discovery payload of entity `kind`, reading the JSON field `field`
      of the records published on `stateTopic`. */
  function DiscoveryOf(sensor: SensorConfig, kind: Kind, stateTopic: string, field: string,
                       unit: string, deviceClass: Option<string>): (p: Payload)
  {
    DiscoveryPayload(DeviceOf(sensor), sensor.name + " - " + KindName(kind), sensor.name + "_" + KindName(kind),
                     stateTopic, "{{ value_json." + field + " }}", unit, deviceClass)
  }

  /** The five publications for one decoded block, in publish order, all
      retained at QoS 0. */
  function BlockRecords(topics: TopicsConfig, sensor: SensorConfig, rssi: int, reading: Reading): (rs: seq<Record>)
    ensures |rs| == |PublishOrder|
    ensures forall k :: 0 <= k < |rs| ==> rs[k].role == PublishOrder[k] && rs[k].qos == PublishQoS && rs[k].retained
  {
    var temperatureTopic := StateTopic(topics.sensorFormat, sensor.name, Temperature);
    var humidityTopic := StateTopic(topics.sensorFormat, sensor.name, Humidity);
    var root := topics.homeAssistant;
    [ Publication(TemperatureState, temperatureTopic, StateOf(sensor, reading, Centi(reading.rawTemperature), rssi)),
      Publication(HumidityState, humidityTopic, StateOf(sensor, reading, Centi(reading.rawHumidity), rssi)),
      Publication(TemperatureDiscovery, DiscoveryTopic(root, sensor, Temperature),
                  DiscoveryOf(sensor, Temperature, temperatureTopic, "value", TemperatureUnit, None)),
      Publication(HumidityDiscovery, DiscoveryTopic(root, sensor, Humidity),
                  DiscoveryOf(sensor, Humidity, humidityTopic, "value", PercentUnit, None)),
      Publication(BatteryDiscovery, DiscoveryTopic(root, sensor, Battery),
                  DiscoveryOf(sensor, Battery, temperatureTopic, "battery", PercentUnit, Some("battery"))) ]
  }

  /** The two state records of a block go to the temperature and humidity
      state topics and carry payloads that agree on everything but the
      value: the quantised timestamp, the title-cased name, the battery
      level and the signal strength, with the raw readings in hundredths. */
  lemma StateRecords(topics: TopicsConfig, sensor: SensorConfig, rssi: int, reading: Reading)
    ensures var rs := BlockRecords(topics, sensor, rssi, reading);
            && rs[0].topic == StateTopic(topics.sensorFormat, sensor.name, Temperature)
            && rs[1].topic == StateTopic(topics.sensorFormat, sensor.name, Humidity)
            && rs[0].payload.StatePayload? && rs[1].payload.StatePayload?
            && rs[1].payload == rs[0].payload.(value := rs[1].payload.value)
            && rs[0].payload.value == Centi(reading.rawTemperature)
            && rs[1].payload.value == Centi(reading.rawHumidity)
            && rs[0].payload.timestamp == reading.timestamp
            && rs[0].payload.battery == reading.battery
            && rs[0].payload.signal == rssi
            && rs[0].payload.sensorLabel == Text.Title(sensor.name)
  {
  }

  /** The three discovery records of a block describe the same device, go
      to the discovery topics of their entities and point at the state topic
      they describe, the battery entity at the temperature topic; only the
      battery entity has a device class. */
  lemma DiscoveryRecords(topics: TopicsConfig, sensor: SensorConfig, rssi: int, reading: Reading)
    ensures var rs := BlockRecords(topics, sensor, rssi, reading);
            && (forall k :: 2 <= k < |rs| ==> rs[k].payload.DiscoveryPayload? && rs[k].payload.device == DeviceOf(sensor))
            && (forall k :: 2 <= k < |rs| ==> (rs[k].payload.deviceClass.Some? <==> rs[k].role == BatteryDiscovery))
            && rs[2].payload.stateTopic == rs[0].topic
            && rs[3].payload.stateTopic == rs[1].topic
            && rs[4].payload.stateTopic == rs[0].topic
            && rs[2].topic == DiscoveryTopic(topics.homeAssistant, sensor, Temperature)
            && rs[3].topic == DiscoveryTopic(topics.homeAssistant, sensor, Humidity)
            && rs[4].topic == DiscoveryTopic(topics.homeAssistant, sensor, Battery)
  {
  }

  /** The device and entity naming of the three discovery payloads: the
      device is the thermometer model from its manufacturer, identified by
      its configured MAC, and each entity is named and identified after the
      sensor and its kind. */
  lemma DiscoveryNames(topics: TopicsConfig, sensor: SensorConfig, rssi: int, reading: Reading)
    ensures var rs := BlockRecords(topics, sensor, rssi, reading);
            && (forall k :: 2 <= k < |rs| ==>
                  && rs[k].payload.DiscoveryPayload?
                  && rs[k].payload.device == Device(DeviceModel + " " + sensor.name, sensor.macAddress, DeviceManufacturer, DeviceModel))
            && rs[2].payload.name == sensor.name + " - " + KindName(Temperature)
            && rs[3].payload.name == sensor.name + " - " + KindName(Humidity)
            && rs[4].payload.name == sensor.name + " - " + KindName(Battery)
            && rs[2].payload.uniqueId == sensor.name + "_" + KindName(Temperature)
            && rs[3].payload.uniqueId == sensor.name + "_" + KindName(Humidity)
            && rs[4].payload.uniqueId == sensor.name + "_" + KindName(Battery)
  {
  }

  /** What each entity reads and how Home Assistant presents it: temperature
      and humidity read the `value` field of their state records, in degrees
      and percent; the battery entity reads the `battery` field of the
      temperature record, in percent, with the device class `battery`. */
  lemma DiscoveryFields(topics: TopicsConfig, sensor: SensorConfig, rssi: int, reading: Reading)
    ensures var rs := BlockRecords(topics, sensor, rssi, reading);
            && rs[2].payload.DiscoveryPayload? && rs[3].payload.DiscoveryPayload? && rs[4].payload.DiscoveryPayload?
            && rs[2].payload.valueTemplate == "{{ value_json.value }}"
            && rs[3].payload.valueTemplate == "{{ value_json.value }}"
            && rs[4].payload.valueTemplate == "{{ value_json.battery }}"
            && rs[2].payload.unit == TemperatureUnit
            && rs[3].payload.unit == PercentUnit
            && rs[4].payload.unit == PercentUnit
            && rs[2].payload.deviceClass == None
            && rs[3].payload.deviceClass == None
            && rs[4].payload.deviceClass == Some("battery")
  {
    ValueTemplates();
  }

  /** The two value templates, as the handler assembles them; kept apart so
      that the literal concatenations are checked once, on their own. */
  lemma ValueTemplates()
    ensures "{{ value_json." + "value" + " }}" == "{{ value_json.value }}"
    ensures "{{ value_json." + "battery" + " }}" == "{{ value_json.battery }}"
  {
  }

  /** The publications for one service-data block: none for a block that is
      too short, the five of `BlockRecords` otherwise. */
  function EmitBlock(topics: TopicsConfig, sensor: SensorConfig, rssi: int, data: seq<Byte>, now: int): (rs: seq<Record>)
    ensures |data| < MinBlockLength ==> rs == []
    ensures |data| >= MinBlockLength ==> |rs| == |PublishOrder|
    ensures forall k :: 0 <= k < |rs| ==> rs[k].role == PublishOrder[k] && rs[k].qos == PublishQoS && rs[k].retained
  {
    match Decode(data, now)
    case None => []
    case Some(reading) => BlockRecords(topics, sensor, rssi, reading)
  }

  /** The number of blocks long enough to decode. */
  function Qualifying(blocks: seq<ServiceData>): (n: nat)
    ensures n <= |blocks|
    ensures n == 0 <==> forall i :: 0 <= i < |blocks| ==> |blocks[i].data| < MinBlockLength
    decreases |blocks|
  {
    if |blocks| == 0 then 0
    else
      var last := |blocks| - 1;
      assert forall i :: 0 <= i < last ==> blocks[..last][i] == blocks[i];
      Qualifying(blocks[..last]) + (if |blocks[last].data| >= MinBlockLength then 1 else 0)
  }

  /** The publications for all blocks of an advertisement from `sensor`, in
      block order: five per qualifying block. */
  function EmitAll(topics: TopicsConfig, sensor: SensorConfig, rssi: int, blocks: seq<ServiceData>,
                   clock: nat -> int): (rs: seq<Record>)
    ensures |rs| == 5 * Qualifying(blocks)
    decreases |blocks|
  {
    if |blocks| == 0 then []
    else
      var last := |blocks| - 1;
      EmitAll(topics, sensor, rssi, blocks[..last], clock) + EmitBlock(topics, sensor, rssi, blocks[last].data, clock(last))
  }

  /** Record k has role number k mod 5 of the publish order, and every
      record is retained at QoS 0. */
  predicate InPublishOrder(rs: seq<Record>)
  {
    forall k :: 0 <= k < |rs| ==>
      rs[k].role == PublishOrder[k % 5] && rs[k].qos == PublishQoS && rs[k].retained
  }

  /** Appending one block's records after a whole number of blocks keeps
      the cycle. */
  lemma InPublishOrderAppend(prev: seq<Record>, block: seq<Record>)
    requires InPublishOrder(prev) && |prev| % 5 == 0
    requires |block| <= |PublishOrder|
    requires forall k :: 0 <= k < |block| ==>
               block[k].role == PublishOrder[k] && block[k].qos == PublishQoS && block[k].retained
    ensures InPublishOrder(prev + block)
  {
    var rs := prev + block;
    forall k | |prev| <= k < |rs|
      ensures rs[k].role == PublishOrder[k % 5]
    {
      assert k % 5 == k - |prev| by {
        assert k == 5 * (|prev| / 5) + (k - |prev|);
      }
    }
  }

  /** Across all blocks the publications cycle through the publish order,
      and every one of them is retained at QoS 0. */
  lemma {:induction false} EmitAllOrder(topics: TopicsConfig, sensor: SensorConfig, rssi: int,
                                        blocks: seq<ServiceData>, clock: nat -> int)
    ensures InPublishOrder(EmitAll(topics, sensor, rssi, blocks, clock))
    decreases |blocks|
  {
    if |blocks| > 0 {
      var last := |blocks| - 1;
      EmitAllOrder(topics, sensor, rssi, blocks[..last], clock);
      var prev := EmitAll(topics, sensor, rssi, blocks[..last], clock);
      var block := EmitBlock(topics, sensor, rssi, blocks[last].data, clock(last));
      InPublishOrderAppend(prev, block);
    }
  }

  /** Everything the handler attempts to publish for `adv`: nothing for an
      unregistered address, `EmitAll` for the resolved sensor otherwise. */
  function Publications(registry: SensorMap, topics: TopicsConfig, adv: Advertisement, clock: nat -> int): (rs: seq<Record>)
  {
    match Resolve(registry, adv.address)
    case None => []
    case Some(sensor) => EmitAll(topics, sensor, adv.rssi, adv.serviceData, clock)
  }

  /** `attempts` are the records, attempted in order, the k-th of them as
      attempt number `first + k` with the broker's answer to it. */
  predicate AttemptedFrom(attempts: seq<Attempt>, records: seq<Record>, publish: nat -> bool, first: nat)
  {
    && |attempts| == |records|
    && forall k :: 0 <= k < |records| ==> attempts[k] == Attempt(records[k], publish(first + k))
  }

  lemma AttemptedAppend(a1: seq<Attempt>, r1: seq<Record>, a2: seq<Attempt>, r2: seq<Record>,
                        publish: nat -> bool)
    requires AttemptedFrom(a1, r1, publish, 0)
    requires AttemptedFrom(a2, r2, publish, |r1|)
    ensures AttemptedFrom(a1 + a2, r1 + r2, publish, 0)
  {
    forall k | 0 <= k < |r1 + r2|
      ensures (a1 + a2)[k] == Attempt((r1 + r2)[k], publish(k))
    {
      if k >= |r1| {
        assert (a1 + a2)[k] == a2[k - |r1|];
      }
    }
  }

  /** The handler. Each record is published in order; the outcome of one
      attempt never affects whether the next is made, so the attempted
      records do not depend on the broker at all, and their number is five
      per qualifying block of a registered sensor and zero otherwise. */
  method Handle(registry: SensorMap, topics: TopicsConfig, adv: Advertisement,
                clock: nat -> int, publish: nat -> bool) returns (attempts: seq<Attempt>)
    ensures |attempts| == |Publications(registry, topics, adv, clock)|
    ensures forall k :: 0 <= k < |attempts| ==>
              attempts[k] == Attempt(Publications(registry, topics, adv, clock)[k], publish(k))
    ensures Resolve(registry, adv.address).None? ==> attempts == []
    ensures Resolve(registry, adv.address).Some? ==> |attempts| == 5 * Qualifying(adv.serviceData)
  {
    attempts := [];
    var found := Resolve(registry, adv.address);
    if found.None? {
      return;
    }
    var sensor := found.value;
    var blocks := adv.serviceData;
    var i := 0;
    while i < |blocks|
      invariant 0 <= i <= |blocks|
      invariant AttemptedFrom(attempts, EmitAll(topics, sensor, adv.rssi, blocks[..i], clock), publish, 0)
    {
      ghost var done := EmitAll(topics, sensor, adv.rssi, blocks[..i], clock);
      var records := EmitBlock(topics, sensor, adv.rssi, blocks[i].data, clock(i));
      var outcomes := PublishEach(records, publish, |attempts|);
      AttemptedAppend(attempts, done, outcomes, records, publish);
      attempts := attempts + outcomes;
      EmitAllSnoc(topics, sensor, adv.rssi, blocks, clock, i);
      i := i + 1;
    }
    assert blocks[..i] == blocks;
    assert Publications(registry, topics, adv, clock) == EmitAll(topics, sensor, adv.rssi, blocks, clock);
  }

  /** Attempts every record in order, the k-th of them as attempt number
      `first + k`. A failed publish is logged and the next one is attempted
      regardless, so every record is attempted exactly once. */
  method PublishEach(records: seq<Record>, publish: nat -> bool, first: nat) returns (attempts: seq<Attempt>)
    ensures AttemptedFrom(attempts, records, publish, first)
  {
    attempts := [];
    var j := 0;
    while j < |records|
      invariant 0 <= j <= |records|
      invariant AttemptedFrom(attempts, records[..j], publish, first)
    {
      var delivered := publish(first + j);
      attempts := attempts + [Attempt(records[j], delivered)];
      j := j + 1;
    }
    assert records[..j] == records;
  }

  /** Extending the handled blocks by one appends that block's publications. */
  lemma EmitAllSnoc(topics: TopicsConfig, sensor: SensorConfig, rssi: int,
                    blocks: seq<ServiceData>, clock: nat -> int, i: nat)
    requires i < |blocks|
    ensures EmitAll(topics, sensor, rssi, blocks[..i + 1], clock)
            == EmitAll(topics, sensor, rssi, blocks[..i], clock) + EmitBlock(topics, sensor, rssi, blocks[i].data, clock(i))
  {
    assert blocks[..i + 1][..i] == blocks[..i];
  }

  /** The publications of the first `n` blocks come first, in the same order. */
  lemma {:induction false} EmitAllPrefix(topics: TopicsConfig, sensor: SensorConfig, rssi: int,
                                         blocks: seq<ServiceData>, clock: nat -> int, n: nat)
    requires n <= |blocks|
    ensures var pre := EmitAll(topics, sensor, rssi, blocks[..n], clock);
            var all := EmitAll(topics, sensor, rssi, blocks, clock);
            |pre| <= |all| && all[..|pre|] == pre
    decreases |blocks| - n
  {
    if n < |blocks| {
      EmitAllPrefix(topics, sensor, rssi, blocks, clock, n + 1);
      EmitAllSnoc(topics, sensor, rssi, blocks, clock, n);
      var pre := EmitAll(topics, sensor, rssi, blocks[..n], clock);
      var next := EmitAll(topics, sensor, rssi, blocks[..n + 1], clock);
      var all := EmitAll(topics, sensor, rssi, blocks, clock);
      assert all[..|next|] == next;
      assert next[..|pre|] == pre;
      assert all[..|pre|] == next[..|pre|];
    } else {
      assert blocks[..n] == blocks;
    }
  }

  /** Each qualifying block contributes its own five publications, decoded
      with the clock reading taken at that block, at the position given by
      the number of qualifying blocks before it. */
  lemma BlockPlacement(topics: TopicsConfig, sensor: SensorConfig, rssi: int,
                       blocks: seq<ServiceData>, clock: nat -> int, i: nat)
    requires i < |blocks| && |blocks[i].data| >= MinBlockLength
    ensures var at := 5 * Qualifying(blocks[..i]);
            var all := EmitAll(topics, sensor, rssi, blocks, clock);
            at + 5 <= |all| &&
            all[at..at + 5] == BlockRecords(topics, sensor, rssi, Decode(blocks[i].data, clock(i)).value)
  {
    EmitAllSlice(topics, sensor, rssi, blocks, clock, i);
    EmitDecodedBlock(topics, sensor, rssi, blocks[i].data, clock(i));
  }

  /** The records of block i follow those of the blocks before it. */
  lemma EmitAllSlice(topics: TopicsConfig, sensor: SensorConfig, rssi: int,
                     blocks: seq<ServiceData>, clock: nat -> int, i: nat)
    requires i < |blocks|
    ensures var pre := EmitAll(topics, sensor, rssi, blocks[..i], clock);
            var block := EmitBlock(topics, sensor, rssi, blocks[i].data, clock(i));
            var all := EmitAll(topics, sensor, rssi, blocks, clock);
            |pre| + |block| <= |all| && all[|pre|..|pre| + |block|] == block
  {
    var pre := EmitAll(topics, sensor, rssi, blocks[..i], clock);
    var block := EmitBlock(topics, sensor, rssi, blocks[i].data, clock(i));
    EmitAllSnoc(topics, sensor, rssi, blocks, clock, i);
    EmitAllPrefix(topics, sensor, rssi, blocks, clock, i + 1);
    SliceOfPrefix(EmitAll(topics, sensor, rssi, blocks, clock), pre, block);
  }

  /** A block long enough to decode yields the records of its reading. */
  lemma EmitDecodedBlock(topics: TopicsConfig, sensor: SensorConfig, rssi: int, data: seq<Byte>, now: int)
    requires |data| >= MinBlockLength
    ensures Decode(data, now).Some?
    ensures EmitBlock(topics, sensor, rssi, data, now) == BlockRecords(topics, sensor, rssi, Decode(data, now).value)
  {
  }

  lemma SliceOfPrefix<T>(all: seq<T>, pre: seq<T>, block: seq<T>)
    requires |pre + block| <= |all| && all[..|pre + block|] == pre + block
    ensures all[|pre|..|pre| + |block|] == block
  {
    assert all[|pre|..|pre| + |block|] == all[..|pre + block|][|pre|..];
  }

  /** The outcome of the publishes does not change what is attempted: with
      any two brokers the same records are attempted in the same order. */
  method FailureIsolation(registry: SensorMap, topics: TopicsConfig, adv: Advertisement,
                          clock: nat -> int, publish1: nat -> bool, publish2: nat -> bool)
    returns (attempts1: seq<Attempt>, attempts2: seq<Attempt>)
    ensures |attempts1| == |attempts2|
    ensures forall k :: 0 <= k < |attempts1| ==> attempts1[k].record == attempts2[k].record
  {
    attempts1 := Handle(registry, topics, adv, clock, publish1);
    attempts2 := Handle(registry, topics, adv, clock, publish2);
  }

  /** The end-to-end example: the registered sensor `livingroom` with MAC
      `AA:BB:CC:DD:EE:FF` broadcasts one block holding raw temperature 2150,
      raw humidity 4530 and battery 87, read at Unix time 1700000090; the
      advertiser's address is reported in lower case. Five retained records
      are attempted, the first being the temperature state
      `{timestamp: 1700000040, label: "Livingroom", value: 21.5, battery: 87}`.
      The sensor and advertisement arrive as parameters fixed by `requires`, so
      the verifier does not unfold the whole pipeline on literals eagerly; the
      registry lookup and the label are proved in helper lemmas. */
  lemma LivingroomScenario(topics: TopicsConfig, sensor: SensorConfig, adv: Advertisement,
                           mac: seq<Byte>, voltage: Uint16, counter: Byte, flags: Byte, uuid: string,
                           clock: nat -> int)
    requires sensor == SensorConfig("livingroom", "AA:BB:CC:DD:EE:FF")
    requires |mac| == 6
    requires adv == Advertisement("aa:bb:cc:dd:ee:ff", adv.rssi,
                                  [ServiceData(uuid, Frame(mac, 2150, 4530, voltage, 87, counter, flags))])
    requires clock(0) == 1700000090
    ensures var rs := Publications(Build([sensor]), topics, adv, clock);
            && |rs| == 5
            && rs[0].payload == StatePayload(1700000040, "Livingroom", 21.5, 87, adv.rssi)
            && rs[1].payload == StatePayload(1700000040, "Livingroom", 45.3, 87, adv.rssi)
            && forall k :: 0 <= k < |rs| ==> rs[k].retained && rs[k].role == PublishOrder[k]
  {
    LivingroomResolves(sensor, adv.address);
    var block := adv.serviceData[0];
    DecodeFrame(mac, 2150, 4530, voltage, 87, counter, flags, clock(0));
    QuantizeExample();
    var reading := Reading(2150, 4530, 87, 1700000040);
    assert Decode(block.data, clock(0)) == Some(reading);
    assert adv.serviceData[..0] == [];
    assert EmitAll(topics, sensor, adv.rssi, adv.serviceData, clock) == BlockRecords(topics, sensor, adv.rssi, reading);
    StateRecords(topics, sensor, adv.rssi, reading);
    Text.TitleExample(sensor.name);
    assert Centi(2150) == 21.5 && Centi(4530) == 45.3;
  }

  /** The registry built from the one `livingroom` sensor resolves the
      lower-case spelling of its address to it. */
  lemma LivingroomResolves(sensor: SensorConfig, address: string)
    requires sensor == SensorConfig("livingroom", "AA:BB:CC:DD:EE:FF")
    requires address == "aa:bb:cc:dd:ee:ff"
    ensures Resolve(Build([sensor]), address) == Some(sensor)
  {
    assert Key(sensor.macAddress) == address;
    assert Key(address) == address;
    assert Build([sensor]) == map[address := sensor] by {
      assert [sensor][..0] == [];
    }
  }
}
