/** The sensor registry: the configured sensors indexed by their lower-cased
    MAC address, and the case-insensitive lookup of an advertiser's address
    (cmd/ble2mqtt/ble2mqtt.go, lines 55-58 and 64-67). */
module Registry {
  import opened Options
  import Text

  /** One configured device (`sensorConfig`): its topic and label slug and its
      MAC address as written in the configuration. */
  datatype SensorConfig = SensorConfig(name: string, macAddress: string)

  type SensorMap = map<string, SensorConfig>

  /** The registry key of an address: its lower-cased form. */
  function Key(address: string): (key: string)
  {
    Text.ToLower(address)
  }

  /** No later sensor in the list has the same key as `sensors[i]`. */
  predicate LastWithKey(sensors: seq<SensorConfig>, i: nat)
    requires i < |sensors|
  {
    forall j :: i < j < |sensors| ==> Key(sensors[j].macAddress) != Key(sensors[i].macAddress)
  }

  /** The registry built by assigning every configured sensor, in order,
      under its lower-cased MAC address. Its keys are exactly the keys of
      the configured sensors, and when two sensors share a key the later
      one in the list is the one stored. */
  function Build(sensors: seq<SensorConfig>): (m: SensorMap)
    ensures m.Keys == set i | 0 <= i < |sensors| :: Key(sensors[i].macAddress)
    ensures forall i :: 0 <= i < |sensors| && LastWithKey(sensors, i) ==>
              m[Key(sensors[i].macAddress)] == sensors[i]
    decreases |sensors|
  {
    if |sensors| == 0 then map[]
    else
      var prev := Build(sensors[..|sensors| - 1]);
      BuildStep(sensors, prev);
      prev[Key(sensors[|sensors| - 1].macAddress) := sensors[|sensors| - 1]]
  }

  /** Storing the last sensor over a registry built from all the others
      yields the registry of the whole list. */
  lemma BuildStep(sensors: seq<SensorConfig>, prev: SensorMap)
    requires |sensors| > 0
    requires var init := sensors[..|sensors| - 1];
             && prev.Keys == (set i | 0 <= i < |init| :: Key(init[i].macAddress))
             && forall i :: 0 <= i < |init| && LastWithKey(init, i) ==> prev[Key(init[i].macAddress)] == init[i]
    ensures var last := sensors[|sensors| - 1];
            var m := prev[Key(last.macAddress) := last];
            && m.Keys == (set i | 0 <= i < |sensors| :: Key(sensors[i].macAddress))
            && forall i :: 0 <= i < |sensors| && LastWithKey(sensors, i) ==> m[Key(sensors[i].macAddress)] == sensors[i]
  {
    BuildKeysStep(sensors, prev);
    var last := sensors[|sensors| - 1];
    var m := prev[Key(last.macAddress) := last];
    forall i | 0 <= i < |sensors| && LastWithKey(sensors, i)
      ensures m[Key(sensors[i].macAddress)] == sensors[i]
    {
      BuildValueStep(sensors, prev, i);
    }
  }

  /** The entry of one sensor that is last with its key, after the final
      sensor is stored. */
  lemma BuildValueStep(sensors: seq<SensorConfig>, prev: SensorMap, i: nat)
    requires i < |sensors| && LastWithKey(sensors, i)
    requires var init := sensors[..|sensors| - 1];
             && prev.Keys == (set i | 0 <= i < |init| :: Key(init[i].macAddress))
             && forall i :: 0 <= i < |init| && LastWithKey(init, i) ==> prev[Key(init[i].macAddress)] == init[i]
    ensures var last := sensors[|sensors| - 1];
            var m := prev[Key(last.macAddress) := last];
            Key(sensors[i].macAddress) in m && m[Key(sensors[i].macAddress)] == sensors[i]
  {
    if i < |sensors| - 1 {
      LastWithKeyInit(sensors, i);
      var init := sensors[..|sensors| - 1];
      assert Key(init[i].macAddress) in prev;
    }
  }

  /** A sensor that is last with its key in the whole list is also last with
      it among all but the final sensor, whose key it does not share. */
  lemma LastWithKeyInit(sensors: seq<SensorConfig>, i: nat)
    requires i < |sensors| - 1 && LastWithKey(sensors, i)
    ensures var init := sensors[..|sensors| - 1];
            && init[i] == sensors[i]
            && LastWithKey(init, i)
            && Key(sensors[|sensors| - 1].macAddress) != Key(sensors[i].macAddress)
  {
    var init := sensors[..|sensors| - 1];
    forall j | i < j < |init|
      ensures Key(init[j].macAddress) != Key(init[i].macAddress)
    {
      assert init[j] == sensors[j];
    }
  }

  lemma BuildKeysStep(sensors: seq<SensorConfig>, prev: SensorMap)
    requires |sensors| > 0
    requires var init := sensors[..|sensors| - 1];
             prev.Keys == (set i | 0 <= i < |init| :: Key(init[i].macAddress))
    ensures var last := sensors[|sensors| - 1];
            prev[Key(last.macAddress) := last].Keys
            == (set i | 0 <= i < |sensors| :: Key(sensors[i].macAddress))
  {
    var last := sensors[|sensors| - 1];
    var keys := prev.Keys;
    assert prev[Key(last.macAddress) := last].Keys == keys + {Key(last.macAddress)};
    var init := sensors[..|sensors| - 1];
    var all := set i | 0 <= i < |sensors| :: Key(sensors[i].macAddress);
    forall k | k in keys
      ensures k in all
    {
      var i :| 0 <= i < |init| && Key(init[i].macAddress) == k;
      assert init[i] == sensors[i];
    }
    forall k | k in all
      ensures k in keys + {Key(sensors[|sensors| - 1].macAddress)}
    {
      var i :| 0 <= i < |sensors| && Key(sensors[i].macAddress) == k;
      if i < |init| {
        assert init[i] == sensors[i];
      }
    }
  }

  /** Two configured sensors whose MACs differ only in case share one
      registry entry, and the later one is kept. */
  lemma LaterSensorWins(first: SensorConfig, second: SensorConfig)
    requires Key(first.macAddress) == Key(second.macAddress)
    ensures Build([first, second]) == map[Key(second.macAddress) := second]
  {
    var m := Build([first, second]);
    assert LastWithKey([first, second], 1);
    assert m.Keys == {Key(second.macAddress)};
  }

  /** The sensor an advertiser's address resolves to, if any. */
  function Resolve(registry: SensorMap, address: string): (r: Option<SensorConfig>)
  {
    var key := Key(address);
    if key in registry then Some(registry[key]) else None
  }

  /** Lookup in a built registry: an address resolves exactly when some
      configured MAC equals it up to ASCII case; it then resolves to the
      last such sensor in the configuration. */
  lemma ResolveBuilt(sensors: seq<SensorConfig>, address: string)
    ensures Resolve(Build(sensors), address).Some? <==>
              exists i :: 0 <= i < |sensors| && Key(sensors[i].macAddress) == Key(address)
    ensures forall i :: 0 <= i < |sensors| && Key(sensors[i].macAddress) == Key(address) && LastWithKey(sensors, i) ==>
              Resolve(Build(sensors), address) == Some(sensors[i])
  {
  }

  /** Lookup ignores case: an address and its lower-cased form resolve to
      the same sensor, and so do any two addresses with the same key. */
  lemma ResolveIgnoresCase(registry: SensorMap, a: string, b: string)
    requires Key(a) == Key(b)
    ensures Resolve(registry, a) == Resolve(registry, b)
    ensures Resolve(registry, a) == Resolve(registry, Text.ToLower(a))
  {
    Text.ToLowerIdempotent(a);
  }

  /** Every sensor the registry holds is stored under the key of its own
      configured address, so a resolved sensor's MAC matches the looked-up
      address up to case. */
  lemma {:induction false} BuiltKeysMatch(sensors: seq<SensorConfig>)
    ensures forall k :: k in Build(sensors) ==> Key(Build(sensors)[k].macAddress) == k
    decreases |sensors|
  {
    if |sensors| > 0 {
      BuiltKeysMatch(sensors[..|sensors| - 1]);
    }
  }

  /** The registry lookup example: an upper-case and a lower-case spelling
      of the same MAC address resolve to the same sensor.
      The literals arrive as parameters fixed by `requires`, so the verifier
      does not unfold `ToLower` on them eagerly. */
  lemma ResolveExample(registry: SensorMap, upper: string, lower: string)
    requires upper == "AA:BB:CC:DD:EE:FF" && lower == "aa:bb:cc:dd:ee:ff"
    ensures Resolve(registry, upper) == Resolve(registry, lower)
  {
    assert Key(upper) == lower;
    assert Key(lower) == lower;
  }
}
