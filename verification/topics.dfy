/** Topic rendering: the state topics obtained from the configured
    `sensor_format` template, and the discovery topics under the configured
    home-assistant root (cmd/ble2mqtt/ble2mqtt.go, lines 92-94, 106, 118,
    126, 139 and 152; the configuration record is `topicsConfig` in
    cmd/ble2mqtt/config.go). */
module Topics {
  import Text
  import opened Registry

  /** `topicsConfig`: the state-topic template and the discovery root. */
  datatype TopicsConfig = TopicsConfig(sensorFormat: string, homeAssistant: string)

  /** The three entities published for one thermometer. */
  datatype Kind = Temperature | Humidity | Battery

  function KindName(k: Kind): (name: string)
  {
    match k
    case Temperature => "temperature"
    case Humidity => "humidity"
    case Battery => "battery"
  }

  const NamePlaceholder: string := "${name}"
  const SensorPlaceholder: string := "${sensor}"

  /** The state topic of one measurement: every `${name}` in the template is
      replaced by the sensor name first, and then every `${sensor}` in that
      result is replaced by the measurement kind. */
  function StateTopic(format: string, name: string, kind: Kind): (topic: string)
  {
    var named := Text.ReplaceAll(format, NamePlaceholder, name);
    Text.ReplaceAll(named, SensorPlaceholder, KindName(kind))
  }

  /** A template without placeholders is the topic itself. */
  lemma StateTopicWithoutPlaceholders(format: string, name: string, kind: Kind)
    requires !Text.Occurs(format, NamePlaceholder)
    requires !Text.Occurs(format, SensorPlaceholder)
    ensures StateTopic(format, name, kind) == format
  {
    Text.ReplaceAllNoOccurrence(format, NamePlaceholder, name);
    Text.ReplaceAllNoOccurrence(format, SensorPlaceholder, KindName(kind));
  }

  /** `${sensor}` does not contain `${name}` and is copied through the
      first substitution. */
  lemma SensorPlaceholderSurvivesNameSubstitution(rest: string, name: string)
    ensures Text.ReplaceAll(SensorPlaceholder + rest, NamePlaceholder, name)
            == SensorPlaceholder + Text.ReplaceAll(rest, NamePlaceholder, name)
  {
    var s := SensorPlaceholder + rest;
    assert s[..|NamePlaceholder|] != NamePlaceholder by {
      assert s[2] == 's' && NamePlaceholder[2] == 'n';
    }
    assert s[1..] == SensorPlaceholder[1..] + rest;
    Text.ReplaceAllCopiesPrefix(SensorPlaceholder[1..], rest, NamePlaceholder, name);
    assert [s[0]] + SensorPlaceholder[1..] == SensorPlaceholder;
  }

  /** First pass of `StateTopic` on a template with one `${name}` and one
      `${sensor}` between literal segments. */
  lemma NamePass(a: string, b: string, c: string, name: string)
    requires '$' !in a && '$' !in b && '$' !in c
    ensures Text.ReplaceAll(a + NamePlaceholder + b + SensorPlaceholder + c, NamePlaceholder, name)
            == a + name + b + SensorPlaceholder + c
  {
    var N, S := NamePlaceholder, SensorPlaceholder;
    calc {
      Text.ReplaceAll(a + N + b + S + c, N, name);
      { assert a + N + b + S + c == a + (N + (b + (S + c))); }
      Text.ReplaceAll(a + (N + (b + (S + c))), N, name);
      { Text.ReplaceAllCopiesPrefix(a, N + (b + (S + c)), N, name); }
      a + Text.ReplaceAll(N + (b + (S + c)), N, name);
      { Text.ReplaceAllLeadingMatch(b + (S + c), N, name); }
      a + (name + Text.ReplaceAll(b + (S + c), N, name));
      { Text.ReplaceAllCopiesPrefix(b, S + c, N, name); }
      a + (name + (b + Text.ReplaceAll(S + c, N, name)));
      { SensorPlaceholderSurvivesNameSubstitution(c, name); }
      a + (name + (b + (S + Text.ReplaceAll(c, N, name))));
      { Text.ReplaceAllWithoutFirstChar(c, N, name); }
      a + (name + (b + (S + c)));
      a + name + b + S + c;
    }
  }

  /** Second pass of `StateTopic`: the one remaining `${sensor}` becomes the
      kind. */
  lemma SensorPass(p: string, c: string, kind: Kind)
    requires '$' !in p && '$' !in c
    ensures Text.ReplaceAll(p + SensorPlaceholder + c, SensorPlaceholder, KindName(kind))
            == p + KindName(kind) + c
  {
    var S, k := SensorPlaceholder, KindName(kind);
    calc {
      Text.ReplaceAll(p + S + c, S, k);
      { assert p + S + c == p + (S + c); }
      Text.ReplaceAll(p + (S + c), S, k);
      { Text.ReplaceAllCopiesPrefix(p, S + c, S, k); }
      p + Text.ReplaceAll(S + c, S, k);
      { Text.ReplaceAllLeadingMatch(c, S, k); }
      p + (k + Text.ReplaceAll(c, S, k));
      { Text.ReplaceAllWithoutFirstChar(c, S, k); }
      p + (k + c);
      p + k + c;
    }
  }

  /** A template made of literal segments around one `${name}` and one
      `${sensor}`: each placeholder is replaced and the literal text is kept,
      provided neither the segments nor the name contain a `$`. */
  lemma StateTopicShape(a: string, b: string, c: string, name: string, kind: Kind)
    requires '$' !in a && '$' !in b && '$' !in c && '$' !in name
    ensures StateTopic(a + NamePlaceholder + b + SensorPlaceholder + c, name, kind)
            == a + name + b + KindName(kind) + c
  {
    NamePass(a, b, c, name);
    var p := a + name + b;
    assert '$' !in p;
    assert a + name + b + SensorPlaceholder + c == p + SensorPlaceholder + c;
    SensorPass(p, c, kind);
  }

  /** The documented example: `home/${name}/${sensor}` for the sensor
      `kitchen` gives `home/kitchen/temperature`.
      The literals arrive as parameters fixed by `requires`, so the verifier
      does not unfold the string functions on them eagerly; the literal
      facts themselves are proved in a small helper lemma. */
  lemma StateTopicExample(format: string, name: string)
    requires format == "home/${name}/${sensor}" && name == "kitchen"
    ensures StateTopic(format, name, Temperature) == "home/kitchen/temperature"
  {
    ExampleSegments();
    StateTopicShape("home/", "/", "", name, Temperature);
  }

  /** The literal pieces of the example template and topic, kept apart so
      that the concatenations are checked once, on their own. */
  lemma ExampleSegments()
    ensures '$' !in "home/" && '$' !in "/" && '$' !in "" && '$' !in "kitchen"
    ensures "home/" + NamePlaceholder + "/" + SensorPlaceholder + "" == "home/${name}/${sensor}"
    ensures "home/" + "kitchen" + "/" + KindName(Temperature) + "" == "home/kitchen/temperature"
  {
  }

  /** The two substitutions are applied in sequence, not simultaneously: a
      sensor name that itself reads `${sensor}` is rewritten into the kind. */
  lemma NameContainingSensorPlaceholder()
    ensures StateTopic(NamePlaceholder, SensorPlaceholder, Temperature) == "temperature"
  {
    Text.ReplaceAllLeadingMatch([], NamePlaceholder, SensorPlaceholder);
    assert NamePlaceholder + [] == NamePlaceholder;
    Text.ReplaceAllLeadingMatch([], SensorPlaceholder, "temperature");
    assert SensorPlaceholder + [] == SensorPlaceholder;
  }

  /** The MAC address as configured, with every `:` removed. */
  function MacSegment(mac: string): (seg: string)
    ensures ':' !in seg
    ensures seg == Text.Strip(mac, ':')
  {
    Text.ReplaceAllDeletesChar(mac, ':');
    Text.ReplaceAll(mac, ":", "")
  }

  /** The discovery prefix shared by all entities of one device. */
  function DiscoveryBase(root: string, mac: string): (base: string)
  {
    root + "/sensor/" + MacSegment(mac)
  }

  /** The discovery topic of one entity:
      `<root>/sensor/<mac without colons>/<name>_<kind>/config`. */
  function DiscoveryTopic(root: string, sensor: SensorConfig, kind: Kind): (topic: string)
  {
    DiscoveryBase(root, sensor.macAddress) + "/" + sensor.name + "_" + KindName(kind) + "/config"
  }

  /** All discovery topics of one device start with its discovery prefix and
      a `/`, and the MAC segment of that prefix holds no `:`. */
  lemma DiscoveryTopicsShareBase(root: string, sensor: SensorConfig, kind: Kind)
    ensures var base := DiscoveryBase(root, sensor.macAddress);
            var t := DiscoveryTopic(root, sensor, kind);
            |base| < |t| && t[..|base| + 1] == base + "/"
    ensures DiscoveryBase(root, sensor.macAddress) == root + "/sensor/" + MacSegment(sensor.macAddress)
    ensures ':' !in MacSegment(sensor.macAddress)
  {
    var base := DiscoveryBase(root, sensor.macAddress);
    var t := DiscoveryTopic(root, sensor, kind);
    assert t == (base + "/") + (sensor.name + "_" + KindName(kind) + "/config");
  }

  /** The whole discovery topic in terms of the configuration: the root,
      `/sensor/`, the MAC with every `:` deleted, then `/<name>_<kind>/config`. */
  lemma DiscoveryTopicFormat(root: string, sensor: SensorConfig, kind: Kind)
    ensures DiscoveryTopic(root, sensor, kind)
            == root + "/sensor/" + Text.Strip(sensor.macAddress, ':') + "/" + sensor.name + "_" + KindName(kind) + "/config"
  {
  }

  /** The three entities of one device get three different discovery
      topics: the topics agree up to the kind, whose first letters differ. */
  lemma DiscoveryTopicsDistinct(root: string, sensor: SensorConfig, k1: Kind, k2: Kind)
    requires k1 != k2
    ensures DiscoveryTopic(root, sensor, k1) != DiscoveryTopic(root, sensor, k2)
  {
    var p := DiscoveryBase(root, sensor.macAddress) + "/" + sensor.name + "_";
    assert DiscoveryTopic(root, sensor, k1) == p + KindName(k1) + "/config";
    assert DiscoveryTopic(root, sensor, k2) == p + KindName(k2) + "/config";
    assert (p + KindName(k1) + "/config")[|p|] == KindName(k1)[0];
    assert (p + KindName(k2) + "/config")[|p|] == KindName(k2)[0];
  }
}
