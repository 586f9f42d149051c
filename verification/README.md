# ble2mqtt advertisement handler, modelled in Dafny

ble2mqtt listens passively for Bluetooth LE advertisements from Xiaomi
LYWSD03MMC thermometers running the custom firmware that broadcasts readings
in service data. For every advertisement from a configured sensor it publishes
the temperature and humidity to an MQTT broker. It also publishes Home
Assistant discovery records for the temperature, humidity and battery
entities. This project models the advertisement handler as a pure pipeline:

- **registry** (`Registry`): the configured sensors keyed by lower-cased MAC
  address. The lookup of an advertiser's address ignores case. When two
  configured MACs differ only in case, the later sensor wins.
- **frame decoder** (`Decoder`): a block shorter than 15 bytes is skipped.
  Otherwise the decoder reads:
  - the unsigned little-endian words at offsets 6 and 8 (hundredths of a
    degree and of a percent);
  - the battery byte at offset 12.
- **timestamp quantisation** (`Decoder.Quantize`): Go's `t - t % 60`. Go's `%`
  truncates, and the model states that explicitly.
- **topic rendering** (`Topics`):
  - state topics substitute `${name}` first and then `${sensor}` in the
    result;
  - discovery topics have the form
    `<root>/sensor/<MAC without colons>/<name>_<kind>/config`.
- **publish sequence** (`Handler`): each qualifying block yields five records
  in a fixed order, all retained at QoS 0. Every record is attempted. A
  failed attempt is recorded and the remaining ones still run.
- **scan loop** (`ScanLoop`): consecutive one-minute sessions. A deadline is
  normal; any other scan error ends the process.

Three things outside the program are parameters of the model:

- the broker is `publish: nat -> bool`, the answer to the k-th publish
  attempt of one advertisement;
- the clock is `clock: nat -> int`, the Unix time read while handling the
  block at a given position (the source reads the clock once per
  qualifying block);
- the handler's output is the ordered list of attempts, each a record with
  its outcome. The record's `role` names the log line a failure would
  produce.

Behaviour of the code worth noting:

- Temperature and humidity are read as **unsigned** 16-bit values
  (`binary.LittleEndian.Uint16`), so a temperature below zero cannot be
  represented.
- `${name}` is substituted first, and `${sensor}` is then substituted in the
  result. A sensor name that itself contains `${sensor}` is therefore
  rewritten into the kind (`Topics.NameContainingSensorPlaceholder`).
- A session cancelled by a signal returns `context.Canceled`. That is not the
  deadline error, so the loop ends the process through `logrus.Fatal`, the
  same path as a device fault (`ScanLoop.CancelTerminates`).
- The temperature unit is written in the source as the three characters
  U+00C2 U+00B0 `C` (`Â°C`, a doubly encoded degree sign). The model keeps
  it as written (`Handler.TemperatureUnit`).

## Model

| member | source | states |
|---|---|---|
| Registry.Build | cmd/ble2mqtt/ble2mqtt.go:55-58 | the registry's keys are exactly the lower-cased configured MACs, and each key holds the last configured sensor with that key |
| Registry.LaterSensorWins | cmd/ble2mqtt/ble2mqtt.go:55-58 | two sensors whose MACs differ only in case leave one entry, holding the later sensor |
| Registry.Resolve | cmd/ble2mqtt/ble2mqtt.go:64-67 | the sensor stored under the lower-cased address, or none, in which case the advertisement is ignored (definition; its properties are the rows below) |
| Registry.ResolveBuilt | cmd/ble2mqtt/ble2mqtt.go:64-67 | an address resolves iff some configured MAC equals it up to ASCII case, and then to the last such sensor |
| Registry.ResolveIgnoresCase | cmd/ble2mqtt/ble2mqtt.go:64 | addresses with the same lower-cased form resolve alike; an address and its lower-cased form resolve alike |
| Registry.BuiltKeysMatch | cmd/ble2mqtt/ble2mqtt.go:57 | every stored sensor sits under the lower-cased form of its own MAC |
| Registry.ResolveExample | cmd/ble2mqtt/ble2mqtt.go:64 | `AA:BB:CC:DD:EE:FF` and `aa:bb:cc:dd:ee:ff` resolve to the same sensor |
| Text.ToLower | cmd/ble2mqtt/ble2mqtt.go:57 | the string of the same length with every ASCII upper-case letter lowered and every other character kept; used for the registry keys (:57) and the lookup (:64) |
| Text.ToLowerIdempotent | cmd/ble2mqtt/ble2mqtt.go:64 | a lower-cased address has no upper-case letter and is its own key |
| Decoder.Uint16LE | cmd/ble2mqtt/ble2mqtt.go:79-80 | the unsigned 16-bit little-endian word at an offset: low byte plus 256 × high byte (definition; its inverse is the next row) |
| Decoder.EncodeUint16LE | cmd/ble2mqtt/ble2mqtt.go:79-80 | reading back the two encoded bytes little-endian gives the value |
| Decoder.EncodeDecodeUint16 | cmd/ble2mqtt/ble2mqtt.go:79-80 | re-encoding two bytes read as a little-endian word gives the same bytes |
| Decoder.Centi | cmd/ble2mqtt/ble2mqtt.go:79-80 | a scaled reading lies in [0, 655.35] and times 100 is the raw value exactly |
| Decoder.GoRem60 | cmd/ble2mqtt/ble2mqtt.go:83 | Go's truncating `t % 60`: remainder in (-60, 60) with the sign of t, and t minus it is a multiple of 60 |
| Decoder.Quantize | cmd/ble2mqtt/ble2mqtt.go:82-83 | the quantised time is a multiple of 60; for t >= 0 it is <= t and within 60 below it; for t < 0 it rounds toward zero |
| Decoder.QuantizeIsMinuteFloor | cmd/ble2mqtt/ble2mqtt.go:82-83 | for t >= 0 it equals (t / 60) * 60 and is the only multiple of 60 in t's minute |
| Decoder.QuantizeIdempotent | cmd/ble2mqtt/ble2mqtt.go:82-83 | quantising twice is quantising once |
| Decoder.QuantizeExample | cmd/ble2mqtt/ble2mqtt.go:82-83 | 1700000090 quantises to 1700000040 |
| Decoder.Decode | cmd/ble2mqtt/ble2mqtt.go:69-83 | no reading iff the block has fewer than 15 bytes; otherwise d[6]+256*d[7], d[8]+256*d[9], d[12], and the timestamp `Quantize(now)`, a multiple of 60 within the minute of `now` when `now` >= 0 |
| Decoder.DecodeFrame | cmd/ble2mqtt/ble2mqtt.go:71-81 | decoding a block built from field values returns those values |
| Decoder.FrameOfDecode | cmd/ble2mqtt/ble2mqtt.go:71-81 | every 15-byte block is the frame of its decoded fields and its uninterpreted bytes |
| Decoder.DecodeReadsOnlyFields | cmd/ble2mqtt/ble2mqtt.go:70-81 | blocks agreeing on length class, bytes 6-9 and byte 12 decode alike |
| Text.ReplaceAll | cmd/ble2mqtt/ble2mqtt.go:92 | leftmost non-overlapping occurrences of a non-empty pattern replaced, the scan resuming after each replacement; also used at :94, :106 and :118 (definition; its properties are the rows below) |
| Text.ReplaceAllNoOccurrence | cmd/ble2mqtt/ble2mqtt.go:92-94 | `ReplaceAll` leaves a string without the pattern unchanged |
| Topics.StateTopic | cmd/ble2mqtt/ble2mqtt.go:92-94 | every `${name}` replaced by the sensor name, then every `${sensor}` in the result by the kind (also :106) (definition; its properties are the rows below) |
| Topics.StateTopicWithoutPlaceholders | cmd/ble2mqtt/ble2mqtt.go:92-94 | a template with neither placeholder is the topic itself |
| Topics.StateTopicShape | cmd/ble2mqtt/ble2mqtt.go:92-94 | for literal segments and a name without `$`, `a${name}b${sensor}c` renders as `a` + name + `b` + kind + `c` |
| Topics.StateTopicExample | cmd/ble2mqtt/ble2mqtt.go:92-94 | `home/${name}/${sensor}` with `kitchen` and temperature gives `home/kitchen/temperature` |
| Topics.NameContainingSensorPlaceholder | cmd/ble2mqtt/ble2mqtt.go:92-94 | substitution is sequential: a name reading `${sensor}` is itself replaced by the kind |
| Text.ReplaceAllDeletesChar | cmd/ble2mqtt/ble2mqtt.go:118 | replacing `:` by the empty string deletes every `:` and keeps the other characters in order |
| Topics.MacSegment | cmd/ble2mqtt/ble2mqtt.go:118 | the MAC segment of a discovery topic contains no `:` and is the MAC with its colons deleted |
| Topics.DiscoveryTopic | cmd/ble2mqtt/ble2mqtt.go:118-152 | `<root>/sensor/<MAC without colons>/<name>_<kind>/config` (definition; the next rows state it) |
| Topics.DiscoveryTopicFormat | cmd/ble2mqtt/ble2mqtt.go:118-152 | the discovery topic equals the root, `/sensor/`, the MAC with every `:` deleted (`Strip`), then `/<name>_<kind>/config` |
| Topics.DiscoveryTopicsShareBase | cmd/ble2mqtt/ble2mqtt.go:118-126 | each discovery topic starts with `<root>/sensor/<MAC without colons>/` |
| Topics.DiscoveryTopicsDistinct | cmd/ble2mqtt/ble2mqtt.go:126-152 | the temperature, humidity and battery discovery topics of one device are pairwise different |
| Text.Title | cmd/ble2mqtt/ble2mqtt.go:97 | the label has the name's length; its first character is upper-cased, a character right after an ASCII separator is upper-cased, and every other character is kept (also :109) |
| Text.TitleOnlyChangesWordStarts | cmd/ble2mqtt/ble2mqtt.go:97 | the label equals the name up to case; its first letter and every letter after a separator are upper-cased, and nothing else changes |
| Text.TitleIdempotent | cmd/ble2mqtt/ble2mqtt.go:97 | applying `Title` twice is applying it once |
| Text.TitleOfWord | cmd/ble2mqtt/ble2mqtt.go:97 | a lower-case word is capitalised on its first letter only |
| Text.TitleExample | cmd/ble2mqtt/ble2mqtt.go:109 | the label of `livingroom` is `Livingroom` |
| Handler.BlockRecords | cmd/ble2mqtt/ble2mqtt.go:92-164 | five records in the order temperature state, humidity state, temperature, humidity and battery discovery, each retained at QoS 0 |
| Handler.StateRecords | cmd/ble2mqtt/ble2mqtt.go:92-113 | the state records go to the two state topics; their payloads agree on timestamp, title-cased label, battery and signal and differ only in the value, which is the raw reading in hundredths |
| Handler.DiscoveryRecords | cmd/ble2mqtt/ble2mqtt.go:118-161 | the three discovery records share the device description, go to their entity's discovery topic and point at the matching state topic (the battery entity at the temperature topic); only the battery entity has a device class |
| Handler.DiscoveryNames | cmd/ble2mqtt/ble2mqtt.go:119-156 | every discovery payload carries the device `LYWSD03MMC <name>` identified by the configured MAC, from Xiaomi, model LYWSD03MMC; the temperature, humidity and battery entities are named `<name> - <kind>` with unique id `<name>_<kind>` |
| Handler.DiscoveryFields | cmd/ble2mqtt/ble2mqtt.go:127-161 | temperature and humidity read `{{ value_json.value }}` in `Â°C` and `%` with no device class; battery reads `{{ value_json.battery }}` in `%` with device class `battery` |
| Handler.EmitBlock | cmd/ble2mqtt/ble2mqtt.go:69-70 | a short block yields no record; a qualifying block yields five, in publish order |
| Handler.Qualifying | cmd/ble2mqtt/ble2mqtt.go:69-70 | the count of qualifying blocks is at most the block count, and zero iff every block is shorter than 15 bytes |
| Handler.EmitAll | cmd/ble2mqtt/ble2mqtt.go:69-165 | an advertisement from a known sensor yields 5 × (number of qualifying blocks) records |
| Handler.EmitAllOrder | cmd/ble2mqtt/ble2mqtt.go:102-164 | across all blocks, record k has role number k mod 5 of the publish order and is retained at QoS 0 |
| Handler.BlockPlacement | cmd/ble2mqtt/ble2mqtt.go:69-164 | the records of qualifying block i sit at 5 × (qualifying blocks before i) and are that block's five records, decoded at the clock reading for block i |
| Handler.PublishEach | cmd/ble2mqtt/ble2mqtt.go:102-164 | every record is attempted once, in order, whatever the earlier outcomes |
| Handler.Publications | cmd/ble2mqtt/ble2mqtt.go:63-165 | the records the handler attempts for one advertisement: none for an unregistered address, otherwise the records of every qualifying block in block order (definition; `Handle` is stated against it) |
| Handler.Handle | cmd/ble2mqtt/ble2mqtt.go:63-166 | attempt k is the k-th record paired with the broker's k-th answer; an unknown address gives no attempt; a known one gives 5 × (qualifying blocks) |
| Handler.FailureIsolation | cmd/ble2mqtt/ble2mqtt.go:102-164 | two different broker behaviours lead to the same records attempted in the same order |
| Handler.LivingroomScenario | cmd/ble2mqtt/ble2mqtt.go:63-164 | sensor `livingroom`, raw 2150/4530, battery 87 at time 1700000090 gives five retained records; the state payloads are {1700000040, `Livingroom`, 21.5 / 45.3, 87, rssi} |
| ScanLoop.SessionResult | bluetooth.go:38-43 | a scan ends without error iff the device reported no error or the deadline; otherwise its error is passed on |
| ScanLoop.Run | cmd/ble2mqtt/ble2mqtt.go:60-170 | the loop keeps scanning while every session ends normally; it terminates at the first session with an error, which is never the deadline |
| ScanLoop.RunStopsAtFirstError | cmd/ble2mqtt/ble2mqtt.go:167-169 | sessions after the fatal one do not change the outcome |
| ScanLoop.CancelTerminates | cmd/ble2mqtt/ble2mqtt.go:61-169 | a signal-cancelled session after deadline-ended ones terminates the loop at that session |

## Left out

- Process start-up, environment and log set-up, configuration loading
  (`loadConfig`), and connecting to Bluetooth and MQTT. These are I/O
  wrappers with no logic of their own.
- JSON marshalling and the broker client. `Publish` is the oracle `publish`.
  A marshalling error is one more way for an attempt to fail.
- Logging. A failed attempt is recorded as `delivered == false` in its
  `Attempt`; the record's `role` identifies the log message.
- `time.Now()` is the `clock` parameter. The one-minute session timeout and
  signal handling are reduced to the session outcomes given to
  `ScanLoop.Run`.
- The advertisements inside one scan session are not sequenced in the model.
  The handler keeps no state between calls, so each call is `Handler.Handle`
  on its own.
- Decoder.Centi: the value is the exact rational raw/100. The source's
  `float64` division can differ in the last bit.
- Text.ToLower: only ASCII letters are case-mapped. Go's `strings.ToLower`
  also maps non-ASCII letters; MAC addresses are ASCII.
- Text.ToLowerIdempotent: same ASCII restriction as `Text.ToLower`.
- Text.Title: modelled on ASCII. A non-ASCII character is treated as a letter
  and never changed. Go also treats Unicode spaces as separators and
  title-cases non-ASCII letters.
- Text.TitleOnlyChangesWordStarts: same ASCII restriction as `Text.Title`.
- Text.ReplaceAllNoOccurrence: `ReplaceAll` is modelled for non-empty
  patterns only. Every call in the handler uses a fixed non-empty pattern.
- Registry.Build: the configured sensor list is `[]*sensorConfig`
  (cmd/ble2mqtt/config.go:35), so a `null` entry in the configuration becomes
  a nil pointer, and reading its MAC address while the registry is built
  crashes the program. The model's list holds sensor values and has no such
  entry.
- Strings are sequences of characters, not UTF-8 bytes. Nothing in the
  handler depends on the difference.
- Bluetooth device acquisition and the HCI scan parameters (`InitBluetooth`).
  This is hardware I/O.
