/** The frame decoder: the fixed positional layout of one service-data block
    broadcast by the thermometer, and the quantisation of the reading's
    timestamp to the minute (cmd/ble2mqtt/ble2mqtt.go, lines 69-83).

    Layout of a block (15 bytes or more; bytes 15 onward are ignored):
      0-5   MAC address echo         (not interpreted)
      6-7   temperature, centi-degrees, unsigned 16-bit little-endian
      8-9   humidity, centi-percent, unsigned 16-bit little-endian
      10-11 battery voltage          (not interpreted)
      12    battery level, percent
      13    broadcast counter        (not interpreted)
      14    flags                    (not interpreted) */
module Decoder {
  import opened Options

  type Byte = b: int | 0 <= b < 0x100
  type Uint16 = v: int | 0 <= v < 0x1_0000

  const MinBlockLength: nat := 15
  const TemperatureOffset: nat := 6
  const HumidityOffset: nat := 8
  const BatteryOffset: nat := 12

  /** A decoded block: the raw temperature and humidity in hundredths, the
      battery level and the quantised time of the reading. */
  datatype Reading = Reading(rawTemperature: Uint16, rawHumidity: Uint16, battery: Byte, timestamp: int)

  /** `binary.LittleEndian.Uint16` applied to `data[offset..]`. */
  function Uint16LE(data: seq<Byte>, offset: nat): (v: Uint16)
    requires offset + 2 <= |data|
  {
    data[offset] as int + 0x100 * data[offset + 1] as int
  }

  /** The two little-endian bytes of `v`, low byte first. */
  function EncodeUint16LE(v: Uint16): (bytes: seq<Byte>)
    ensures |bytes| == 2
    ensures Uint16LE(bytes, 0) == v
  {
    [v % 0x100, v / 0x100]
  }

  /** Reading two bytes and encoding them again gives the same bytes. */
  lemma EncodeDecodeUint16(data: seq<Byte>, offset: nat)
    requires offset + 2 <= |data|
    ensures EncodeUint16LE(Uint16LE(data, offset)) == data[offset..offset + 2]
  {
  }

  /** A raw 16-bit value divided by 100, exactly (the source uses float64). */
  function Centi(raw: Uint16): (x: real)
    ensures 0.0 <= x <= 655.35
    ensures x * 100.0 == raw as real
  {
    raw as real / 100.0
  }

  /** Go's `t % 60` on int64, which truncates toward zero: the remainder
      takes the sign of `t`. */
  function GoRem60(t: int): (r: int)
    ensures -60 < r < 60
    ensures t >= 0 ==> r >= 0
    ensures t <= 0 ==> r <= 0
    ensures (t - r) % 60 == 0
  {
    if t >= 0 then t % 60 else -((-t) % 60)
  }

  /** `t -= t % 60`: the timestamp rounded toward zero to a whole minute.
      For a time at or after the epoch this is the start of its minute. */
  function Quantize(t: int): (q: int)
    ensures q % 60 == 0
    ensures t >= 0 ==> 0 <= q <= t < q + 60
    ensures t < 0 ==> q - 60 < t <= q <= 0
  {
    t - GoRem60(t)
  }

  /** Quantisation is a floor to a multiple of 60 for non-negative times:
      it agrees with Euclidean division, and the quantised value is the only
      multiple of 60 in the minute that contains `t`. */
  lemma QuantizeIsMinuteFloor(t: int, m: int)
    requires t >= 0
    ensures Quantize(t) == (t / 60) * 60
    ensures m % 60 == 0 && m <= t < m + 60 ==> m == Quantize(t)
  {
    var q := Quantize(t);
    if m % 60 == 0 && m <= t < m + 60 {
      assert (m - q) % 60 == 0;
      assert -60 < m - q < 60;
    }
  }

  /** Quantising an already quantised timestamp changes nothing. */
  lemma QuantizeIdempotent(t: int)
    ensures Quantize(Quantize(t)) == Quantize(t)
  {
  }

  lemma QuantizeExample()
    ensures Quantize(1700000090) == 1700000040
  {
  }

  /** Decoding one service-data block read at clock time `now`. A block of
      fewer than 15 bytes is not applicable; otherwise the temperature and
      humidity are the little-endian words at offsets 6 and 8, the battery
      is byte 12 carried unchanged, and the timestamp is `now` quantised. */
  function Decode(data: seq<Byte>, now: int): (r: Option<Reading>)
    ensures r.None? <==> |data| < MinBlockLength
    ensures r.Some? ==>
              && r.value.rawTemperature == data[6] as int + 256 * data[7] as int
              && r.value.rawHumidity == data[8] as int + 256 * data[9] as int
              && r.value.battery == data[12]
              && r.value.timestamp == Quantize(now)
              && r.value.timestamp % 60 == 0
              && (now >= 0 ==> r.value.timestamp <= now < r.value.timestamp + 60)
  {
    if |data| < MinBlockLength then None
    else Some(Reading(Uint16LE(data, TemperatureOffset), Uint16LE(data, HumidityOffset), data[BatteryOffset], Quantize(now)))
  }

  /** A 15-byte block with the given field values, in the layout above. */
  function Frame(mac: seq<Byte>, temperature: Uint16, humidity: Uint16, voltage: Uint16,
                 battery: Byte, counter: Byte, flags: Byte): (f: seq<Byte>)
    requires |mac| == 6
    ensures |f| == MinBlockLength
  {
    mac + EncodeUint16LE(temperature) + EncodeUint16LE(humidity) + EncodeUint16LE(voltage) + [battery, counter, flags]
  }

  /** Decoding a block built from field values gives those values back. */
  lemma DecodeFrame(mac: seq<Byte>, temperature: Uint16, humidity: Uint16, voltage: Uint16,
                    battery: Byte, counter: Byte, flags: Byte, now: int)
    requires |mac| == 6
    ensures Decode(Frame(mac, temperature, humidity, voltage, battery, counter, flags), now)
            == Some(Reading(temperature, humidity, battery, Quantize(now)))
  {
    var f := Frame(mac, temperature, humidity, voltage, battery, counter, flags);
    assert f[6..8] == EncodeUint16LE(temperature);
    assert f[8..10] == EncodeUint16LE(humidity);
    assert Uint16LE(f, 6) == Uint16LE(f[6..8], 0);
    assert Uint16LE(f, 8) == Uint16LE(f[8..10], 0);
  }

  /** Conversely, every 15-byte block is the frame of its decoded fields
      together with the bytes the decoder does not interpret. */
  lemma FrameOfDecode(data: seq<Byte>, now: int)
    requires |data| == MinBlockLength
    ensures Decode(data, now).Some?
    ensures var r := Decode(data, now).value;
            Frame(data[..6], r.rawTemperature, r.rawHumidity, Uint16LE(data, 10), r.battery, data[13], data[14]) == data
  {
    var r := Decode(data, now).value;
    EncodeDecodeUint16(data, 6);
    EncodeDecodeUint16(data, 8);
    EncodeDecodeUint16(data, 10);
    var f := Frame(data[..6], r.rawTemperature, r.rawHumidity, Uint16LE(data, 10), r.battery, data[13], data[14]);
    assert f == data[..6] + data[6..8] + data[8..10] + data[10..12] + data[12..15];
    assert data == data[..6] + data[6..8] + data[8..10] + data[10..12] + data[12..15];
  }

  /** Only bytes 6 to 9 and 12, and whether the block is long enough, affect
      the reading: blocks that agree there decode alike. */
  lemma DecodeReadsOnlyFields(data: seq<Byte>, other: seq<Byte>, now: int)
    requires |data| >= MinBlockLength <==> |other| >= MinBlockLength
    requires |data| >= MinBlockLength ==>
               data[6..10] == other[6..10] && data[12] == other[12]
    ensures Decode(data, now) == Decode(other, now)
  {
    if |data| >= MinBlockLength {
      assert data[6] == data[6..10][0] && data[7] == data[6..10][1];
      assert data[8] == data[6..10][2] && data[9] == data[6..10][3];
      assert other[6] == other[6..10][0] && other[7] == other[6..10][1];
      assert other[8] == other[6..10][2] && other[9] == other[6..10][3];
    }
  }
}
