/** The outdoor weather node: its status payload and its constants. */
module Weather {
  import opened Python
  import opened WirelessNode

  /** `WeatherNode`: node id 2, named "weather"; its message class adds no
      field names. */
  const WeatherNode := NodeClass("weather", 2, map[])
  const SendPipeAddr := 0x02
  const ListenPipeNumber := 2
  const ListenPipeAddr := 0x02
  const OfflineAfterNSeconds := 3600

  /** `WeatherState._parse_raw_data`: humidity is the second byte, the
      temperature the first byte offset by 100. */
  function ParseRawData(raw: Bytes): (r: Result<map<string, int>>)
    ensures |raw| < 2 ==> r == Raised(IndexError)
  {
    if |raw| < 2 then Raised(IndexError)
    else Ok(map["humidity" := raw[1], "temperature" := raw[0] as int - 100])
  }

  /** Two bytes are needed; the reading has exactly the two keys, humidity in
      0..255 and temperature in -100..155, and later bytes are ignored. */
  lemma ParsedReading(raw: Bytes)
    requires |raw| >= 2
    ensures ParseRawData(raw).Ok?
    ensures ParseRawData(raw).value.Keys == {"humidity", "temperature"}
    ensures ParseRawData(raw).value["humidity"] == raw[1]
    ensures ParseRawData(raw).value["temperature"] == raw[0] as int - 100
    ensures -100 <= ParseRawData(raw).value["temperature"] <= 155
    ensures 0 <= ParseRawData(raw).value["humidity"] <= 255
    ensures ParseRawData(raw) == ParseRawData(raw[..2])
  {
  }

  /** Distinct first-two-byte pairs give distinct readings. */
  lemma ParseRawDataInjective(a: Bytes, b: Bytes)
    requires |a| >= 2 && |b| >= 2
    requires ParseRawData(a) == ParseRawData(b)
    ensures a[..2] == b[..2]
  {
    var ra, rb := ParseRawData(a).value, ParseRawData(b).value;
    assert ra["humidity"] == rb["humidity"];
    assert ra["temperature"] == rb["temperature"];
  }
}
