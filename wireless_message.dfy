/** The radio frame codec: the packed header byte, parsing of inbound frames
    and formatting of outbound ones (class `Message` of the wireless base
    module). */
module WirelessMessage {
  import opened Python

  const MaxDataLen := 31
  const TypePing := 0
  const TypeFieldRequest := 1
  const TypeFieldSet := 2
  const TypeFieldResponse := 3

  predicate Injective(m: map<int, string>)
  {
    forall a, b | a in m && b in m && a != b :: m[a] != m[b]
  }

  /** A message class's `FIELD_NAMES`: field-id number to field name. No two
      ids share a name, so the name-to-id direction is a function too. */
  type FieldTable = m: map<int, string> | Injective(m) witness map[]

  /** One frame. `data` and `fieldName` are optional, as in the constructor. */
  datatype Message = Message(nodeId: int, msgType: int, data: Option<Bytes>, fieldName: Option<string>)

  // ---------------------------------------------------------------- header

  /** `parse_header`: the low three bits are the node id, the rest the type.
      Dafny's `%` and `/` by 8 agree with Python's for every integer. */
  function ParseHeader(header: int): (r: (int, int))
    ensures 0 <= r.0 < 8
    ensures header == r.0 + 8 * r.1
  {
    (header % 8, header / 8)
  }

  /** The header splits back into the node id and type it was packed from,
      whatever the type. */
  lemma HeaderRoundTrip(nodeId: int, msgType: int)
    requires 0 <= nodeId < 8
    ensures ParseHeader(nodeId + 8 * msgType) == (nodeId, msgType)
  {
    var (n, t) := ParseHeader(nodeId + 8 * msgType);
    assert 8 * (t - msgType) == nodeId - n;
  }

  /** `format_header`: the node id must lie in 0..7 (the assert) and the
      packed value must fit in one character (`chr`). */
  function FormatHeader(nodeId: int, msgType: int): (r: Result<Byte>)
    ensures r.Ok? <==> 0 <= nodeId < 8 && 0 <= msgType < 32
    ensures r.Ok? ==> ParseHeader(r.value) == (nodeId, msgType)
    ensures !(0 <= nodeId < 8) ==> r == Raised(AssertionError)
    ensures 0 <= nodeId < 8 && !(0 <= msgType < 32) ==> r == Raised(ValueError)
  {
    if !(0 <= nodeId < 8) then Raised(AssertionError)
    else
      var packed := nodeId + msgType * 8;
      HeaderRoundTrip(nodeId, msgType);
      if 0 <= packed < 256 then Ok(packed) else Raised(ValueError)
  }

  // ---------------------------------------------------------------- field ids

  /** Whether some id of the table carries the name. */
  predicate Names(names: FieldTable, name: string)
  {
    exists k :: k in names && names[k] == name
  }

  /** `field_id` as the inverse of `FIELD_NAMES`: the id whose name is the
      message's field name; `KeyError` when there is none. */
  function FieldId(names: FieldTable, fieldName: Option<string>): (r: Result<int>)
    ensures r.Ok? <==> fieldName.Some? && Names(names, fieldName.value)
    ensures r.Ok? ==> r.value in names && names[r.value] == fieldName.value
    ensures r.Raised? ==> r.exc == KeyError
  {
    if fieldName.Some? && Names(names, fieldName.value) then
      Ok(var k :| k in names && names[k] == fieldName.value; k)
    else
      Raised(KeyError)
  }

  /** Looking up the name of an id gives that id back. */
  lemma FieldIdInvertsTable(names: FieldTable, k: int)
    requires k in names
    ensures FieldId(names, Some(names[k])) == Ok(k)
  {
    assert FieldId(names, Some(names[k])).Ok?;
  }

  /** `field_id` as written: `{v: k for k, v in self.FIELD_NAMES}` iterates the
      keys of the table, which are ints, so unpacking one raises TypeError; an
      empty table builds an empty inverse, and the lookup raises KeyError. */
  function FieldIdAsWritten(names: map<int, string>, fieldName: Option<string>): (r: Result<int>)
    ensures names == map[] ==> r == Raised(KeyError)
    ensures names != map[] ==> r == Raised(TypeError)
  {
    if names == map[] then Raised(KeyError) else Raised(TypeError)
  }

  /** The discrepancy: a one-entry table whose name the corrected lookup
      resolves, where the code as written raises. */
  lemma FieldIdAsWrittenCounterexample()
    ensures FieldIdAsWritten(map[5 := "power"], Some("power")) == Raised(TypeError)
    ensures FieldId(map[5 := "power"], Some("power")) == Ok(5)
  {
    FieldIdInvertsTable(map[5 := "power"], 5);
  }

  // ---------------------------------------------------------------- parse

  /** `Message.parse`. Line 61 replaces the parsed type with the whole header
      byte, so only header bytes 0 (PING, nothing more is read) and 3
      (FIELD_RESPONSE: a field-id byte, then the value) are accepted. A field
      id that is unmapped, or mapped to the empty (falsy) name, is an error. */
  function Parse(names: FieldTable, raw: Bytes): (r: Result<Message>)
    ensures |raw| == 0 ==> r == Raised(IndexError)
  {
    if |raw| == 0 then Raised(IndexError)
    else
      var nodeId := ParseHeader(raw[0]).0;
      var msgType := raw[0];
      var data := raw[1..];
      if msgType == TypePing then
        Ok(Message(nodeId, msgType, None, None))
      else if msgType == TypeFieldResponse then
        if |data| == 0 then Raised(IndexError)
        else if data[0] !in names || names[data[0]] == "" then
          Raised(SensorError(UnknownField(data[0])))
        else
          Ok(Message(nodeId, msgType, Some(data[1..]), Some(names[data[0]])))
      else
        Raised(SensorError(UnexpectedType(msgType)))
  }

  /** What `parse` accepts and what it raises: a success has header byte 0
      (PING, nothing more) or 3 (FIELD_RESPONSE with a mapped, non-empty
      field name and the bytes after the field id as its value); every other
      header byte is an unexpected type. */
  lemma ParseOutcomes(names: FieldTable, raw: Bytes)
    ensures Parse(names, raw).Ok? ==> |raw| > 0 && (raw[0] == TypePing || raw[0] == TypeFieldResponse)
    ensures Parse(names, raw).Ok? ==> Parse(names, raw).value.nodeId == raw[0] % 8 && Parse(names, raw).value.msgType == raw[0]
    ensures Parse(names, raw).Ok? && raw[0] == TypePing ==> Parse(names, raw).value.data.None? && Parse(names, raw).value.fieldName.None?
    ensures Parse(names, raw).Ok? && raw[0] == TypeFieldResponse ==>
              |raw| >= 2 && raw[1] in names && Parse(names, raw).value.fieldName == Some(names[raw[1]]) && Parse(names, raw).value.data == Some(raw[2..])
    ensures |raw| > 0 && raw[0] != TypePing && raw[0] != TypeFieldResponse ==>
              Parse(names, raw) == Raised(SensorError(UnexpectedType(raw[0])))
  {
  }

  /** A PING frame is the single header byte 0; anything after it is ignored. */
  lemma ParsePing(names: FieldTable, rest: Bytes)
    ensures Parse(names, [0] + rest) == Ok(Message(0, TypePing, None, None))
  {
  }

  /** FIELD_RESPONSE decoding: the byte after the header names the field, the
      bytes after that are its value; an unmapped id is a SensorError. */
  lemma ParseFieldResponse(names: FieldTable, fieldId: Byte, payload: Bytes)
    ensures fieldId in names && names[fieldId] != "" ==>
              Parse(names, [3, fieldId] + payload) == Ok(Message(3, TypeFieldResponse, Some(payload), Some(names[fieldId])))
    ensures fieldId !in names ==>
              Parse(names, [3, fieldId] + payload) == Raised(SensorError(UnknownField(fieldId)))
  {
    var raw: Bytes := [3, fieldId] + payload;
    assert raw[1..][1..] == payload;
  }

  /** A header packed the documented way is rejected unless it is one of the
      two bytes 0 and 3: a FIELD_RESPONSE from any node, packed as
      `node_id + 8 * 3`, never parses. */
  lemma PackedHeadersRejected(names: FieldTable, nodeId: int, msgType: int, rest: Bytes)
    requires 0 <= nodeId < 8 && 0 <= msgType < 32
    requires (nodeId, msgType) != (0, 0) && (nodeId, msgType) != (3, 0)
    ensures Parse(names, [nodeId + 8 * msgType] + rest) == Raised(SensorError(UnexpectedType(nodeId + 8 * msgType)))
  {
  }

  // ---------------------------------------------------------------- format

  /** The byte for a field id, as `chr(self.field_id)`. */
  function FieldIdByte(names: FieldTable, fieldName: Option<string>): (r: Result<Byte>)
    ensures r.Ok? ==> r.value in names && Some(names[r.value]) == fieldName
  {
    match FieldId(names, fieldName)
    case Raised(e) => Raised(e)
    case Ok(k) => if 0 <= k < 256 then Ok(k) else Raised(ValueError)
  }

  /** `Message.format`: FIELD_REQUEST is the header and the field-id byte,
      FIELD_SET adds the value bytes, every other type is the header alone. */
  function Format(names: FieldTable, m: Message): (r: Result<Bytes>)
    ensures r.Ok? ==> |r.value| >= 1 && ParseHeader(r.value[0]) == (m.nodeId, m.msgType)
    ensures r.Ok? && m.msgType == TypeFieldRequest ==> |r.value| == 2
    ensures r.Ok? && m.msgType == TypeFieldSet ==> m.data.Some? && |r.value| == 2 + |m.data.value|
    ensures r.Ok? && m.msgType != TypeFieldRequest && m.msgType != TypeFieldSet ==> |r.value| == 1
    ensures FormatHeader(m.nodeId, m.msgType).Raised? ==> r == Raised(FormatHeader(m.nodeId, m.msgType).exc)
  {
    match FormatHeader(m.nodeId, m.msgType)
    case Raised(e) => Raised(e)
    case Ok(header) =>
      if m.msgType == TypeFieldRequest then
        match FieldIdByte(names, m.fieldName)
        case Raised(e) => Raised(e)
        case Ok(f) => Ok([header, f])
      else if m.msgType == TypeFieldSet then
        match FieldIdByte(names, m.fieldName)
        case Raised(e) => Raised(e)
        case Ok(f) =>
          if m.data.None? then Raised(TypeError) else Ok([header, f] + m.data.value)
      else
        Ok([header])
  }

  /** Exactly when `format` succeeds: a header that fits, and for the two
      field types a field name the table knows with an id below 256 (and, for
      FIELD_SET, a value). */
  lemma FormatSucceedsIff(names: FieldTable, m: Message)
    ensures Format(names, m).Ok? <==>
      && 0 <= m.nodeId < 8 && 0 <= m.msgType < 32
      && (m.msgType == TypeFieldRequest || m.msgType == TypeFieldSet ==>
            FieldIdByte(names, m.fieldName).Ok?)
      && (m.msgType == TypeFieldSet ==> m.data.Some?)
  {
  }

  /** The outbound messages `format` carries losslessly: the field types
      carry a field name (and FIELD_SET a value), the others nothing. */
  predicate Outbound(m: Message)
  {
    if m.msgType == TypeFieldRequest then m.data.None? && m.fieldName.Some?
    else if m.msgType == TypeFieldSet then m.data.Some? && m.fieldName.Some?
    else m.data.None? && m.fieldName.None?
  }

  /** How a device reads an outbound frame: the packed header, then for the
      field types the field-id byte and, for FIELD_SET, the value after it. */
  function ReadOutbound(names: FieldTable, frame: Bytes): (r: Option<Message>)
    ensures r.Some? ==> |frame| > 0 && ParseHeader(frame[0]) == (r.value.nodeId, r.value.msgType)
    ensures r.Some? && r.value.fieldName.Some? ==> r.value.fieldName.value in names.Values
    ensures r.Some? ==> (r.value.data.Some? <==> r.value.msgType == TypeFieldSet)
  {
    if |frame| == 0 then None
    else
      var (nodeId, msgType) := ParseHeader(frame[0]);
      if msgType == TypeFieldRequest || msgType == TypeFieldSet then
        if |frame| < 2 || frame[1] !in names then None
        else if msgType == TypeFieldRequest then
          if |frame| == 2 then Some(Message(nodeId, msgType, None, Some(names[frame[1]]))) else None
        else
          Some(Message(nodeId, msgType, Some(frame[2..]), Some(names[frame[1]])))
      else if |frame| == 1 then Some(Message(nodeId, msgType, None, None))
      else None
  }

  /** Round trip: every outbound message `format` accepts reads back as
      itself. */
  lemma FormatRoundTrip(names: FieldTable, m: Message)
    requires Outbound(m)
    requires Format(names, m).Ok?
    ensures ReadOutbound(names, Format(names, m).value) == Some(m)
  {
    var frame := Format(names, m).value;
    var header := FormatHeader(m.nodeId, m.msgType).value;
    assert frame[0] == header;
    if m.msgType == TypeFieldRequest || m.msgType == TypeFieldSet {
      var f := FieldIdByte(names, m.fieldName).value;
      assert frame[1] == f;
      if m.msgType == TypeFieldSet {
        assert frame[2..] == m.data.value;
      }
    }
  }
}
