/** The radio-linked lamp: its status payload, the ON/OFF message it is
    sent, and the state change that triggers that message. */
module PowerControl {
  import opened Python
  import opened WirelessMessage
  import opened WirelessNode
  import opened WirelessUtils

  /** `PowerControlMessage.TYPE_ON` / `TYPE_OFF`. */
  const TypeOn := 255
  const TypeOff := 254

  /** `PowerControlNode`: node id 1, named "lamp"; its message class adds no
      field names, so it keeps the base class's empty `FIELD_NAMES`. */
  const PowerControlNode := NodeClass("lamp", 1, map[])
  const ListenPipeAddr := 0x01
  const SendPipeAddr := 0x01
  const ListenPipeNumber := 1

  /** `PowerControlState.ALLOWED_KEYS`. */
  const AllowedKeys: set<string> := {"power_on"}

  /** `PowerControlState._parse_raw_data`: the first status byte is the power
      flag. */
  function ParseRawData(raw: Bytes): (r: Result<map<string, int>>)
    ensures |raw| == 0 ==> r == Raised(IndexError)
  {
    if |raw| == 0 then Raised(IndexError) else Ok(map["power_on" := raw[0]])
  }

  /** The parsed status is exactly `{'power_on': raw[0]}`: one allowed key,
      holding the first byte, whatever follows it. */
  lemma ParsedStatusIsPowerFlag(raw: Bytes)
    requires |raw| > 0
    ensures ParseRawData(raw).Ok?
    ensures ParseRawData(raw).value.Keys == AllowedKeys
    ensures ParseRawData(raw).value["power_on"] == raw[0]
    ensures ParseRawData(raw) == ParseRawData(raw[..1])
  {
  }

  /** The message `set_power_state` builds: type ON for true, OFF for false,
      to node 1, without field or data. */
  function PowerMessage(isEnabled: bool): (m: Message)
    ensures m.nodeId == PowerControlNode.nodeId && m.data.None? && m.fieldName.None?
    ensures m.msgType == (if isEnabled then TypeOn else TypeOff)
  {
    Message(PowerControlNode.nodeId, if isEnabled then TypeOn else TypeOff, None, None)
  }

  /** ON and OFF are not field types, so `format` would send the header
      alone; but the packed header, 1 + 8 * 255 = 2041 or 1 + 8 * 254 = 2033,
      does not fit `chr`, so `format` raises ValueError for both. */
  lemma PowerMessageNotEncodable(names: FieldTable, isEnabled: bool)
    ensures PowerMessage(isEnabled).msgType != TypeFieldRequest && PowerMessage(isEnabled).msgType != TypeFieldSet
    ensures PowerMessage(true).nodeId + 8 * PowerMessage(true).msgType == 2041
    ensures PowerMessage(false).nodeId + 8 * PowerMessage(false).msgType == 2033
    ensures Format(names, PowerMessage(isEnabled)) == Raised(ValueError)
  {
  }

  /** The power state `_apply_new_state` asks `set_power_state` for: none
      when the new state has no `power_on`, else its `to_bool`. */
  function RequestedPower(newState: map<string, PyValue>): (r: Option<bool>)
    ensures r.None? <==> "power_on" !in newState
    ensures r.Some? ==> r.value == ToBool(newState["power_on"])
  {
    if "power_on" in newState then Some(ToBool(newState["power_on"])) else None
  }

  /** `PowerControlNode.set_power_state`. As `format` raises, nothing reaches
      the radio and the node is left as it was. */
  method SetPowerState(node: Node, isEnabled: bool, delivered: bool) returns (raised: Option<Exc>)
    requires node.cls == PowerControlNode
    modifies node
    ensures Step(node.View(), raised) == SendStep(old(node.View()), Format(node.cls.fieldNames, PowerMessage(isEnabled)), delivered)
    ensures raised == Some(ValueError) && node.View() == old(node.View())
  {
    var msgType := if isEnabled then TypeOn else TypeOff;
    raised := node.SendData(Message(PowerControlNode.nodeId, msgType, None, None), delivered);
    PowerMessageNotEncodable(node.cls.fieldNames, isEnabled);
  }

  /** `PowerControlState._apply_new_state`: one call of `set_power_state`
      with `to_bool(new['power_on'])` when the key is there, none otherwise.
      `requested` is the argument of that call. */
  method ApplyNewState(node: Node, newState: map<string, PyValue>, delivered: bool)
    returns (requested: Option<bool>, raised: Option<Exc>)
    requires node.cls == PowerControlNode
    modifies node
    ensures requested == RequestedPower(newState)
    ensures requested.None? ==> raised == None && node.View() == old(node.View())
    ensures requested.Some? ==>
      Step(node.View(), raised) == SendStep(old(node.View()), Format(node.cls.fieldNames, PowerMessage(requested.value)), delivered)
  {
    requested := None;
    raised := None;
    if "power_on" in newState {
      requested := Some(ToBool(newState["power_on"]));
      raised := SetPowerState(node, requested.value, delivered);
    }
  }
}
