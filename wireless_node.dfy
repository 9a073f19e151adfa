/** The hub-side proxy of one wireless device (class `Node` of the wireless
    base module): a cache of field values, a counter of consecutive send
    failures that gives up at five, and a ping every ten calls. */
module WirelessNode {
  import opened Python
  import opened WirelessMessage

  const PingEveryNLoops := 10
  const TerminateAfterNErrors := 5

  datatype NodeState = Online | Offline

  /** A device class: its `NAME`, its `NODE_ID` and the `FIELD_NAMES` of its
      `MESSAGE_CLASS`. */
  datatype NodeClass = NodeClass(name: string, nodeId: int, fieldNames: FieldTable)

  /** What a node holds. */
  datatype NodeView = NodeView(state: NodeState, fields: map<string, Bytes>, errorsInARow: nat, loopsWithoutPing: nat)

  /** A node after one call, and the exception the call raised, if any. */
  datatype Step = Step(view: NodeView, raised: Option<Exc>)

  /** A node as `Node.__init__` leaves it. */
  const Fresh := NodeView(Online, map[], 0, 0)

  // ---------------------------------------------------------------- send_data

  /** `send_data` given the outcome of `format` and whether the radio took the
      frame. A format error escapes before the radio is used; a delivered
      frame clears the failure counter; a failed one adds one and, on exactly
      the fifth, marks the node offline and raises. */
  function SendStep(v: NodeView, encoded: Result<Bytes>, delivered: bool): (r: Step)
    ensures r.view.fields == v.fields && r.view.loopsWithoutPing == v.loopsWithoutPing
    ensures r.view.state == Online ==> v.state == Online
    ensures encoded.Raised? ==> r == Step(v, Some(encoded.exc))
  {
    match encoded
    case Raised(e) => Step(v, Some(e))
    case Ok(_) =>
      if delivered then Step(v.(errorsInARow := 0), None)
      else
        var n := v.errorsInARow + 1;
        if n == TerminateAfterNErrors then
          Step(v.(errorsInARow := n, state := Offline), Some(SensorError(RequestFailed(TerminateAfterNErrors))))
        else
          Step(v.(errorsInARow := n), None)
  }

  /** The failure counter's rule for a frame that formats: success resets it,
      failure adds one, and the call raises exactly when the counter becomes
      five, leaving the node offline. */
  lemma SendCounter(v: NodeView, frame: Bytes, delivered: bool)
    ensures var r := SendStep(v, Ok(frame), delivered);
      && (delivered ==> r.view.errorsInARow == 0 && r.raised == None && r.view.state == v.state)
      && (!delivered ==> r.view.errorsInARow == v.errorsInARow + 1)
      && (r.raised.Some? <==> !delivered && v.errorsInARow + 1 == TerminateAfterNErrors)
      && (r.raised.Some? ==> r.view.state == Offline && r.raised == Some(SensorError(RequestFailed(5))))
  {
  }

  /** The steps of `k` consecutive failed sends of the same frame. */
  function FailSteps(v: NodeView, frame: Bytes, k: nat): (r: seq<Step>)
    ensures |r| == k
    decreases k
  {
    if k == 0 then []
    else
      var s := SendStep(v, Ok(frame), false);
      [s] + FailSteps(s.view, frame, k - 1)
  }

  /** Starting below five, the j-th of a run of failures leaves the counter at
      `errorsInARow + j + 1` and raises iff that is exactly five; from the
      fifth on the node stays offline. A sixth failure does not raise. */
  lemma {:induction false} ConsecutiveFailures(v: NodeView, frame: Bytes, k: nat, j: nat)
    requires j < k
    ensures FailSteps(v, frame, k)[j].view.errorsInARow == v.errorsInARow + j + 1
    ensures FailSteps(v, frame, k)[j].raised.Some? <==> v.errorsInARow + j + 1 == TerminateAfterNErrors
    ensures v.errorsInARow < TerminateAfterNErrors <= v.errorsInARow + j + 1 ==>
              FailSteps(v, frame, k)[j].view.state == Offline
    ensures v.state == Offline ==> FailSteps(v, frame, k)[j].view.state == Offline
    ensures FailSteps(v, frame, k)[j].view.fields == v.fields
    decreases j
  {
    var s := SendStep(v, Ok(frame), false);
    assert FailSteps(v, frame, k) == [s] + FailSteps(s.view, frame, k - 1);
    if j > 0 {
      ConsecutiveFailures(s.view, frame, k - 1, j - 1);
      assert FailSteps(v, frame, k)[j] == FailSteps(s.view, frame, k - 1)[j - 1];
    }
  }

  /** Four failures in a row followed by one success raise nothing and leave
      the counter at zero, while five failures raise on the fifth. */
  lemma FourFailuresThenSuccess(v: NodeView, frame: Bytes)
    requires v.errorsInARow == 0
    ensures forall j | 0 <= j < 4 :: FailSteps(v, frame, 4)[j].raised == None
    ensures SendStep(FailSteps(v, frame, 4)[3].view, Ok(frame), true) == Step(FailSteps(v, frame, 4)[3].view.(errorsInARow := 0), None)
    ensures FailSteps(v, frame, 5)[4].raised == Some(SensorError(RequestFailed(5)))
  {
    forall j | 0 <= j < 4 ensures FailSteps(v, frame, 4)[j].raised == None {
      ConsecutiveFailures(v, frame, 4, j);
    }
    ConsecutiveFailures(v, frame, 4, 3);
    ConsecutiveFailures(v, frame, 5, 4);
  }

  // ---------------------------------------------------------------- send_ping

  /** The PING frame of a device class, as `format` gives it. */
  function PingFrame(cls: NodeClass): Result<Bytes>
  {
    Format(cls.fieldNames, Message(cls.nodeId, TypePing, None, None))
  }

  /** `send_ping`: the counter goes up by one; below ten nothing is sent,
      otherwise it is reset and a PING goes through `send_data`. */
  function PingStep(v: NodeView, cls: NodeClass, delivered: bool): (r: Step)
    ensures r.view.fields == v.fields
    ensures r.view.loopsWithoutPing == if v.loopsWithoutPing + 1 < PingEveryNLoops then v.loopsWithoutPing + 1 else 0
    ensures v.loopsWithoutPing + 1 < PingEveryNLoops ==>
              r == Step(v.(loopsWithoutPing := v.loopsWithoutPing + 1), None)
    ensures v.loopsWithoutPing + 1 >= PingEveryNLoops ==>
              r == SendStep(v.(loopsWithoutPing := 0), PingFrame(cls), delivered)
  {
    var n := v.loopsWithoutPing + 1;
    if n < PingEveryNLoops then Step(v.(loopsWithoutPing := n), None)
    else SendStep(v.(loopsWithoutPing := 0), PingFrame(cls), delivered)
  }

  /** Whether a call of `send_ping` on this node hands a PING to `send_data`. */
  predicate PingDue(v: NodeView)
  {
    v.loopsWithoutPing + 1 >= PingEveryNLoops
  }

  /** `k` calls of `send_ping`, the i-th with radio outcome `delivered(i)`:
      the node afterwards and how many PINGs were handed to `send_data`. */
  function PingRun(v: NodeView, cls: NodeClass, k: nat, delivered: nat -> bool): (r: (NodeView, nat))
    ensures r.0.fields == v.fields
    ensures r.1 <= k
    decreases k
  {
    if k == 0 then (v, 0)
    else
      var (w, sent) := PingRun(v, cls, k - 1, delivered);
      (PingStep(w, cls, delivered(k - 1)).view, sent + if PingDue(w) then 1 else 0)
  }

  lemma DivModByTen(n: nat)
    ensures (n + 1) % 10 == (if n % 10 + 1 < 10 then n % 10 + 1 else 0)
    ensures (n + 1) / 10 == (if n % 10 + 1 < 10 then n / 10 else n / 10 + 1)
  {
    var q, r := n / 10, n % 10;
    assert n == 10 * q + r;
    if r + 1 < 10 {
      assert n + 1 == 10 * q + (r + 1);
    } else {
      assert n + 1 == 10 * (q + 1);
    }
  }

  /** Cadence: from a counter below ten, `k` calls send `(counter + k) / 10`
      PINGs and leave the counter at `(counter + k) % 10`, whatever the radio
      did; from a fresh node that is one PING per ten calls. */
  lemma {:induction false} PingCadence(v: NodeView, cls: NodeClass, k: nat, delivered: nat -> bool)
    requires v.loopsWithoutPing < PingEveryNLoops
    ensures PingRun(v, cls, k, delivered).0.loopsWithoutPing == (v.loopsWithoutPing + k) % 10
    ensures PingRun(v, cls, k, delivered).1 == (v.loopsWithoutPing + k) / 10
    decreases k
  {
    if k > 0 {
      PingCadence(v, cls, k - 1, delivered);
      DivModByTen(v.loopsWithoutPing + k - 1);
    }
  }

  /** The PING of a node with a header node id cannot fail to format, so
      `send_ping` raises nothing but the SensorError of the fifth failure
      in a row, which the ping loop's `except` catches. */
  lemma PingRaisesOnlySensorError(v: NodeView, cls: NodeClass, delivered: bool)
    requires 0 <= cls.nodeId < 8
    ensures PingStep(v, cls, delivered).raised.Some? ==> PingStep(v, cls, delivered).raised.value.SensorError?
  {
    assert FormatHeader(cls.nodeId, TypePing).Ok?;
  }

  // ---------------------------------------------------------------- process_new_message

  /** `process_new_message`: parse the frame; a FIELD_RESPONSE stores its
      value under its field name, a PING changes nothing, a parse error
      escapes with the node untouched. */
  function MessageStep(v: NodeView, names: FieldTable, raw: Bytes): (r: Step)
    ensures r.view.state == v.state && r.view.errorsInARow == v.errorsInARow
    ensures r.view.loopsWithoutPing == v.loopsWithoutPing
    ensures Parse(names, raw).Raised? ==> r == Step(v, Some(Parse(names, raw).exc))
  {
    match Parse(names, raw)
    case Raised(e) => Step(v, Some(e))
    case Ok(m) =>
      if m.msgType == TypeFieldResponse then Step(v.(fields := v.fields[m.fieldName.value := m.data.value]), None)
      else Step(v, None)
  }

  /** Only a FIELD_RESPONSE frame with a known field id writes the cache. */
  lemma OnlyFieldResponseWritesCache(v: NodeView, names: FieldTable, raw: Bytes)
    ensures MessageStep(v, names, raw).view.fields != v.fields ==>
              |raw| >= 2 && raw[0] == TypeFieldResponse && raw[1] in names
  {
  }

  /** A FIELD_RESPONSE for a known field stores the bytes after the field id
      under that field's name, and nothing else. */
  lemma ResponseStoresValue(v: NodeView, names: FieldTable, fieldId: Byte, payload: Bytes)
    requires fieldId in names && names[fieldId] != ""
    ensures MessageStep(v, names, [3, fieldId] + payload) == Step(v.(fields := v.fields[names[fieldId] := payload]), None)
  {
    ParseFieldResponse(names, fieldId, payload);
  }

  /** An unmapped field id is an error and leaves the cache as it was. */
  lemma UnknownFieldLeavesCache(v: NodeView, names: FieldTable, fieldId: Byte, payload: Bytes)
    requires fieldId !in names
    ensures MessageStep(v, names, [3, fieldId] + payload) == Step(v, Some(SensorError(UnknownField(fieldId))))
  {
    ParseFieldResponse(names, fieldId, payload);
  }

  // ---------------------------------------------------------------- the object

  class Node {
    const cls: NodeClass
    var state: NodeState
    var fields: map<string, Bytes>
    var errorsInARow: nat
    var loopsWithoutPing: nat

    function View(): NodeView
      reads this
    {
      NodeView(state, fields, errorsInARow, loopsWithoutPing)
    }

    constructor (cls: NodeClass)
      ensures this.cls == cls && View() == Fresh
    {
      this.cls := cls;
      state := Online;
      fields := map[];
      errorsInARow := 0;
      loopsWithoutPing := 0;
    }

    /** `get_value`: the cached value of a field, None when none arrived. */
    function GetValue(fieldName: string): (r: Option<Bytes>)
      reads this
      ensures r.Some? <==> fieldName in fields
      ensures r.Some? ==> r.value == fields[fieldName]
    {
      if fieldName in fields then Some(fields[fieldName]) else None
    }

    /** `send_data`; `delivered` says whether the low-level send returned
        normally (true) or raised SensorError (false). */
    method SendData(msg: Message, delivered: bool) returns (raised: Option<Exc>)
      modifies this
      ensures Step(View(), raised) == SendStep(old(View()), Format(cls.fieldNames, msg), delivered)
    {
      match Format(cls.fieldNames, msg)
      case Raised(e) =>
        raised := Some(e);
      case Ok(_) =>
        if delivered {
          errorsInARow := 0;
          raised := None;
        } else {
          errorsInARow := errorsInARow + 1;
          if errorsInARow == TerminateAfterNErrors {
            state := Offline;
            raised := Some(SensorError(RequestFailed(TerminateAfterNErrors)));
          } else {
            raised := None;
          }
        }
    }

    /** `ask_for_value`: a FIELD_REQUEST for the field. */
    method AskForValue(fieldName: string, delivered: bool) returns (raised: Option<Exc>)
      modifies this
      ensures Step(View(), raised) ==
        SendStep(old(View()), Format(cls.fieldNames, Message(cls.nodeId, TypeFieldRequest, None, Some(fieldName))), delivered)
    {
      raised := SendData(Message(cls.nodeId, TypeFieldRequest, None, Some(fieldName)), delivered);
    }

    /** `set_value`: a FIELD_SET of the field to the value. */
    method SetValue(fieldName: string, value: Bytes, delivered: bool) returns (raised: Option<Exc>)
      modifies this
      ensures Step(View(), raised) ==
        SendStep(old(View()), Format(cls.fieldNames, Message(cls.nodeId, TypeFieldSet, Some(value), Some(fieldName))), delivered)
    {
      raised := SendData(Message(cls.nodeId, TypeFieldSet, Some(value), Some(fieldName)), delivered);
    }

    /** `send_ping`. */
    method SendPing(delivered: bool) returns (raised: Option<Exc>)
      modifies this
      ensures Step(View(), raised) == PingStep(old(View()), cls, delivered)
      ensures 0 <= cls.nodeId < 8 ==> raised.None? || raised.value.SensorError?
    {
      if 0 <= cls.nodeId < 8 {
        PingRaisesOnlySensorError(View(), cls, delivered);
      }
      loopsWithoutPing := loopsWithoutPing + 1;
      if loopsWithoutPing < PingEveryNLoops {
        raised := None;
        return;
      }
      loopsWithoutPing := 0;
      raised := SendData(Message(cls.nodeId, TypePing, None, None), delivered);
    }

    /** `process_new_message`. */
    method ProcessNewMessage(raw: Bytes) returns (raised: Option<Exc>)
      modifies this
      ensures Step(View(), raised) == MessageStep(old(View()), cls.fieldNames, raw)
    {
      match Parse(cls.fieldNames, raw)
      case Raised(e) =>
        raised := Some(e);
      case Ok(m) =>
        if m.msgType == TypeFieldResponse {
          fields := fields[m.fieldName.value := m.data.value];
        }
        raised := None;
    }
  }
}
