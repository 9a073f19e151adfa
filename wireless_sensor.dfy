/** The node registry (class `WirelessSensor` of the wireless base module):
    the map of active nodes, how it changes as frames arrive, and one
    iteration that drains the radio's inbound frames. */
module WirelessRegistry {
  import opened Python
  import opened WirelessMessage
  import opened WirelessNode
  import PowerControl
  import Weather

  /** `_node_by_id` as `__init__` builds it: only the lamp is registered. */
  const ShippedNodes: map<int, NodeClass> := map[PowerControl.PowerControlNode.nodeId := PowerControl.PowerControlNode]

  /** The active nodes, by node id. */
  type Registry = map<int, NodeView>

  /** Every active node id is a registered one. */
  predicate Registered(reg: Registry, classes: map<int, NodeClass>)
  {
    reg.Keys <= classes.Keys
  }

  // ---------------------------------------------------------------- registry operations

  /** `_get_or_create_node`: a missing or ONLINE node is replaced by a fresh
      one of its registered class (SensorError, nothing changed, for an id
      with no class); an OFFLINE node is returned as it is. */
  function GetOrCreate(reg: Registry, classes: map<int, NodeClass>, id: int): (r: Result<Registry>)
    ensures r.Raised? <==> (id !in reg || reg[id].state == Online) && id !in classes
    ensures r.Raised? ==> r.exc == SensorError(NodeNotFound(id))
    ensures r.Ok? ==> id in r.value && r.value.Keys == reg.Keys + {id}
    ensures r.Ok? ==> forall k | k in reg && k != id :: r.value[k] == reg[k]
    ensures r.Ok? && (id !in reg || reg[id].state == Online) ==> r.value[id] == Fresh && id in classes
    ensures id in reg && reg[id].state == Offline ==> r == Ok(reg)
  {
    if id !in reg || reg[id].state == Online then
      if id !in classes then Raised(SensorError(NodeNotFound(id))) else Ok(reg[id := Fresh])
    else Ok(reg)
  }

  /** `_terminate_node`: the id is no longer active (a no-op when it was not);
      `terminate` does nothing in any class of the program. */
  function TerminateSpec(reg: Registry, id: int): (r: Registry)
    ensures r.Keys == reg.Keys - {id}
    ensures forall k | k in r :: r[k] == reg[k]
  {
    reg - {id}
  }

  /** `_cleanup_node`: an OFFLINE node is dropped, an ONLINE one kept; for an
      id with no node `node.state` is read on None and raises AttributeError. */
  function CleanupSpec(reg: Registry, id: int): (r: Result<Registry>)
    ensures id !in reg <==> r == Raised(AttributeError)
    ensures id in reg && reg[id].state == Offline ==> r == Ok(reg - {id})
    ensures id in reg && reg[id].state == Online ==> r == Ok(reg)
  {
    if id !in reg then Raised(AttributeError)
    else if reg[id].state == Offline then Ok(reg - {id})
    else Ok(reg)
  }

  // ---------------------------------------------------------------- one frame

  /** What one frame does to the registry: it is handled, or an exception
      escapes the iteration. */
  datatype FrameOutcome = Handled(reg: Registry) | Escaped(reg: Registry, exc: Exc)

  /** The `except` clause of the drain loop: a SensorError cleans the node
      up, any other exception terminates it. */
  function AfterError(reg: Registry, id: int, e: Exc): (r: FrameOutcome)
    ensures r.reg.Keys <= reg.Keys
    ensures r.Escaped? <==> e.SensorError? && id !in reg
    ensures r.Escaped? ==> r == Escaped(reg, AttributeError)
  {
    if e.SensorError? then
      match CleanupSpec(reg, id)
      case Ok(r) => Handled(r)
      case Raised(e2) => Escaped(reg, e2)
    else Handled(TerminateSpec(reg, id))
  }

  /** The `try` part of the drain loop for one non-empty frame: route it by
      the node id in its header to the existing or a fresh node and let the
      node process it. The registry afterwards and what was raised. */
  function Dispatch(reg: Registry, classes: map<int, NodeClass>, frame: Bytes): (r: (Registry, Option<Exc>))
    requires |frame| > 0 && Registered(reg, classes)
    ensures Registered(r.0, classes)
    ensures r.0.Keys <= reg.Keys + {ParseHeader(frame[0]).0}
  {
    var id := ParseHeader(frame[0]).0;
    match GetOrCreate(reg, classes, id)
    case Raised(e) => (reg, Some(e))
    case Ok(reg1) =>
      var step := MessageStep(reg1[id], classes[id].fieldNames, frame);
      (reg1[id := step.view], step.raised)
  }

  /** The whole body of the drain loop for one non-empty frame, with its
      `except` clause applied to what `Dispatch` raised. */
  function FrameStep(reg: Registry, classes: map<int, NodeClass>, frame: Bytes): (r: FrameOutcome)
    requires |frame| > 0 && Registered(reg, classes)
    ensures Registered(r.reg, classes)
  {
    var (reg2, raised) := Dispatch(reg, classes, frame);
    if raised.None? then Handled(reg2) else AfterError(reg2, ParseHeader(frame[0]).0, raised.value)
  }

  /** A frame from an unregistered node raises SensorError in
      `_get_or_create_node`, and the clean-up that follows reads the state of
      a node that does not exist: AttributeError escapes the iteration. */
  lemma UnregisteredFrameEscapes(reg: Registry, classes: map<int, NodeClass>, frame: Bytes)
    requires |frame| > 0 && Registered(reg, classes)
    requires ParseHeader(frame[0]).0 !in classes
    ensures FrameStep(reg, classes, frame) == Escaped(reg, AttributeError)
  {
  }

  /** The shipped table has no class for the weather node, so a frame from
      it is refused with SensorError and, through the clean-up, ends the
      drain with AttributeError. */
  lemma ShippedRegistryRefusesWeather(reg: Registry, frame: Bytes)
    requires |frame| > 0 && Registered(reg, ShippedNodes)
    requires ParseHeader(frame[0]).0 == Weather.WeatherNode.nodeId
    ensures GetOrCreate(reg, ShippedNodes, Weather.WeatherNode.nodeId) == Raised(SensorError(NodeNotFound(2)))
    ensures FrameStep(reg, ShippedNodes, frame) == Escaped(reg, AttributeError)
  {
    UnregisteredFrameEscapes(reg, ShippedNodes, frame);
  }

  /** `_cleanup_node` as evidently intended: an id with no node is skipped,
      as the "not found, skipping" log line says. */
  function CleanupIntended(reg: Registry, id: int): (r: Registry)
    ensures id !in reg ==> r == reg
    ensures id in reg && reg[id].state == Offline ==> r == reg - {id}
    ensures id in reg && reg[id].state == Online ==> r == reg
  {
    if id in reg && reg[id].state == Offline then reg - {id} else reg
  }

  /** The `except` clause with the intended clean-up. */
  function AfterErrorIntended(reg: Registry, id: int, e: Exc): (r: FrameOutcome)
    ensures r.Handled?
  {
    if e.SensorError? then Handled(CleanupIntended(reg, id)) else Handled(TerminateSpec(reg, id))
  }

  /** With the intended clean-up, a frame from an unregistered node is
      skipped: the registry is unchanged and nothing escapes. */
  lemma UnregisteredFrameSkipped(reg: Registry, classes: map<int, NodeClass>, frame: Bytes)
    requires |frame| > 0 && Registered(reg, classes)
    requires ParseHeader(frame[0]).0 !in classes
    ensures Dispatch(reg, classes, frame) == (reg, Some(SensorError(NodeNotFound(ParseHeader(frame[0]).0))))
    ensures AfterErrorIntended(reg, ParseHeader(frame[0]).0, SensorError(NodeNotFound(ParseHeader(frame[0]).0))) == Handled(reg)
  {
  }

  /** In the shipped registry every frame the lamp (node 1) sends fails to
      parse (its header byte is never 0 or 3), so a frame only ever resets
      the lamp to a fresh node or drops it when offline; nothing is cached. */
  lemma ShippedLampFrame(reg: Registry, frame: Bytes)
    requires |frame| > 0 && Registered(reg, ShippedNodes)
    requires ParseHeader(frame[0]).0 == 1
    ensures 1 !in reg || reg[1].state == Online ==> FrameStep(reg, ShippedNodes, frame) == Handled(reg[1 := Fresh])
    ensures 1 in reg && reg[1].state == Offline ==> FrameStep(reg, ShippedNodes, frame) == Handled(reg - {1})
  {
    assert frame[0] != TypePing && frame[0] != TypeFieldResponse;
  }

  // ---------------------------------------------------------------- the drain loop

  /** Frames read, the registry afterwards and what escaped, if anything. */
  datatype Drained = Drained(reg: Registry, consumed: nat, escaped: Option<Exc>)

  function Offset(d: Drained, n: nat): Drained
  {
    d.(consumed := d.consumed + n)
  }

  /** The `while True` loop: read frames until the queue is empty (an empty
      read ends it too) or an exception escapes. */
  function Drain(reg: Registry, classes: map<int, NodeClass>, frames: seq<Bytes>): (r: Drained)
    requires Registered(reg, classes)
    ensures Registered(r.reg, classes)
    ensures r.consumed <= |frames|
    decreases |frames|
  {
    if |frames| == 0 || frames[0] == [] then Drained(reg, 0, None)
    else
      match FrameStep(reg, classes, frames[0])
      case Escaped(r, e) => Drained(r, 1, Some(e))
      case Handled(r) => Offset(Drain(r, classes, frames[1..]), 1)
  }

  /** `_iteration` as written: after the drain, `for node in
      self._active_nodes` yields the ids, which have no `send_ping`, so
      AttributeError escapes whenever any node is active. */
  function IterationSpec(reg: Registry, classes: map<int, NodeClass>, frames: seq<Bytes>): (r: Drained)
    requires Registered(reg, classes)
    ensures r.escaped.None? ==> r.reg == map[]
  {
    var d := Drain(reg, classes, frames);
    if d.escaped.None? && d.reg != map[] then d.(escaped := Some(AttributeError)) else d
  }

  /** No node ever carries a cached field in the shipped registry, however
      many frames arrive. */
  lemma {:induction false} ShippedDrainCachesNothing(reg: Registry, frames: seq<Bytes>)
    requires Registered(reg, ShippedNodes)
    requires forall id | id in reg :: reg[id].fields == map[]
    ensures forall id | id in Drain(reg, ShippedNodes, frames).reg :: Drain(reg, ShippedNodes, frames).reg[id].fields == map[]
    decreases |frames|
  {
    if |frames| > 0 && frames[0] != [] {
      var id := ParseHeader(frames[0][0]).0;
      var step := FrameStep(reg, ShippedNodes, frames[0]);
      if id == 1 {
        ShippedLampFrame(reg, frames[0]);
        assert step.Handled? && (step.reg == reg[1 := Fresh] || step.reg == reg - {1});
      } else {
        UnregisteredFrameEscapes(reg, ShippedNodes, frames[0]);
        assert step == Escaped(reg, AttributeError);
      }
      assert forall k | k in step.reg :: step.reg[k].fields == map[];
      match step
      case Escaped(r, e) =>
        assert Drain(reg, ShippedNodes, frames) == Drained(r, 1, Some(e));
      case Handled(r) =>
        var rest := Drain(r, ShippedNodes, frames[1..]);
        assert Drain(reg, ShippedNodes, frames) == Offset(rest, 1);
        ShippedDrainCachesNothing(r, frames[1..]);
        assert Drain(reg, ShippedNodes, frames).reg == rest.reg;
    }
  }

  /** One lamp frame into an empty registry installs a fresh lamp node, and
      the ping loop then fails on it: the iteration ends with AttributeError. */
  lemma LampFrameEndsInAttributeError(frame: Bytes)
    requires |frame| > 0 && ParseHeader(frame[0]).0 == 1
    ensures IterationSpec(map[], ShippedNodes, [frame]) == Drained(map[1 := Fresh], 1, Some(AttributeError))
  {
    ShippedLampFrame(map[], frame);
    assert [frame][1..] == [];
    assert Drain(map[1 := Fresh], ShippedNodes, []) == Drained(map[1 := Fresh], 0, None);
    assert Drain(map[], ShippedNodes, [frame]) == Drained(map[1 := Fresh], 1, None);
  }

  // ---------------------------------------------------------------- the iteration as intended

  /** Each registered class answers to its own node id, a header node id in
      0..7, as `_node_by_id` is keyed by `NODE_ID`. */
  predicate ClassesWellFormed(classes: map<int, NodeClass>)
  {
    forall id | id in classes :: classes[id].nodeId == id && 0 <= id < 8
  }

  /** One frame with the intended clean-up: it is always handled. */
  function FrameStepIntended(reg: Registry, classes: map<int, NodeClass>, frame: Bytes): (r: Registry)
    requires |frame| > 0 && Registered(reg, classes)
    ensures Registered(r, classes)
  {
    var (reg2, raised) := Dispatch(reg, classes, frame);
    if raised.None? then reg2 else AfterErrorIntended(reg2, ParseHeader(frame[0]).0, raised.value).reg
  }

  /** Wherever the code as written handles a frame, the intended version
      does the same; the two differ only where the written one escapes. */
  lemma FrameStepAgrees(reg: Registry, classes: map<int, NodeClass>, frame: Bytes)
    requires |frame| > 0 && Registered(reg, classes)
    ensures FrameStep(reg, classes, frame).Handled? ==>
      FrameStepIntended(reg, classes, frame) == FrameStep(reg, classes, frame).reg
  {
  }

  /** The drain loop with the intended clean-up: it stops only at the end of
      the queue, and nothing escapes. */
  function DrainIntended(reg: Registry, classes: map<int, NodeClass>, frames: seq<Bytes>): (r: Drained)
    requires Registered(reg, classes)
    ensures Registered(r.reg, classes)
    ensures r.consumed <= |frames| && r.escaped == None
    decreases |frames|
  {
    if |frames| == 0 || frames[0] == [] then Drained(reg, 0, None)
    else Offset(DrainIntended(FrameStepIntended(reg, classes, frames[0]), classes, frames[1..]), 1)
  }

  /** The intended drain reads every frame up to the first empty one. */
  lemma {:induction false} DrainIntendedReadsAll(reg: Registry, classes: map<int, NodeClass>, frames: seq<Bytes>)
    requires Registered(reg, classes)
    requires forall i | 0 <= i < |frames| :: frames[i] != []
    ensures DrainIntended(reg, classes, frames).consumed == |frames|
    decreases |frames|
  {
    if |frames| > 0 {
      DrainIntendedReadsAll(FrameStepIntended(reg, classes, frames[0]), classes, frames[1..]);
    }
  }

  /** Where the drain as written lets nothing escape, the intended one ends
      in the same registry after the same frames. */
  lemma {:induction false} DrainAgrees(reg: Registry, classes: map<int, NodeClass>, frames: seq<Bytes>)
    requires Registered(reg, classes)
    ensures Drain(reg, classes, frames).escaped.None? ==>
      DrainIntended(reg, classes, frames) == Drain(reg, classes, frames)
    decreases |frames|
  {
    if |frames| > 0 && frames[0] != [] {
      FrameStepAgrees(reg, classes, frames[0]);
      var step := FrameStep(reg, classes, frames[0]);
      if step.Handled? {
        DrainAgrees(step.reg, classes, frames[1..]);
      }
    }
  }

  /** A frame from an unregistered node: the drain as written stops on it
      with AttributeError, the intended one skips it and reads on. */
  lemma UnregisteredFrameInDrain(reg: Registry, classes: map<int, NodeClass>, frame: Bytes, rest: seq<Bytes>)
    requires |frame| > 0 && Registered(reg, classes)
    requires ParseHeader(frame[0]).0 !in classes
    ensures Drain(reg, classes, [frame] + rest) == Drained(reg, 1, Some(AttributeError))
    ensures DrainIntended(reg, classes, [frame] + rest) == Offset(DrainIntended(reg, classes, rest), 1)
  {
    UnregisteredFrameEscapes(reg, classes, frame);
    UnregisteredFrameSkipped(reg, classes, frame);
    assert ([frame] + rest)[1..] == rest;
  }

  /** `_iteration` as intended: drain with the intended clean-up, then give
      every active node one `send_ping`. Nothing escapes. */
  function IterationIntendedSpec(reg: Registry, classes: map<int, NodeClass>, frames: seq<Bytes>, failing: set<int>): (r: (Registry, nat))
    requires Registered(reg, classes)
    ensures Registered(r.0, classes)
    ensures r.0.Keys == DrainIntended(reg, classes, frames).reg.Keys
  {
    var d := DrainIntended(reg, classes, frames);
    (PingAllSpec(d.reg, classes, failing), d.consumed)
  }

  /** One lamp frame into an empty registry, as intended: a fresh lamp that
      has counted one call towards its next PING, and no exception. */
  lemma LampFrameIntended(frame: Bytes)
    requires |frame| > 0 && ParseHeader(frame[0]).0 == 1
    ensures IterationIntendedSpec(map[], ShippedNodes, [frame], {}) == (map[1 := Fresh.(loopsWithoutPing := 1)], 1)
  {
    ShippedLampFrame(map[], frame);
    assert [frame][1..] == [];
    assert DrainIntended(map[], ShippedNodes, [frame]) == Drained(map[1 := Fresh], 1, None);
    var p := PingAllSpec(map[1 := Fresh], ShippedNodes, {});
    assert p[1] == Fresh.(loopsWithoutPing := 1);
    assert p == map[1 := Fresh.(loopsWithoutPing := 1)];
  }

  // ---------------------------------------------------------------- the object

  class WirelessSensor {
    const nodeById: map<int, NodeClass>
    var activeNodes: map<int, Node>

    /** Active nodes are registered, of their registered class, and distinct. */
    ghost predicate Valid()
      reads this
    {
      && ClassesWellFormed(nodeById)
      && activeNodes.Keys <= nodeById.Keys
      && (forall id | id in activeNodes :: activeNodes[id].cls == nodeById[id])
      && (forall a, b | a in activeNodes && b in activeNodes && a != b :: activeNodes[a] != activeNodes[b])
    }

    ghost function View(): (r: Registry)
      reads this, activeNodes.Values
      ensures r.Keys == activeNodes.Keys
    {
      map id | id in activeNodes :: activeNodes[id].View()
    }

    /** `__init__`, less the radio set-up. */
    constructor ()
      ensures Valid() && nodeById == ShippedNodes && activeNodes == map[]
    {
      nodeById := ShippedNodes;
      activeNodes := map[];
    }

    /** `_get_or_create_node`. */
    method GetOrCreateNode(id: int) returns (node: Node?, raised: Option<Exc>)
      requires Valid()
      modifies this
      ensures Valid()
      ensures GetOrCreate(old(View()), nodeById, id) == if raised.None? then Ok(View()) else Raised(raised.value)
      ensures raised.None? <==> node != null
      ensures raised.Some? ==> activeNodes == old(activeNodes)
      ensures node != null ==> id in activeNodes && activeNodes[id] == node
      ensures forall n | n in activeNodes.Values :: n in old(activeNodes.Values) || fresh(n)
    {
      if id !in activeNodes || activeNodes[id].state == Online {
        if id !in nodeById {
          return null, Some(SensorError(NodeNotFound(id)));
        }
        node := new Node(nodeById[id]);
        ghost var before := View();
        activeNodes := activeNodes[id := node];
        assert View() == before[id := Fresh];
        raised := None;
      } else {
        node := activeNodes[id];
        raised := None;
      }
    }

    /** `_terminate_node`. */
    method TerminateNode(id: int)
      requires Valid()
      modifies this
      ensures Valid()
      ensures View() == TerminateSpec(old(View()), id)
      ensures activeNodes.Values <= old(activeNodes.Values)
    {
      if id !in activeNodes {
        return;
      }
      ghost var before := View();
      activeNodes := activeNodes - {id};
      assert View() == before - {id};
    }

    /** `_cleanup_node`. */
    method CleanupNode(id: int) returns (raised: Option<Exc>)
      requires Valid()
      modifies this
      ensures Valid()
      ensures CleanupSpec(old(View()), id) == if raised.None? then Ok(View()) else Raised(raised.value)
      ensures raised.Some? ==> activeNodes == old(activeNodes)
      ensures activeNodes.Values <= old(activeNodes.Values)
    {
      if id !in activeNodes {
        return Some(AttributeError);
      }
      if activeNodes[id].state == Offline {
        ghost var before := View();
        activeNodes := activeNodes - {id};
        assert View() == before - {id};
      }
      raised := None;
    }

    /** `node.process_new_message(frame)` on the active node of `id`. */
    method ProcessAt(id: int, frame: Bytes) returns (raised: Option<Exc>)
      requires Valid() && id in activeNodes
      modifies activeNodes[id]
      ensures var step := MessageStep(old(View())[id], nodeById[id].fieldNames, frame);
        View() == old(View())[id := step.view] && raised == step.raised
    {
      var node := activeNodes[id];
      ghost var v0 := View();
      raised := node.ProcessNewMessage(frame);
      assert forall k | k in activeNodes && k != id :: activeNodes[k] != node;
      assert forall k | k in activeNodes && k != id :: View()[k] == v0[k];
    }

    /** The `try` part of the drain loop for one frame. */
    method DispatchFrame(frame: Bytes) returns (raised: Option<Exc>)
      requires Valid() && |frame| > 0
      modifies this, activeNodes.Values
      ensures Valid()
      ensures Dispatch(old(View()), nodeById, frame) == (View(), raised)
      ensures forall n | n in activeNodes.Values :: n in old(activeNodes.Values) || fresh(n)
    {
      var id := ParseHeader(frame[0]).0;
      ghost var reg0 := View();
      var node;
      node, raised := GetOrCreateNode(id);
      ghost var reg1 := View();
      if raised.None? {
        assert GetOrCreate(reg0, nodeById, id) == Ok(reg1);
        raised := ProcessAt(id, frame);
      } else {
        assert reg1 == reg0;
      }
    }

    /** The `except` clause of the drain loop for the exception `e`. */
    method Except(id: int, e: Exc) returns (escaped: Option<Exc>)
      requires Valid()
      modifies this
      ensures Valid()
      ensures AfterError(old(View()), id, e) == if escaped.None? then Handled(View()) else Escaped(View(), escaped.value)
      ensures activeNodes.Values <= old(activeNodes.Values)
    {
      escaped := None;
      if e.SensorError? {
        escaped := CleanupNode(id);
      } else {
        TerminateNode(id);
      }
    }

    /** The body of the drain loop for one frame, with its `except` clause. */
    method HandleFrame(frame: Bytes) returns (escaped: Option<Exc>)
      requires Valid() && |frame| > 0
      modifies this, activeNodes.Values
      ensures Valid()
      ensures FrameStep(old(View()), nodeById, frame) ==
        if escaped.None? then Handled(View()) else Escaped(View(), escaped.value)
      ensures forall n | n in activeNodes.Values :: n in old(activeNodes.Values) || fresh(n)
    {
      var id := ParseHeader(frame[0]).0;
      ghost var reg0 := View();
      var raised := DispatchFrame(frame);
      ghost var reg2 := View();
      assert FrameStep(reg0, nodeById, frame) == if raised.None? then Handled(reg2) else AfterError(reg2, id, raised.value);
      escaped := None;
      if raised.Some? {
        escaped := Except(id, raised.value);
      }
    }

    /** `_iteration` over the frames the radio holds: drain them, then the
        ping loop as written. `consumed` counts the frames read. */
    method Iteration(frames: seq<Bytes>) returns (consumed: nat, raised: Option<Exc>)
      requires Valid()
      modifies this, activeNodes.Values
      ensures Valid()
      ensures IterationSpec(old(View()), nodeById, frames) == Drained(View(), consumed, raised)
    {
      ghost var d0 := Drain(View(), nodeById, frames);
      var i := 0;
      raised := None;
      while i < |frames| && frames[i] != [] && raised.None?
        invariant 0 <= i <= |frames|
        invariant Valid()
        invariant forall n | n in activeNodes.Values :: n in old(activeNodes.Values) || fresh(n)
        invariant raised.None? ==> d0 == Offset(Drain(View(), nodeById, frames[i..]), i)
        invariant raised.Some? ==> d0 == Drained(View(), i, raised)
        decreases |frames| - i
      {
        ghost var v := View();
        assert frames[i..][0] == frames[i] && frames[i..][1..] == frames[i + 1..];
        raised := HandleFrame(frames[i]);
        i := i + 1;
      }
      consumed := i;
      if raised.None? {
        assert Drain(View(), nodeById, frames[i..]) == Drained(View(), 0, None);
        if activeNodes != map[] {
          raised := Some(AttributeError);
        }
      }
    }

    /** `_cleanup_node` as evidently intended. */
    method CleanupNodeIntended(id: int)
      requires Valid()
      modifies this
      ensures Valid()
      ensures View() == CleanupIntended(old(View()), id)
      ensures activeNodes.Values <= old(activeNodes.Values)
    {
      if id in activeNodes && activeNodes[id].state == Offline {
        ghost var before := View();
        activeNodes := activeNodes - {id};
        assert View() == before - {id};
      }
    }

    /** The body of the drain loop with the intended clean-up. */
    method HandleFrameIntended(frame: Bytes)
      requires Valid() && |frame| > 0
      modifies this, activeNodes.Values
      ensures Valid()
      ensures View() == FrameStepIntended(old(View()), nodeById, frame)
      ensures forall n | n in activeNodes.Values :: n in old(activeNodes.Values) || fresh(n)
    {
      var id := ParseHeader(frame[0]).0;
      var raised := DispatchFrame(frame);
      if raised.Some? {
        if raised.value.SensorError? {
          CleanupNodeIntended(id);
        } else {
          TerminateNode(id);
        }
      }
    }

    /** The drain loop with the intended clean-up: every frame up to the
        first empty one is read and handled. */
    method DrainFramesIntended(frames: seq<Bytes>) returns (consumed: nat)
      requires Valid()
      modifies this, activeNodes.Values
      ensures Valid()
      ensures DrainIntended(old(View()), nodeById, frames) == Drained(View(), consumed, None)
      ensures forall n | n in activeNodes.Values :: n in old(activeNodes.Values) || fresh(n)
    {
      ghost var d0 := DrainIntended(View(), nodeById, frames);
      var i := 0;
      while i < |frames| && frames[i] != []
        invariant 0 <= i <= |frames|
        invariant Valid()
        invariant forall n | n in activeNodes.Values :: n in old(activeNodes.Values) || fresh(n)
        invariant d0 == Offset(DrainIntended(View(), nodeById, frames[i..]), i)
        decreases |frames| - i
      {
        ghost var v := View();
        assert frames[i..][0] == frames[i] && frames[i..][1..] == frames[i + 1..];
        HandleFrameIntended(frames[i]);
        assert DrainIntended(v, nodeById, frames[i..]) == Offset(DrainIntended(View(), nodeById, frames[i + 1..]), 1);
        i := i + 1;
      }
      assert DrainIntended(View(), nodeById, frames[i..]) == Drained(View(), 0, None);
      consumed := i;
    }

    /** `_iteration` as evidently intended: drain every frame, then ping every
        active node. Nothing escapes; `consumed` counts the frames read. */
    method IterationIntended(frames: seq<Bytes>, failing: set<int>) returns (consumed: nat)
      requires Valid()
      modifies this, activeNodes.Values
      ensures Valid()
      ensures IterationIntendedSpec(old(View()), nodeById, frames, failing) == (View(), consumed)
    {
      ghost var reg0 := View();
      consumed := DrainFramesIntended(frames);
      ghost var reg1 := View();
      assert DrainIntended(reg0, nodeById, frames) == Drained(reg1, consumed, None);
      PingAll(failing);
    }

    /** The ping loop as evidently intended: every active node gets one
        `send_ping` (the node id in `failing` when its radio send fails); a
        SensorError only calls the node's `terminate`, which does nothing, so
        no exception escapes and the registry keeps every node. */
    method PingAll(failing: set<int>)
      requires Valid()
      modifies activeNodes.Values
      ensures Valid()
      ensures View() == PingAllSpec(old(View()), nodeById, failing)
    {
      ghost var before := View();
      ghost var after := PingAllSpec(before, nodeById, failing);
      var pending := activeNodes.Keys;
      while pending != {}
        invariant pending <= activeNodes.Keys
        invariant View() == PingSome(before, after, pending)
        decreases pending
      {
        // A set with no member is empty, so `pending` has one.
        if forall k :: k !in pending {
          assert false;
        }
        var id :| id in pending;
        PingNode(id, id !in failing);
        assert View() == PingSome(before, after, pending)[id := after[id]];
        pending := pending - {id};
      }
    }

    method PingNode(id: int, delivered: bool)
      requires Valid() && id in activeNodes
      modifies activeNodes[id]
      ensures View() == old(View())[id := PingStep(old(View())[id], nodeById[id], delivered).view]
    {
      var node := activeNodes[id];
      ghost var v0 := View();
      var pingRaised := node.SendPing(delivered);
      // the `except SensorError` clause catches whatever was raised
      assert pingRaised.None? || pingRaised.value.SensorError?;
      assert forall k | k in activeNodes && k != id :: activeNodes[k] != node;
      assert forall k | k in activeNodes && k != id :: View()[k] == v0[k];
    }
  }

  ghost function PingSome(before: Registry, after: Registry, pending: set<int>): (r: Registry)
    requires before.Keys == after.Keys
  {
    map id | id in before :: if id in pending then before[id] else after[id]
  }

  /** Every active node after one `send_ping` each. */
  function PingAllSpec(reg: Registry, classes: map<int, NodeClass>, failing: set<int>): (r: Registry)
    requires Registered(reg, classes)
    ensures r.Keys == reg.Keys
  {
    map id | id in reg :: PingStep(reg[id], classes[id], id !in failing).view
  }

  /** The corrected ping loop keeps every node, and ten iterations of it give
      each fresh node exactly one PING. */
  lemma {:induction false} PingAllCadence(reg: Registry, classes: map<int, NodeClass>, id: int, k: nat)
    requires Registered(reg, classes) && id in reg && reg[id].loopsWithoutPing < PingEveryNLoops
    ensures PingAllRun(reg, classes, k).Keys == reg.Keys
    ensures PingAllRun(reg, classes, k)[id] == PingRun(reg[id], classes[id], k, _ => true).0
    decreases k
  {
    if k > 0 {
      PingAllCadence(reg, classes, id, k - 1);
    }
  }

  /** `k` corrected ping loops in which every radio send succeeds. */
  function PingAllRun(reg: Registry, classes: map<int, NodeClass>, k: nat): (r: Registry)
    requires Registered(reg, classes)
    ensures r.Keys == reg.Keys
    decreases k
  {
    if k == 0 then reg else PingAllSpec(PingAllRun(reg, classes, k - 1), classes, {})
  }
}
