# Flid sensor communicator, modelled in Dafny

This project models the core of the Flid home-automation hub's sensor layer.
The hub talks to radio devices ("nodes") over a one-byte-header frame
protocol, and it relays sensor records to TCP clients through a small
publish/subscribe broker. The model covers these parts:

- the generic sensor driver: its key-value store, the class-level list of
  started sensors, and one pass of the polling loop with its error count
  (`sensor_driver.dfy`, module `SensorDriver`);
- the radio frame codec, class `Message`: the packed header (node id in the
  low three bits, type above them), `parse` of inbound frames and `format` of
  outbound ones (`wireless_message.dfy`, module `WirelessMessage`);
- the hub-side proxy of one device, class `Node`: the field cache, the counter
  of failed sends that gives up at five, and the ping every ten calls
  (`wireless_node.dfy`, module `WirelessNode`);
- the node registry, class `WirelessSensor`: creating, terminating and
  cleaning up nodes as frames arrive, and one `_iteration`, which drains the
  inbound frames and runs the ping loop (`wireless_sensor.dfy`, module
  `WirelessRegistry`);
- the lamp and weather device classes (`power_control.dfy`, `weather.dfy`);
- `to_bool` (`wireless_utils.dfy`);
- the subscriber broker `SocketServer`: open connections, subscriptions by
  (sensor, stream), broadcast with the clean-up of dead subscribers, the
  queue of incoming records, and the handling of one epoll event
  (`socket_server.dfy`, module `SocketBroker`);
- the few Python semantics these need: exceptions as values, bytes,
  `str.lower` on ASCII, and `list.remove` (`python.dfy`, module `Python`).

Objects whose fields the source updates are classes: `Node`,
`WirelessSensor`, `SocketServer`, `Sensor` and the `_active_sensors` list
(`ActiveSensors`). `Node`, `WirelessSensor` and `SocketServer` each have a
`View()` of their state as a value. Each of their methods' `ensures` ties the
new view, and what the method returned or raised, to a specification function
of the old view. The properties are proved about those functions as lemmas.
The methods of `Sensor` and `ActiveSensors` state their fields directly. Exceptions are values: a function returns
`Result` (either `Ok(value)` or `Raised(exc)`), and a method returns the
exception it raised as an `Option<Exc>`. The radio and the sockets are replaced by oracle
parameters, as follows:

- `delivered: bool` says whether the radio took a frame;
- `ok(i)` says whether `sendall` to the i-th subscriber went through;
- `failing` is the set of node ids whose ping send fails;
- the broker receives parsed JSON values, and the result of each `recv`.

The model follows the code, including where the code is surprising:

- Records name their sensor under `'sensor_name'`
  (`sensors/socket_server.py:96`).
- `Message.parse` overwrites the parsed type with the whole header byte
  (`sensors/wireless/base.py:61`), so only header bytes 0 and 3 are accepted.
  A FIELD_RESPONSE packed the documented way (`node_id + 8 * 3`) never
  parses.
- The success branch of `Sensor._loop` assigns `errors_count` instead of
  `_errors_count` (`sensors/base.py:80`), so the error count is never reset.
- At the threshold the loop calls `set_value(ERROR_VALUE)` with one argument,
  which raises TypeError and kills the thread (`sensors/base.py:77`).
- A None `ERRORS_THRESHOLD` is reached by the first SensorError, since
  Python 2 orders every integer above None. `WirelessSensor` declares None
  but never gets that far: it skips `Sensor.__init__`, so `start` and
  `_loop` fail with AttributeError before any comparison (see "Left out").
- `send_data` writes `_state`, a field nothing reads
  (`sensors/wireless/base.py:156`). Only the fifth failure in a row sets
  `state` to offline.
- The lamp's ON/OFF types (255/254) pack to headers 2041/2033, which `chr`
  rejects. `set_power_state` therefore always raises ValueError, and nothing
  is sent.

`WirelessSensor._iteration` is modelled twice. `Iteration` follows the code
as written. `IterationIntended` uses the corrected clean-up and ping loop:
it reads every frame, pings every node, and lets no exception escape. The
three places where the source evidently means something else are listed
under "Findings". `Format` uses the corrected `field_id`.

## Model

| member | source | states |
|---|---|---|
| Python.Remove | sensors/base.py:33 | `list.remove`: a value not in the list leaves it unchanged; otherwise the list is one shorter |
| Python.RemoveMultiset | sensors/base.py:33 | removing a present value takes exactly one occurrence of it out of the multiset of elements |
| WirelessUtils.ToBool | sensors/wireless/utils.py:5-9 | a string is true iff its lower-cased form is one of "1", "y", "yes", "true"; every other value is true iff it is truthy |
| WirelessUtils.ToBoolStringIff | sensors/wireless/utils.py:5-7 | a string is true exactly when it spells one of the four words in any mixture of letter case (stated without `lower`) |
| WirelessUtils.ToBoolCaseInsensitive | sensors/wireless/utils.py:7 | the result for a string equals the result for its lower-cased form |
| WirelessUtils.ToBoolRejectsPadding | sensors/wireless/utils.py:7 | no string with a leading space is true: nothing is stripped |
| WirelessUtils.ToBoolExamples | sensors/wireless/utils.py:5-9 | "0", "no" and "" are false; "TRUE", "Yes" and "Y" are true; an int is true iff it is nonzero; None is false |
| WirelessUtils.ToBoolIdempotent | sensors/wireless/utils.py:5-9 | applying `to_bool` to its own result gives the same answer |
| WirelessMessage.ParseHeader | sensors/wireless/base.py:43-52 | the node id is in 0..7, and node id + 8 * type gives back the header |
| WirelessMessage.HeaderRoundTrip | sensors/wireless/base.py:43-56 | a header packed from a node id in 0..7 and any type splits back into that id and type |
| WirelessMessage.FormatHeader | sensors/wireless/base.py:54-56 | succeeds iff the node id is in 0..7 and the type in 0..31; AssertionError for a bad node id, ValueError when the packed value exceeds one byte; a success parses back to (node id, type) |
| WirelessMessage.FieldId | sensors/wireless/base.py:37-41 | (corrected) succeeds iff the field name is set and some id of FIELD_NAMES carries it, giving that id; KeyError otherwise |
| WirelessMessage.FieldIdInvertsTable | sensors/wireless/base.py:37-41 | looking up the name of any id of FIELD_NAMES gives that id back |
| WirelessMessage.FieldIdAsWritten | sensors/wireless/base.py:40-41 | as written: KeyError for an empty FIELD_NAMES, TypeError for any non-empty one (iterating a dict yields int keys, which cannot be unpacked) |
| WirelessMessage.FieldIdAsWrittenCounterexample | sensors/wireless/base.py:40 | for FIELD_NAMES {5: "power"}, the code as written raises TypeError on "power", where the intended lookup gives 5 |
| WirelessMessage.Parse | sensors/wireless/base.py:58-78 | an empty frame raises IndexError (the other outcomes are stated by `ParseOutcomes`) |
| WirelessMessage.ParseOutcomes | sensors/wireless/base.py:58-78 | a success has header 0 (PING, no data) or 3 (FIELD_RESPONSE with a known, non-empty field name and the bytes after the field id as data); any other header raises SensorError(unexpected type); the node id is header % 8 |
| WirelessMessage.ParsePing | sensors/wireless/base.py:66-67 | the frame [0] followed by anything parses as a PING from node 0 |
| WirelessMessage.ParseFieldResponse | sensors/wireless/base.py:69-74 | [3, field id] + payload parses to the field's name with the payload as data, or SensorError(unknown field) when the id is unmapped |
| WirelessMessage.PackedHeadersRejected | sensors/wireless/base.py:60-61 | every header packed as node id + 8 * type, other than the bytes 0 and 3, is rejected as an unexpected type |
| WirelessMessage.FieldIdByte | sensors/wireless/base.py:84 | a successful field-id byte is an id of FIELD_NAMES carrying the message's field name |
| WirelessMessage.Format | sensors/wireless/base.py:80-89 | a success starts with the header parsing to (node id, type); FIELD_REQUEST is 2 bytes, FIELD_SET is 2 plus the data, others 1; a header error propagates |
| WirelessMessage.FormatSucceedsIff | sensors/wireless/base.py:80-89 | `format` succeeds exactly when the header fits and, for the field types, the field id resolves to a byte (and FIELD_SET has data) |
| WirelessMessage.ReadOutbound | sensors/wireless/base.py:80-89 | the reference reader of outbound frames: a frame it reads has the message's id and type in its first byte, a field name from the table, and data exactly for FIELD_SET |
| WirelessMessage.FormatRoundTrip | sensors/wireless/base.py:80-89 | every outbound message `format` accepts reads back as itself (header, field id and value) |
| WirelessNode.SendStep | sensors/wireless/base.py:145-164 | a format error escapes with the node unchanged; the cache and ping counter are never touched; a node only goes offline, never back online |
| WirelessNode.SendCounter | sensors/wireless/base.py:145-164 | success resets the failure counter, failure adds one; the call raises iff the counter becomes 5, and then the node is offline with "request failed 5 times" |
| WirelessNode.FailSteps | sensors/wireless/base.py:145-164 | k calls of `send_data` on which the radio fails, one step per call |
| WirelessNode.ConsecutiveFailures | sensors/wireless/base.py:158-164 | the j-th of a run of failures leaves the counter at start + j + 1 and raises iff that is 5; from then on the node stays offline; the cache is kept |
| WirelessNode.FourFailuresThenSuccess | sensors/wireless/base.py:146-164 | four failures raise nothing and a following success clears the counter; the fifth failure in a row raises |
| WirelessNode.PingStep | sensors/wireless/base.py:166-178 | the ping counter goes up by one; below ten nothing is sent, otherwise the counter is reset to 0 and a PING goes through `send_data` |
| WirelessNode.PingRun | sensors/wireless/base.py:166-178 | k calls of `send_ping` keep the cache and hand at most k PINGs to `send_data` |
| WirelessNode.PingCadence | sensors/wireless/base.py:166-178 | from a counter c below ten, k calls send (c + k) / 10 PINGs and leave the counter at (c + k) % 10, whatever the radio does |
| WirelessNode.MessageStep | sensors/wireless/base.py:180-184 | processing a frame never changes the state or the two counters; a parse error escapes with the node unchanged |
| WirelessNode.OnlyFieldResponseWritesCache | sensors/wireless/base.py:183-184 | the cache changes only for a FIELD_RESPONSE frame whose field id is mapped |
| WirelessNode.ResponseStoresValue | sensors/wireless/base.py:180-184 | a FIELD_RESPONSE for a known field stores the payload under the field's name and changes nothing else |
| WirelessNode.UnknownFieldLeavesCache | sensors/wireless/base.py:70-72 | an unmapped field id raises SensorError(unknown field) and leaves the node unchanged |
| WirelessNode.Node.constructor | sensors/wireless/base.py:111-115 | a new node is online, with an empty cache and both counters at zero |
| WirelessNode.Node.GetValue | sensors/wireless/base.py:117-118 | the cached value of a field, none iff no value has arrived for it |
| WirelessNode.Node.SendData | sensors/wireless/base.py:145-164 | the node afterwards and what is raised are those of `SendStep` for the formatted message |
| WirelessNode.Node.AskForValue | sensors/wireless/base.py:120-127 | sends a FIELD_REQUEST for the field from the node's id, with `SendStep`'s effect |
| WirelessNode.Node.SetValue | sensors/wireless/base.py:129-137 | sends a FIELD_SET of the field to the value from the node's id, with `SendStep`'s effect |
| WirelessNode.Node.SendPing | sensors/wireless/base.py:166-178 | the node afterwards and what is raised are those of `PingStep`; for a node id that fits the header only SensorError can be raised |
| WirelessNode.Node.ProcessNewMessage | sensors/wireless/base.py:180-184 | the node afterwards and what is raised are those of `MessageStep` |
| PowerControl.ParseRawData | sensors/wireless/power_control.py:19-23 | an empty status raises IndexError |
| PowerControl.ParsedStatusIsPowerFlag | sensors/wireless/power_control.py:19-23 | the parsed status has exactly the allowed key `power_on`, holding the first byte; later bytes are ignored |
| PowerControl.PowerMessage | sensors/wireless/power_control.py:48-55 | the message goes to node 1 with type ON (255) for true and OFF (254) for false, without field or data |
| PowerControl.PowerMessageNotEncodable | sensors/wireless/power_control.py:32-34 | ON and OFF pack to headers 2041 and 2033, so `format` raises ValueError for both |
| PowerControl.RequestedPower | sensors/wireless/power_control.py:25-29 | there is no request iff `power_on` is absent; otherwise the request is `to_bool` of its value |
| PowerControl.SetPowerState | sensors/wireless/power_control.py:48-55 | the effect is `SendStep` of the ON/OFF message, which always raises ValueError and leaves the node unchanged |
| PowerControl.ApplyNewState | sensors/wireless/power_control.py:25-29 | calls `set_power_state` with `to_bool(new['power_on'])` when the key is there; otherwise nothing happens |
| Weather.ParseRawData | sensors/wireless/weather.py:17-22 | a status shorter than two bytes raises IndexError |
| Weather.ParsedReading | sensors/wireless/weather.py:17-22 | exactly the keys humidity (second byte, 0..255) and temperature (first byte minus 100, -100..155); later bytes are ignored |
| Weather.ParseRawDataInjective | sensors/wireless/weather.py:17-22 | equal readings come from equal first two bytes |
| WirelessRegistry.GetOrCreate | sensors/wireless/base.py:213-226 | a missing or ONLINE node is replaced by a fresh node of its registered class; an id with no class raises SensorError(not found) and changes nothing; an OFFLINE node is kept; other ids are untouched |
| WirelessRegistry.TerminateSpec | sensors/wireless/base.py:228-236 | the id is no longer active and every other node is unchanged |
| WirelessRegistry.CleanupSpec | sensors/wireless/base.py:238-244 | an OFFLINE node is dropped and an ONLINE one kept; an absent id raises AttributeError iff it is absent |
| WirelessRegistry.Dispatch | sensors/wireless/base.py:256-260 | routing a frame keeps every active node registered and can only add the frame's node id |
| WirelessRegistry.FrameStep | sensors/wireless/base.py:256-269 | one frame with its `except` clause keeps every active node registered |
| WirelessRegistry.UnregisteredFrameEscapes | sensors/wireless/base.py:259-264 | a frame from a node id with no class ends in AttributeError escaping, with the registry unchanged |
| WirelessRegistry.ShippedRegistryRefusesWeather | sensors/wireless/base.py:206-221 | with the shipped table, a weather frame (node id 2) is refused with SensorError(node not found) and ends the drain with AttributeError |
| WirelessRegistry.CleanupIntended | sensors/wireless/base.py:238-244 | (corrected) an absent id is skipped; an OFFLINE node is dropped, an ONLINE one kept |
| WirelessRegistry.AfterError | sensors/wireless/base.py:261-267 | the `except` clause never adds a node; it lets AttributeError out exactly when a SensorError comes from an id with no node, leaving the registry unchanged |
| WirelessRegistry.AfterErrorIntended | sensors/wireless/base.py:261-267 | (corrected) the `except` clause never lets an exception out |
| WirelessRegistry.UnregisteredFrameSkipped | sensors/wireless/base.py:216-221 | with the corrected clean-up, a frame from an unregistered node raises SensorError(not found) and is skipped, leaving the registry as it was |
| WirelessRegistry.ShippedLampFrame | sensors/wireless/base.py:206-208 | with only the lamp registered, a lamp frame never parses: it resets the lamp to a fresh node, or drops it when it is offline |
| WirelessRegistry.Drain | sensors/wireless/base.py:251-269 | the drain loop keeps every node registered and reads no more frames than were queued |
| WirelessRegistry.IterationSpec | sensors/wireless/base.py:246-277 | as written, `_iteration` finishes without an exception only when no node is active afterwards |
| WirelessRegistry.ShippedDrainCachesNothing | sensors/wireless/base.py:251-269 | with only the lamp registered, no node ever holds a cached field, however many frames arrive |
| WirelessRegistry.LampFrameEndsInAttributeError | sensors/wireless/base.py:271-277 | one lamp frame into an empty registry installs a fresh lamp, and the ping loop then raises AttributeError |
| WirelessRegistry.FrameStepIntended | sensors/wireless/base.py:256-269 | (corrected) one frame with the intended clean-up keeps every active node registered |
| WirelessRegistry.FrameStepAgrees | sensors/wireless/base.py:256-269 | wherever the code as written handles a frame, the corrected version ends in the same registry |
| WirelessRegistry.DrainIntended | sensors/wireless/base.py:251-269 | (corrected) the drain keeps every node registered and reads no more frames than were queued |
| WirelessRegistry.DrainIntendedReadsAll | sensors/wireless/base.py:251-254 | (corrected) the drain reads every frame up to the first empty read |
| WirelessRegistry.DrainAgrees | sensors/wireless/base.py:251-269 | wherever the drain as written lets nothing escape, the corrected one ends in the same registry after the same number of frames |
| WirelessRegistry.UnregisteredFrameInDrain | sensors/wireless/base.py:258-264 | a frame from an unregistered node stops the drain as written with AttributeError; the corrected drain skips it and reads on |
| WirelessRegistry.IterationIntendedSpec | sensors/wireless/base.py:246-277 | (corrected) the ping loop keeps every node the drain left, and every node stays registered |
| WirelessRegistry.LampFrameIntended | sensors/wireless/base.py:246-277 | (corrected) one lamp frame into an empty registry leaves a fresh lamp that has counted one call towards its next PING, with no exception |
| WirelessNode.PingRaisesOnlySensorError | sensors/wireless/base.py:166-178 | a PING from a node whose id fits the header always formats, so `send_ping` raises nothing but SensorError, which the loop's `except` catches |
| WirelessRegistry.WirelessSensor.constructor | sensors/wireless/base.py:201-209 | the registry knows only the lamp class and has no active node |
| WirelessRegistry.WirelessSensor.GetOrCreateNode | sensors/wireless/base.py:213-226 | the registry afterwards is `GetOrCreate`'s; the returned node is the one now active for the id; on error nothing changes |
| WirelessRegistry.WirelessSensor.TerminateNode | sensors/wireless/base.py:228-236 | the registry afterwards is `TerminateSpec`'s |
| WirelessRegistry.WirelessSensor.CleanupNode | sensors/wireless/base.py:238-244 | the registry afterwards and what is raised are `CleanupSpec`'s |
| WirelessRegistry.WirelessSensor.ProcessAt | sensors/wireless/base.py:260 | only the node at that id changes, to what `process_new_message` makes of the frame, and what it raises is returned |
| WirelessRegistry.WirelessSensor.Except | sensors/wireless/base.py:261-267 | a SensorError cleans the node up, anything else terminates it, exactly as `AfterError` says; no node is added |
| WirelessRegistry.WirelessSensor.DispatchFrame | sensors/wireless/base.py:256-260 | the registry afterwards and what is raised are `Dispatch`'s |
| WirelessRegistry.WirelessSensor.HandleFrame | sensors/wireless/base.py:256-269 | the registry afterwards and what escapes are `FrameStep`'s |
| WirelessRegistry.WirelessSensor.Iteration | sensors/wireless/base.py:246-277 | the registry afterwards, the number of frames read and what escapes are `IterationSpec`'s |
| WirelessRegistry.WirelessSensor.CleanupNodeIntended | sensors/wireless/base.py:238-244 | (corrected) the registry afterwards is `CleanupIntended`'s |
| WirelessRegistry.WirelessSensor.HandleFrameIntended | sensors/wireless/base.py:256-269 | (corrected) the registry afterwards is `FrameStepIntended`'s |
| WirelessRegistry.WirelessSensor.DrainFramesIntended | sensors/wireless/base.py:251-269 | (corrected) the registry afterwards and the number of frames read are `DrainIntended`'s |
| WirelessRegistry.WirelessSensor.IterationIntended | sensors/wireless/base.py:246-277 | (corrected) the registry afterwards and the number of frames read are `IterationIntendedSpec`'s; nothing escapes |
| WirelessRegistry.WirelessSensor.PingAll | sensors/wireless/base.py:271-277 | (corrected ping loop) every active node has had exactly one `send_ping`, and the registry keeps every node |
| WirelessRegistry.WirelessSensor.PingNode | sensors/wireless/base.py:273-277 | one node gets one `send_ping` (its SensorError caught) and no other node changes |
| WirelessRegistry.PingAllSpec | sensors/wireless/base.py:271-277 | (corrected) the ping loop keeps the set of active ids |
| WirelessRegistry.PingAllCadence | sensors/wireless/base.py:271-277 | (corrected) k ping loops keep every node, and each node's state is that of k `send_ping` calls, so a fresh node gets one PING per ten loops |
| WirelessRegistry.PingAllRun | sensors/wireless/base.py:271-277 | (corrected) repeated ping loops keep the set of active ids |
| SocketBroker.SetDefault | sensors/socket_server.py:53 | both entries exist afterwards; only the sensor key may be added; no existing subscriber list changes |
| SocketBroker.Replace | sensors/socket_server.py:107-113 | only the (sensor, stream) list changes, to the given one |
| SocketBroker.Unregister | sensors/socket_server.py:85-89 | the connection leaves the open set; KeyError iff it was not open; subscriptions and queue untouched |
| SocketBroker.Unicast | sensors/socket_server.py:32-48 | a unicast never touches subscriptions or the queue and can only close connections |
| SocketBroker.UnicastOutcomes | sensors/socket_server.py:32-48 | success iff the connection is open and the send goes through; a failed send unregisters exactly that connection; subscriptions and queue never change |
| SocketBroker.Scan | sensors/socket_server.py:57-68 | the broadcast's first loop only ever closes connections |
| SocketBroker.ScanTakesFromList | sensors/socket_server.py:70-72 | the removal list is a sub-multiset of the subscriber list, so no `remove` raises ValueError |
| SocketBroker.Broadcast | sensors/socket_server.py:50-75 | a broadcast leaves the queue alone and can only close connections |
| SocketBroker.BroadcastFrame | sensors/socket_server.py:50-75 | a broadcast creates the (sensor, stream) entry, only closes connections, and changes no other list and not the queue |
| SocketBroker.ScanNoDup | sensors/socket_server.py:57-68 | without duplicates, the removal list holds exactly the closed and failed subscribers, and exactly the failed ones are closed |
| SocketBroker.RemoveAllNoDup | sensors/socket_server.py:70-72 | without duplicates, removing the queued connections one by one is filtering them all out |
| SocketBroker.BroadcastFiltersNoDup | sensors/socket_server.py:50-75 | without duplicates, the list afterwards is the subscribers that were open and whose send went through, in order; the failed ones are closed |
| SocketBroker.RemoveEach | sensors/socket_server.py:70-72 | the clean-up loop removes each queued connection once, in order |
| SocketBroker.MessageEffect | sensors/socket_server.py:91-115 | a record never opens or closes a connection, and a record that raises queues nothing |
| SocketBroker.RegisterEffect | sensors/socket_server.py:98-113 | the registration raises exactly when the sensor name or the stream is unhashable |
| SocketBroker.RegisterSubscribers | sensors/socket_server.py:98-113 | a registration that raises raises TypeError and adds no subscriber; otherwise it appends the connection to its own (sensor, stream) list and no other |
| SocketBroker.RegisterAppends | sensors/socket_server.py:98-113 | a `register` record appends the connection to exactly its (sensor, stream) list (stream '' by default) and queues nothing |
| SocketBroker.OtherRecordsQueued | sensors/socket_server.py:114-115 | any other record is queued as (sensor_name, data, fno) after the earlier ones |
| SocketBroker.MalformedRecords | sensors/socket_server.py:95-99 | non-JSON raises ValueError, a non-object TypeError, a missing sensor_name KeyError, all with nothing changed; a record that raises adds no subscriber |
| SocketBroker.TakeMessages | sensors/socket_server.py:77-83 | the records taken, followed by what is left queued, are exactly the queue before; connections and subscriptions are kept |
| SocketBroker.DrainTwice | sensors/socket_server.py:77-83 | taking the messages gives those queued, oldest first, and a second take gives nothing |
| SocketBroker.EventEffect | sensors/socket_server.py:117-145 | only the listening socket opens connections, and an event that raises changes nothing |
| SocketBroker.EventTransitions | sensors/socket_server.py:117-145 | accept opens the new connection; an empty read or a hangup closes it; a read with data runs `_process_message` and lets nothing escape; an event on an unknown connection raises KeyError |
| SocketBroker.EventsKeepSubscriptions | sensors/socket_server.py:117-145 | no event other than a read with data changes subscriptions or the queue |
| SocketBroker.SocketServer.constructor | sensors/socket_server.py:19-30 | no open connection, no subscription, an empty queue |
| SocketBroker.SocketServer.SendMessage | sensors/socket_server.py:32-48 | the result and the tables afterwards are `Unicast`'s |
| SocketBroker.SocketServer.ScanSubscribers | sensors/socket_server.py:57-68 | the removal list and the open set afterwards are `Scan`'s; subscriptions and queue unchanged |
| SocketBroker.SocketServer.SendBroadcastMessage | sensors/socket_server.py:50-75 | the tables afterwards are `Broadcast`'s |
| SocketBroker.SocketServer.GetMessages | sensors/socket_server.py:77-83 | returns the queue and empties it |
| SocketBroker.SocketServer.UnregisterSocket | sensors/socket_server.py:85-89 | the tables afterwards and what is raised are `Unregister`'s |
| SocketBroker.SocketServer.Register | sensors/socket_server.py:98-113 | the registrations afterwards and what is raised are `RegisterEffect`'s; connections and queue untouched |
| SocketBroker.SocketServer.ProcessMessage | sensors/socket_server.py:91-115 | the tables afterwards and what is raised are `MessageEffect`'s |
| SocketBroker.SocketServer.ProcessEvent | sensors/socket_server.py:117-145 | the tables afterwards and what escapes are `EventEffect`'s |
| SensorDriver.Lookup | sensors/base.py:44-48 | a value other than None was stored under the key |
| SensorDriver.StoreLaws | sensors/base.py:44-48 | an unset key reads as None; a set key reads back its value; other keys are unaffected |
| SensorDriver.LoopPass | sensors/base.py:64-80 | a pass adds at most one to the count; the thread dies only when not stopped and `_iteration` did not return, and never of a SensorError |
| SensorDriver.LoopPassCounts | sensors/base.py:64-80 | a pass returns iff `should_stop`; only a SensorError raises the count, by one; after a SensorError it dies of TypeError iff the threshold is reached; a pass dies only of TypeError or of the non-SensorError exception `_iteration` raised |
| SensorDriver.Run | sensors/base.py:64-80 | a run makes at most one pass per outcome and the count grows by at most one per pass; a run that dies does so in its last pass, never of a SensorError, and of the exception of that pass when `_iteration` raised something else |
| SensorDriver.RunCounts | sensors/base.py:64-80 | after a run, the count is the start plus the SensorErrors of the passes that ran: successes never reset it |
| SensorDriver.ThresholdKills | sensors/base.py:73-77 | with a numeric threshold, the thread dies (of TypeError, with the count at the threshold) iff the SensorErrors reach it, however many successes come between them |
| SensorDriver.NoneThresholdDiesAtFirstError | sensors/base.py:71-77 | with a None threshold, the first SensorError kills the thread with TypeError and the count at start + 1 |
| SensorDriver.ActiveSensors.constructor | sensors/base.py:17 | the list of started sensors is empty |
| SensorDriver.ActiveSensors.StopAll | sensors/base.py:35-39 | the list ends empty and every listed sensor has `should_stop` set; nothing else about them changes |
| SensorDriver.Sensor.constructor | sensors/base.py:19-24 | not stopped, no errors, an empty store |
| SensorDriver.Sensor.GetValue | sensors/base.py:50-55 | reads the store as `dict.get` does |
| SensorDriver.Sensor.SetValue | sensors/base.py:57-62 | writes exactly the key, leaving the flag and the count |
| SensorDriver.Sensor.Start | sensors/base.py:26-29 | the sensor is appended to the list and `should_stop` is cleared |
| SensorDriver.Sensor.Stop | sensors/base.py:31-33 | `should_stop` is set and the first listing removed; ValueError iff the sensor was not listed |
| SensorDriver.Sensor.LoopPassStep | sensors/base.py:64-80 | how the pass ends and the count afterwards are `LoopPass`'s |

## Left out

- The radio itself (`hw_communications`) is not part of this model. `read_data` becomes a sequence of frames. Its `send_data` is imported but never called.
- `Node._send_data` is abstract: it raises NotImplementedError, and neither `PowerControlNode` nor `WeatherNode` overrides it. The model treats it as a present radio whose outcome is the `delivered`/`failing` oracle (delivered, or SensorError). As shipped, every formatted send would raise NotImplementedError instead; that is not a SensorError, so it would escape `send_data`, `send_ping` and the ping loop's `except SensorError`. `PingRaisesOnlySensorError` and the "nothing escapes" of `IterationIntended` hold for the modelled radio only.
- Frames are modelled as byte strings, as the codec is written for Python 2 `str`. `hw_communications.read_data` returns a list of ints, on which `ord(new_msg[0])` in `_iteration` would raise TypeError; that layer is outside the model.
- The device parsers (`Weather.ParseRawData`, `PowerControl.ParseRawData`) read payload bytes as small ints. On a Python 2 `str` payload `raw_data[0] - 100` would raise TypeError and `power_on` would hold a one-character string; those readings are not modelled.
- Threads, `sleep`, the locks, `LOOP_DELAY` timing and `Sensor._loop`'s endless repetition: one pass and finite runs of passes are modelled.
- Sockets, epoll, `accept`, `recv`, `sendall`, closing connections, and errors from `epoll.unregister`: these become oracle parameters. `UnregisterSocket` raises KeyError for an unknown connection, whereas the code would first fail in `epoll.unregister`.
- `json.loads` is not modelled: a record arrives already parsed, or as "not JSON". JSON floats, and Python's `1 == True` collision of dict keys, are not represented.
- `_listener` (the bind/listen set-up and the endless poll loop) and the module-level `server` instance: one event at a time is modelled by `ProcessEvent`.
- Partial or concatenated records in one `recv` are not modelled; each read is one record.
- The `State` base class used by the device classes, its `ALLOWED_KEYS` filtering and staleness (`OFFLINE_AFTER_N_SECONDS`): that class is not part of this model. Only the `_parse_raw_data` and `_apply_new_state` bodies are modelled.
- `send_broadcast_message`'s default `msg_stream=''`: `SendBroadcastMessage` always takes the stream explicitly.
- Floats are not among the `PyValue`s, so `to_bool(0.0)` and other float arguments are not covered.
- Logging.
- The Flask views, the database, `app.py`, `server.py`, the Endomondo and DHT22 sensors, and `sensors/weather.py` are outside the core.
- `str.lower` is modelled on ASCII letters only; other Unicode case mappings are left out.
- `MAX_DATA_LEN` is declared but never enforced by the code, so the model does not enforce it either.
- `Node.terminate` is a no-op in every class of the program (`Node`, `PowerControlNode`, `WeatherNode`), so terminating a node only removes it from the registry.
- `FIELD_NAMES` tables in which two ids share a name are excluded by the `FieldTable` type. For those, the inverse lookup would depend on dict order.
- Dict iteration order: the corrected ping loop visits the active ids in an unspecified order. Each node's ping is independent of the others, so the order does not change the outcome.
- `WirelessSensor.__init__` calls `super(Sensor, self).__init__()`, which skips `Sensor.__init__`, so `should_stop`, `_errors_count`, `_lock`, `thread` and `_data` never exist. For this class `start` raises AttributeError at `self.thread.start()` and a `_loop` pass would raise it at `self.should_stop` (and, past that, at `self._errors_count += 1`), so neither can run. The missing fields are not modelled; `WirelessSensor` is modelled through its registry only, and the `SensorDriver` loop model applies to `Sensor` itself.
- `WirelessRegistry.WirelessSensor.PingAll`: models the corrected ping loop. The as-written loop is covered by `IterationSpec`.
- `_node_by_id` is assumed to map each node id in 0..7 to a class with that `NODE_ID` (`ClassesWellFormed`), as the shipped table does.
- `WirelessRegistry.IterationSpec`: does not state how the as-written ping loop would treat nodes, because it raises on the first key before any node is pinged.

## Findings

| source | as written | input that shows it | evidently intended | confidence | as-written member | corrected member |
|---|---|---|---|---|---|---|
| sensors/wireless/base.py:40 | `{v: k for k, v in self.FIELD_NAMES}` iterates the keys of FIELD_NAMES (ints) and tries to unpack each one | FIELD_NAMES `{5: "power"}`, field name "power": TypeError instead of 5 | iterate `.items()`, so `field_id` is the inverse of FIELD_NAMES | high, not executed | WirelessMessage.FieldIdAsWrittenCounterexample | WirelessMessage.FieldIdInvertsTable |
| sensors/wireless/base.py:272-274 | `for node in self._active_nodes` yields node ids, and `node.send_ping()` is called on an int | one lamp frame into an empty registry: the ping loop raises AttributeError | iterate the node objects (`.values()`) | high, not executed | WirelessRegistry.LampFrameEndsInAttributeError | WirelessRegistry.LampFrameIntended |
| sensors/wireless/base.py:242-243 | `_cleanup_node` reads `node.state` on the result of `.get`, which is None for an id with no node; `_get_or_create_node` raises SensorError for exactly those ids (lines 217-221) | a frame whose node id has no class (e.g. the weather node, id 2): AttributeError escapes `_iteration` | skip an absent node, as the "not found, skipping" log says | high, not executed | WirelessRegistry.UnregisteredFrameEscapes | WirelessRegistry.UnregisteredFrameInDrain |
