/** The subscriber broker (`SocketServer`): which connections are open, which
    of them subscribed to which (sensor, stream), and the queue of records
    clients sent in. Sockets, epoll, JSON decoding and the lock are replaced
    by parameters: the parsed record, the outcome of each send, the event. */
module SocketBroker {
  import opened Python

  /** A decoded JSON value (numbers are integers here). */
  datatype Json = JNull | JBool(b: bool) | JInt(i: int) | JStr(s: string)
                | JArray(items: seq<Json>) | JObject(fields: map<string, Json>)

  /** Python dict keys must be hashable: lists and dicts are not. */
  predicate Hashable(j: Json)
  {
    !j.JArray? && !j.JObject?
  }

  type Key = j: Json | Hashable(j) witness JNull

  /** What `json.loads` gives for the bytes read: a value, or ValueError. */
  datatype Parsed = NotJson | Decoded(value: Json)

  /** A queued `(sensor_name, data, fno)` tuple. */
  datatype Queued = Queued(sensorName: Json, data: map<string, Json>, fno: int)

  /** `registrations[sensor][stream]` is the list of subscribed connections. */
  type Registrations = map<Key, map<Key, seq<int>>>

  /** The broker's three tables: `active_sockets` (by connection id),
      `registrations` and `_messages`. */
  datatype Tables = Tables(active: set<int>, regs: Registrations, messages: seq<Queued>)

  /** The subscribers of (sensor, stream); none when either entry is missing. */
  function Subscribers(regs: Registrations, sensor: Key, stream: Key): seq<int>
  {
    if sensor in regs && stream in regs[sensor] then regs[sensor][stream] else []
  }

  // ---------------------------------------------------------------- registrations

  /** `registrations.setdefault(sensor, {}).setdefault(stream, [])`: both
      entries exist afterwards, and nothing that existed changes. */
  function SetDefault(regs: Registrations, sensor: Key, stream: Key): (r: Registrations)
    ensures sensor in r && stream in r[sensor]
    ensures r.Keys == regs.Keys + {sensor}
    ensures r[sensor].Keys == (if sensor in regs then regs[sensor].Keys else {}) + {stream}
    ensures forall s, t :: Subscribers(r, s, t) == Subscribers(regs, s, t)
  {
    var inner := if sensor in regs then regs[sensor] else map[];
    regs[sensor := if stream in inner then inner else inner[stream := []]]
  }

  /** The list of (sensor, stream) replaced by `subs`, entries created first. */
  function Replace(regs: Registrations, sensor: Key, stream: Key, subs: seq<int>): (r: Registrations)
    ensures forall s, t :: Subscribers(r, s, t) == if s == sensor && t == stream then subs else Subscribers(regs, s, t)
    ensures r.Keys == regs.Keys + {sensor}
  {
    var d := SetDefault(regs, sensor, stream);
    var inner: map<Key, seq<int>> := d[sensor];
    d[sensor := inner[stream := subs]]
  }

  // ---------------------------------------------------------------- unicast and unregistering

  /** `_unregister_socket`: the connection is deleted from `active_sockets`
      (KeyError when it is not there); registrations and queue untouched. */
  function Unregister(t: Tables, fno: int): (r: Result<Tables>)
    ensures r.Raised? <==> fno !in t.active
    ensures r.Raised? ==> r.exc == KeyError
    ensures r.Ok? ==> r.value == t.(active := t.active - {fno})
  {
    if fno !in t.active then Raised(KeyError) else Ok(t.(active := t.active - {fno}))
  }

  /** `send_message`: whether it reports success, and the tables afterwards. */
  function Unicast(t: Tables, fno: int, sendOk: bool): (r: (bool, Tables))
    ensures r.1.regs == t.regs && r.1.messages == t.messages
    ensures r.1.active <= t.active
  {
    if fno !in t.active then (false, t)
    else if sendOk then (true, t)
    else (false, t.(active := t.active - {fno}))
  }

  /** Only a send to an open connection that goes through reports success; a
      failed one closes exactly that connection; nothing else ever changes. */
  lemma UnicastOutcomes(t: Tables, fno: int, sendOk: bool)
    ensures Unicast(t, fno, sendOk).0 <==> fno in t.active && sendOk
    ensures fno !in t.active ==> Unicast(t, fno, sendOk).1 == t
    ensures Unicast(t, fno, sendOk).1.active == if fno in t.active && !sendOk then t.active - {fno} else t.active
    ensures Unicast(t, fno, sendOk).1.regs == t.regs && Unicast(t, fno, sendOk).1.messages == t.messages
    ensures fno in t.active && !sendOk ==> Unicast(t, fno, sendOk).1 == Unregister(t, fno).value
  {
  }

  // ---------------------------------------------------------------- sequence helpers

  /** One `list.remove` per element of `rm`, left to right. */
  function RemoveAll(s: seq<int>, rm: seq<int>): (r: seq<int>)
    decreases |rm|
  {
    if |rm| == 0 then s else RemoveAll(Remove(s, rm[0]), rm[1..])
  }

  predicate NoDup(s: seq<int>)
  {
    forall i, j | 0 <= i < j < |s| :: s[i] != s[j]
  }

  /** The elements of `s` that are not in `d`, in order. */
  function FilterOut(s: seq<int>, d: set<int>): (r: seq<int>)
    ensures |r| <= |s|
    decreases |s|
  {
    if |s| == 0 then [] else FilterOut(s[..|s| - 1], d) + (if s[|s| - 1] in d then [] else [s[|s| - 1]])
  }

  // ---------------------------------------------------------------- broadcast

  /** The first `n` passes of the broadcast's first loop: the connections
      queued for removal (closed ones, and ones whose send failed, which are
      also unregistered) and the open connections afterwards. `ok(i)` is the
      outcome of the send to the `i`-th subscriber. */
  function Scan(fnos: seq<int>, n: nat, active: set<int>, ok: nat -> bool): (r: (seq<int>, set<int>))
    requires n <= |fnos|
    ensures r.1 <= active
    decreases n
  {
    if n == 0 then ([], active)
    else
      var (rm, act) := Scan(fnos, n - 1, active, ok);
      var x := fnos[n - 1];
      if x !in act then (rm + [x], act)
      else if ok(n - 1) then (rm, act)
      else (rm + [x], act - {x})
  }

  /** Every connection queued for removal is taken from its own position of
      the list, so each `remove` finds what it removes. */
  lemma {:induction false} ScanTakesFromList(fnos: seq<int>, n: nat, active: set<int>, ok: nat -> bool)
    requires n <= |fnos|
    ensures multiset(Scan(fnos, n, active, ok).0) <= multiset(fnos[..n])
    decreases n
  {
    if n > 0 {
      ScanTakesFromList(fnos, n - 1, active, ok);
      assert fnos[..n] == fnos[..n - 1] + [fnos[n - 1]];
    }
  }

  /** `send_broadcast_message`: create the entry if missing, send to every
      subscriber, then remove the dropped ones from the list. */
  function Broadcast(t: Tables, sensor: Key, stream: Key, ok: nat -> bool): (r: Tables)
    ensures r.messages == t.messages
    ensures r.active <= t.active
  {
    var subs := Subscribers(t.regs, sensor, stream);
    var (rm, act) := Scan(subs, |subs|, t.active, ok);
    Tables(act, Replace(t.regs, sensor, stream, RemoveAll(subs, rm)), t.messages)
  }

  /** A broadcast creates the (sensor, stream) entry, only closes connections,
      and touches no other list and not the queue. */
  lemma BroadcastFrame(t: Tables, sensor: Key, stream: Key, ok: nat -> bool)
    ensures var r := Broadcast(t, sensor, stream, ok);
      && sensor in r.regs && stream in r.regs[sensor]
      && r.regs.Keys == t.regs.Keys + {sensor}
      && r.active <= t.active
      && r.messages == t.messages
      && forall s, u | s != sensor || u != stream :: Subscribers(r.regs, s, u) == Subscribers(t.regs, s, u)
  {
  }

  /** The subscribers at positions `< n` that were open and whose send went
      through, in order. */
  function Kept(fnos: seq<int>, n: nat, active: set<int>, ok: nat -> bool): (r: seq<int>)
    requires n <= |fnos|
    decreases n
  {
    if n == 0 then []
    else Kept(fnos, n - 1, active, ok) + (if fnos[n - 1] in active && ok(n - 1) then [fnos[n - 1]] else [])
  }

  /** The open subscribers at positions `< n` whose send failed. */
  function Failed(fnos: seq<int>, n: nat, active: set<int>, ok: nat -> bool): (r: set<int>)
    requires n <= |fnos|
    decreases n
  {
    if n == 0 then {}
    else Failed(fnos, n - 1, active, ok) + (if fnos[n - 1] in active && !ok(n - 1) then {fnos[n - 1]} else {})
  }

  /** The subscribers at positions `< n` that are dropped: closed, or failed. */
  function Dropped(fnos: seq<int>, n: nat, active: set<int>, ok: nat -> bool): (r: set<int>)
    requires n <= |fnos|
    decreases n
  {
    if n == 0 then {}
    else Dropped(fnos, n - 1, active, ok) + (if fnos[n - 1] in active && ok(n - 1) then {} else {fnos[n - 1]})
  }

  /** The elements of a sequence, as a set. */
  function Elements(s: seq<int>): (r: set<int>)
    decreases |s|
  {
    if |s| == 0 then {} else Elements(s[..|s| - 1]) + {s[|s| - 1]}
  }

  /** Without duplicates, the subscriber at position `i` is dropped / failed
      among the first `n` exactly when `i < n` and its own send says so. */
  lemma {:induction false} DroppedAt(fnos: seq<int>, n: nat, active: set<int>, ok: nat -> bool, i: nat)
    requires n <= |fnos| && i < |fnos| && NoDup(fnos)
    ensures fnos[i] in Dropped(fnos, n, active, ok) <==> i < n && !(fnos[i] in active && ok(i))
    ensures fnos[i] in Failed(fnos, n, active, ok) <==> i < n && fnos[i] in active && !ok(i)
    decreases n
  {
    if n > 0 {
      DroppedAt(fnos, n - 1, active, ok, i);
      assert fnos[i] == fnos[n - 1] <==> i == n - 1;
    }
  }

  /** Without duplicates each subscriber is judged against the original open
      set: the removal list holds exactly the dropped ones, and exactly the
      failed ones are closed. */
  lemma {:induction false} ScanNoDup(fnos: seq<int>, n: nat, active: set<int>, ok: nat -> bool)
    requires n <= |fnos| && NoDup(fnos)
    ensures Elements(Scan(fnos, n, active, ok).0) == Dropped(fnos, n, active, ok)
    ensures Scan(fnos, n, active, ok).1 == active - Failed(fnos, n, active, ok)
    decreases n
  {
    if n > 0 {
      ScanNoDup(fnos, n - 1, active, ok);
      DroppedAt(fnos, n - 1, active, ok, n - 1);
      var (rm, act) := Scan(fnos, n - 1, active, ok);
      var x := fnos[n - 1];
      assert x in act <==> x in active;
      assert Elements(rm + [x]) == Elements(rm) + {x} by {
        assert (rm + [x])[..|rm|] == rm;
      }
      if x !in active {
        assert Scan(fnos, n, active, ok) == (rm + [x], act);
      } else if ok(n - 1) {
        assert Scan(fnos, n, active, ok) == (rm, act);
      } else {
        assert Scan(fnos, n, active, ok) == (rm + [x], act - {x});
      }
    }
  }

  /** What `FilterOut` keeps is what is in `s` and not in `d`. */
  lemma {:induction false} FilterOutMembers(s: seq<int>, d: set<int>, y: int)
    ensures y in FilterOut(s, d) <==> y in s && y !in d
    decreases |s|
  {
    if |s| > 0 {
      var p := s[..|s| - 1];
      FilterOutMembers(p, d, y);
      assert s == p + [s[|s| - 1]];
    }
  }

  lemma {:induction false} FilterOutNoDup(s: seq<int>, d: set<int>)
    requires NoDup(s)
    ensures NoDup(FilterOut(s, d))
    decreases |s|
  {
    if |s| > 0 {
      var p := s[..|s| - 1];
      assert NoDup(p);
      FilterOutNoDup(p, d);
      FilterOutMembers(p, d, s[|s| - 1]);
      assert s[|s| - 1] !in p;
    }
  }

  lemma {:induction false} FilterOutCons(a: int, s: seq<int>, d: set<int>)
    ensures FilterOut([a] + s, d) == (if a in d then [] else [a]) + FilterOut(s, d)
    decreases |s|
  {
    if |s| > 0 {
      var p := s[..|s| - 1];
      assert ([a] + s)[..|[a] + s| - 1] == [a] + p;
      FilterOutCons(a, p, d);
    } else {
      assert FilterOut([a], d) == FilterOut([], d) + (if a in d then [] else [a]);
    }
  }

  lemma {:induction false} FilterOutKeepsAll(s: seq<int>, d: set<int>)
    requires forall i | 0 <= i < |s| :: s[i] !in d
    ensures FilterOut(s, d) == s
    decreases |s|
  {
    if |s| > 0 {
      var p := s[..|s| - 1];
      assert forall i | 0 <= i < |p| :: p[i] == s[i];
      FilterOutKeepsAll(p, d);
      assert p + [s[|s| - 1]] == s;
    }
  }

  /** Without duplicates, `list.remove(x)` is filtering `x` out. */
  lemma {:induction false} RemoveNoDup(s: seq<int>, x: int)
    requires NoDup(s)
    ensures Remove(s, x) == FilterOut(s, {x})
    decreases |s|
  {
    if |s| > 0 {
      assert s == [s[0]] + s[1..];
      FilterOutCons(s[0], s[1..], {x});
      assert NoDup(s[1..]);
      var tail := s[1..];
      if s[0] == x {
        forall i | 0 <= i < |tail|
          ensures tail[i] !in {x}
        {
          assert tail[i] == s[i + 1];
        }
        FilterOutKeepsAll(tail, {x});
        assert Remove(s, x) == tail;
      } else {
        RemoveNoDup(tail, x);
        assert Remove(s, x) == [s[0]] + Remove(tail, x);
      }
    }
  }

  lemma {:induction false} FilterOutTwice(s: seq<int>, d: set<int>, e: set<int>)
    ensures FilterOut(FilterOut(s, d), e) == FilterOut(s, d + e)
    decreases |s|
  {
    if |s| > 0 {
      var p := s[..|s| - 1];
      var x := s[|s| - 1];
      FilterOutTwice(p, d, e);
      if x !in d {
        var q := FilterOut(p, d) + [x];
        assert FilterOut(s, d) == q;
        assert q[..|q| - 1] == FilterOut(p, d) && q[|q| - 1] == x;
        assert FilterOut(q, e) == FilterOut(FilterOut(p, d), e) + (if x in e then [] else [x]);
      } else {
        assert FilterOut(s, d) == FilterOut(p, d);
        assert FilterOut(s, d + e) == FilterOut(p, d + e);
      }
    }
  }

  /** Without duplicates, removing the elements of `rm` one by one is
      filtering them all out. */
  lemma {:induction false} RemoveAllNoDup(s: seq<int>, rm: seq<int>)
    requires NoDup(s)
    ensures RemoveAll(s, rm) == FilterOut(s, Elements(rm))
    decreases |rm|
  {
    if |rm| > 0 {
      var x, rest := rm[0], rm[1..];
      RemoveNoDup(s, x);
      FilterOutNoDup(s, {x});
      RemoveAllNoDup(FilterOut(s, {x}), rest);
      FilterOutTwice(s, {x}, Elements(rest));
      ElementsCons(x, rest);
      assert rm == [x] + rest;
    } else {
      FilterOutKeepsAll(s, {});
    }
  }

  lemma {:induction false} ElementsCons(x: int, s: seq<int>)
    ensures Elements([x] + s) == {x} + Elements(s)
    decreases |s|
  {
    if |s| > 0 {
      var p := s[..|s| - 1];
      assert ([x] + s)[..|[x] + s| - 1] == [x] + p;
      ElementsCons(x, p);
    } else {
      assert ([x] + s)[..0] == [];
    }
  }

  /** Filtering the dropped subscribers out of the first `n` ones keeps
      exactly `Kept`. */
  lemma {:induction false} FilterOutDropped(fnos: seq<int>, n: nat, active: set<int>, ok: nat -> bool)
    requires n <= |fnos| && NoDup(fnos)
    ensures FilterOut(fnos[..n], Dropped(fnos, |fnos|, active, ok)) == Kept(fnos, n, active, ok)
    decreases n
  {
    if n > 0 {
      FilterOutDropped(fnos, n - 1, active, ok);
      assert fnos[..n][..n - 1] == fnos[..n - 1];
      DroppedAt(fnos, |fnos|, active, ok, n - 1);
    }
  }

  /** With no duplicate subscriptions, a broadcast leaves the (sensor, stream)
      list as the subscribers that were open and whose send went through, in
      their order, and closes exactly the open ones whose send failed. */
  lemma BroadcastFiltersNoDup(t: Tables, sensor: Key, stream: Key, ok: nat -> bool)
    requires NoDup(Subscribers(t.regs, sensor, stream))
    ensures var subs := Subscribers(t.regs, sensor, stream);
            var r := Broadcast(t, sensor, stream, ok);
      && Subscribers(r.regs, sensor, stream) == Kept(subs, |subs|, t.active, ok)
      && r.active == t.active - Failed(subs, |subs|, t.active, ok)
  {
    var subs := Subscribers(t.regs, sensor, stream);
    var rm := Scan(subs, |subs|, t.active, ok).0;
    ScanNoDup(subs, |subs|, t.active, ok);
    RemoveAllNoDup(subs, rm);
    FilterOutDropped(subs, |subs|, t.active, ok);
    assert subs[..|subs|] == subs;
  }

  /** The broadcast's clean-up loop: `sockets.remove(fno)` for each queued
      `fno`. Each one is still in the list, so none raises ValueError. */
  method RemoveEach(sockets: seq<int>, toRemove: seq<int>) returns (remaining: seq<int>)
    requires multiset(toRemove) <= multiset(sockets)
    ensures remaining == RemoveAll(sockets, toRemove)
  {
    remaining := sockets;
    var j := 0;
    while j < |toRemove|
      invariant 0 <= j <= |toRemove|
      invariant RemoveAll(remaining, toRemove[j..]) == RemoveAll(sockets, toRemove)
      invariant multiset(toRemove[j..]) <= multiset(remaining)
    {
      var fno := toRemove[j];
      assert toRemove[j..] == [fno] + toRemove[j + 1..];
      assert fno in multiset(remaining);
      RemoveMultiset(remaining, fno);
      remaining := Remove(remaining, fno);
      j := j + 1;
    }
  }

  // ---------------------------------------------------------------- records from clients

  /** `_process_message` on a parsed record: the tables afterwards and the
      exception it raises (which `_process_event` swallows). A `register`
      record subscribes the connection to (sensor_name, msg_stream), with
      stream `''` by default; any other record is queued. */
  function MessageEffect(t: Tables, fno: int, p: Parsed): (r: (Tables, Option<Exc>))
    ensures r.0.active == t.active
    ensures r.1.Some? ==> r.0.messages == t.messages
  {
    match p
    case NotJson => (t, Some(ValueError))
    case Decoded(v) =>
      if !v.JObject? then (t, Some(TypeError))
      else if "sensor_name" !in v.fields || "type" !in v.fields then (t, Some(KeyError))
      else
        var sensorName := v.fields["sensor_name"];
        if v.fields["type"] == JStr("register") then
          var stream := if "msg_stream" in v.fields then v.fields["msg_stream"] else JStr("");
          var (regs, raised) := RegisterEffect(t.regs, sensorName, stream, fno);
          (t.(regs := regs), raised)
        else (t.(messages := t.messages + [Queued(sensorName, v.fields, fno)]), None)
  }

  /** The `setdefault(...).setdefault(...).append(fno)` chain: an unhashable
      sensor raises TypeError before anything changes; an unhashable stream
      raises after the sensor's entry was created; otherwise the connection
      is appended to the (sensor, stream) list. */
  function RegisterEffect(regs: Registrations, sensorName: Json, stream: Json, fno: int): (r: (Registrations, Option<Exc>))
    ensures r.1.Some? <==> !Hashable(sensorName) || !Hashable(stream)
  {
    if !Hashable(sensorName) then (regs, Some(TypeError))
    else
      var sensor: Key := sensorName;
      var created := regs[sensor := if sensor in regs then regs[sensor] else map[]];
      if !Hashable(stream) then (created, Some(TypeError))
      else
        var streamKey: Key := stream;
        (Replace(created, sensor, streamKey, Subscribers(created, sensor, streamKey) + [fno]), None)
  }

  /** A registration that raises raises TypeError and adds no subscriber;
      one that does not appends the connection to its own list only. */
  lemma RegisterSubscribers(regs: Registrations, sensorName: Json, stream: Json, fno: int)
    ensures var r := RegisterEffect(regs, sensorName, stream, fno);
      && (r.1.Some? ==> r.1 == Some(TypeError) && forall s, u :: Subscribers(r.0, s, u) == Subscribers(regs, s, u))
      && (r.1.None? ==>
            forall s, u :: Subscribers(r.0, s, u) ==
              Subscribers(regs, s, u) + (if s == sensorName && u == stream then [fno] else []))
  {
  }

  /** A well-formed `register` record appends the connection to exactly its
      (sensor, stream) list and leaves the queue alone. */
  lemma RegisterAppends(t: Tables, fno: int, fields: map<string, Json>, sensor: Key, stream: Key)
    requires "sensor_name" in fields && fields["sensor_name"] == sensor
    requires "type" in fields && fields["type"] == JStr("register")
    requires if "msg_stream" in fields then fields["msg_stream"] == stream else stream == JStr("")
    ensures var r := MessageEffect(t, fno, Decoded(JObject(fields)));
      && r.1 == None
      && r.0.messages == t.messages && r.0.active == t.active
      && forall s, u :: Subscribers(r.0.regs, s, u) ==
           Subscribers(t.regs, s, u) + (if s == sensor && u == stream then [fno] else [])
  {
  }

  /** Any other well-formed record is queued as `(sensor_name, data, fno)`
      after the ones before it, and the registrations are left alone. */
  lemma OtherRecordsQueued(t: Tables, fno: int, fields: map<string, Json>)
    requires "sensor_name" in fields && "type" in fields && fields["type"] != JStr("register")
    ensures MessageEffect(t, fno, Decoded(JObject(fields))) ==
      (t.(messages := t.messages + [Queued(fields["sensor_name"], fields, fno)]), None)
  {
  }

  /** Records that are not JSON objects with `sensor_name` and `type` raise
      and change nothing; an unhashable `msg_stream` raises after the sensor's
      entry was created, with no subscriber added. */
  lemma MalformedRecords(t: Tables, fno: int, p: Parsed)
    ensures p.NotJson? ==> MessageEffect(t, fno, p) == (t, Some(ValueError))
    ensures p.Decoded? && !p.value.JObject? ==> MessageEffect(t, fno, p) == (t, Some(TypeError))
    ensures p.Decoded? && p.value.JObject? && "sensor_name" !in p.value.fields ==> MessageEffect(t, fno, p) == (t, Some(KeyError))
    ensures MessageEffect(t, fno, p).1.Some? ==>
      forall s, u :: Subscribers(MessageEffect(t, fno, p).0.regs, s, u) == Subscribers(t.regs, s, u)
  {
  }

  /** `get_messages`: everything queued, in arrival order; the queue is then
      empty. */
  function TakeMessages(t: Tables): (r: (seq<Queued>, Tables))
    ensures r.0 + r.1.messages == t.messages
    ensures r.1.active == t.active && r.1.regs == t.regs
  {
    (t.messages, t.(messages := []))
  }

  /** Draining twice in a row gives nothing the second time; the records
      drained are those queued, oldest first. */
  lemma DrainTwice(t: Tables, fno: int, fields: map<string, Json>)
    requires "sensor_name" in fields && "type" in fields && fields["type"] != JStr("register")
    ensures TakeMessages(TakeMessages(t).1).0 == []
    ensures TakeMessages(MessageEffect(t, fno, Decoded(JObject(fields))).0).0 ==
      TakeMessages(t).0 + [Queued(fields["sensor_name"], fields, fno)]
  {
  }

  // ---------------------------------------------------------------- connection events

  /** The bits of an epoll event that `_process_event` tests. */
  datatype Event = Event(readable: bool, hangup: bool)

  /** What `recv` gives: no bytes (the peer closed), a socket error, or data
      that decodes as `p`. */
  datatype Received = Eof | RecvFailed | Payload(p: Parsed)

  /** `_process_event`: the listening socket accepts `newConn`; a readable
      connection is read and its record processed; a hangup unregisters. The
      exception is what escapes to the listener loop (which logs it). */
  function EventEffect(t: Tables, serverFno: int, fno: int, ev: Event, newConn: int, received: Received): (r: (Tables, Option<Exc>))
    ensures fno != serverFno ==> r.0.active <= t.active
    ensures r.1.Some? ==> r.0 == t
  {
    if fno == serverFno then (t.(active := t.active + {newConn}), None)
    else if ev.readable then
      if fno !in t.active then (t, Some(KeyError))
      else
        match received
        case RecvFailed => (t, Some(SocketError))
        case Eof => (Unregister(t, fno).value, None)
        case Payload(p) => (MessageEffect(t, fno, p).0, None)
    else if ev.hangup then
      match Unregister(t, fno)
      case Ok(t2) => (t2, None)
      case Raised(e) => (t, Some(e))
    else (t, None)
  }

  /** Accept opens the new connection; an empty read or a hangup closes the
      connection; a read with data never lets an exception out of
      `_process_message` and never opens or closes anything. */
  lemma EventTransitions(t: Tables, serverFno: int, fno: int, ev: Event, newConn: int, received: Received)
    ensures fno == serverFno ==> EventEffect(t, serverFno, fno, ev, newConn, received).0.active == t.active + {newConn}
    ensures fno != serverFno && fno in t.active && ((ev.readable && received.Eof?) || (!ev.readable && ev.hangup)) ==>
      EventEffect(t, serverFno, fno, ev, newConn, received) == (t.(active := t.active - {fno}), None)
    ensures fno != serverFno && ev.readable && fno in t.active && received.Payload? ==>
      EventEffect(t, serverFno, fno, ev, newConn, received) == (MessageEffect(t, fno, received.p).0, None) &&
      EventEffect(t, serverFno, fno, ev, newConn, received).0.active == t.active
    ensures fno != serverFno && (ev.readable || ev.hangup) && fno !in t.active ==>
      EventEffect(t, serverFno, fno, ev, newConn, received) == (t, Some(KeyError))
    ensures fno != serverFno && !ev.readable && !ev.hangup ==> EventEffect(t, serverFno, fno, ev, newConn, received) == (t, None)
  {
  }

  /** No event ever changes a subscription list except through a record. */
  lemma EventsKeepSubscriptions(t: Tables, serverFno: int, fno: int, ev: Event, newConn: int, received: Received)
    requires !(fno != serverFno && ev.readable && received.Payload?)
    ensures EventEffect(t, serverFno, fno, ev, newConn, received).0.regs == t.regs
    ensures EventEffect(t, serverFno, fno, ev, newConn, received).0.messages == t.messages
  {
  }

  // ---------------------------------------------------------------- the object

  class SocketServer {
    const port: int
    var activeSockets: set<int>
    var registrations: Registrations
    var messages: seq<Queued>

    function View(): Tables
      reads this
    {
      Tables(activeSockets, registrations, messages)
    }

    /** `__init__`, less the listener thread and epoll. */
    constructor (port: int)
      ensures this.port == port && View() == Tables({}, map[], [])
    {
      this.port := port;
      activeSockets := {};
      registrations := map[];
      messages := [];
    }

    /** `send_message`; `sendOk` is whether `sendall` goes through. */
    method SendMessage(fno: int, sendOk: bool) returns (sent: bool)
      modifies this
      ensures (sent, View()) == Unicast(old(View()), fno, sendOk)
    {
      if fno !in activeSockets {
        return false;
      }
      if sendOk {
        return true;
      }
      var raised := UnregisterSocket(fno);
      sent := false;
    }

    /** The first loop of `send_broadcast_message`: send to each subscriber
        in turn, queue closed and failed ones for removal and unregister the
        failed ones. */
    method ScanSubscribers(sockets: seq<int>, ok: nat -> bool) returns (toRemove: seq<int>)
      modifies this
      ensures (toRemove, activeSockets) == Scan(sockets, |sockets|, old(activeSockets), ok)
      ensures registrations == old(registrations) && messages == old(messages)
    {
      toRemove := [];
      var i := 0;
      while i < |sockets|
        invariant 0 <= i <= |sockets|
        invariant (toRemove, activeSockets) == Scan(sockets, i, old(activeSockets), ok)
        invariant registrations == old(registrations) && messages == old(messages)
      {
        var fno := sockets[i];
        if fno !in activeSockets {
          toRemove := toRemove + [fno];
        } else if !ok(i) {
          var raised := UnregisterSocket(fno);
          toRemove := toRemove + [fno];
        }
        i := i + 1;
      }
    }

    /** `send_broadcast_message`; `ok(i)` is whether `sendall` to the `i`-th
        subscriber goes through. */
    method SendBroadcastMessage(sensor: Key, stream: Key, ok: nat -> bool)
      modifies this
      ensures View() == Broadcast(old(View()), sensor, stream, ok)
    {
      registrations := SetDefault(registrations, sensor, stream);
      var sockets := registrations[sensor][stream];
      assert sockets == Subscribers(old(registrations), sensor, stream);
      var toRemove := ScanSubscribers(sockets, ok);
      ScanTakesFromList(sockets, |sockets|, old(activeSockets), ok);
      assert sockets[..|sockets|] == sockets;
      var remaining := RemoveEach(sockets, toRemove);
      var entry: map<Key, seq<int>> := registrations[sensor];
      registrations := registrations[sensor := entry[stream := remaining]];
      assert registrations == Replace(old(registrations), sensor, stream, remaining);
    }

    /** `get_messages`. */
    method GetMessages() returns (output: seq<Queued>)
      modifies this
      ensures (output, View()) == TakeMessages(old(View()))
    {
      output := messages;
      messages := [];
    }

    /** `_unregister_socket`; closing the connection and epoll are left out. */
    method UnregisterSocket(fno: int) returns (raised: Option<Exc>)
      modifies this
      ensures Unregister(old(View()), fno) == if raised.None? then Ok(View()) else Raised(raised.value)
      ensures raised.Some? ==> View() == old(View())
    {
      if fno !in activeSockets {
        return Some(KeyError);
      }
      activeSockets := activeSockets - {fno};
      raised := None;
    }

    /** `_process_message` on the record `json.loads` produced. */
    method ProcessMessage(fno: int, p: Parsed) returns (raised: Option<Exc>)
      modifies this
      ensures (View(), raised) == MessageEffect(old(View()), fno, p)
    {
      if p.NotJson? {
        return Some(ValueError);
      }
      var data := p.value;
      if !data.JObject? {
        return Some(TypeError);
      }
      if "sensor_name" !in data.fields {
        return Some(KeyError);
      }
      var sensorName := data.fields["sensor_name"];
      if "type" !in data.fields {
        return Some(KeyError);
      }
      if data.fields["type"] == JStr("register") {
        var stream := if "msg_stream" in data.fields then data.fields["msg_stream"] else JStr("");
        raised := Register(sensorName, stream, fno);
      } else {
        messages := messages + [Queued(sensorName, data.fields, fno)];
        raised := None;
      }
    }

    /** The registration branch of `_process_message`. */
    method Register(sensorName: Json, stream: Json, fno: int) returns (raised: Option<Exc>)
      modifies this
      ensures (registrations, raised) == RegisterEffect(old(registrations), sensorName, stream, fno)
      ensures activeSockets == old(activeSockets) && messages == old(messages)
    {
      if !Hashable(sensorName) {
        return Some(TypeError);
      }
      var sensor: Key := sensorName;
      registrations := registrations[sensor := if sensor in registrations then registrations[sensor] else map[]];
      if !Hashable(stream) {
        return Some(TypeError);
      }
      var streamKey: Key := stream;
      registrations := Replace(registrations, sensor, streamKey, Subscribers(registrations, sensor, streamKey) + [fno]);
      raised := None;
    }

    /** `_process_event` for one event on `fno`. `newConn` is the connection
        `accept` returns, `received` what `recv` returns. */
    method ProcessEvent(serverFno: int, fno: int, ev: Event, newConn: int, received: Received) returns (raised: Option<Exc>)
      modifies this
      ensures (View(), raised) == EventEffect(old(View()), serverFno, fno, ev, newConn, received)
    {
      raised := None;
      if fno == serverFno {
        activeSockets := activeSockets + {newConn};
      } else if ev.readable {
        if fno !in activeSockets {
          return Some(KeyError);
        }
        match received
        case RecvFailed =>
          raised := Some(SocketError);
        case Eof =>
          raised := UnregisterSocket(fno);
        case Payload(p) =>
          var ignored := ProcessMessage(fno, p);
      } else if ev.hangup {
        raised := UnregisterSocket(fno);
      }
    }
  }
}
