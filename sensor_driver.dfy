/** The generic sensor driver (`Sensor` of the sensors base module): a
    key-value store, the registry of started sensors, and one pass of the
    polling loop with its error accounting. Threads, `sleep` and the lock are
    left out; the outcome of `_iteration` is a parameter. */
module SensorDriver {
  import opened Python

  /** `Sensor.ERRORS_THRESHOLD`. */
  const ErrorsThreshold: Option<int> := Some(10)

  // ---------------------------------------------------------------- the store

  /** `_get_value`: `dict.get`, so an unset key reads as None. */
  function Lookup(store: map<string, PyValue>, key: string): (r: PyValue)
    ensures r != PyNone ==> key in store && store[key] == r
  {
    if key in store then store[key] else PyNone
  }

  /** Nothing set reads as None; a set key reads back what was stored; every
      other key reads as before. */
  lemma StoreLaws(store: map<string, PyValue>, key: string, value: PyValue, other: string)
    ensures Lookup(map[], key) == PyNone
    ensures Lookup(store[key := value], key) == value
    ensures other != key ==> Lookup(store[key := value], other) == Lookup(store, other)
  {
  }

  // ---------------------------------------------------------------- one pass of `_loop`

  /** An exception other than SensorError: one that `except SensorError`
      does not catch. */
  type OtherExc = e: Exc | !e.SensorError? witness IndexError

  /** What one call of `_iteration` does: return, raise SensorError, or
      raise anything else. */
  datatype Outcome = IterOk | IterSensorError | IterRaised(exc: OtherExc)

  /** How a pass of the loop ends: `return` on `should_stop`, on to the next
      pass, or the thread dies of an exception. */
  datatype PassEnd = Returned | Continued | Died(exc: Exc)

  /** `_errors_count >= ERRORS_THRESHOLD`; Python 2 orders every int above
      None, so a None threshold is always reached. */
  predicate Reached(count: int, threshold: Option<int>)
  {
    match threshold
    case None => true
    case Some(t) => count >= t
  }

  /** One pass of `_loop`: how it ends and the error count afterwards. At the
      threshold, `set_value(ERROR_VALUE)` (`ERROR_VALUE` is `'ERROR'`) passes a
      key and no value, so
      `_set_value` raises TypeError and the store is never written. The
      success branch assigns `errors_count`, not `_errors_count`, so the
      count is not reset. */
  function LoopPass(shouldStop: bool, count: int, threshold: Option<int>, outcome: Outcome): (r: (PassEnd, int))
    ensures count <= r.1 <= count + 1
    ensures r.0.Died? ==> !shouldStop && !outcome.IterOk?
    ensures r.0.Died? ==> !r.0.exc.SensorError?
  {
    if shouldStop then (Returned, count)
    else
      match outcome
      case IterOk => (Continued, count)
      case IterRaised(e) => (Died(e), count)
      case IterSensorError =>
        if Reached(count + 1, threshold) then (Died(TypeError), count + 1) else (Continued, count + 1)
  }

  /** A pass never lowers the count; only a SensorError raises it, by one;
      `should_stop` is tested before anything else. A SensorError never ends
      the thread: it dies of the TypeError at the threshold, or of an
      exception `_iteration` raised other than SensorError. */
  lemma LoopPassCounts(shouldStop: bool, count: int, threshold: Option<int>, outcome: Outcome)
    ensures LoopPass(shouldStop, count, threshold, outcome).1 ==
      if !shouldStop && outcome.IterSensorError? then count + 1 else count
    ensures shouldStop <==> LoopPass(shouldStop, count, threshold, outcome).0 == Returned
    ensures !shouldStop && outcome.IterSensorError? ==>
      (LoopPass(shouldStop, count, threshold, outcome).0 == Died(TypeError) <==> Reached(count + 1, threshold))
    ensures LoopPass(shouldStop, count, threshold, outcome).0.Died? ==>
      LoopPass(shouldStop, count, threshold, outcome).0 ==
        (if outcome.IterRaised? then Died(outcome.exc) else Died(TypeError))
  {
  }

  /** Where a run of passes stopped: the exception that ended the thread, if
      any, the error count, and how many passes ran. */
  datatype RunEnd = RunEnd(died: Option<Exc>, count: int, passes: nat)

  /** Passes of `_loop` with `should_stop` false, one per outcome, until one
      dies or the outcomes run out. */
  function Run(count: int, threshold: Option<int>, outcomes: seq<Outcome>): (r: RunEnd)
    ensures r.passes <= |outcomes|
    ensures count <= r.count <= count + r.passes
    ensures r.died.Some? ==> !r.died.value.SensorError? && r.passes > 0
    ensures r.died.Some? && outcomes[r.passes - 1].IterRaised? ==> r.died.value == outcomes[r.passes - 1].exc
    decreases |outcomes|
  {
    if |outcomes| == 0 then RunEnd(None, count, 0)
    else
      var (end, c) := LoopPass(false, count, threshold, outcomes[0]);
      if end.Died? then RunEnd(Some(end.exc), c, 1)
      else
        var rest := Run(c, threshold, outcomes[1..]);
        rest.(passes := rest.passes + 1)
  }

  /** The number of SensorError outcomes. */
  function Errors(outcomes: seq<Outcome>): nat
    decreases |outcomes|
  {
    if |outcomes| == 0 then 0
    else (if outcomes[|outcomes| - 1].IterSensorError? then 1 else 0) + Errors(outcomes[..|outcomes| - 1])
  }

  lemma {:induction false} ErrorsCons(o: Outcome, outcomes: seq<Outcome>)
    ensures Errors([o] + outcomes) == (if o.IterSensorError? then 1 else 0) + Errors(outcomes)
    decreases |outcomes|
  {
    if |outcomes| > 0 {
      var init := outcomes[..|outcomes| - 1];
      assert ([o] + outcomes)[..|outcomes|] == [o] + init;
      ErrorsCons(o, init);
    } else {
      assert ([o] + outcomes)[..0] == [];
    }
  }

  /** The count after a run is the count before plus the SensorErrors of the
      passes that ran: successes never reset it. */
  lemma {:induction false} RunCounts(count: int, threshold: Option<int>, outcomes: seq<Outcome>)
    ensures Run(count, threshold, outcomes).passes <= |outcomes|
    ensures Run(count, threshold, outcomes).count ==
      count + Errors(outcomes[..Run(count, threshold, outcomes).passes])
    ensures Run(count, threshold, outcomes).died.None? ==> Run(count, threshold, outcomes).passes == |outcomes|
    decreases |outcomes|
  {
    if |outcomes| > 0 {
      var o := outcomes[0];
      var (end, c) := LoopPass(false, count, threshold, o);
      var r := Run(count, threshold, outcomes);
      if end.Died? {
        assert outcomes[..1] == [o] + [];
        ErrorsCons(o, []);
      } else {
        RunCounts(c, threshold, outcomes[1..]);
        var rest := Run(c, threshold, outcomes[1..]);
        assert outcomes[..r.passes] == [o] + outcomes[1..][..rest.passes];
        ErrorsCons(o, outcomes[1..][..rest.passes]);
      }
    } else {
      assert outcomes[..0] == [];
    }
  }

  /** No exceptions but SensorError: with a numeric threshold above the
      starting count, the thread dies — of a TypeError, with the count at the
      threshold — exactly when the run holds enough SensorErrors, however
      many successes come between them. */
  lemma {:induction false} ThresholdKills(count: int, t: int, outcomes: seq<Outcome>)
    requires count < t
    requires forall i | 0 <= i < |outcomes| :: !outcomes[i].IterRaised?
    ensures var r := Run(count, Some(t), outcomes);
      && (r.died.Some? <==> count + Errors(outcomes) >= t)
      && (r.died.Some? ==> r.died == Some(TypeError) && r.count == t)
    decreases |outcomes|
  {
    if |outcomes| > 0 {
      var o := outcomes[0];
      assert outcomes == [o] + outcomes[1..];
      ErrorsCons(o, outcomes[1..]);
      var (end, c) := LoopPass(false, count, Some(t), o);
      if !end.Died? {
        ThresholdKills(c, t, outcomes[1..]);
      }
    }
  }

  /** With a None threshold the first SensorError already kills the thread.
      `WirelessSensor` declares None, but it never reaches this comparison:
      it skips `Sensor.__init__`, so its `_errors_count` does not exist. */
  lemma NoneThresholdDiesAtFirstError(count: int, outcomes: seq<Outcome>)
    requires |outcomes| > 0 && outcomes[0] == IterSensorError
    ensures Run(count, None, outcomes) == RunEnd(Some(TypeError), count + 1, 1)
  {
  }

  // ---------------------------------------------------------------- the objects

  /** `Sensor._active_sensors`, the class-level list of started sensors. */
  class ActiveSensors {
    var sensors: seq<Sensor>

    constructor ()
      ensures sensors == []
    {
      sensors := [];
    }

    /** `stop_all`: stop the last sensor until none is left. Every sensor
        that was listed has `should_stop` set; nothing else about them
        changes. */
    method StopAll()
      modifies this, set s | s in sensors
      ensures sensors == []
      ensures forall s | s in old(sensors) :: s.shouldStop
      ensures forall s | s in old(sensors) :: s.errorsCount == old(s.errorsCount) && s.data == old(s.data)
    {
      ghost var listed := set s | s in sensors;
      while |sensors| > 0
        invariant forall s | s in sensors :: s in listed
        invariant forall s | s in listed && s !in sensors :: s.shouldStop
        invariant forall s | s in listed :: s.errorsCount == old(s.errorsCount) && s.data == old(s.data)
        invariant listed == set s | s in old(sensors)
        decreases |sensors|
      {
        var sensor := sensors[|sensors| - 1];
        assert sensor in listed;
        ghost var before := sensors;
        RemoveMultiset(before, sensor);
        var raised := sensor.Stop(this);
        forall s | s in sensors
          ensures s in before
        {
          assert s in multiset(sensors);
        }
        forall s | s in before && s != sensor
          ensures s in sensors
        {
          assert multiset(before)[s] > 0;
          assert multiset(sensors)[s] == multiset(before)[s];
          assert s in multiset(sensors);
        }
      }
    }
  }

  class Sensor {
    var shouldStop: bool
    var errorsCount: int
    var data: map<string, PyValue>

    /** `__init__`, less the lock and the thread. */
    constructor ()
      ensures !shouldStop && errorsCount == 0 && data == map[]
    {
      shouldStop := false;
      errorsCount := 0;
      data := map[];
    }

    /** `get_value`. */
    method GetValue(key: string) returns (value: PyValue)
      ensures value == Lookup(data, key)
    {
      value := if key in data then data[key] else PyNone;
    }

    /** `set_value` with both arguments. */
    method SetValue(key: string, value: PyValue)
      modifies this
      ensures data == old(data)[key := value]
      ensures shouldStop == old(shouldStop) && errorsCount == old(errorsCount)
    {
      data := data[key := value];
    }

    /** `start`: listed once more, `should_stop` cleared (the thread is not
        modelled). */
    method Start(active: ActiveSensors)
      modifies this, active
      ensures active.sensors == old(active.sensors) + [this]
      ensures !shouldStop && errorsCount == old(errorsCount) && data == old(data)
    {
      active.sensors := active.sensors + [this];
      shouldStop := false;
    }

    /** `stop`: `should_stop` set, then the first listing removed; ValueError
        when the sensor is not listed. */
    method Stop(active: ActiveSensors) returns (raised: Option<Exc>)
      modifies this, active
      ensures shouldStop && errorsCount == old(errorsCount) && data == old(data)
      ensures active.sensors == Remove(old(active.sensors), this)
      ensures raised == if this in old(active.sensors) then None else Some(ValueError)
    {
      shouldStop := true;
      if this !in active.sensors {
        return Some(ValueError);
      }
      active.sensors := Remove(active.sensors, this);
      raised := None;
    }

    /** One pass of `_loop` given what `_iteration` does. */
    method LoopPassStep(threshold: Option<int>, outcome: Outcome) returns (end: PassEnd)
      modifies this
      ensures (end, errorsCount) == LoopPass(old(shouldStop), old(errorsCount), threshold, outcome)
      ensures shouldStop == old(shouldStop) && data == old(data)
    {
      if shouldStop {
        return Returned;
      }
      match outcome {
        case IterOk =>
          end := Continued;
        case IterRaised(e) =>
          end := Died(e);
        case IterSensorError =>
          errorsCount := errorsCount + 1;
          end := if Reached(errorsCount, threshold) then Died(TypeError) else Continued;
      }
    }
  }
}
