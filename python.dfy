/** The few pieces of the Python 2 runtime the model needs: optional values,
    results that carry a raised exception, byte strings, dynamically typed
    values and ASCII lower-casing. */
module Python {

  datatype Option<+T> = None | Some(value: T)

  /** The messages the modelled code raises `SensorError` with. */
  datatype Reason =
    | UnknownField(fieldId: int)       // Message.parse, unmapped field-id byte
    | UnexpectedType(msgType: int)     // Message.parse, any header byte but 0 and 3
    | RequestFailed(times: nat)        // Node.send_data, the 5th failure in a row
    | NodeNotFound(nodeId: int)        // WirelessSensor._get_or_create_node
    | RadioFailure                     // a failed low-level radio send

  /** The exceptions the modelled code raises or lets escape. */
  datatype Exc =
    | SensorError(reason: Reason)
    | IndexError
    | KeyError
    | TypeError
    | ValueError
    | AssertionError
    | AttributeError
    | SocketError

  /** The outcome of a Python call: a value, or the exception it raised. */
  datatype Result<+T> = Ok(value: T) | Raised(exc: Exc)

  /** One character of a Python 2 byte string, as `ord` gives it. */
  type Byte = b: int | 0 <= b < 256

  type Bytes = seq<Byte>

  /** A dynamically typed Python value, as far as truthiness can tell them
      apart: lists, tuples and dicts are all containers. */
  datatype PyValue =
    | PyNone
    | PyBool(b: bool)
    | PyInt(i: int)
    | PyStr(s: string)
    | PyContainer(items: seq<PyValue>)

  /** Python's `bool(value)`. */
  predicate Truthy(v: PyValue)
  {
    match v
    case PyNone => false
    case PyBool(b) => b
    case PyInt(i) => i != 0
    case PyStr(s) => s != ""
    case PyContainer(items) => items != []
  }

  function LowerChar(c: char): char
  {
    if 'A' <= c <= 'Z' then (c as int + 32) as char else c
  }

  /** `str.lower()` on ASCII letters. */
  function Lower(s: string): (r: string)
    ensures |r| == |s|
    ensures forall i :: 0 <= i < |s| ==> r[i] == LowerChar(s[i])
  {
    seq(|s|, i requires 0 <= i < |s| => LowerChar(s[i]))
  }

  /** Lower-casing twice is lower-casing once. */
  lemma LowerIdempotent(s: string)
    ensures Lower(Lower(s)) == Lower(s)
  {
    assert forall i :: 0 <= i < |s| ==> LowerChar(LowerChar(s[i])) == LowerChar(s[i]);
  }

  /** `list.remove(x)`: the list without its first `x` (Python raises
      ValueError when there is none; callers here check membership first). */
  function Remove<T(==)>(s: seq<T>, x: T): (r: seq<T>)
    ensures x !in s ==> r == s
    ensures x in s ==> |r| == |s| - 1
  {
    if |s| == 0 then []
    else if s[0] == x then s[1..]
    else [s[0]] + Remove(s[1..], x)
  }

  /** `list.remove(x)` takes exactly one `x` out of the list and keeps the
      rest. */
  lemma {:induction false} RemoveMultiset<T>(s: seq<T>, x: T)
    requires x in s
    ensures multiset(Remove(s, x)) == multiset(s) - multiset{x}
    decreases |s|
  {
    assert s == [s[0]] + s[1..];
    if s[0] != x {
      RemoveMultiset(s[1..], x);
    }
  }
}
