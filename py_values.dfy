/**
 * The slice of Python's value semantics the visual-analytics transforms
 * depend on: JSON-shaped values, truthiness, `x > c` against a number,
 * dictionary `get`, and which values can be dictionary keys.
 * Python's int and float are one numeric case here (an exact real).
 */
module PyValues {
  import opened Wrappers

  datatype PyValue =
    | PyNone
    | PyBool(b: bool)
    | PyNum(n: real)
    | PyStr(s: string)
    | PyList(items: seq<PyValue>)
    | PyDict(entries: map<string, PyValue>)

  type Dict = map<string, PyValue>

  /** The exceptions the transforms can raise. */
  datatype PyError =
    | TypeError
    | KeyError(key: string)
    | AttributeError
    | Raised(what: string)   // an exception from a collaborator (a request, the detector)

  /** `bool(v)`: None, False, zero and empty containers are false. */
  predicate Truthy(v: PyValue) {
    match v
    case PyNone => false
    case PyBool(b) => b
    case PyNum(n) => n != 0.0
    case PyStr(s) => s != ""
    case PyList(items) => items != []
    case PyDict(entries) => entries != map[]
  }

  /** `v > c` for a number c: numbers and booleans compare, anything else is a TypeError. */
  function Greater(v: PyValue, c: real): (r: Result<bool, PyError>)
    ensures r.Ok? <==> v.PyNum? || v.PyBool?
    ensures v.PyNum? ==> r == Ok(v.n > c)
  {
    match v
    case PyNum(n) => Ok(n > c)
    case PyBool(b) => Ok((if b then 1.0 else 0.0) > c)
    case _ => Err(TypeError)
  }

  /** `d.get(key)`, or `d.get(key, default)`. */
  function Get(d: Dict, key: string, default: PyValue := PyNone): PyValue {
    if key in d then d[key] else default
  }

  /** Only immutable values hash: a list or a dict as a key is a TypeError. */
  predicate Hashable(v: PyValue) {
    !v.PyList? && !v.PyDict?
  }

  /** The key a hashable value stands for: True and 1, False and 0 are the same key. */
  function KeyOf(v: PyValue): PyValue
    requires Hashable(v)
  {
    if v.PyBool? then PyNum(if v.b then 1.0 else 0.0) else v
  }
}
