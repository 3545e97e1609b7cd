/**
 * Python runtime values as the server code sees them after JSON decoding
 * or `model_dump()`: the data the matchers and validators inspect.
 */
module PyValues {

  /**
   * A Python value. Floats are reals (no NaN or infinities). A `StrEnum`
   * member is a `str` subclass: equal to its string, but `type()` differs.
   * Dict keys are strings, as in every dict the model handles.
   */
  datatype PyValue =
    | PyNone
    | PyBool(b: bool)
    | PyInt(i: int)
    | PyFloat(f: real)
    | PyStr(s: string)
    | PyEnum(cls: string, member: string)
    | PyList(items: seq<PyValue>)
    | PyTuple(items: seq<PyValue>)
    | PyDict(entries: map<string, PyValue>)

  /** The result of `type(v)`. */
  datatype PyType = TNone | TBool | TInt | TFloat | TStr | TEnum(cls: string) | TList | TTuple | TDict

  function TypeOf(v: PyValue): PyType
  {
    match v
    case PyNone => TNone
    case PyBool(_) => TBool
    case PyInt(_) => TInt
    case PyFloat(_) => TFloat
    case PyStr(_) => TStr
    case PyEnum(c, _) => TEnum(c)
    case PyList(_) => TList
    case PyTuple(_) => TTuple
    case PyDict(_) => TDict
  }

  /** `bool`, `int` and `float` compare by numeric value (`True == 1 == 1.0`). */
  predicate IsNumber(v: PyValue)
  {
    v.PyBool? || v.PyInt? || v.PyFloat?
  }

  function NumberOf(v: PyValue): real
    requires IsNumber(v)
  {
    match v
    case PyBool(b) => if b then 1.0 else 0.0
    case PyInt(i) => i as real
    case PyFloat(f) => f
  }

  /** `str` and `StrEnum` members compare by their text. */
  predicate IsText(v: PyValue)
  {
    v.PyStr? || v.PyEnum?
  }

  function TextOf(v: PyValue): string
    requires IsText(v)
  {
    if v.PyStr? then v.s else v.member
  }

  /** Python's `a == b` on these values. */
  predicate PyEq(a: PyValue, b: PyValue)
    decreases a
  {
    if IsNumber(a) && IsNumber(b) then NumberOf(a) == NumberOf(b)
    else if IsText(a) && IsText(b) then TextOf(a) == TextOf(b)
    else match a
      case PyNone => b.PyNone?
      case PyList(xs) =>
        b.PyList? && |xs| == |b.items| && forall i | 0 <= i < |xs| :: PyEq(xs[i], b.items[i])
      case PyTuple(xs) =>
        b.PyTuple? && |xs| == |b.items| && forall i | 0 <= i < |xs| :: PyEq(xs[i], b.items[i])
      case PyDict(m) =>
        b.PyDict? && m.Keys == b.entries.Keys && forall k | k in m :: PyEq(m[k], b.entries[k])
      case _ => false
  }

  /** Python's `x in xs` for a list or tuple. */
  predicate PyIn(x: PyValue, xs: seq<PyValue>)
  {
    exists i | 0 <= i < |xs| :: PyEq(x, xs[i])
  }

  /** Python's `all(x in ys for x in xs)`. */
  predicate AllPyIn(xs: seq<PyValue>, ys: seq<PyValue>)
  {
    forall i | 0 <= i < |xs| :: PyIn(xs[i], ys)
  }

  /** Every value equals itself (there are no NaNs in this model). */
  lemma {:induction false} PyEqReflexive(a: PyValue)
    ensures PyEq(a, a)
    decreases a
  {
    match a
    case PyList(xs) =>
      forall i | 0 <= i < |xs| ensures PyEq(xs[i], xs[i]) { PyEqReflexive(xs[i]); }
    case PyTuple(xs) =>
      forall i | 0 <= i < |xs| ensures PyEq(xs[i], xs[i]) { PyEqReflexive(xs[i]); }
    case PyDict(m) =>
      forall k | k in m ensures PyEq(m[k], m[k]) { PyEqReflexive(m[k]); }
    case _ =>
  }

  /** Python truthiness. */
  predicate Truthy(v: PyValue)
  {
    match v
    case PyNone => false
    case PyBool(b) => b
    case PyInt(i) => i != 0
    case PyFloat(f) => f != 0.0
    case PyStr(s) => s != ""
    case PyEnum(_, m) => m != ""
    case PyList(xs) => |xs| > 0
    case PyTuple(xs) => |xs| > 0
    case PyDict(m) => |m| > 0
  }

  /** Whether `hash(v)` succeeds: lists and dicts, and tuples holding them, are unhashable. */
  predicate Hashable(v: PyValue)
    decreases v
  {
    match v
    case PyList(_) => false
    case PyDict(_) => false
    case PyTuple(xs) => forall i | 0 <= i < |xs| :: Hashable(xs[i])
    case _ => true
  }

  /** Exceptions the modelled server code can raise. */
  datatype PyError = TypeError | ValueError | KeyError(key: string) | ImportError(message: string) | ValidationError
}
