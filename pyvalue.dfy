/** Python values as the backend sees them after `json.loads`, the exceptions the backend
    raises or lets through, and IEEE floats with their infinities and NaN. */
module PyValue {
  import opened Common
  import opened Dict

  datatype Py =
    | PyNone
    | PyBool(b: bool)
    | PyInt(i: int)
    | PyFloat(r: real)
    | PyStr(s: string)
    | PyList(items: seq<Py>)
    | PyDict(fields: Dict<string, Py>)

  /** The exception classes that decide a response; `StatisticsError` is a subclass of
      `ValueError`. */
  datatype ErrorKind = ValueError | TypeError | AttributeError | StatisticsError | IndexError

  datatype PyError = PyError(kind: ErrorKind, message: string)

  /** Whether `except ValueError` catches the error. */
  predicate IsValueError(e: PyError) {
    e.kind == ValueError || e.kind == StatisticsError
  }

  /** `type(v).__name__`. */
  function TypeName(v: Py): string {
    match v
    case PyNone => "NoneType"
    case PyBool(_) => "bool"
    case PyInt(_) => "int"
    case PyFloat(_) => "float"
    case PyStr(_) => "str"
    case PyList(_) => "list"
    case PyDict(_) => "dict"
  }

  /** Python truthiness. */
  predicate Truthy(v: Py) {
    match v
    case PyNone => false
    case PyBool(b) => b
    case PyInt(i) => i != 0
    case PyFloat(r) => r != 0.0
    case PyStr(s) => s != ""
    case PyList(items) => items != []
    case PyDict(fields) => fields.keys != []
  }

  /** `d.get(key, default)`: only a dict has `get`. */
  function Get(d: Py, key: string, default: Py): (r: Result<Py, PyError>)
    ensures d.PyDict? <==> r.Success?
    ensures d.PyDict? && key !in d.fields.vals ==> r == Success(default)
    ensures !d.PyDict? ==> r.error.kind == AttributeError
  {
    if !d.PyDict? then Failure(PyError(AttributeError, "'" + TypeName(d) + "' object has no attribute 'get'"))
    else if key in d.fields.vals then Success(d.fields.vals[key])
    else Success(default)
  }

  /** The string parsers behind `float(s)` and `int(s)`, which are library code. */
  datatype Parsers = Parsers(toFloat: string -> Option<real>, toInt: string -> Option<int>)

  const FloatArgumentError: string := "float() argument must be a string or a real number, not '"
  const IntArgumentError: string := "int() argument must be a string, a bytes-like object or a real number, not '"

  /** `float(v)`: a number or a boolean converts; a string converts when it parses; other
      values raise a TypeError. */
  function ToFloat(v: Py, parse: Parsers): (r: Result<real, PyError>)
    ensures v.PyInt? ==> r == Success(v.i as real)
    ensures v.PyFloat? ==> r == Success(v.r)
    ensures v.PyBool? ==> r == Success(if v.b then 1.0 else 0.0)
    ensures v.PyStr? && parse.toFloat(v.s).Some? ==> r == Success(parse.toFloat(v.s).value)
    ensures r.Failure? <==> (v.PyStr? && parse.toFloat(v.s).None?) || v.PyNone? || v.PyList? || v.PyDict?
  {
    match v
    case PyBool(b) => Success(if b then 1.0 else 0.0)
    case PyInt(i) => Success(i as real)
    case PyFloat(x) => Success(x)
    case PyStr(s) =>
      if parse.toFloat(s).Some? then Success(parse.toFloat(s).value)
      else Failure(PyError(ValueError, "could not convert string to float: '" + s + "'"))
    case _ =>
      Failure(PyError(TypeError, FloatArgumentError + TypeName(v) + "'"))
  }

  /** `int(x)` of a float: truncation toward zero. */
  function Truncate(x: real): (n: int)
    ensures x >= 0.0 ==> n as real <= x < n as real + 1.0
    ensures x < 0.0 ==> n as real - 1.0 < x <= n as real
  {
    if x >= 0.0 then x.Floor else -((-x).Floor)
  }

  /** `int(v)`: a float is truncated; a string converts when it parses as an integer. */
  function ToInt(v: Py, parse: Parsers): (r: Result<int, PyError>)
    ensures v.PyInt? ==> r == Success(v.i)
    ensures v.PyFloat? ==> r == Success(Truncate(v.r))
    ensures v.PyBool? ==> r == Success(if v.b then 1 else 0)
    ensures r.Failure? <==> (v.PyStr? && parse.toInt(v.s).None?) || v.PyNone? || v.PyList? || v.PyDict?
  {
    match v
    case PyBool(b) => Success(if b then 1 else 0)
    case PyInt(i) => Success(i)
    case PyFloat(x) => Success(Truncate(x))
    case PyStr(s) =>
      if parse.toInt(s).Some? then Success(parse.toInt(s).value)
      else Failure(PyError(ValueError, "invalid literal for int() with base 10: '" + s + "'"))
    case _ =>
      Failure(PyError(TypeError, IntArgumentError + TypeName(v) + "'"))
  }

  /** `for x in v`: a list yields its items, a string its characters and a dict its keys;
      anything else raises a TypeError. */
  function Iterate(v: Py): (r: Result<seq<Py>, PyError>)
    ensures v.PyList? ==> r == Success(v.items)
    ensures v.PyStr? ==> r.Success? && |r.value| == |v.s|
    ensures v.PyDict? ==> r.Success? && |r.value| == |v.fields.keys|
    ensures (v.PyNone? || v.PyBool? || v.PyInt? || v.PyFloat?) ==> r.Failure? && r.error.kind == TypeError
  {
    match v
    case PyList(items) => Success(items)
    case PyStr(s) => Success(seq(|s|, i requires 0 <= i < |s| => PyStr([s[i]])))
    case PyDict(fields) => Success(seq(|fields.keys|, i requires 0 <= i < |fields.keys| => PyStr(fields.keys[i])))
    case _ => Failure(PyError(TypeError, "'" + TypeName(v) + "' object is not iterable"))
  }

  // ----- floats -----

  /** A Python float: a finite value, an infinity or NaN. */
  datatype Float = Fin(r: real) | PosInf | NegInf | NaN

  /** `a < b` on floats: NaN compares false with everything. */
  predicate Less(a: Float, b: Float) {
    match (a, b)
    case (NaN, _) => false
    case (_, NaN) => false
    case (Fin(x), Fin(y)) => x < y
    case (NegInf, _) => !b.NegInf?
    case (_, PosInf) => !a.PosInf?
    case _ => false
  }

  /** `a <= c` for a finite bound `c`. */
  predicate AtMost(a: Float, c: real) {
    match a
    case Fin(x) => x <= c
    case NegInf => true
    case _ => false
  }

  /** `c - 2 * x` on floats. */
  function MinusTwice(c: real, x: Float): (y: Float)
    ensures x.Fin? <==> y.Fin?
    ensures x.NegInf? <==> y.PosInf?
    ensures x.PosInf? <==> y.NegInf?
  {
    match x
    case Fin(v) => Fin(c - 2.0 * v)
    case NegInf => PosInf
    case PosInf => NegInf
    case NaN => NaN
  }

  /** On values that are not NaN, `<` is a strict total order. */
  lemma LessTotal(a: Float, b: Float)
    requires !a.NaN? && !b.NaN?
    ensures a == b || Less(a, b) || Less(b, a)
    ensures !(Less(a, b) && Less(b, a))
  {
  }

  lemma LessTransitive(a: Float, b: Float, c: Float)
    requires Less(a, b) && Less(b, c)
    ensures Less(a, c)
  {
  }
}
