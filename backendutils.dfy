/** The request helpers of the backend (view/utils.py): cleaning the survival request and
    rounding numbers inside nested lists. The OpenAI clients and the figure encoder are not
    part of this model. */
module BackendUtils {
  import opened Common
  import opened Dict
  import opened PyValue

  /** The entries the comprehensions skip: `None` and the empty string. */
  predicate Dropped(x: Py) {
    x.PyNone? || x == PyStr("")
  }

  /** `[x for x in xs if x is not None and x != ""]`. */
  function Cleaned(xs: seq<Py>): (ys: seq<Py>)
    ensures |ys| <= |xs|
    ensures forall k | 0 <= k < |ys| :: !Dropped(ys[k])
  {
    if xs == [] then []
    else Cleaned(xs[..|xs| - 1]) + (if Dropped(xs[|xs| - 1]) then [] else [xs[|xs| - 1]])
  }

  /** Cleaning distributes over concatenation, so it keeps the order of what it keeps. */
  lemma {:induction false} CleanedAppend(a: seq<Py>, b: seq<Py>)
    ensures Cleaned(a + b) == Cleaned(a) + Cleaned(b)
    decreases |b|
  {
    if b == [] {
      assert a + b == a;
    } else {
      assert (a + b)[..|a + b| - 1] == a + b[..|b| - 1];
      assert (a + b)[|a + b| - 1] == b[|b| - 1];
      CleanedAppend(a, b[..|b| - 1]);
    }
  }

  /** A list without `None` or "" passes unchanged, so cleaning twice is cleaning once. */
  lemma {:induction false} CleanedKeepsClean(xs: seq<Py>)
    requires forall k | 0 <= k < |xs| :: !Dropped(xs[k])
    ensures Cleaned(xs) == xs
  {
    if xs != [] {
      CleanedKeepsClean(xs[..|xs| - 1]);
    }
  }

  lemma CleanedIdempotent(xs: seq<Py>)
    ensures Cleaned(Cleaned(xs)) == Cleaned(xs)
  {
    CleanedKeepsClean(Cleaned(xs));
  }

  /** Every kept entry is an entry of the input. */
  lemma {:induction false} CleanedFromInput(xs: seq<Py>, k: nat)
    requires k < |Cleaned(xs)|
    ensures Cleaned(xs)[k] in xs
  {
    if k < |Cleaned(xs[..|xs| - 1])| {
      CleanedFromInput(xs[..|xs| - 1], k);
    }
  }

  /** `[float(x) for x in xs]`: the converted list, or the first conversion error. */
  function FloatAll(xs: seq<Py>, parse: Parsers): (r: Result<seq<real>, PyError>)
    ensures r.Success? <==> forall k | 0 <= k < |xs| :: ToFloat(xs[k], parse).Success?
    ensures r.Success? ==> |r.value| == |xs|
    ensures r.Success? ==> forall k | 0 <= k < |xs| :: r.value[k] == ToFloat(xs[k], parse).value
  {
    if xs == [] then Success([])
    else
      var head := ToFloat(xs[0], parse);
      if head.Failure? then Failure(head.error)
      else
        var tail := FloatAll(xs[1..], parse);
        if tail.Failure? then tail
        else
          assert forall k | 1 <= k < |xs| :: xs[k] == xs[1..][k - 1];
          Success([head.value] + tail.value)
  }

  /** `[int(x) for x in xs]`: the converted list, or the first conversion error. */
  function IntAll(xs: seq<Py>, parse: Parsers): (r: Result<seq<int>, PyError>)
    ensures r.Success? <==> forall k | 0 <= k < |xs| :: ToInt(xs[k], parse).Success?
    ensures r.Success? ==> |r.value| == |xs|
    ensures r.Success? ==> forall k | 0 <= k < |xs| :: r.value[k] == ToInt(xs[k], parse).value
  {
    if xs == [] then Success([])
    else
      var head := ToInt(xs[0], parse);
      if head.Failure? then Failure(head.error)
      else
        var tail := IntAll(xs[1..], parse);
        if tail.Failure? then tail
        else
          assert forall k | 1 <= k < |xs| :: xs[k] == xs[1..][k - 1];
          Success([head.value] + tail.value)
  }

  const NotListsError: string := "'time_to_event' and 'event_status' must be lists."

  /** `parse_data(data)`: the two fields (an absent one is the empty list), which must be
      lists, cleaned of `None` and "" and converted to floats and ints. A body that is not a
      dict fails on `get`; fields present but not lists raise the ValueError; otherwise each
      result is the converted cleaned list, no longer than the field. */
  function ParseData(data: Py, parse: Parsers): (r: Result<(seq<real>, seq<int>), PyError>)
    ensures !data.PyDict? ==> r.Failure? && r.error.kind == AttributeError
    ensures data.PyDict? ==>
              var times := if "time_to_event" in data.fields.vals then data.fields.vals["time_to_event"] else PyList([]);
              var status := if "event_status" in data.fields.vals then data.fields.vals["event_status"] else PyList([]);
              (!times.PyList? || !status.PyList? ==> r == Failure(PyError(ValueError, NotListsError))) &&
              (times.PyList? && status.PyList? && r.Success? ==>
                 FloatAll(Cleaned(times.items), parse) == Success(r.value.0) &&
                 IntAll(Cleaned(status.items), parse) == Success(r.value.1) &&
                 |r.value.0| <= |times.items| && |r.value.1| <= |status.items|)
  {
    var times := Get(data, "time_to_event", PyList([]));
    if times.Failure? then Failure(times.error)
    else
      // the second `get` is on the same dict, so it does not fail
      var status := Get(data, "event_status", PyList([]));
      if !times.value.PyList? || !status.value.PyList? then Failure(PyError(ValueError, NotListsError))
      else
        var t := FloatAll(Cleaned(times.value.items), parse);
        if t.Failure? then Failure(t.error)
        else
          var s := IntAll(Cleaned(status.value.items), parse);
          if s.Failure? then Failure(s.error)
          else Success((t.value, s.value))
  }

  /** A body with neither field parses to two empty lists. */
  lemma MissingFieldsAreEmpty(parse: Parsers)
    ensures ParseData(PyDict(Empty()), parse) == Success(([], []))
  {
    assert Cleaned([]) == [];
  }

  // ----- format_number -----

  /** `format_number(value)`: numbers are rounded to two places (a bool is an int in
      Python, so it comes back as 0 or 1), lists are mapped element by element, other
      values are returned unchanged. The rounding itself is `round2`. */
  function FormatNumber(v: Py, round2: real -> real): (w: Py)
    ensures v.PyList? <==> w.PyList?
    ensures v.PyList? ==> |w.items| == |v.items|
    ensures v.PyFloat? ==> w == PyFloat(round2(v.r))
    ensures v.PyInt? ==> w == v
    ensures v.PyBool? ==> w == PyInt(if v.b then 1 else 0)
    ensures (v.PyNone? || v.PyStr? || v.PyDict?) ==> w == v
    decreases v
  {
    match v
    case PyBool(b) => PyInt(if b then 1 else 0)
    case PyInt(_) => v
    case PyFloat(x) => PyFloat(round2(x))
    case PyList(items) => PyList(seq(|items|, k requires 0 <= k < |items| => FormatNumber(items[k], round2)))
    case _ => v
  }

  /** With an idempotent rounding, formatting twice is formatting once, at every depth. */
  lemma {:induction false} FormatNumberIdempotent(v: Py, round2: real -> real)
    requires forall x :: round2(round2(x)) == round2(x)
    ensures FormatNumber(FormatNumber(v, round2), round2) == FormatNumber(v, round2)
    decreases v
  {
    if v.PyList? {
      var w := FormatNumber(v, round2);
      forall k | 0 <= k < |v.items|
        ensures FormatNumber(w.items[k], round2) == w.items[k]
      {
        FormatNumberIdempotent(v.items[k], round2);
      }
      assert FormatNumber(w, round2).items == w.items;
    }
  }
}
