/** JavaScript's `<` between a result's `aic`/`bic` and the running minimum, which starts
    at `Infinity`: `null` converts to 0, and `undefined` or an object to NaN (never less
    than anything). */
module Ranking {
  import opened Common
  import opened Json

  /** A JSON number field as the client sees it. */
  datatype JsNum = Undefined | Null | Number(r: real)

  /** `result[key]` (`result.aic`, `result.bic`) as the comparison sees it: numbers and
      null as such, and anything else as NaN, never below the running minimum. */
  function Criterion(result: Json, key: string): (x: JsNum)
    ensures Field(result, key).Number? ==> x == JsNum.Number(Field(result, key).r)
    ensures Field(result, key).Null? ==> x == JsNum.Null
    ensures !(Field(result, key).Number? || Field(result, key).Null?) ==> x == JsNum.Undefined
  {
    match Field(result, key)
    case Number(r) => JsNum.Number(r)
    case Null => JsNum.Null
    case _ => JsNum.Undefined
  }

  /** The criterion of every entry of `Object.entries(results)`. */
  function Criteria(es: seq<(string, Json)>, key: string): (xs: seq<JsNum>)
    ensures |xs| == |es| && forall i | 0 <= i < |es| :: xs[i] == Criterion(es[i].1, key)
  {
    seq(|es|, i requires 0 <= i < |es| => Criterion(es[i].1, key))
  }

  /** Whether `<` can ever hold for the field: everything but undefined. */
  predicate Comparable(x: JsNum) { !x.Undefined? }

  /** The number the field converts to; only meaningful when comparable. */
  function ToNumber(x: JsNum): real {
    if x.Number? then x.r else 0.0
  }

  /** The first-minimum property: entry `i` is comparable, no comparable entry is below
      it, and every comparable entry before it is strictly above it. */
  predicate IsFirstMin(vals: seq<JsNum>, i: nat) {
    i < |vals| && Comparable(vals[i]) &&
    (forall j | 0 <= j < |vals| && Comparable(vals[j]) :: ToNumber(vals[i]) <= ToNumber(vals[j])) &&
    (forall j | 0 <= j < i && Comparable(vals[j]) :: ToNumber(vals[i]) < ToNumber(vals[j]))
  }

  /** After scanning the first `i` entries, `best` and `value` hold the first minimum so
      far and its number, or nothing while no entry was comparable. */
  predicate Scanned(vals: seq<JsNum>, i: nat, best: Option<nat>, value: real) {
    i <= |vals| &&
    (best.None? <==> forall j | 0 <= j < i :: !Comparable(vals[j])) &&
    (best.Some? ==> IsFirstMin(vals[..i], best.value) && value == ToNumber(vals[best.value]))
  }

  /** One step of the scan: `if (x < best) { best = x; bestIndex = i }`; the first
      comparable entry always beats the initial `Infinity`. */
  function Advance(vals: seq<JsNum>, i: nat, best: Option<nat>, value: real): (Option<nat>, real)
    requires i < |vals|
  {
    if Comparable(vals[i]) && (best.None? || ToNumber(vals[i]) < value) then (Some(i), ToNumber(vals[i]))
    else (best, value)
  }

  lemma ScanStep(vals: seq<JsNum>, i: nat, best: Option<nat>, value: real)
    requires i < |vals| && Scanned(vals, i, best, value)
    ensures Scanned(vals, i + 1, Advance(vals, i, best, value).0, Advance(vals, i, best, value).1)
  {
    assert vals[..i + 1][..i] == vals[..i];
  }

  lemma ScanDone(vals: seq<JsNum>, best: Option<nat>, value: real)
    requires Scanned(vals, |vals|, best, value)
    ensures best.None? <==> forall j | 0 <= j < |vals| :: !Comparable(vals[j])
    ensures best.Some? ==> IsFirstMin(vals, best.value)
  {
    assert vals[..|vals|] == vals;
  }

  /** The loop over the entries from `best = Infinity`: the index of the first minimum
      among the comparable entries, if any. */
  method FirstMinimum(vals: seq<JsNum>) returns (best: Option<nat>)
    ensures best.None? <==> forall j | 0 <= j < |vals| :: !Comparable(vals[j])
    ensures best.Some? ==> IsFirstMin(vals, best.value)
  {
    best := None;
    var bestValue: real := 0.0;
    var i := 0;
    while i < |vals|
      invariant Scanned(vals, i, best, bestValue)
    {
      ScanStep(vals, i, best, bestValue);
      best, bestValue := Advance(vals, i, best, bestValue).0, Advance(vals, i, best, bestValue).1;
      i := i + 1;
    }
    ScanDone(vals, best, bestValue);
  }

  /** The first minimum is unique. */
  lemma FirstMinUnique(vals: seq<JsNum>, i: nat, j: nat)
    requires IsFirstMin(vals, i) && IsFirstMin(vals, j)
    ensures i == j
  {
  }

  /** Because `null < x` compares 0 with `x`, a fit that failed on the server (its `aic`
      sent as null) is chosen over fits whose criteria are all positive. */
  lemma NullBeatsPositive(vals: seq<JsNum>, i: nat)
    requires i < |vals| && vals[i] == JsNum.Null
    requires forall j | 0 <= j < |vals| && j != i && Comparable(vals[j]) :: ToNumber(vals[j]) > 0.0
    requires forall j | 0 <= j < i :: vals[j] != JsNum.Null
    ensures IsFirstMin(vals, i)
  {
  }
}
