/** JSON values as the browser client holds them after `response.json()`, with
    `undefined` for a property that is absent. */
module Json {
  import opened Dict
  import opened JsString

  datatype Json =
    | Undefined
    | Null
    | Bool(b: bool)
    | Number(r: real)
    | String(s: string)
    | Array(items: seq<Json>)
    | Object(fields: Dict<string, Json>)

  /** `v.key` on an object or a primitive: the field, or undefined when there is none.
      (On null or undefined JavaScript throws instead; callers check that first.) */
  function Field(v: Json, key: string): (f: Json)
    ensures !v.Object? ==> f == Undefined
    ensures v.Object? && key !in v.fields.vals ==> f == Undefined
  {
    if v.Object? && key in v.fields.vals then v.fields.vals[key] else Undefined
  }

  /** JavaScript truthiness. */
  predicate IsTruthy(v: Json) {
    match v
    case Undefined => false
    case Null => false
    case Bool(b) => b
    case Number(r) => r != 0.0
    case String(s) => s != ""
    case Array(_) => true
    case Object(_) => true
  }

  /** `v === null || v === undefined`: reading a property of such a value throws. */
  predicate IsNullish(v: Json) {
    v.Null? || v.Undefined?
  }

  /** `v.length` as a loop bound `i < v.length`: an array's or a string's length, and no
      rows for any other value (numbers and booleans have no `length`). */
  function RowCount(v: Json): (n: nat)
    ensures !v.Array? && !v.String? ==> n == 0
  {
    match v
    case Array(items) => |items|
    case String(s) => |s|
    case _ => 0
  }

  /** `v[i]` on a value that is not nullish: an array's item, a one-character string,
      an object's field named by the index, and undefined past the end or on a number or
      boolean. On a nullish `v` JavaScript throws; the result is then undefined, which no
      caller can use either. */
  function ElementAt(v: Json, i: nat): (e: Json)
    ensures v.Array? && i < |v.items| ==> e == v.items[i]
  {
    match v
    case Array(items) => if i < |items| then items[i] else Undefined
    case String(s) => if i < |s| then String([s[i]]) else Undefined
    case Object(_) => Field(v, NatToString(i))
    case _ => Undefined
  }

  /** `Object.entries(v)` for a value that is neither null nor undefined: an object's
      fields in key order, an array's or a string's elements under their indices, and
      nothing for numbers and booleans. */
  function ObjectEntries(v: Json): (es: seq<(string, Json)>)
    ensures v.Object? ==>
              |es| == |v.fields.keys| && forall i | 0 <= i < |es| :: es[i].0 == v.fields.keys[i]
    ensures v.Array? ==> |es| == |v.items|
    ensures v.String? ==> |es| == |v.s|
    ensures (v.Number? || v.Bool? || v.Null? || v.Undefined?) ==> es == []
  {
    match v
    case Object(fields) =>
      seq(|fields.keys|, i requires 0 <= i < |fields.keys| =>
        (fields.keys[i], Field(v, fields.keys[i])))
    case Array(items) => seq(|items|, i requires 0 <= i < |items| => (NatToString(i), items[i]))
    case String(s) => seq(|s|, i requires 0 <= i < |s| => (NatToString(i), String([s[i]])))
    case _ => []
  }

}
