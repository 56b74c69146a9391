/** How the browser client turns a failed HTTP exchange into the message it shows:
    the body's `error`, else a per-status text, else a fallback; and then the first
    friendly text whose key occurs in that message. */
module Responses {
  import opened Common
  import opened JsString
  import opened Json

  /** One settled `fetch`: an HTTP answer with its parsed JSON body, or a rejection (a
      network failure, or a body that is not JSON) carrying the thrown error's message. */
  datatype Reply = Answered(status: int, body: Json) | Rejected(message: string)

  /** `response.ok`. */
  predicate Ok(status: int) { 200 <= status <= 299 }

  /** The TypeError thrown when `.error` is read from a JSON `null` body. */
  const NullBodyError: string := "Cannot read properties of null (reading 'error')"

  /** The TypeError thrown by `Object.values`/`Object.entries` on null or undefined. */
  const NullConversionError: string := "Cannot convert undefined or null to object"

  /** `String(v)`, the message of `new Error(v)`: a string is kept as it is; the
      conversion of any other value is taken as given. */
  function MessageText(v: Json, show: Json -> string): (m: string)
    ensures v.String? ==> m == v.s
  {
    if v.String? then v.s else show(v)
  }

  /** The message of the error thrown for a non-OK answer:
      `err.error || table[status] || fallback`. */
  function ErrorMessage(body: Json, status: int, table: map<int, string>, fallback: string,
                        show: Json -> string): (m: string)
    ensures body.Null? ==> m == NullBodyError
    ensures !body.Null? && IsTruthy(Field(body, "error")) ==>
              m == MessageText(Field(body, "error"), show)
    ensures !body.Null? && !IsTruthy(Field(body, "error")) ==>
              m == if status in table && table[status] != "" then table[status] else fallback
  {
    if body.Null? then NullBodyError
    else
      var e := Field(body, "error");
      if IsTruthy(e) then MessageText(e, show)
      else if status in table && table[status] != "" then table[status]
      else fallback
  }

  /** Unless the body's `error` is a truthy non-string, the message is never empty. */
  lemma ErrorMessageNonEmpty(body: Json, status: int, table: map<int, string>, fallback: string,
                             show: Json -> string)
    requires fallback != ""
    requires !IsTruthy(Field(body, "error")) || Field(body, "error").String?
    ensures ErrorMessage(body, status, table, fallback, show) != ""
  {
  }

  /** A friendly-message table: keys searched in order, each with its text. */
  type FriendlyTable = seq<(string, string)>

  /** Position of the first key of `table` that `message` contains, or `|table|`. */
  function FirstContained(message: string, table: FriendlyTable): (i: nat)
    ensures i <= |table|
    ensures i < |table| ==> Contains(message, table[i].0)
    ensures forall j | 0 <= j < i :: !Contains(message, table[j].0)
  {
    if table == [] then 0
    else if Contains(message, table[0].0) then 0
    else 1 + FirstContained(message, table[1..])
  }

  /** The loop over `Object.entries(errorMap)` returning the text of the first key the
      message includes, else `message || fallback`. */
  function Friendly(message: string, table: FriendlyTable, fallback: string): (r: string)
    ensures (exists j | 0 <= j < |table| :: Contains(message, table[j].0)) ==>
              r == table[FirstContained(message, table)].1
    ensures (forall j | 0 <= j < |table| :: !Contains(message, table[j].0)) ==>
              r == (if message != "" then message else fallback)
  {
    var i := FirstContained(message, table);
    if i < |table| then table[i].1
    else if message != "" then message
    else fallback
  }

  /** A later key that contains an earlier key never wins: whenever the message contains
      `table[later].0` it already contains `table[earlier].0`, found at offset `k`. */
  lemma ShadowedKey(message: string, table: FriendlyTable, earlier: nat, later: nat, k: nat)
    requires earlier < later < |table|
    requires k + |table[earlier].0| <= |table[later].0|
    requires table[later].0[k..k + |table[earlier].0|] == table[earlier].0
    ensures FirstContained(message, table) != later
  {
    if FirstContained(message, table) == later {
      ContainsTransitive(message, table[later].0, table[earlier].0, k);
    }
  }

  /** The text of a shadowed key is never returned when it differs from every other text
      and from the fallback, and itself contains the earlier key (at offset `k2`): a raw
      message equal to it would contain that key too. */
  lemma ShadowedText(message: string, table: FriendlyTable, fallback: string,
                     earlier: nat, later: nat, k: nat, k2: nat)
    requires earlier < later < |table|
    requires k + |table[earlier].0| <= |table[later].0|
    requires table[later].0[k..k + |table[earlier].0|] == table[earlier].0
    requires k2 + |table[earlier].0| <= |table[later].1|
    requires table[later].1[k2..k2 + |table[earlier].0|] == table[earlier].0
    requires forall j | 0 <= j < |table| && j != later :: table[j].1 != table[later].1
    requires fallback != table[later].1
    ensures Friendly(message, table, fallback) != table[later].1
  {
    ShadowedKey(message, table, earlier, later, k);
    if message == table[later].1 {
      ContainsAt(message, table[earlier].0, k2);
    }
  }
}
