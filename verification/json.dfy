/** The values `JSON.parse` produces and the fragments of JavaScript semantics
    the upload classifier and the cards apply to them: property reads,
    truthiness, `typeof`, `String(v)`, strict equality, `Object.entries`, and
    the truncating remainder operator. */
module Js {
  import opened Options
  import opened Text

  /** A parsed JSON value. Numbers are integers. An object lists its own
      properties in the order `Object.entries` reports them: integer-like
      keys first, ascending, then the other keys in the order the text gives
      them. The list is taken to be in that order already. `JSON.parse` never
      yields the same key twice. */
  datatype Json =
    | JNull
    | JBool(b: bool)
    | JNum(n: int)
    | JStr(s: string)
    | JArr(items: seq<Json>)
    | JObj(fields: seq<(string, Json)>)

  /** The exception the model represents: reading a property of `null`.
      JavaScript also throws when it converts to a string an object whose own
      `toString` property is not a function; that exception is not part of
      this model. */
  datatype TypeError = NullPropertyRead(property: string)

  /** How an expression finishes: with a value or by throwing. */
  datatype Completion<+T> = Normal(value: T) | Throw(error: TypeError)

  /** `err.message` in the V8 wording. */
  function ErrorMessage(e: TypeError): string {
    "Cannot read properties of null (reading '" + e.property + "')"
  }

  /** The value stored under `key` in an object's property list. */
  function Lookup(fields: seq<(string, Json)>, key: string): (r: Option<Json>)
    ensures r.Some? <==> exists i :: 0 <= i < |fields| && fields[i].0 == key
    ensures r.Some? ==> (key, r.value) in fields
  {
    if |fields| == 0 then None
    else if fields[0].0 == key then Some(fields[0].1)
    else Lookup(fields[1..], key)
  }

  /** The value found is the one at the first position holding the key. */
  lemma {:induction false} LookupFirst(fields: seq<(string, Json)>, key: string, i: nat)
    requires i < |fields| && fields[i].0 == key
    requires forall j :: 0 <= j < i ==> fields[j].0 != key
    ensures Lookup(fields, key) == Some(fields[i].1)
  {
    if i > 0 {
      LookupFirst(fields[1..], key, i - 1);
    }
  }

  /** `v.key` for a non-null `v` and a property name that no built-in prototype
      defines: an own property of an object, `undefined` (None) otherwise. */
  function Get(v: Json, key: string): (r: Option<Json>)
    ensures r.Some? ==> v.JObj?
  {
    if v.JObj? then Lookup(v.fields, key) else None
  }

  /** JavaScript truthiness of a value. */
  predicate Truthy(v: Json) {
    match v
    case JNull => false
    case JBool(b) => b
    case JNum(n) => n != 0
    case JStr(s) => |s| > 0
    case JArr(_) => true
    case JObj(_) => true
  }

  /** Truthiness of a property read; `undefined` is falsy. */
  predicate Present(o: Option<Json>) {
    o.Some? && Truthy(o.value)
  }

  /** `typeof v === "object"`, which also holds of `null` and of arrays. */
  predicate TypeofObject(o: Option<Json>) {
    o.Some? && (o.value.JNull? || o.value.JArr? || o.value.JObj?)
  }

  /** `typeof v === "number"`. */
  predicate TypeofNumber(o: Option<Json>) {
    o.Some? && o.value.JNum?
  }

  /** `typeof v === "string"`. */
  predicate TypeofString(o: Option<Json>) {
    o.Some? && o.value.JStr?
  }

  /** `Array.isArray(v)`. */
  predicate IsArray(o: Option<Json>) {
    o.Some? && o.value.JArr?
  }

  /** `String(v)`: arrays join their elements with commas, plain objects all
      read "[object Object]". An object with an own `toString` property,
      where JavaScript throws, is read as a plain object here. */
  function ToJsString(v: Json): string
    decreases v, 2
  {
    match v
    case JNull => "null"
    case JBool(b) => if b then "true" else "false"
    case JNum(n) => ShowInt(n)
    case JStr(s) => s
    case JArr(items) => JoinValues(items, ",")
    case JObj(_) => "[object Object]"
  }

  /** `Array.prototype.join(sep)`: each element converted by `String`, except
      that `null` becomes the empty string. */
  function JoinValues(items: seq<Json>, sep: string): string
    decreases JArr(items), 1
  {
    Join(seq(|items|, i requires 0 <= i < |items| =>
               if items[i].JNull? then "" else ToJsString(items[i])), sep)
  }

  /** `a !== b` negated, for two values taken from two separate `JSON.parse`
      results: primitives compare by value, while arrays and objects are
      distinct references and never strictly equal. */
  predicate StrictEq(a: Json, b: Json) {
    match a
    case JArr(_) => false
    case JObj(_) => false
    case _ => a == b
  }

  /** `Object.entries(v)` for a truthy `v`: an object's own properties, an
      array's or string's index/element pairs, nothing for a number or
      `true`. */
  function ObjectEntries(v: Json): (r: seq<(string, Json)>)
    ensures v.JObj? ==> r == v.fields
    ensures v.JArr? ==> |r| == |v.items|
    ensures v.JNull? || v.JBool? || v.JNum? ==> r == []
  {
    match v
    case JObj(fields) => fields
    case JArr(items) => seq(|items|, i requires 0 <= i < |items| => (ShowNat(i), items[i]))
    case JStr(s) => seq(|s|, i requires 0 <= i < |s| => (ShowNat(i), JStr([s[i]])))
    case _ => []
  }

  /** Entries whose values are all numbers, with the numbers unwrapped; `None`
      when some value is not a number. */
  function NumericEntries(entries: seq<(string, Json)>): (r: Option<seq<(string, int)>>)
    ensures r.Some? <==> forall i :: 0 <= i < |entries| ==> entries[i].1.JNum?
    ensures r.Some? ==> |r.value| == |entries|
    ensures r.Some? ==> forall i :: 0 <= i < |entries| ==>
                          entries[i] == (r.value[i].0, JNum(r.value[i].1))
  {
    if forall i :: 0 <= i < |entries| ==> entries[i].1.JNum? then
      Some(seq(|entries|, i requires 0 <= i < |entries| => (entries[i].0, entries[i].1.n)))
    else None
  }

  /** `v[i]` for a truthy `v`: an array element, a one-character string, or
      an object property named by the decimal index; `undefined` otherwise. */
  function Index(v: Json, i: nat): (r: Option<Json>)
    ensures v.JArr? ==> (r.Some? <==> i < |v.items|)
    ensures v.JNull? || v.JBool? || v.JNum? ==> r.None?
  {
    match v
    case JArr(items) => if i < |items| then Some(items[i]) else None
    case JStr(s) => if i < |s| then Some(JStr([s[i]])) else None
    case JObj(fields) => Lookup(fields, ShowNat(i))
    case _ => None
  }

  /** The `%` operator: the remainder of truncating division, which takes the
      sign of the dividend. */
  function JsRem(a: int, b: int): (r: int)
    requires b > 0
    ensures -b < r < b
    ensures a >= 0 ==> r >= 0
    ensures a < 0 ==> r <= 0
    ensures a >= 0 ==> r == a % b
  {
    if a >= 0 then a % b else -((-a) % b)
  }

}
