/**
  The request body as the handlers see it. Each handler destructures a fixed
  list of declared keys from `request.body`; every other key is ignored, and a
  key that is missing reads as `undefined`.
*/
module Payload {

  /** The value a handler reads for one declared key of the JSON body. */
  datatype Value =
    | Absent          // key missing, or explicitly `undefined`
    | Str(s: string)  // a JSON string
    | NonStr          // any other JSON value: number, boolean, object, array, null

  /** The JSON body, keyed by field name; a key outside the map reads as `Absent`. */
  type Payload = map<string, Value>

  function Get(p: Payload, f: string): (v: Value)
    ensures f !in p ==> v.Absent?
    ensures f in p ==> v == p[f]
  {
    if f in p then p[f] else Absent
  }

  /** The string a field holds, or `""` when it holds none. */
  function StringOf(v: Value): (r: string)
    ensures v.Str? ==> v == Str(r)
    ensures !v.Str? ==> r == ""
  {
    if v.Str? then v.s else ""
  }

  /**
    JavaScript truthiness of a field value, for the values that can reach a
    merge: a string is truthy exactly when it is non-empty. Non-string values
    never get that far, because validation rejects them first.
  */
  predicate Truthy(v: Value) {
    v.Str? && v.s != ""
  }

  /** The string the body supplies for `f`, or `current` when it supplies none. */
  function Supplied(p: Payload, f: string, current: string): (r: string)
    ensures Get(p, f).Str? ==> Get(p, f) == Str(r)
    ensures !Get(p, f).Str? ==> r == current
  {
    if Get(p, f).Str? then Get(p, f).s else current
  }

  /**
    The `if (f) { record.f = f }` step of a partial update: the supplied
    string when it is truthy, the current value otherwise.
  */
  function Pick(p: Payload, f: string, current: string): (r: string)
    ensures Truthy(Get(p, f)) ==> Get(p, f) == Str(r) && r != ""
    ensures !Truthy(Get(p, f)) ==> r == current
  {
    if Truthy(Get(p, f)) then Get(p, f).s else current
  }
}
