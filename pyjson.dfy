/**
  The values `json.loads` produces, and the few Python operations the core
  applies to them: truthiness, `dict.get` and comparison with `0`.
  Parsing itself is not modelled: every response body arrives already parsed.
 */
module PyJson {

  /** A parsed JSON document. Numbers are reals, so `0` and `0.0` are one value. */
  datatype Json =
    | JNull
    | JBool(b: bool)
    | JNum(n: real)
    | JStr(s: string)
    | JArr(items: seq<Json>)
    | JObj(fields: map<string, Json>)

  /** Python's `bool(v)` for a parsed JSON value. */
  predicate Truthy(v: Json) {
    match v
    case JNull => false
    case JBool(b) => b
    case JNum(n) => n != 0.0
    case JStr(s) => s != ""
    case JArr(items) => |items| > 0
    case JObj(fields) => |fields| > 0
  }

  /** `fields.get(key, default)`. */
  function Get(fields: map<string, Json>, key: string, default: Json): Json {
    if key in fields then fields[key] else default
  }

  /** Python's `v == 0`; note that `False == 0` holds in Python. */
  predicate EqualsZero(v: Json) {
    v == JNum(0.0) || v == JBool(false)
  }

  /**
    `result.get('base_resp', {}).get('status_code') == 0` evaluates to True.
    Every other outcome, including the AttributeError raised when `result` or
    `base_resp` is not an object, is a failure for the callers.
   */
  predicate StatusCodeIsZero(result: Json) {
    && result.JObj?
    && var base := Get(result.fields, "base_resp", JObj(map[]));
    && base.JObj?
    && "status_code" in base.fields
    && EqualsZero(base.fields["status_code"])
  }
}
