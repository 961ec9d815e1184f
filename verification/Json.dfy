/** JSON values with integer numbers, and the typed accessors readers use on them. */
module Json {
  import opened Text

  datatype Json =
    | JNull
    | JBool(b: bool)
    | JNum(n: int)
    | JStr(s: string)
    | JArr(items: seq<Json>)
    | JObj(fields: map<string, Json>)

  /** `Value::get`: only an object has fields. */
  function Get(v: Json, field: string): Option<Json> {
    if v.JObj? && field in v.fields then Some(v.fields[field]) else None
  }

  /** `get(field).and_then(Value::as_str)`. */
  function GetStr(v: Json, field: string): Option<string> {
    match Get(v, field)
    case Some(JStr(s)) => Some(s)
    case _ => None
  }

  /** `get(field).and_then(Value::as_u64)`. */
  function GetU64(v: Json, field: string): Option<nat> {
    match Get(v, field)
    case Some(JNum(n)) => if 0 <= n < U64_LIMIT then Some(n) else None
    case _ => None
  }

  /** `as_u64` narrowed by `u32::try_from`. */
  function GetU32(v: Json, field: string): Option<nat> {
    match GetU64(v, field)
    case Some(n) => if n < U32_LIMIT then Some(n) else None
    case None => None
  }

  function GetArr(v: Json, field: string): Option<seq<Json>> {
    match Get(v, field)
    case Some(JArr(items)) => Some(items)
    case _ => None
  }

  function GetBool(v: Json, field: string): Option<bool> {
    match Get(v, field)
    case Some(JBool(b)) => Some(b)
    case _ => None
  }

  /** `get(field).filter(|v| !v.is_null())`. */
  function GetNonNull(v: Json, field: string): Option<Json> {
    match Get(v, field)
    case Some(JNull) => None
    case other => other
  }

  // ---- Optional fields -----------------------------------------------------

  function TextValue(o: Option<string>): Option<Json> {
    match o case Some(s) => Some(JStr(s)) case None => None
  }

  function WithOpt(m: map<string, Json>, field: string, o: Option<Json>): map<string, Json> {
    match o case Some(v) => m[field := v] case None => m
  }
}
