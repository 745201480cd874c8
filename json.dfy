/// JSON values as the endpoint's Json helper holds them, with the helper's typed accessors.
/// The helper class itself is not part of this model; its accessors are given the
/// behaviour described on each one.
module JsonValues {
  import opened Base
  import opened Strings

  /** A JSON value. Decimals are exact (java.math.BigDecimal); dates travel as epoch milliseconds. */
  datatype Json =
    | JNull
    | JBool(b: bool)
    | JInt(i: int)
    | JDec(d: real)
    | JStr(s: string)
    | JList(items: seq<Json>)
    | JMap(fields: map<string, Json>)

  /** A value Java sees as a Json object (a map or a list), as opposed to a scalar or null. */
  predicate IsJsonObject(v: Json) { v.JMap? || v.JList? }

  /** object(key): the raw value, null when the receiver has no such key. */
  function Get(j: Json, key: string): Json
  {
    if j.JMap? && key in j.fields then j.fields[key] else JNull
  }

  /** contains(key): the key is present with a non-null value. */
  predicate Has(j: Json, key: string)
  {
    Get(j, key) != JNull
  }

  /** string(key): a string value, or null. */
  function Str(j: Json, key: string): Json
  {
    if Get(j, key).JStr? then Get(j, key) else JNull
  }

  /** Integer.parseInt on an optionally signed string of decimal digits. */
  function ParseInt(s: string): Option<int>
  {
    if |s| > 0 && AllDigits(s) then Some(DigitsValue(s))
    else if |s| > 1 && (s[0] == '-' || s[0] == '+') && AllDigits(s[1..]) then
      Some(if s[0] == '-' then 0 - DigitsValue(s[1..]) as int else DigitsValue(s[1..]) as int)
    else None
  }

  /** integer(key): an integer value, or a string that parses as one; otherwise null. */
  function Int(j: Json, key: string): Option<int>
  {
    match Get(j, key)
    case JInt(i) => Some(i)
    case JStr(s) => ParseInt(s)
    case _ => None
  }

  /** json(key): a nested map or list, or null. */
  function Nested(j: Json, key: string): Json
  {
    if IsJsonObject(Get(j, key)) then Get(j, key) else JNull
  }

  /** jsons(key), strings(key), objects(key): the elements of a list value, or null. */
  function Items(j: Json, key: string): Option<seq<Json>>
  {
    if Get(j, key).JList? then Some(Get(j, key).items) else None
  }

  /** bool(key, default). */
  function BoolOr(j: Json, key: string, default: bool): bool
  {
    if Get(j, key).JBool? then Get(j, key).b else default
  }

  /** isEmpty(key): absent, null, an empty string, an empty list or an empty map. */
  predicate IsEmpty(j: Json, key: string)
  {
    var v := Get(j, key);
    v == JNull || v == JStr("") || v == JList([]) || v == JMap(map[])
  }

  /** Json.map().set(key, v) */
  function Single(key: string, v: Json): Json
  {
    JMap(map[key := v])
  }

  /** A nullable Java String as a Json value. */
  function OfString(s: Option<string>): Json
  {
    match s
    case Some(t) => JStr(t)
    case None => JNull
  }

  function AsString(v: Json): Option<string>
  {
    if v.JStr? then Some(v.s) else None
  }

  /** A nullable Java long as a Json value. */
  function OfLong(n: Option<int>): Json
  {
    match n
    case Some(x) => JInt(x)
    case None => JNull
  }
}
