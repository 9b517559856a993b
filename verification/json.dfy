/**
 * JSON values as they arrive from the accessory's configuration, and a
 * serialiser standing in for `JSON.stringify`.
 */
module Json {

  /** A member of a JSON object: a key and its value, in source order. */
  datatype Member = Member(key: string, value: Json)

  /** JSON values. Numbers are integers here (see README, "Left out"). */
  datatype Json =
    | JNull
    | JBool(b: bool)
    | JNum(n: int)
    | JStr(s: string)
    | JArr(items: seq<Json>)
    | JObj(members: seq<Member>)

  /** JavaScript's `typeof v === 'object'` for a JSON value: true of null, arrays and objects. */
  predicate IsObjectTyped(v: Json) {
    v.JNull? || v.JArr? || v.JObj?
  }

  /**
   * A compact serialiser standing in for `JSON.stringify` (see README,
   * "Left out", for where the two differ).
   */
  function Stringify(v: Json): (text: string)
    ensures |text| > 0
    ensures v.JStr? ==> text[0] == '"'
    ensures v.JArr? ==> text[0] == '['
    ensures v.JObj? ==> text[0] == '{'
    decreases v
  {
    match v
    case JNull => "null"
    case JBool(b) => if b then "true" else "false"
    case JNum(n) => IntToString(n)
    case JStr(s) => Quote(s)
    case JArr(items) =>
      "[" + Join(seq(|items|, i requires 0 <= i < |items| => Stringify(items[i]))) + "]"
    case JObj(members) =>
      "{" + Join(seq(|members|, i requires 0 <= i < |members| =>
                       Quote(members[i].key) + ":" + Stringify(members[i].value))) + "}"
  }

  /** Comma-separated concatenation. */
  function Join(parts: seq<string>): (s: string) {
    if |parts| == 0 then ""
    else if |parts| == 1 then parts[0]
    else parts[0] + "," + Join(parts[1..])
  }

  /** A JSON string literal: quotes around the text, with `"` and `\` escaped. */
  function Quote(s: string): (q: string) {
    "\"" + Escape(s) + "\""
  }

  function Escape(s: string): (e: string) {
    if s == [] then ""
    else (if s[0] == '"' || s[0] == '\\' then ['\\', s[0]] else [s[0]]) + Escape(s[1..])
  }

  function IntToString(n: int): (s: string) {
    if n < 0 then "-" + NatToString(-n) else NatToString(n)
  }

  function NatToString(n: nat): (s: string)
    decreases n
  {
    if n < 10 then [Digit(n)] else NatToString(n / 10) + [Digit(n % 10)]
  }

  function Digit(d: nat): (c: char)
    requires d < 10
  {
    "0123456789"[d]
  }
}
