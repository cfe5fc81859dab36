/** The JSON values the filesystem server reads and writes with `json.load` and
    `json.dump`, and the few Python operations it applies to them: truthiness
    (`if x:`), `dict.get` and formatting into an f-string. */
module JsonValues {
  import opened PyStrings

  datatype Option<+T> = None | Some(value: T)

  /** A JSON document as Python holds it. Numbers are integers here. */
  datatype Json =
    | JNull
    | JBool(b: bool)
    | JNum(n: int)
    | JStr(s: string)
    | JArr(items: seq<Json>)
    | JObj(fields: map<string, Json>)

  /** A JSON object: the Python dict the server stamps and saves. */
  type Record = map<string, Json>

  /** Python truthiness: None, False, 0, "" and empty containers are false. */
  predicate Truthy(j: Json)
    ensures j == JNull || j == JBool(false) || j == JNum(0) || j == JStr("") ==> !Truthy(j)
    ensures j.JStr? ==> (Truthy(j) <==> |j.s| > 0)
  {
    match j
    case JNull => false
    case JBool(b) => b
    case JNum(n) => n != 0
    case JStr(s) => s != ""
    case JArr(items) => items != []
    case JObj(fields) => fields != map[]
  }

  /** Truthiness of an optional string argument (`if start_date and end_date`). */
  predicate Given(arg: Option<string>)
    ensures arg.None? ==> !Given(arg)
    ensures arg.Some? ==> (Given(arg) <==> Truthy(JStr(arg.value)))
  {
    arg.Some? && arg.value != ""
  }

  /** `record.get(key)`, with the missing key read as None. */
  function GetOrNull(r: Record, key: string): (j: Json)
    ensures key in r ==> j == r[key]
    ensures key !in r ==> !Truthy(j)
  {
    if key in r then r[key] else JNull
  }

  /** Values whose `str()` does not depend on dict ordering. */
  predicate IsScalar(j: Json) {
    !j.JArr? && !j.JObj?
  }

  /** `f"{j}"` for a scalar value, as Python prints it. */
  function Display(j: Json): (r: string)
    requires IsScalar(j)
    ensures j.JStr? ==> r == j.s
  {
    match j
    case JNull => "None"
    case JBool(b) => if b then "True" else "False"
    case JNum(n) => IntToDecimal(n)
    case JStr(s) => s
  }
}
