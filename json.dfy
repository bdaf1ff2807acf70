/** The JSON values that travel between the app and the mobile API: request
    bodies (`toDictionary()`, `$request->input`) and response payloads. */
module JsonValues {
  import opened Wrappers

  datatype Json =
    | JNull
    | JBool(b: bool)
    | JNum(n: int)
    | JStr(s: string)
    | JArr(items: seq<Json>)
    | JObj(fields: map<string, Json>)

  /** `$request->input(key)` / `dict[key]`: the field when the body is an object
      that has it. */
  function Field(body: Json, key: string): (r: Option<Json>)
    ensures r.Some? <==> body.JObj? && key in body.fields
    ensures r.Some? ==> r.value == body.fields[key]
  {
    if body.JObj? && key in body.fields then Some(body.fields[key]) else None
  }

  /** `$request->has(key)`: the key is present, whatever its value. */
  predicate Has(body: Json, key: string) {
    body.JObj? && key in body.fields
  }
}
