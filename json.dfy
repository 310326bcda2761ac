/**
 * An abstract JSON value, standing for the org.json objects the client reads and writes.
 * `JSONObject.has/getInt/getString/getJSONArray/getJSONObject` are the typed reads below:
 * each fails (None, which stands for a thrown JSONException) when the key is missing or
 * the value has another type.
 */
module Json {
  import opened Wrappers

  datatype Json =
    | JNull
    | JBool(b: bool)
    | JInt(i: int)
    | JString(s: string)
    | JArray(items: seq<Json>)
    | JObject(fields: map<string, Json>)

  /** A JSONObject: its keys and values */
  type JsonObject = map<string, Json>

  /** `json.getInt(key)` */
  function GetInt(o: JsonObject, key: string): Option<int> {
    if key in o && o[key].JInt? then Some(o[key].i) else None
  }

  /** `json.getString(key)` */
  function GetString(o: JsonObject, key: string): Option<string> {
    if key in o && o[key].JString? then Some(o[key].s) else None
  }

  /** `json.getJSONArray(key)` */
  function GetArray(o: JsonObject, key: string): Option<seq<Json>> {
    if key in o && o[key].JArray? then Some(o[key].items) else None
  }

  /** `json.getJSONObject(key)` */
  function GetObject(o: JsonObject, key: string): Option<JsonObject> {
    if key in o && o[key].JObject? then Some(o[key].fields) else None
  }

  /** `v = dflt; if (json.has(key)) v = json.getInt(key);` */
  function IntOr(o: JsonObject, key: string, dflt: int): Option<int> {
    if key in o then GetInt(o, key) else Some(dflt)
  }

  /** `v = dflt; if (json.has(key)) v = json.getString(key);` */
  function StringOr(o: JsonObject, key: string, dflt: string): Option<string> {
    if key in o then GetString(o, key) else Some(dflt)
  }

  /** `getJSONObject(i)` on an array element */
  function AsObject(j: Json): Option<JsonObject> {
    if j.JObject? then Some(j.fields) else None
  }

  /** `getInt(i)` on an array element */
  function AsInt(j: Json): Option<int> {
    if j.JInt? then Some(j.i) else None
  }

  /** `json.has(key)` is false, or the value under key is an integer */
  predicate IntOrAbsent(o: JsonObject, key: string) {
    key !in o || o[key].JInt?
  }

  /** `json.has(key)` is false, or the value under key is a string */
  predicate StringOrAbsent(o: JsonObject, key: string) {
    key !in o || o[key].JString?
  }

  /** `json.put(key, value)`: a null value (None) removes the key */
  function Put(o: JsonObject, key: string, value: Option<Json>): (r: JsonObject)
    ensures key in r <==> value.Some?
    ensures value.Some? ==> r[key] == value.value
    ensures forall k :: k != key ==> (k in r <==> k in o) && (k in r ==> r[k] == o[k])
  {
    match value
    case None => o - {key}
    case Some(v) => o[key := v]
  }
}
